/** Diffie-Hellman exchange over the largest 64-bit prime (lua-crypt.c). All arithmetic is on 64 bits and wraps
    around. */
module DiffieHellman {
  import opened Common
  import opened Numbers

  const W: int := 0x1_0000_0000_0000_0000
  const P: int := 0xffff_ffff_ffff_ffc5
  const G: int := 5

  type Word64 = x: int | 0 <= x < W

  function Sub(a: Word64, b: Word64): (r: Word64)
    ensures r == if a >= b then a - b else a - b + W
  {
    (a - b) % W
  }

  function Add(a: Word64, b: Word64): (r: Word64)
    ensures r == if a + b < W then a + b else a + b - W
  {
    (a + b) % W
  }

  function Power(a: int, n: nat): (r: int)
    ensures a >= 0 ==> r >= 0
  {
    if n == 0 then 1 else a * Power(a, n - 1)
  }

  lemma Halves(a: int, b: nat)
    ensures a * b == 2 * (a * (b / 2)) + a * (b % 2)
  {
    Distribute(2 * (b / 2), b % 2, a);
    Product(a, 2, b / 2);
  }

  lemma Scaled(a: int, p: int, f: int, h: int)
    ensures (2 * a - p * f) * h == 2 * (a * h) - p * (f * h)
  {
    Distribute(2 * a, -(p * f), h);
    Product(p, f, h);
  }

  lemma MulValue(m: int, a: int, b: nat, m': int, a': int, e: int, f: int)
    requires m' == m + a * (b % 2) - P * e && a' == 2 * a - P * f
    ensures m' + a' * (b / 2) == m + a * b + P * (-e - f * (b / 2))
  {
    Halves(a, b);
    Scaled(a, P, f, b / 2);
  }

  /** What is still to be multiplied, together with what has been added up. */
  function Sum(m: int, a: int, b: int): int {
    (m + a * b) % P
  }

  lemma SumEnds(m: int, a: int, b: int)
    ensures Sum(0, a, b) == a * b % P
    ensures 0 <= m < P ==> Sum(m, a, 0) == m
  {
  }

  /** One bit of the second factor: `m` takes `a` if the bit is set, `a` is doubled, both reduced (or not) by `P`. */
  lemma MulStep(m: int, a: int, b: nat, m': int, a': int, e: int, f: int)
    requires m' == m + (if b % 2 == 1 then a else 0) - P * e && a' == 2 * a - P * f
    ensures Sum(m', a', b / 2) == Sum(m, a, b)
  {
    assert a * (b % 2) == if b % 2 == 1 then a else 0;
    MulValue(m, a, b, m', a', e, f);
    ModShift(m + a * b, P, -e - f * (b / 2));
  }

  /** `mul_mod_p`: nothing overflows, for all that is added is first compared with what is missing to `P`. */
  method MulModP(a: Word64, b: Word64) returns (m: Word64)
    requires a <= P
    ensures m < P && m == a * b % P
  {
    hide Add, Sub, Sum;
    m := 0;
    var x: Word64, y: Word64 := a, b;
    SumEnds(0, a, b);
    while y != 0
      invariant x <= P && m < P && Sum(m, x, y) == Sum(0, a, b)
      decreases y
    {
      ghost var m0, x0, e, f := m, x, 0, 0;
      if y % 2 == 1 {
        var t := Sub(P, x);
        if m >= t {
          m := Sub(m, t);
          e := 1;
        } else {
          m := Add(m, x);
        }
      }
      if x >= Sub(P, x) {
        x := Sub(Add(x, x), P);
        f := 1;
      } else {
        x := Add(x, x);
      }
      MulStep(m0, x0, y, m, x, e, f);
      y := y / 2;
    }
    SumEnds(m, x, b);
  }

  // Powers

  lemma {:induction false} PowerAdd(a: int, m: nat, n: nat)
    ensures Power(a, m + n) == Power(a, m) * Power(a, n)
  {
    hide Power;
    PowerNext(a, m);
    if m > 0 {
      PowerNext(a, m + n);
      PowerAdd(a, m - 1, n);
      calc {
        Power(a, m + n);
        a * Power(a, m - 1 + n);
        a * (Power(a, m - 1) * Power(a, n));
        { Product(a, Power(a, m - 1), Power(a, n)); }
        a * Power(a, m - 1) * Power(a, n);
      }
    }
  }

  lemma PowerNext(a: int, n: nat)
    ensures Power(a, n) == if n == 0 then 1 else a * Power(a, n - 1)
  {
  }

  lemma {:induction false} PowerOne(n: nat)
    ensures Power(1, n) == 1
  {
    if n > 0 { PowerOne(n - 1); }
  }

  lemma {:induction false} PowerTimes(a: int, m: nat, n: nat)
    ensures Power(Power(a, m), n) == Power(a, m * n)
  {
    if n > 0 {
      PowerTimes(a, m, n - 1);
      PowerAdd(a, m, m * (n - 1));
      assert m + m * (n - 1) == m * n;
    } else {
      assert m * n == 0;
    }
  }

  lemma Cross(a: int, b: int, p: int, q: int)
    ensures (a * b) * (p * q) == (a * p) * (b * q)
  {
    calc {
      (a * b) * (p * q);
      a * (b * (p * q));
      { Product(b, p, q); Product(p, b, q); }
      a * (p * (b * q));
      (a * p) * (b * q);
    }
  }

  lemma {:induction false} PowerOfProduct(a: int, b: int, n: nat)
    ensures Power(a * b, n) == Power(a, n) * Power(b, n)
  {
    if n > 0 {
      var p, q := Power(a, n - 1), Power(b, n - 1);
      PowerOfProduct(a, b, n - 1);
      Cross(a, b, p, q);
    }
  }

  /** The base may be replaced by its remainder. */
  lemma {:induction false} PowerMod(a: int, n: nat, p: nat)
    requires p > 0
    ensures Power(a % p, n) % p == Power(a, n) % p
  {
    if n > 0 {
      var u, v := Power(a % p, n - 1), Power(a, n - 1);
      PowerMod(a, n - 1, p);
      ModFactor(u, a % p, p);
      ModFactor(v, a % p, p);
      ModFactor(a, v, p);
      assert u * (a % p) == (a % p) * u && v * (a % p) == (a % p) * v;
    }
  }

  lemma MulMods(t: int, u: int, x: int, y: int, p: nat)
    requires p > 0 && t % p == x % p && u % p == y % p
    ensures t * u % p == x * y % p
  {
    ModFactor(t, u, p);
    ModFactor(x, u, p);
    ModFactor(u, x, p);
    ModFactor(y, x, p);
    assert u * x == x * u && y * x == x * y;
  }

  /** Does the recursion of `pow_mod_p` end within so many calls? */
  predicate RecursionEnds(b: nat, calls: nat) {
    calls > 0 && (b == 1 || RecursionEnds(b / 2, calls - 1))
  }

  /** It ends exactly for exponents that are not 0. */
  lemma PowEnds(b: nat)
    ensures (exists calls: nat :: RecursionEnds(b, calls)) <==> b > 0
  {
    if b == 0 {
      forall calls: nat ensures !RecursionEnds(b, calls) { ZeroGoesOn(calls); }
    } else {
      var n := EnoughCalls(b);
      assert exists calls: nat :: calls == n && RecursionEnds(b, calls);
    }
  }

  lemma {:induction false} EnoughCalls(b: nat) returns (calls: nat)
    requires b > 0
    ensures RecursionEnds(b, calls)
  {
    if b == 1 {
      calls := 1;
    } else {
      calls := EnoughCalls(b / 2);
      calls := calls + 1;
    }
  }

  lemma {:induction false} ZeroGoesOn(calls: nat)
    ensures !RecursionEnds(0, calls)
  {
    if calls > 0 { ZeroGoesOn(calls - 1); }
  }

  /** `pow_mod_p`, for exponents with which it ends. */
  method PowModP(a: Word64, b: Word64) returns (r: Word64)
    requires a <= P && b > 0
    ensures r == Raised(a, b) <= P
    decreases b
  {
    if b == 1 {
      RaisedOne(a);
      return a;
    }
    var t := PowModP(a, b / 2);
    HalfPower(a, b);
    var h := Power(a, b / 2);
    RaisedMod(a, b / 2);
    MulMods(t, t, h, h, P);
    t := MulModP(t, t);
    if b % 2 != 0 {
      MulMods(t, a, h * h, a, P);
      t := MulModP(t, a);
    }
    return t;
  }

  /** What `pow_mod_p` computes: the power modulo `P`, but for the base `P` itself, which is not reduced if it is not
      multiplied. */
  function Raised(a: Word64, b: Word64): (r: int)
    requires b > 0
  {
    if a == P && b == 1 then P else Power(a, b) % P
  }

  lemma RaisedOne(a: Word64)
    requires a <= P
    ensures Raised(a, 1) == a
  {
    assert Power(a, 1) == a * Power(a, 0);
  }

  lemma RaisedMod(a: Word64, b: Word64)
    requires b > 0
    ensures Raised(a, b) % P == Power(a, b) % P
  {
    if b == 1 { assert Power(a, 1) == a * Power(a, 0); }
  }

  lemma HalfPower(a: int, b: nat)
    ensures var h := Power(a, b / 2); Power(a, b) == if b % 2 == 0 then h * h else h * h * a
  {
    PowerAdd(a, b / 2, b / 2);
    if b % 2 == 1 { PowerAdd(a, b / 2 + b / 2, 1); assert Power(a, 1) == a * Power(a, 0); }
  }

  /** `powmodp`: right in all cases but one. */
  method PowerModP(a: Word64, b: Word64) returns (r: Word64)
    requires b > 0
    ensures r == Power(a, b) % P <==> !(a == P && b == 1)
    ensures r == Raised(a, b)
  {
    var x: Word64 := a;
    if x > P {
      x := x % P;
    }
    PowerMod(a, b, P);
    r := PowModP(x, b);
    if a == P && b == 1 { assert Power(a, 1) == a * Power(a, 0); }
  }

  // Keys of eight bytes

  /** `ldhexchange`: what is sent to the other side. */
  method Exchange(x: seq<Byte>) returns (r: Option<seq<Byte>>)
    ensures r == Sent(x)
  {
    if |x| != 8 {
      return None;
    }
    UnsignedBound(x);
    var x64: Word64 := Unsigned(x);
    if x64 == 0 {
      return None;
    }
    var p := PowerModP(G, x64);
    return Some(Little(p, 8));
  }

  function Sent(x: seq<Byte>): Option<seq<Byte>> {
    if |x| != 8 || Unsigned(x) == 0 then None else Some(Little(Power(G, Unsigned(x)) % P, 8))
  }

  /** `ldhsecret`: from what the other side sent and the own key. */
  method Secret(x: seq<Byte>, y: seq<Byte>) returns (r: Option<seq<Byte>>)
    ensures r == Shared(x, y)
  {
    if |x| != 8 || |y| != 8 {
      return None;
    }
    UnsignedBound(x);
    UnsignedBound(y);
    var xx: Word64, yy: Word64 := Unsigned(x), Unsigned(y);
    if xx == 0 || yy == 0 {
      return None;
    }
    var p := PowerModP(xx, yy);
    return Some(Little(p, 8));
  }

  function Shared(x: seq<Byte>, y: seq<Byte>): Option<seq<Byte>> {
    if |x| != 8 || |y| != 8 then None
    else
      UnsignedBound(x);
      UnsignedBound(y);
      if Unsigned(x) == 0 || Unsigned(y) == 0 then None
      else Some(Little(Raised(Unsigned(x), Unsigned(y)), 8))
  }

  lemma UnsignedBound(x: seq<Byte>)
    requires |x| == 8
    ensures Unsigned(x) < W
  {
    UnsignedLess(x);
    Powers();
  }

  const INVERSE: int := 7378697629483820623

  /** A power of the generator is never 0 modulo `P`: the generator has an inverse. */
  lemma NeverZero(n: nat)
    ensures Power(G, n) % P != 0
  {
    var g, i := Power(G, n), Power(INVERSE, n);
    assert (G * INVERSE) % P == 1;
    PowerOfProduct(G, INVERSE, n);
    PowerMod(G * INVERSE, n, P);
    PowerOne(n);
    ModFactor(g, i, P);
    NonZero(g % P, i);
  }

  lemma NonZero(r: int, i: int)
    requires r * i % P != 0
    ensures r != 0
  {
  }

  /** A number below 2^64 survives its eight bytes. */
  lemma KeyValue(n: Word64)
    ensures Unsigned(Little(n, 8)) == n
  {
    UnsignedLittle(n, 8);
    Powers();
    ModUnique(n, W, 0, n);
  }

  /** A key is refused if and only if it has not eight bytes or they are all zero; otherwise the message stands for the
      power of the generator. */
  lemma SentExactly(x: seq<Byte>)
    ensures Sent(x).None? <==> |x| != 8 || forall i | 0 <= i < 8 :: x[i] == 0
    ensures Sent(x).Some? ==> |Sent(x).value| == 8 && Unsigned(Sent(x).value) == Power(G, Unsigned(x)) % P
  {
    UnsignedZero(x);
    if Sent(x).Some? { KeyValue(Power(G, Unsigned(x)) % P); }
  }

  lemma SharedExactly(x: seq<Byte>, y: seq<Byte>)
    ensures Shared(x, y).None? <==>
            |x| != 8 || |y| != 8 || (forall i | 0 <= i < 8 :: x[i] == 0) || (forall i | 0 <= i < 8 :: y[i] == 0)
  {
    UnsignedZero(x);
    UnsignedZero(y);
  }

  /** The number that one side computes from the other's message. */
  lemma SharedValue(x: seq<Byte>, y: seq<Byte>)
    requires Sent(x).Some? && |y| == 8 && Unsigned(y) != 0
    ensures Shared(Sent(x).value, y) == Some(Little(Power(G, Unsigned(x) * Unsigned(y)) % P, 8))
  {
    var m, n := Unsigned(x), Unsigned(y);
    var p := Power(G, m);
    UnsignedBound(x);
    UnsignedBound(y);
    NeverZero(m);
    KeyValue(p % P);
    PowerMod(p, n, P);
    PowerTimes(G, m, n);
  }

  /** Both sides get the same secret, whatever their non-zero keys are, and neither a message nor the secret is 0. */
  lemma KeyAgreement(x: seq<Byte>, y: seq<Byte>)
    requires |x| == |y| == 8 && Unsigned(x) != 0 && Unsigned(y) != 0
    ensures Sent(x).Some? && Sent(y).Some?
    ensures Unsigned(Sent(x).value) != 0 && |Sent(x).value| == 8
    ensures Shared(Sent(x).value, y).Some? && Shared(Sent(x).value, y) == Shared(Sent(y).value, x)
    ensures Unsigned(Shared(Sent(x).value, y).value) != 0
  {
    hide Power, Little, Unsigned, Shared, Raised;
    var m, n := Unsigned(x), Unsigned(y);
    SharedValue(x, y);
    SharedValue(y, x);
    assert m * n == n * m;
    NeverZero(m);
    KeyValue(Power(G, m) % P);
    NeverZero(m * n);
    KeyValue(Power(G, m * n) % P);
  }
}
