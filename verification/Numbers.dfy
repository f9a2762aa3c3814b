/** Little-endian numbers and arithmetic modulo a number. */
module Numbers {
  import opened Common

  const TWO_TO_32: int := 0x1_0000_0000
  const TWO_TO_63: int := 0x8000_0000_0000_0000

  function Little(n: int, k: nat): (s: seq<Byte>)
    ensures |s| == k
    decreases k
  {
    if k == 0 then [] else [n % 256] + Little(n / 256, k - 1)
  }

  function Unsigned(s: seq<Byte>): nat {
    if s == [] then 0 else s[0] + 256 * Unsigned(s[1..])
  }

  function Power256(k: nat): (p: nat)
    ensures p > 0
  {
    if k == 0 then 1 else 256 * Power256(k - 1)
  }

  lemma ModSplit(n: int, p: nat)
    requires p > 0
    ensures n % 256 + 256 * (n / 256 % p) == n % (256 * p)
  {
    var q := n / 256;
    var r := n % 256 + 256 * (q % p);
    assert n == 256 * p * (q / p) + r;
    assert 0 <= r < 256 * p;
    ModUnique(n, 256 * p, q / p, r);
  }

  lemma ModUnique(n: int, m: nat, q: int, r: int)
    requires n == m * q + r && 0 <= r < m
    ensures n % m == r
  {
    var d := q - n / m;
    assert m * d == n % m - r;
    if d > 0 { AtLeast(m, d); }
    if d < 0 { AtLeast(m, -d); }
  }

  lemma AtLeast(m: nat, d: nat)
    requires d > 0
    ensures m * d >= m
  {
  }

  lemma {:induction false} UnsignedLittle(n: int, k: nat)
    ensures Unsigned(Little(n, k)) == n % Power256(k)
    decreases k
  {
    if k > 0 {
      UnsignedLittle(n / 256, k - 1);
      ModSplit(n, Power256(k - 1));
    }
  }

  lemma {:induction false} UnsignedLess(s: seq<Byte>)
    ensures Unsigned(s) < Power256(|s|)
  {
    if s != [] { UnsignedLess(s[1..]); }
  }

  lemma Powers()
    ensures Power256(1) == 0x100 && Power256(2) == 0x1_0000 && Power256(4) == TWO_TO_32 && Power256(8) == 2 * TWO_TO_63
  {
    assert Power256(3) == 0x100_0000;
    assert Power256(6) == 0x1_0000_0000_0000;
  }

  lemma ModShift(x: int, m: nat, k: int)
    requires m > 0
    ensures (x + m * k) % m == x % m
  {
    assert x + m * k == m * (x / m + k) + x % m;
    ModUnique(x + m * k, m, x / m + k, x % m);
  }

  /** A factor may be replaced by its remainder. */
  lemma ModFactor(a: int, b: int, m: nat)
    requires m > 0
    ensures ((a % m) * b) % m == (a * b) % m
  {
    assert (a % m) * b + m * (a / m * b) == a * b by {
      assert (m * (a / m) + a % m) * b == m * (a / m) * b + (a % m) * b;
      assert m * (a / m) * b == m * (a / m * b);
    }
    ModShift((a % m) * b, m, a / m * b);
  }

  lemma Distribute(a: int, b: int, c: int)
    ensures (a + b) * c == a * c + b * c
  {
  }

  lemma Product(a: int, b: int, c: int)
    ensures a * (b * c) == (a * b) * c && a * b == b * a
  {
  }

  /** Only zeros stand for zero. */
  lemma {:induction false} UnsignedZero(s: seq<Byte>)
    ensures Unsigned(s) == 0 <==> forall i | 0 <= i < |s| :: s[i] == 0
    decreases |s|
  {
    if s != [] {
      UnsignedZero(s[1..]);
      assert forall i | 0 < i < |s| :: s[i] == s[1..][i - 1];
    }
  }
}
