/** The serializer (lua-seri.c): Lua values to bytes and back. The writer fills a chain of 128-byte blocks that is
    flattened at the end; the reader walks one buffer. */
module LuaSeri {
  import opened Common
  import opened Numbers

  const TYPE_NIL := 0
  const TYPE_BOOLEAN := 1
  const TYPE_NUMBER := 2
  const TYPE_NUMBER_ZERO := 0
  const TYPE_NUMBER_BYTE := 1
  const TYPE_NUMBER_WORD := 2
  const TYPE_NUMBER_DWORD := 4
  const TYPE_NUMBER_QWORD := 6
  const TYPE_NUMBER_REAL := 8
  const TYPE_USERDATA := 3
  const TYPE_SHORT_STRING := 4
  const TYPE_LONG_STRING := 5
  const TYPE_TABLE := 6

  const MAX_COOKIE: nat := 32
  const BLOCK_SIZE: nat := 128
  const MAX_DEPTH: nat := 32

  const TWO_TO_31: int := 0x8000_0000

  type Integer = n: int | -TWO_TO_63 <= n < TWO_TO_63

  /** Eight bytes that are only copied: a double or a pointer. */
  type Eight = s: seq<Byte> | |s| == 8 witness [0, 0, 0, 0, 0, 0, 0, 0]

  /** A Lua value. A table is given by the assignments that make it: to the indices from 1, then to other keys.
      One with `__pairs` has no indices of the first kind: its pairs are what the iterator gives. `Other` is a value
      that cannot be serialized. */
  datatype Value =
    | Nil
    | Bool(b: bool)
    | Int(n: Integer)
    | Real(bits: Eight)
    | Pointer(address: Eight)
    | Str(s: seq<Byte>)
    | Table(items: seq<Value>, pairs: seq<Pair>)
    | Other

  datatype Pair = Pair(key: Value, value: Value)

  // Little-endian numbers

  function Signed(s: seq<Byte>): int {
    var n := Unsigned(s);
    if n < Power256(|s|) / 2 then n else n - Power256(|s|)
  }

  lemma SignedLittle(n: int, k: nat)
    requires (k == 4 && -TWO_TO_31 <= n < TWO_TO_31) || (k == 8 && -TWO_TO_63 <= n < TWO_TO_63)
    ensures Signed(Little(n, k)) == n
  {
    UnsignedLittle(n, k);
    Powers();
    if n < 0 { ModUnique(n, Power256(k), -1, n + Power256(k)); } else { ModUnique(n, Power256(k), 0, n); }
  }

  // What is written

  function Combine(t: int, v: int): (b: Byte)
    requires 0 <= t < 8 && 0 <= v < 32
    ensures b % 8 == t && b / 8 == v
  {
    t + 8 * v
  }

  /** `wb_integer`. */
  function EncodeInt(n: Integer): (s: seq<Byte>)
    ensures s != []
  {
    if n == 0 then [Combine(TYPE_NUMBER, TYPE_NUMBER_ZERO)]
    else if !(-TWO_TO_31 <= n < TWO_TO_31) then [Combine(TYPE_NUMBER, TYPE_NUMBER_QWORD)] + Little(n, 8)
    else if n < 0 then [Combine(TYPE_NUMBER, TYPE_NUMBER_DWORD)] + Little(n, 4)
    else if n < 0x100 then [Combine(TYPE_NUMBER, TYPE_NUMBER_BYTE)] + Little(n, 1)
    else if n < 0x10000 then [Combine(TYPE_NUMBER, TYPE_NUMBER_WORD)] + Little(n, 2)
    else [Combine(TYPE_NUMBER, TYPE_NUMBER_DWORD)] + Little(n, 4)
  }

  /** `wb_string`. */
  function EncodeStr(t: seq<Byte>): (s: seq<Byte>)
    ensures |s| > |t|
  {
    if |t| < MAX_COOKIE then [Combine(TYPE_SHORT_STRING, |t|)] + t
    else if |t| < 0x10000 then [Combine(TYPE_LONG_STRING, 2)] + Little(|t|, 2) + t
    else [Combine(TYPE_LONG_STRING, 4)] + Little(|t|, 4) + t
  }

  /** The head of a table with `n` elements in its array part. */
  function EncodeSize(n: nat): (s: seq<Byte>)
    ensures s != []
  {
    if n >= MAX_COOKIE - 1 then [Combine(TYPE_TABLE, MAX_COOKIE - 1)] + EncodeInt(ToInteger(n))
    else [Combine(TYPE_TABLE, n)]
  }

  /** `pack_one`, for a value that can be packed. */
  function Encode(v: Value): (s: seq<Byte>)
    ensures s != []
    decreases v
  {
    match v
    case Nil => [TYPE_NIL]
    case Bool(b) => [Combine(TYPE_BOOLEAN, if b then 1 else 0)]
    case Int(n) => EncodeInt(n)
    case Real(bits) => [Combine(TYPE_NUMBER, TYPE_NUMBER_REAL)] + bits
    case Pointer(address) => [TYPE_USERDATA] + address
    case Str(s) => EncodeStr(s)
    case Table(items, pairs) => EncodeSize(|items|) + EncodeAll(items) + EncodePairs(pairs) + [TYPE_NIL]
    case Other => [TYPE_NIL]
  }

  function EncodeAll(vs: seq<Value>): (s: seq<Byte>)
    ensures |s| >= |vs|
    decreases vs
  {
    if vs == [] then [] else Encode(vs[0]) + EncodeAll(vs[1..])
  }

  function EncodePairs(ps: seq<Pair>): seq<Byte>
    decreases ps
  {
    if ps == [] then [] else EncodePair(ps[0]) + EncodePairs(ps[1..])
  }

  function EncodePair(p: Pair): seq<Byte>
    decreases p
  {
    Encode(p.key) + Encode(p.value)
  }

  /** `pack_one` succeeds at the given depth. */
  predicate Packable(v: Value, depth: nat)
    decreases v
  {
    && depth <= MAX_DEPTH && v != Other
    && (v.Table? ==>
          && (forall i | 0 <= i < |v.items| :: Packable(v.items[i], depth + 1))
          && (forall i | 0 <= i < |v.pairs| ::
            Packable(v.pairs[i].key, depth + 1) && Packable(v.pairs[i].value, depth + 1)))
  }

  /** A quiet or signalling NaN, which no table has as a key. */
  predicate IsNaN(bits: Eight) {
    bits[7] % 128 == 127 && bits[6] / 16 == 15 && !(bits[6] % 16 == 0 && bits[..6] == [0, 0, 0, 0, 0, 0])
  }

  predicate KeyOk(k: Value) {
    k != Nil && (k.Real? ==> !IsNaN(k.bits))
  }

  /** All tables in `v` have keys that Lua allows. */
  predicate KeysOk(v: Value)
    decreases v
  {
    v.Table? ==>
      && (forall i | 0 <= i < |v.items| :: KeysOk(v.items[i]))
      && (forall i | 0 <= i < |v.pairs| :: KeyOk(v.pairs[i].key) && KeysOk(v.pairs[i].key) && KeysOk(v.pairs[i].value))
  }

  // What is read

  /** The result of reading something at the start of a buffer: an error, or the thing and the bytes behind it. */
  datatype Parsed<T> = Bad | Parsed(value: T, rest: seq<Byte>)

  /** `get_integer`. */
  function DecodeInt(s: seq<Byte>, cookie: nat): (r: Parsed<Integer>)
    ensures r.Parsed? ==> |r.rest| <= |s|
  {
    if cookie == TYPE_NUMBER_ZERO then Parsed(0, s)
    else if cookie == TYPE_NUMBER_BYTE then if |s| < 1 then Bad else Parsed(s[0], s[1..])
    else if cookie == TYPE_NUMBER_WORD then if |s| < 2 then Bad else Parsed(ToInteger(Unsigned(s[..2])), s[2..])
    else if cookie == TYPE_NUMBER_DWORD then if |s| < 4 then Bad else Parsed(ToInteger(Signed(s[..4])), s[4..])
    else if cookie == TYPE_NUMBER_QWORD then if |s| < 8 then Bad else Parsed(ToInteger(Signed(s[..8])), s[8..])
    else Bad
  }

  /** Conversion to 64 bits; it never changes the numbers that are read. */
  function ToInteger(n: int): Integer {
    if -TWO_TO_63 <= n < TWO_TO_63 then n else 0
  }

  function Int32(n: int): int {
    var m := n % TWO_TO_32;
    if m < TWO_TO_31 then m else m - TWO_TO_32
  }

  /** `get_buffer`: a length of 2^31 or more turns negative, which Lua then refuses. */
  function DecodeBytes(s: seq<Byte>, n: nat): (r: Parsed<seq<Byte>>)
    ensures r.Parsed? ==> |r.rest| <= |s|
  {
    if n >= TWO_TO_31 || |s| < n then Bad else Parsed(s[..n], s[n..])
  }

  /** `unpack_one`. */
  function Decode(s: seq<Byte>): (r: Parsed<Value>)
    ensures r.Parsed? ==> |r.rest| < |s|
    decreases |s|, 0
  {
    if s == [] then Bad else DecodeValue(s[1..], s[0] % 8, s[0] / 8)
  }

  /** `push_value`. */
  function DecodeValue(s: seq<Byte>, t: nat, cookie: nat): (r: Parsed<Value>)
    ensures r.Parsed? ==> |r.rest| <= |s|
    decreases |s|, 3
  {
    if t == TYPE_NIL then Parsed(Nil, s)
    else if t == TYPE_BOOLEAN then Parsed(Bool(cookie != 0), s)
    else if t == TYPE_NUMBER then
      if cookie == TYPE_NUMBER_REAL then if |s| < 8 then Bad else Parsed(Real(s[..8]), s[8..])
      else
        var n := DecodeInt(s, cookie);
        if n.Bad? then Bad else Parsed(Int(n.value), n.rest)
    else if t == TYPE_USERDATA then if |s| < 8 then Bad else Parsed(Pointer(s[..8]), s[8..])
    else if t == TYPE_SHORT_STRING then
      var b := DecodeBytes(s, cookie);
      if b.Bad? then Bad else Parsed(Str(b.value), b.rest)
    else if t == TYPE_LONG_STRING then
      if (cookie != 2 && cookie != 4) || |s| < cookie then Bad
      else
        var b := DecodeBytes(s[cookie..], Unsigned(s[..cookie]));
        if b.Bad? then Bad else Parsed(Str(b.value), b.rest)
    else if t == TYPE_TABLE then DecodeTable(s, cookie)
    else Bad
  }

  /** `unpack_table`. */
  function DecodeTable(s: seq<Byte>, cookie: nat): (r: Parsed<Value>)
    ensures r.Parsed? ==> |r.rest| <= |s|
    decreases |s|, 2
  {
    var size := DecodeSize(s, cookie);
    if size.Bad? then Bad
    else
      var items := DecodeAll(size.rest, if size.value < 0 then 0 else size.value);
      if items.Bad? then Bad
      else
        var pairs := DecodePairs(items.rest);
        if pairs.Bad? then Bad else Parsed(Table(items.value, pairs.value), pairs.rest)
  }

  function DecodeSize(s: seq<Byte>, cookie: nat): (r: Parsed<int>)
    ensures r.Parsed? ==> |r.rest| <= |s|
  {
    if cookie != MAX_COOKIE - 1 then Parsed(cookie, s)
    else if s == [] || s[0] % 8 != TYPE_NUMBER || s[0] / 8 == TYPE_NUMBER_REAL then Bad
    else
      var n := DecodeInt(s[1..], s[0] / 8);
      if n.Bad? then Bad else Parsed(Int32(n.value), n.rest)
  }

  function DecodeAll(s: seq<Byte>, n: nat): (r: Parsed<seq<Value>>)
    ensures r.Parsed? ==> |r.rest| <= |s|
    decreases |s|, 1, n
  {
    if n == 0 then Parsed([], s)
    else
      var v := Decode(s);
      if v.Bad? then Bad
      else
        var vs := DecodeAll(v.rest, n - 1);
        if vs.Bad? then Bad else Parsed([v.value] + vs.value, vs.rest)
  }

  /** The other keys, up to a nil; a key that is NaN raises an error once its value is read. */
  function DecodePairs(s: seq<Byte>): (r: Parsed<seq<Pair>>)
    ensures r.Parsed? ==> |r.rest| <= |s|
    decreases |s|, 1, 0
  {
    var k := Decode(s);
    if k.Bad? then Bad
    else if k.value == Nil then Parsed([], k.rest)
    else
      var v := Decode(k.rest);
      if v.Bad? || !KeyOk(k.value) then Bad
      else
        var ps := DecodePairs(v.rest);
        if ps.Bad? then Bad else Parsed([Pair(k.value, v.value)] + ps.value, ps.rest)
  }

  /** `luaseri_unpack`: values up to the end of the buffer. */
  function Unpacked(s: seq<Byte>): Option<seq<Value>>
    decreases |s|
  {
    if s == [] then Some([])
    else
      var v := Decode(s);
      if v.Bad? then None
      else
        var vs := Unpacked(v.rest);
        Joined([v.value], vs)
  }

  function Joined(vs: seq<Value>, more: Option<seq<Value>>): Option<seq<Value>> {
    if more.None? then None else Some(vs + more.value)
  }

  lemma JoinedNext(vs: seq<Value>, v: Value, more: Option<seq<Value>>)
    ensures Joined(vs, Joined([v], more)) == Joined(vs + [v], more)
  {
    if more.Some? { Assoc(vs, [v], more.value); }
  }

  lemma JoinedNone(more: Option<seq<Value>>)
    ensures Joined([], more) == more
  {
    if more.Some? { NoMore(more.value); }
  }

  lemma JoinedEnd(vs: seq<Value>)
    ensures Joined(vs, Unpacked([])) == Some(vs) && Joined(vs, None) == None
  {
    NoMore(vs);
  }

  // Reading gives back what was written

  lemma IntRoundTrip(n: Integer, t: seq<Byte>)
    ensures Decode(EncodeInt(n) + t) == Parsed(Int(n), t)
    ensures EncodeInt(n)[0] % 8 == TYPE_NUMBER && EncodeInt(n)[0] / 8 != TYPE_NUMBER_REAL
    ensures DecodeInt((EncodeInt(n) + t)[1..], EncodeInt(n)[0] / 8) == Parsed(n, t)
  {
    hide Little, Unsigned, Signed, Power256;
    var e := EncodeInt(n);
    var k := |e| - 1;
    assert e == [e[0]] + e[1..];
    Assoc([e[0]], e[1..], t);
    HeadTail(e[0], e[1..] + t);
    TakeDrop(e[1..], t);
    if k > 0 {
      HeadTail(e[0], Little(n, k));
      LittleInt(n, k);
    } else {
      NoMore(t);
    }
  }

  lemma LittleInt(n: Integer, k: nat)
    requires (k == 1 && 0 <= n < 0x100) || (k == 2 && 0 <= n < 0x10000) || (k == 4 && -TWO_TO_31 <= n < TWO_TO_31)
      || k == 8
    ensures k == 1 ==> Little(n, k)[0] == n
    ensures if k <= 2 then Unsigned(Little(n, k)) == n else Signed(Little(n, k)) == n
  {
    if k > 2 {
      SignedLittle(n, k);
    } else {
      UnsignedLittle(n, k);
      Powers();
      ModUnique(n, Power256(k), 0, n);
    }
  }

  lemma StrRoundTrip(x: seq<Byte>, t: seq<Byte>)
    requires |x| < TWO_TO_31
    ensures Decode(EncodeStr(x) + t) == Parsed(Str(x), t)
  {
    hide Little, Unsigned, Power256;
    TakeDrop(x, t);
    if |x| < MAX_COOKIE {
      var c := Combine(TYPE_SHORT_STRING, |x|);
      Assoc([c], x, t);
      HeadTail(c, x + t);
    } else {
      var k := if |x| < 0x10000 then 2 else 4;
      var c, size := Combine(TYPE_LONG_STRING, k), Little(|x|, k);
      Assoc([c] + size, x, t);
      Assoc([c], size, x + t);
      HeadTail(c, size + (x + t));
      TakeDrop(size, x + t);
      UnsignedSize(|x|, k);
    }
  }

  lemma UnsignedSize(n: nat, k: nat)
    requires (k == 2 && n < 0x10000) || (k == 4 && n < TWO_TO_31)
    ensures Unsigned(Little(n, k)) == n
  {
    UnsignedLittle(n, k);
    Powers();
    ModUnique(n, Power256(k), 0, n);
  }

  lemma SizeRoundTrip(n: nat, t: seq<Byte>)
    requires n < TWO_TO_31
    ensures var s := EncodeSize(n) + t; s[0] % 8 == TYPE_TABLE && DecodeSize(s[1..], s[0] / 8) == Parsed(n, t)
  {
    hide Decode, DecodeInt, EncodeInt;
    var s := EncodeSize(n) + t;
    if n >= MAX_COOKIE - 1 {
      IntRoundTrip(n, t);
      assert s[1..] == EncodeInt(n) + t;
    } else {
      assert s[1..] == t;
    }
  }

  /** A packed value is read back, whatever follows it. The bytes have to fit the `int` that counts them. */
  lemma {:induction false} RoundTrip(v: Value, depth: nat, t: seq<Byte>)
    requires Packable(v, depth) && KeysOk(v) && |Encode(v)| < TWO_TO_31
    ensures Decode(Encode(v) + t) == Parsed(v, t)
    decreases v
  {
    hide Decode, DecodeAll, DecodePairs, DecodeSize, EncodeAll, EncodePairs, EncodeInt, EncodeStr, EncodeSize, KeyOk;
    match v
    case Nil => PlainRoundTrip(v, t);
    case Bool(b) => PlainRoundTrip(v, t);
    case Int(n) => IntRoundTrip(n, t);
    case Real(bits) => PlainRoundTrip(v, t);
    case Pointer(address) => PlainRoundTrip(v, t);
    case Str(s) => StrRoundTrip(s, t);
    case Table(items, pairs) =>
      AllRoundTrip(items, depth + 1, EncodePairs(pairs) + ([TYPE_NIL] + t));
      PairsRoundTrip(pairs, depth + 1, t);
      TableRoundTrip(items, pairs, t);
  }

  lemma PlainRoundTrip(v: Value, t: seq<Byte>)
    requires v.Nil? || v.Bool? || v.Real? || v.Pointer?
    ensures Decode(Encode(v) + t) == Parsed(v, t)
  {
    var s := Encode(v) + t;
    if v.Real? {
      assert s[1..] == v.bits + t;
    } else if v.Pointer? {
      assert s[1..] == v.address + t;
    } else {
      assert s[1..] == t;
    }
  }

  lemma TableRoundTrip(items: seq<Value>, pairs: seq<Pair>, t: seq<Byte>)
    requires |items| < TWO_TO_31
    requires DecodeAll(EncodeAll(items) + (EncodePairs(pairs) + ([TYPE_NIL] + t)), |items|)
          == Parsed(items, EncodePairs(pairs) + ([TYPE_NIL] + t))
    requires DecodePairs(EncodePairs(pairs) + ([TYPE_NIL] + t)) == Parsed(pairs, t)
    ensures Decode(Encode(Table(items, pairs)) + t) == Parsed(Table(items, pairs), t)
  {
    hide Decode, DecodeAll, DecodePairs, DecodeSize, EncodeAll, EncodePairs, EncodeSize;
    var p := EncodePairs(pairs) + ([TYPE_NIL] + t);
    var q := EncodeAll(items) + p;
    SizeRoundTrip(|items|, q);
    Assoc(EncodeSize(|items|) + EncodeAll(items) + EncodePairs(pairs), [TYPE_NIL], t);
    Assoc(EncodeSize(|items|) + EncodeAll(items), EncodePairs(pairs), [TYPE_NIL] + t);
    Assoc(EncodeSize(|items|), EncodeAll(items), p);
    TableParts(EncodeSize(|items|) + q, |items|, q, items, p, pairs, t);
  }

  lemma TableParts(s: seq<Byte>, n: nat, q: seq<Byte>, items: seq<Value>, p: seq<Byte>, pairs: seq<Pair>, t: seq<Byte>)
    requires s != [] && s[0] % 8 == TYPE_TABLE && DecodeSize(s[1..], s[0] / 8) == Parsed(n, q)
    requires DecodeAll(q, n) == Parsed(items, p) && DecodePairs(p) == Parsed(pairs, t)
    ensures Decode(s) == Parsed(Table(items, pairs), t)
  {
    hide DecodeAll, DecodePairs, DecodeSize, DecodeInt;
    assert DecodeTable(s[1..], s[0] / 8) == Parsed(Table(items, pairs), t);
  }

  lemma {:induction false} AllRoundTrip(vs: seq<Value>, depth: nat, t: seq<Byte>)
    requires (forall i | 0 <= i < |vs| :: Packable(vs[i], depth) && KeysOk(vs[i])) && |EncodeAll(vs)| < TWO_TO_31
    ensures DecodeAll(EncodeAll(vs) + t, |vs|) == Parsed(vs, t)
    decreases vs
  {
    hide Decode, Encode, Packable, KeysOk;
    if vs == [] {
      assert EncodeAll(vs) + t == t;
    } else {
      RoundTrip(vs[0], depth, EncodeAll(vs[1..]) + t);
      AllRoundTrip(vs[1..], depth, t);
      Assoc(Encode(vs[0]), EncodeAll(vs[1..]), t);
      assert vs == [vs[0]] + vs[1..];
    }
  }

  predicate PairOk(p: Pair, depth: nat) {
    Packable(p.key, depth) && Packable(p.value, depth) && KeyOk(p.key) && KeysOk(p.key) && KeysOk(p.value)
  }

  lemma {:induction false} PairsRoundTrip(ps: seq<Pair>, depth: nat, t: seq<Byte>)
    requires |EncodePairs(ps)| < TWO_TO_31 && forall i | 0 <= i < |ps| :: PairOk(ps[i], depth)
    ensures DecodePairs(EncodePairs(ps) + ([TYPE_NIL] + t)) == Parsed(ps, t)
    decreases ps
  {
    hide Decode, Encode, Packable, KeysOk;
    var s := EncodePairs(ps) + ([TYPE_NIL] + t);
    if ps == [] {
      PlainRoundTrip(Nil, t);
      EncodeNil();
      assert s == Encode(Nil) + t;
    } else {
      var next := EncodePairs(ps[1..]) + ([TYPE_NIL] + t);
      PairRoundTrip(ps[0], depth, next);
      PairsRoundTrip(ps[1..], depth, t);
      assert s == Encode(ps[0].key) + (Encode(ps[0].value) + next);
      assert ps == [ps[0]] + ps[1..];
    }
  }

  lemma EncodeNil()
    ensures Encode(Nil) == [TYPE_NIL]
  {
  }

  lemma {:induction false} PairRoundTrip(p: Pair, depth: nat, t: seq<Byte>)
    requires PairOk(p, depth) && |EncodePair(p)| < TWO_TO_31
    ensures Decode(Encode(p.key) + (Encode(p.value) + t)) == Parsed(p.key, Encode(p.value) + t)
    ensures Decode(Encode(p.value) + t) == Parsed(p.value, t)
    decreases p
  {
    hide Decode, Encode, Packable, KeysOk;
    RoundTrip(p.key, depth, Encode(p.value) + t);
    RoundTrip(p.value, depth, t);
  }

  /** `luaseri_unpack` gives the values that `luaseri_pack` was given. */
  lemma {:induction false} ListRoundTrip(vs: seq<Value>)
    requires (forall i | 0 <= i < |vs| :: Packable(vs[i], 0) && KeysOk(vs[i])) && |EncodeAll(vs)| < TWO_TO_31
    ensures Unpacked(EncodeAll(vs)) == Some(vs)
  {
    if vs != [] {
      RoundTrip(vs[0], 0, EncodeAll(vs[1..]));
      ListRoundTrip(vs[1..]);
      assert vs == [vs[0]] + vs[1..];
    }
  }

  // The depth limit

  function Max(a: nat, b: nat): nat {
    if a > b then a else b
  }

  /** How many tables are around the innermost value. */
  function Height(v: Value): nat
    decreases v
  {
    if v.Table? then Max(HeightAll(v.items), HeightPairs(v.pairs)) else 0
  }

  function HeightAll(vs: seq<Value>): nat
    decreases vs
  {
    if vs == [] then 0 else Max(1 + Height(vs[0]), HeightAll(vs[1..]))
  }

  function HeightPairs(ps: seq<Pair>): nat
    decreases ps
  {
    if ps == [] then 0 else Max(HeightPair(ps[0]), HeightPairs(ps[1..]))
  }

  function HeightPair(p: Pair): nat
    decreases p
  {
    1 + Max(Height(p.key), Height(p.value))
  }

  /** Nothing in `v` is of an unsupported type. */
  predicate Supported(v: Value)
    decreases v
  {
    && v != Other
    && (v.Table? ==>
          && (forall i | 0 <= i < |v.items| :: Supported(v.items[i]))
          && (forall i | 0 <= i < |v.pairs| :: Supported(v.pairs[i].key) && Supported(v.pairs[i].value)))
  }

  /** What can be packed: values up to 32 tables deep; an empty table may sit one level below. */
  lemma {:induction false} DepthLimit(v: Value, depth: nat)
    ensures Packable(v, depth) <==> Supported(v) && depth + Height(v) <= MAX_DEPTH
    decreases v
  {
    if v.Table? {
      DepthLimitAll(v.items, depth);
      DepthLimitPairs(v.pairs, depth);
    }
  }

  lemma {:induction false} DepthLimitAll(vs: seq<Value>, depth: nat)
    ensures (depth <= MAX_DEPTH && forall i | 0 <= i < |vs| :: Packable(vs[i], depth + 1))
       <==> (forall i | 0 <= i < |vs| :: Supported(vs[i])) && depth + HeightAll(vs) <= MAX_DEPTH
    decreases vs
  {
    hide Packable, Supported, Height;
    if vs != [] {
      DepthLimit(vs[0], depth + 1);
      DepthLimitAll(vs[1..], depth);
      assert forall i | 1 <= i < |vs| :: vs[i] == vs[1..][i - 1];
    }
  }

  lemma {:induction false} DepthLimitPairs(ps: seq<Pair>, depth: nat)
    ensures
      (depth <= MAX_DEPTH
       && forall i | 0 <= i < |ps| :: Packable(ps[i].key, depth + 1) && Packable(ps[i].value, depth + 1))
      <==>
      ((forall i | 0 <= i < |ps| :: Supported(ps[i].key) && Supported(ps[i].value))
       && depth + HeightPairs(ps) <= MAX_DEPTH)
    decreases ps
  {
    hide Packable, Supported, Height;
    if ps != [] {
      DepthLimitPair(ps[0], depth);
      DepthLimitPairs(ps[1..], depth);
      assert forall i | 1 <= i < |ps| :: ps[i] == ps[1..][i - 1];
    }
  }

  lemma {:induction false} DepthLimitPair(p: Pair, depth: nat)
    ensures (Packable(p.key, depth + 1) && Packable(p.value, depth + 1))
       <==> Supported(p.key) && Supported(p.value) && depth + HeightPair(p) <= MAX_DEPTH
    decreases p
  {
    DepthLimit(p.key, depth + 1);
    DepthLimit(p.value, depth + 1);
  }

  // What a table holds

  /** An assignment to a key of a table. */
  function Assign(m: map<Value, Value>, k: Value, v: Value): map<Value, Value> {
    if v == Nil then m - {k} else m[k := v]
  }

  /** The table that `unpack_table` builds. */
  function Content(items: seq<Value>, pairs: seq<Pair>): map<Value, Value>
    requires |items| < TWO_TO_31
  {
    if pairs != [] then
      var n := |pairs| - 1;
      Assign(Content(items, pairs[..n]), pairs[n].key, pairs[n].value)
    else if items != [] then
      var n := |items| - 1;
      Assign(Content(items[..n], []), Int(|items|), items[n])
    else map[]
  }

  function Get(m: map<Value, Value>, k: Value): Value {
    if k in m then m[k] else Nil
  }

  /** The key is among the first `n` indices, which the array part covers. */
  predicate Index(k: Value, n: nat) {
    k.Int? && 0 < k.n <= n
  }

  /** `wb_table_array`: the first `n` elements, where holes are nil. */
  function ArrayPart(m: map<Value, Value>, n: nat): (vs: seq<Value>)
    requires n < TWO_TO_31
    ensures |vs| == n
  {
    seq(n, i requires 0 <= i < n => Get(m, Int(i + 1)))
  }

  /** `wb_table_hash`: the other keys in the order in which the table lists them. */
  function HashPart(m: map<Value, Value>, n: nat, order: seq<Value>): seq<Pair> {
    if order == [] then []
    else
      var k := order[|order| - 1];
      HashPart(m, n, order[..|order| - 1]) + if Index(k, n) then [] else [Pair(k, Get(m, k))]
  }

  lemma {:induction false} ArrayContent(m: map<Value, Value>, n: nat)
    requires n < TWO_TO_31 && Nil !in m.Values
    ensures Content(ArrayPart(m, n), []) == map k | k in m && Index(k, n) :: m[k]
  {
    if n > 0 {
      ArrayContent(m, n - 1);
      assert ArrayPart(m, n)[..n - 1] == ArrayPart(m, n - 1);
      assert Int(n) in m ==> m[Int(n)] in m.Values;
      forall k: Value ensures Index(k, n) <==> Index(k, n - 1) || k == Int(n) { }
    }
  }

  lemma ContentNext(items: seq<Value>, ps: seq<Pair>, p: Pair)
    requires |items| < TWO_TO_31
    ensures Content(items, ps + [p]) == Assign(Content(items, ps), p.key, p.value)
  {
    assert (ps + [p])[..|ps|] == ps;
  }

  lemma {:induction false} HashContent(m: map<Value, Value>, n: nat, order: seq<Value>)
    requires n < TWO_TO_31 && Nil !in m.Values && forall k | k in order :: k in m
    ensures Content(ArrayPart(m, n), HashPart(m, n, order)) == map k | k in m && (Index(k, n) || k in order) :: m[k]
  {
    hide Content, ArrayPart, Index;
    if order == [] {
      ArrayContent(m, n);
    } else {
      var k := order[|order| - 1];
      var front := order[..|order| - 1];
      HashContent(m, n, front);
      assert order == front + [k];
      assert m[k] in m.Values;
      if Index(k, n) {
        assert HashPart(m, n, order) == HashPart(m, n, front);
      } else {
        assert HashPart(m, n, order) == HashPart(m, n, front) + [Pair(k, m[k])];
        ContentNext(ArrayPart(m, n), HashPart(m, n, front), Pair(k, m[k]));
      }
    }
  }

  /** Whatever border `n` the table's length reports and in whatever order its keys come, the table that is read back
      has the same content. */
  lemma SameTable(m: map<Value, Value>, n: nat, order: seq<Value>)
    requires n < TWO_TO_31 && Nil !in m.Values
    requires forall k :: k in order <==> k in m
    ensures Content(ArrayPart(m, n), HashPart(m, n, order)) == m
  {
    HashContent(m, n, order);
  }

  // The writer

  class WriteBlock {
    /** The chain of blocks; the last one is the current one. */
    var blocks: seq<array<Byte>>
    var len: nat
    var ptr: nat
    ghost var bytes: seq<Byte>
    ghost var repr: set<object>

    ghost predicate Valid()
      reads this, repr
    {
      && (forall b | b in blocks :: b in repr) && this !in repr
      && blocks != [] && (forall i, j | 0 <= i < j < |blocks| :: blocks[i] != blocks[j])
      && (forall b | 0 <= b < |blocks| :: blocks[b].Length == BLOCK_SIZE)
      && ptr <= BLOCK_SIZE && len == |bytes| == BLOCK_SIZE * (|blocks| - 1) + ptr
      && (forall b | 0 <= b < |blocks| - 1 :: blocks[b][..] == bytes[BLOCK_SIZE * b..BLOCK_SIZE * b + BLOCK_SIZE])
      && blocks[|blocks| - 1][..ptr] == bytes[BLOCK_SIZE * (|blocks| - 1)..]
    }

    /** `wb_init`. */
    constructor ()
      ensures Valid() && fresh(repr) && bytes == []
    {
      var block := new Byte[BLOCK_SIZE](_ => 0);
      blocks := [block];
      len, ptr := 0, 0;
      bytes, repr := [], {block};
    }

    method NextBlock()
      requires Valid() && ptr == BLOCK_SIZE
      modifies this
      ensures Valid() && bytes == old(bytes) && ptr == 0
      ensures fresh(repr - old(repr))
    {
      var block := new Byte[BLOCK_SIZE](_ => 0);
      assert blocks[|blocks| - 1][..] == blocks[|blocks| - 1][..ptr];
      blocks := blocks + [block];
      ptr := 0;
      repr := repr + {block};
    }

    /** The `memcpy` into the current block. */
    method Copy(s: seq<Byte>)
      requires Valid() && |s| <= BLOCK_SIZE - ptr
      modifies this`ptr, this`len, this`bytes, blocks[|blocks| - 1]
      ensures Valid() && bytes == old(bytes) + s && ptr == old(ptr) + |s|
    {
      var current := blocks[|blocks| - 1];
      forall i | 0 <= i < |s| {
        current[ptr + i] := s[i];
      }
      ptr, len := ptr + |s|, len + |s|;
      bytes := bytes + s;
      assert current[..ptr] == old(current[..ptr]) + s;
    }

    /** `wb_push`. */
    method Push(s: seq<Byte>)
      requires Valid()
      modifies this, repr
      ensures Valid() && bytes == old(bytes) + s
      ensures fresh(repr - old(repr))
    {
      var rest := s;
      if ptr == BLOCK_SIZE {
        NextBlock();
      }
      while ptr > BLOCK_SIZE - |rest|
        invariant Valid() && bytes + rest == old(bytes) + s
        invariant fresh(repr - old(repr))
        invariant ptr < BLOCK_SIZE
        decreases |rest|
      {
        var copy := BLOCK_SIZE - ptr;
        Copy(rest[..copy]);
        rest := rest[copy..];
        NextBlock();
      }
      Copy(rest);
    }

    /** `seri`: the blocks in one buffer. */
    method Flatten() returns (buffer: array<Byte>)
      requires Valid()
      ensures fresh(buffer) && buffer[..] == bytes
    {
      buffer := new Byte[len](_ => 0);
      var at, b := 0, 0;
      while len - at >= BLOCK_SIZE
        invariant at == BLOCK_SIZE * b <= len && b <= |blocks|
        invariant buffer[..at] == bytes[..at]
      {
        CopyOut(b, BLOCK_SIZE, buffer, at);
        at, b := at + BLOCK_SIZE, b + 1;
      }
      if len - at > 0 {
        CopyOut(b, len - at, buffer, at);
      }
    }

    /** The `memcpy` of the first `n` bytes of block `b` behind the bytes that are in the buffer already. */
    method CopyOut(b: nat, n: nat, buffer: array<Byte>, at: nat)
      requires Valid() && buffer !in repr && buffer.Length == len && at == BLOCK_SIZE * b
      requires b < |blocks| && n <= BLOCK_SIZE && at + n <= len && buffer[..at] == bytes[..at]
      modifies buffer
      ensures buffer[..at + n] == bytes[..at + n]
    {
      var block := blocks[b];
      forall i | 0 <= i < n {
        buffer[at + i] := block[i];
      }
      if b == |blocks| - 1 {
        assert block[..n] == block[..ptr][..n];
        assert block[..n] == bytes[BLOCK_SIZE * b..][..n];
      } else {
        assert block[..n] == block[..][..n];
        assert block[..n] == bytes[BLOCK_SIZE * b..BLOCK_SIZE * b + BLOCK_SIZE][..n];
      }
      assert block[..n] == bytes[at..at + n];
      assert buffer[..at + n] == buffer[..at] + block[..n];
    }

    /** `wb_nil`. */
    method Nil()
      requires Valid()
      modifies this, repr
      ensures Valid() && bytes == old(bytes) + Encode(Value.Nil)
      ensures fresh(repr - old(repr))
    {
      Push([TYPE_NIL]);
    }

    /** `wb_integer`. */
    method Integer(n: Integer)
      requires Valid()
      modifies this, repr
      ensures Valid() && bytes == old(bytes) + EncodeInt(n)
      ensures fresh(repr - old(repr))
    {
      hide Valid, Little;
      if n == 0 {
        Push([Combine(TYPE_NUMBER, TYPE_NUMBER_ZERO)]);
      } else if n < -TWO_TO_31 || n >= TWO_TO_31 {
        Push([Combine(TYPE_NUMBER, TYPE_NUMBER_QWORD)]);
        Push(Little(n, 8));
        Assoc(old(bytes), [Combine(TYPE_NUMBER, TYPE_NUMBER_QWORD)], Little(n, 8));
      } else if n < 0 {
        Push([Combine(TYPE_NUMBER, TYPE_NUMBER_DWORD)]);
        Push(Little(n, 4));
        Assoc(old(bytes), [Combine(TYPE_NUMBER, TYPE_NUMBER_DWORD)], Little(n, 4));
      } else if n < 0x100 {
        Push([Combine(TYPE_NUMBER, TYPE_NUMBER_BYTE)]);
        Push(Little(n, 1));
        Assoc(old(bytes), [Combine(TYPE_NUMBER, TYPE_NUMBER_BYTE)], Little(n, 1));
      } else if n < 0x10000 {
        Push([Combine(TYPE_NUMBER, TYPE_NUMBER_WORD)]);
        Push(Little(n, 2));
        Assoc(old(bytes), [Combine(TYPE_NUMBER, TYPE_NUMBER_WORD)], Little(n, 2));
      } else {
        Push([Combine(TYPE_NUMBER, TYPE_NUMBER_DWORD)]);
        Push(Little(n, 4));
        Assoc(old(bytes), [Combine(TYPE_NUMBER, TYPE_NUMBER_DWORD)], Little(n, 4));
      }
    }

    /** `wb_string`. */
    method String(s: seq<Byte>)
      requires Valid()
      modifies this, repr
      ensures Valid() && bytes == old(bytes) + EncodeStr(s)
      ensures fresh(repr - old(repr))
    {
      hide Valid, Little;
      if |s| < MAX_COOKIE {
        Push([Combine(TYPE_SHORT_STRING, |s|)]);
        if |s| > 0 {
          Push(s);
        }
        Assoc(old(bytes), [Combine(TYPE_SHORT_STRING, |s|)], s);
      } else {
        if |s| < 0x10000 {
          Push([Combine(TYPE_LONG_STRING, 2)]);
          Push(Little(|s|, 2));
          Assoc(old(bytes), [Combine(TYPE_LONG_STRING, 2)], Little(|s|, 2));
        } else {
          Push([Combine(TYPE_LONG_STRING, 4)]);
          Push(Little(|s|, 4));
          Assoc(old(bytes), [Combine(TYPE_LONG_STRING, 4)], Little(|s|, 4));
        }
        ghost var head := if |s| < 0x10000 then [Combine(TYPE_LONG_STRING, 2)] + Little(|s|, 2)
                          else [Combine(TYPE_LONG_STRING, 4)] + Little(|s|, 4);
        assert bytes == old(bytes) + head;
        Push(s);
        Assoc(old(bytes), head, s);
      }
    }

    /** `pack_one`: false when it raises an error, which frees the blocks. */
    method PackOne(v: Value, depth: nat) returns (ok: bool)
      requires Valid()
      modifies this, repr
      ensures ok == Packable(v, depth)
      ensures ok ==> Valid() && bytes == old(bytes) + Encode(v)
      ensures fresh(repr - old(repr))
      decreases v, 1
    {
      hide Valid, EncodeInt, EncodeStr, EncodeSize, EncodeAll, EncodePairs;
      if depth > MAX_DEPTH {
        return false;
      }
      ok := true;
      match v {
        case Nil => Nil();
        case Int(n) => Integer(n);
        case Real(bits) =>
          Push([Combine(TYPE_NUMBER, TYPE_NUMBER_REAL)]);
          Push(bits);
          Assoc(old(bytes), [Combine(TYPE_NUMBER, TYPE_NUMBER_REAL)], bits);
        case Bool(b) => Push([Combine(TYPE_BOOLEAN, if b then 1 else 0)]);
        case Str(s) => String(s);
        case Pointer(address) =>
          Push([TYPE_USERDATA]);
          Push(address);
          Assoc(old(bytes), [TYPE_USERDATA], address);
        case Table(items, pairs) => ok := PackTable(v, depth + 1);
        case Other => return false;
      }
    }

    /** `wb_table`. */
    method PackTable(v: Value, depth: nat) returns (ok: bool)
      requires Valid() && v.Table? && 0 < depth <= MAX_DEPTH + 1
      modifies this, repr
      ensures ok == Packable(v, depth - 1)
      ensures ok ==> Valid() && bytes == old(bytes) + Encode(v)
      ensures fresh(repr - old(repr))
      decreases v, 0
    {
      hide Valid, EncodeSize, EncodeAll, EncodePairs;
      ghost var a, b, c := EncodeSize(|v.items|), EncodeAll(v.items), EncodePairs(v.pairs);
      ok := PackItems(v.items, depth);
      if ok {
        ok := PackPairs(v.pairs, depth);
        Assoc(old(bytes), a, b);
        Assoc(old(bytes), a + b, c);
        Assoc(old(bytes), a + b + c, [TYPE_NIL]);
      }
    }

    /** `wb_table_array`. */
    method PackItems(items: seq<Value>, depth: nat) returns (ok: bool)
      requires Valid()
      modifies this, repr
      ensures ok == forall i | 0 <= i < |items| :: Packable(items[i], depth)
      ensures ok ==> Valid() && bytes == old(bytes) + EncodeSize(|items|) + EncodeAll(items)
      ensures fresh(repr - old(repr))
      decreases items, 2
    {
      hide Valid, Encode, EncodeAll, EncodeInt, Packable;
      if |items| >= MAX_COOKIE - 1 {
        Push([Combine(TYPE_TABLE, MAX_COOKIE - 1)]);
        Integer(ToInteger(|items|));
        Assoc(old(bytes), [Combine(TYPE_TABLE, MAX_COOKIE - 1)], EncodeInt(ToInteger(|items|)));
      } else {
        Push([Combine(TYPE_TABLE, |items|)]);
      }
      var i := 0;
      EncodeNone();
      while i < |items|
        invariant 0 <= i <= |items|
        invariant forall j | 0 <= j < i :: Packable(items[j], depth)
        invariant Valid() && bytes == old(bytes) + EncodeSize(|items|) + EncodeAll(items[..i])
        invariant fresh(repr - old(repr))
      {
        ok := PackOne(items[i], depth);
        if !ok {
          return;
        }
        EncodeAllNext(items, i);
        Assoc(old(bytes) + EncodeSize(|items|), EncodeAll(items[..i]), Encode(items[i]));
        i := i + 1;
      }
      assert items[..i] == items;
      ok := true;
    }

    /** `wb_table_hash`. */
    method PackPairs(pairs: seq<Pair>, depth: nat) returns (ok: bool)
      requires Valid()
      modifies this, repr
      ensures ok == forall i | 0 <= i < |pairs| :: Packable(pairs[i].key, depth) && Packable(pairs[i].value, depth)
      ensures ok ==> Valid() && bytes == old(bytes) + EncodePairs(pairs) + [TYPE_NIL]
      ensures fresh(repr - old(repr))
      decreases pairs, 2
    {
      hide Valid, Encode, EncodePair, EncodePairs, Packable;
      var i := 0;
      EncodeNone();
      while i < |pairs|
        invariant 0 <= i <= |pairs|
        invariant forall j | 0 <= j < i :: Packable(pairs[j].key, depth) && Packable(pairs[j].value, depth)
        invariant Valid() && bytes == old(bytes) + EncodePairs(pairs[..i])
        invariant fresh(repr - old(repr))
      {
        ok := PackPair(pairs[i], depth);
        if !ok {
          return;
        }
        EncodePairsNext(pairs, i);
        Assoc(old(bytes), EncodePairs(pairs[..i]), EncodePair(pairs[i]));
        i := i + 1;
      }
      assert pairs[..i] == pairs;
      EncodeNil();
      Nil();
      ok := true;
    }

    method PackPair(p: Pair, depth: nat) returns (ok: bool)
      requires Valid()
      modifies this, repr
      ensures ok == (Packable(p.key, depth) && Packable(p.value, depth))
      ensures ok ==> Valid() && bytes == old(bytes) + EncodePair(p)
      ensures fresh(repr - old(repr))
      decreases p, 2
    {
      hide Valid, Encode, Packable;
      ok := PackOne(p.key, depth);
      if ok {
        ok := PackOne(p.value, depth);
      }
    }
  }

  lemma EncodeNone()
    ensures EncodeAll([]) == [] && EncodePairs([]) == []
  {
  }

  lemma {:induction false} EncodeAllNext(vs: seq<Value>, i: nat)
    requires i < |vs|
    ensures EncodeAll(vs[..i + 1]) == EncodeAll(vs[..i]) + Encode(vs[i])
  {
    if i > 0 {
      EncodeAllNext(vs[1..], i - 1);
      assert vs[..i + 1][1..] == vs[1..][..i] && vs[..i][1..] == vs[1..][..i - 1];
    }
  }

  lemma {:induction false} EncodePairsNext(ps: seq<Pair>, i: nat)
    requires i < |ps|
    ensures EncodePairs(ps[..i + 1]) == EncodePairs(ps[..i]) + EncodePair(ps[i])
  {
    if i > 0 {
      EncodePairsNext(ps[1..], i - 1);
      assert ps[..i + 1][1..] == ps[1..][..i] && ps[..i][1..] == ps[1..][..i - 1];
    }
  }

  /** `luaseri_pack`: none when a value cannot be packed. */
  method Pack(vs: seq<Value>) returns (r: Option<array<Byte>>)
    ensures r.Some? == forall i | 0 <= i < |vs| :: Packable(vs[i], 0)
    ensures r.Some? ==> fresh(r.value) && r.value[..] == EncodeAll(vs)
  {
    hide WriteBlock.Valid, Encode, EncodeAll, Packable;
    var wb := new WriteBlock();
    var i := 0;
    EncodeNone();
    while i < |vs|
      invariant 0 <= i <= |vs|
      invariant forall j | 0 <= j < i :: Packable(vs[j], 0)
      invariant fresh(wb) && fresh(wb.repr) && wb.Valid() && wb.bytes == EncodeAll(vs[..i])
    {
      var ok := wb.PackOne(vs[i], 0);
      if !ok {
        return None;
      }
      EncodeAllNext(vs, i);
      i := i + 1;
    }
    assert vs[..i] == vs;
    var buffer := wb.Flatten();
    return Some(buffer);
  }

  // The reader

  class ReadBlock {
    const buffer: array<Byte>
    var len: nat
    var ptr: nat

    ghost predicate Valid()
      reads this, buffer
    {
      ptr + len == buffer.Length
    }

    /** The bytes that are not read yet. */
    ghost function Left(): seq<Byte>
      requires Valid()
      reads this, buffer
    {
      buffer[ptr..]
    }

    /** `rball_init`. */
    constructor (buffer: array<Byte>)
      ensures Valid() && this.buffer == buffer && Left() == buffer[..]
    {
      this.buffer := buffer;
      len, ptr := buffer.Length, 0;
    }

    /** `rb_read`: none when the buffer is too short. */
    method Read(n: nat) returns (r: Option<seq<Byte>>)
      requires Valid()
      modifies this
      ensures Valid() && r.Some? == (|old(Left())| >= n)
      ensures r.Some? ==> r.value == old(Left())[..n] && Left() == old(Left())[n..]
      ensures r.None? ==> Left() == old(Left())
    {
      if len < n {
        return None;
      }
      r := Some(buffer[ptr..ptr + n]);
      ptr := ptr + n;
      len := len - n;
    }

    /** `get_integer`. */
    method GetInteger(cookie: nat) returns (r: Option<Integer>)
      requires Valid()
      modifies this
      ensures Valid() && Reads(r, DecodeInt(old(Left()), cookie), Left())
    {
      if cookie == TYPE_NUMBER_ZERO {
        return Some(0);
      }
      if cookie != TYPE_NUMBER_BYTE && cookie != TYPE_NUMBER_WORD && cookie != TYPE_NUMBER_DWORD
        && cookie != TYPE_NUMBER_QWORD {
        return None;
      }
      var size := if cookie == TYPE_NUMBER_BYTE then 1 else if cookie == TYPE_NUMBER_WORD then 2
                  else if cookie == TYPE_NUMBER_DWORD then 4 else 8;
      var s := Read(size);
      if s.None? {
        return None;
      }
      if size == 1 {
        return Some(s.value[0]);
      }
      if size == 2 {
        return Some(ToInteger(Unsigned(s.value)));
      }
      return Some(ToInteger(Signed(s.value)));
    }

    /** `get_buffer`. */
    method GetBuffer(n: nat) returns (r: Option<seq<Byte>>)
      requires Valid()
      modifies this
      ensures Valid() && Reads(r, DecodeBytes(old(Left()), n), Left())
    {
      if n >= TWO_TO_31 {
        return None;
      }
      r := Read(n);
    }

    /** `unpack_one`. */
    method UnpackOne() returns (r: Option<Value>)
      requires Valid()
      modifies this
      ensures Valid() && Reads(r, Decode(old(Left())), Left())
      decreases len, 0
    {
      var t := Read(1);
      if t.None? {
        return None;
      }
      r := PushValue(t.value[0] % 8, t.value[0] / 8);
    }

    /** `push_value`. */
    method PushValue(t: nat, cookie: nat) returns (r: Option<Value>)
      requires Valid()
      modifies this
      ensures Valid() && Reads(r, DecodeValue(old(Left()), t, cookie), Left())
      decreases len, 3
    {
      if t == TYPE_NIL {
        r := Some(Nil);
      } else if t == TYPE_BOOLEAN {
        r := Some(Bool(cookie != 0));
      } else if t == TYPE_NUMBER {
        if cookie == TYPE_NUMBER_REAL {
          var bits := Read(8);
          r := if bits.None? then None else Some(Real(bits.value));
        } else {
          var n := GetInteger(cookie);
          r := if n.None? then None else Some(Int(n.value));
        }
      } else if t == TYPE_USERDATA {
        var bits := Read(8);
        r := if bits.None? then None else Some(Pointer(bits.value));
      } else if t == TYPE_SHORT_STRING {
        var s := GetBuffer(cookie);
        r := if s.None? then None else Some(Str(s.value));
      } else if t == TYPE_LONG_STRING {
        if cookie != 2 && cookie != 4 {
          return None;
        }
        var size := Read(cookie);
        if size.None? {
          return None;
        }
        var s := GetBuffer(Unsigned(size.value));
        r := if s.None? then None else Some(Str(s.value));
      } else if t == TYPE_TABLE {
        r := UnpackTable(cookie);
      } else {
        r := None;
      }
    }

    /** `unpack_table`. */
    method UnpackTable(cookie: nat) returns (r: Option<Value>)
      requires Valid()
      modifies this
      ensures Valid() && Reads(r, DecodeTable(old(Left()), cookie), Left())
      decreases len, 2
    {
      var size: int := cookie;
      if cookie == MAX_COOKIE - 1 {
        var t := Read(1);
        if t.None? || t.value[0] % 8 != TYPE_NUMBER || t.value[0] / 8 == TYPE_NUMBER_REAL {
          return None;
        }
        var n := GetInteger(t.value[0] / 8);
        if n.None? {
          return None;
        }
        size := Int32(n.value);
      }
      var items := UnpackItems(if size < 0 then 0 else size);
      if items.None? {
        return None;
      }
      var pairs := UnpackPairs();
      r := if pairs.None? then None else Some(Table(items.value, pairs.value));
    }

    /** The first loop of `unpack_table`. */
    method UnpackItems(n: nat) returns (r: Option<seq<Value>>)
      requires Valid()
      modifies this
      ensures Valid() && Reads(r, DecodeAll(old(Left()), n), Left())
      decreases len, 1
    {
      hide Decode;
      var items: seq<Value> := [];
      var i := 0;
      AfterNone(DecodeAll(Left(), n));
      while i < n
        invariant 0 <= i <= n && Valid() && len <= old(len)
        invariant DecodeAll(old(Left()), n) == After(items, DecodeAll(Left(), n - i))
      {
        var v := UnpackOne();
        if v.None? {
          return None;
        }
        AfterNext(items, v.value, DecodeAll(Left(), n - i - 1));
        items := items + [v.value];
        i := i + 1;
      }
      assert items + [] == items;
      r := Some(items);
    }

    /** The second loop of `unpack_table`. */
    method UnpackPairs() returns (r: Option<seq<Pair>>)
      requires Valid()
      modifies this
      ensures Valid() && Reads(r, DecodePairs(old(Left())), Left())
      decreases len, 1
    {
      hide Decode, KeyOk;
      var pairs: seq<Pair> := [];
      AfterNone(DecodePairs(Left()));
      while true
        invariant Valid() && len <= old(len)
        invariant DecodePairs(old(Left())) == After(pairs, DecodePairs(Left()))
        decreases len
      {
        var k := UnpackOne();
        if k.None? {
          return None;
        }
        if k.value == Nil {
          assert pairs + [] == pairs;
          return Some(pairs);
        }
        var v := UnpackOne();
        if v.None? || !KeyOk(k.value) {
          return None;
        }
        AfterNext(pairs, Pair(k.value, v.value), DecodePairs(Left()));
        pairs := pairs + [Pair(k.value, v.value)];
      }
    }
  }

  lemma AfterNext<T>(before: seq<T>, x: T, r: Parsed<seq<T>>)
    ensures After(before, After([x], r)) == After(before + [x], r)
  {
    if r.Parsed? { Assoc(before, [x], r.value); }
  }

  lemma AfterNone<T>(r: Parsed<seq<T>>)
    ensures After([], r) == r
  {
    if r.Parsed? { NoMore(r.value); }
  }

  /** What was read before, then what `r` says. */
  function After<T>(before: seq<T>, r: Parsed<seq<T>>): Parsed<seq<T>> {
    if r.Bad? then Bad else Parsed(before + r.value, r.rest)
  }

  /** What a method of the reader returns agrees with the specification. */
  ghost predicate Reads<T>(r: Option<T>, spec: Parsed<T>, left: seq<Byte>) {
    match r
    case None => spec.Bad?
    case Some(v) => spec == Parsed(v, left)
  }

  /** `luaseri_unpack`. */
  method Unpack(buffer: array<Byte>) returns (r: Option<seq<Value>>)
    ensures r == Unpacked(buffer[..])
  {
    hide Decode, Joined;
    var rb := new ReadBlock(buffer);
    var vs: seq<Value> := [];
    JoinedNone(Unpacked(buffer[..]));
    while rb.len > 0
      invariant fresh(rb) && rb.Valid()
      invariant Unpacked(buffer[..]) == Joined(vs, Unpacked(rb.Left()))
      decreases rb.len
    {
      var v := rb.UnpackOne();
      if v.None? {
        JoinedEnd(vs);
        return None;
      }
      JoinedNext(vs, v.value, Unpacked(rb.Left()));
      vs := vs + [v.value];
    }
    JoinedEnd(vs);
    return Some(vs);
  }

  /** Out and back. */
  method PackAndUnpack(vs: seq<Value>) returns (r: Option<seq<Value>>)
    requires |EncodeAll(vs)| < TWO_TO_31 && forall i | 0 <= i < |vs| :: KeysOk(vs[i])
    ensures r == if forall i | 0 <= i < |vs| :: Supported(vs[i]) && Height(vs[i]) <= MAX_DEPTH then Some(vs) else None
  {
    forall i | 0 <= i < |vs| { DepthLimit(vs[i], 0); }
    var packed := Pack(vs);
    if packed.None? {
      return None;
    }
    ListRoundTrip(vs);
    r := Unpack(packed.value);
  }
}
