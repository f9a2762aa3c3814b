/** Forms of the serializer: what it writes is the shortest that it reads, which heads it reads, and which strings and
    keys it refuses. */
module LuaSeriForms {
  import opened Common
  import opened Numbers
  import opened LuaSeri

  /** How many bytes of `s` were read. */
  function Used<T>(s: seq<Byte>, r: Parsed<T>): int
    requires r.Parsed?
  {
    |s| - |r.rest|
  }

  lemma ShortInt(s: seq<Byte>, cookie: nat)
    requires DecodeInt(s, cookie).Parsed?
    ensures 1 + Used(s, DecodeInt(s, cookie)) >= |EncodeInt(DecodeInt(s, cookie).value)|
    ensures |EncodeInt(DecodeInt(s, cookie).value)| <= 9
  {
    hide Little, Unsigned, Power256;
    Powers();
    if cookie == TYPE_NUMBER_WORD { UnsignedLess(s[..2]); }
    if cookie == TYPE_NUMBER_DWORD { SignedSmall(s[..4]); }
  }

  lemma SignedSmall(s: seq<Byte>)
    requires |s| == 4
    ensures -TWO_TO_31 <= Signed(s) < TWO_TO_31
  {
    UnsignedLess(s);
    Powers();
  }

  lemma ShortStr(t: seq<Byte>)
    ensures |EncodeStr(t)| == |t| + if |t| < MAX_COOKIE then 1 else if |t| < 0x10000 then 3 else 5
  {
  }

  lemma ShortSize(s: seq<Byte>, cookie: nat)
    requires cookie < MAX_COOKIE && DecodeSize(s, cookie).Parsed?
    ensures var n := DecodeSize(s, cookie).value;
            1 + Used(s, DecodeSize(s, cookie)) >= |EncodeSize(if n < 0 then 0 else n)|
  {
    hide EncodeInt, DecodeInt;
    if cookie == MAX_COOKIE - 1 {
      var r := DecodeInt(s[1..], s[0] / 8);
      ShortInt(s[1..], s[0] / 8);
      var n := Int32(r.value);
      if n >= MAX_COOKIE - 1 && n != r.value { LongInt(r.value); }
      ShortCount(if n < 0 then 0 else n);
    }
  }

  lemma LongInt(n: Integer)
    requires Int32(n) != n
    ensures |EncodeInt(n)| == 9
  {
  }

  lemma ShortCount(n: nat)
    requires n < TWO_TO_31
    ensures |EncodeSize(n)| <= 6
    ensures n >= MAX_COOKIE - 1 ==> |EncodeSize(n)| == 1 + |EncodeInt(n)|
    ensures n < MAX_COOKIE - 1 ==> |EncodeSize(n)| == 1
  {
  }

  lemma {:induction false} ShortValue(s: seq<Byte>)
    requires Decode(s).Parsed?
    ensures Used(s, Decode(s)) >= |Encode(Decode(s).value)|
    decreases |s|, 0
  {
    hide DecodeInt, DecodeBytes, EncodeInt, EncodeStr, DecodeTable, EncodeSize;
    var t, cookie := s[0] % 8, s[0] / 8;
    var v := Decode(s).value;
    if t == TYPE_NUMBER && cookie != TYPE_NUMBER_REAL {
      ShortInt(s[1..], cookie);
    } else if t == TYPE_SHORT_STRING {
      StringRead(s[1..], cookie);
      ShortStr(v.s);
    } else if t == TYPE_LONG_STRING {
      StringRead(s[1..][cookie..], Unsigned(s[1..][..cookie]));
      ShortLong(s[1..], cookie);
      ShortStr(v.s);
    } else if t == TYPE_TABLE {
      ShortTable(s[1..], cookie);
    }
  }

  lemma StringRead(s: seq<Byte>, n: nat)
    requires DecodeBytes(s, n).Parsed?
    ensures |DecodeBytes(s, n).value| == n == Used(s, DecodeBytes(s, n))
  {
  }

  lemma ShortLong(s: seq<Byte>, cookie: nat)
    requires (cookie == 2 || cookie == 4) && |s| >= cookie
    ensures cookie == 2 ==> Unsigned(s[..cookie]) < 0x10000
  {
    UnsignedLess(s[..cookie]);
    Powers();
  }

  lemma {:induction false} ShortTable(s: seq<Byte>, cookie: nat)
    requires cookie < MAX_COOKIE && DecodeTable(s, cookie).Parsed?
    ensures DecodeTable(s, cookie).value.Table?
    ensures 1 + Used(s, DecodeTable(s, cookie)) >= |Encode(DecodeTable(s, cookie).value)|
    decreases |s|, 3
  {
    hide DecodeSize, Decode, EncodeSize;
    var size := DecodeSize(s, cookie);
    var n := if size.value < 0 then 0 else size.value;
    ShortSize(s, cookie);
    ShortItems(size.rest, n);
    var items := DecodeAll(size.rest, n);
    ShortPairs(items.rest);
  }

  lemma {:induction false} ShortItems(s: seq<Byte>, n: nat)
    requires DecodeAll(s, n).Parsed?
    ensures |DecodeAll(s, n).value| == n && Used(s, DecodeAll(s, n)) >= |EncodeAll(DecodeAll(s, n).value)|
    decreases |s|, 1, n
  {
    hide Decode, Encode;
    if n > 0 {
      ShortValue(s);
      ShortItems(Decode(s).rest, n - 1);
      var vs := DecodeAll(s, n).value;
      assert vs[1..] == DecodeAll(Decode(s).rest, n - 1).value;
    }
  }

  lemma {:induction false} ShortPairs(s: seq<Byte>)
    requires DecodePairs(s).Parsed?
    ensures Used(s, DecodePairs(s)) >= |EncodePairs(DecodePairs(s).value)| + 1
    decreases |s|, 1, 0
  {
    hide Decode, Encode;
    var k := Decode(s);
    if k.value != Nil {
      ShortValue(s);
      ShortValue(k.rest);
      var v := Decode(k.rest);
      ShortPairs(v.rest);
      var ps := DecodePairs(s).value;
      assert ps[0] == Pair(k.value, v.value) && ps[1..] == DecodePairs(v.rest).value;
    }
  }

  /** No bytes that are read as the same values are shorter than those that are written. */
  lemma {:induction false} Shortest(s: seq<Byte>, vs: seq<Value>)
    requires Unpacked(s) == Some(vs)
    ensures |EncodeAll(vs)| <= |s|
    decreases |s|
  {
    hide Decode, Encode;
    if s != [] {
      var v := Decode(s);
      ShortValue(s);
      Shortest(v.rest, Unpacked(v.rest).value);
      assert vs[1..] == Unpacked(v.rest).value;
    }
  }

  /** Heads that mean something. A nil and a pointer ignore the rest of the byte; a boolean is true for any rest but
      0. */
  predicate HeadOk(head: Byte) {
    var t, cookie := head % 8, head / 8;
    || t == TYPE_NIL || t == TYPE_BOOLEAN || t == TYPE_USERDATA || t == TYPE_SHORT_STRING || t == TYPE_TABLE
    || (t == TYPE_NUMBER && cookie in {TYPE_NUMBER_ZERO, TYPE_NUMBER_BYTE, TYPE_NUMBER_WORD, TYPE_NUMBER_DWORD,
                                       TYPE_NUMBER_QWORD, TYPE_NUMBER_REAL})
    || (t == TYPE_LONG_STRING && (cookie == 2 || cookie == 4))
  }

  /** A value is read only from such a head. */
  lemma HeadsRead(s: seq<Byte>)
    requires Decode(s).Parsed?
    ensures s != [] && HeadOk(s[0])
  {
    hide DecodeTable, DecodeBytes;
  }

  /** A string of 2^31 bytes or more is written, but its length is negative to the reader: it is refused, whatever
      follows. */
  lemma LongRefused(t: seq<Byte>, more: seq<Byte>)
    requires TWO_TO_31 <= |t| < TWO_TO_32
    ensures Decode(EncodeStr(t) + more) == Bad
  {
    hide Little, Unsigned;
    var length := Little(|t|, 4);
    UnsignedLittle(|t|, 4);
    Powers();
    ModUnique(|t|, Power256(4), 0, |t|);
    var s := EncodeStr(t) + more;
    assert s[0] % 8 == TYPE_LONG_STRING && s[0] / 8 == 4;
    assert s[1..][..4] == length;
  }

  /** The bit pattern of infinity; those above it, the sign put aside, are no numbers (section 3.4 of IEEE 754). */
  const INFINITY: nat := 0x7FF0_0000_0000_0000

  /** The keys that a table cannot have: nil and the patterns that are no number. */
  lemma KeyOkIs(k: Value)
    ensures KeyOk(k) <==> k != Nil && !(k.Real? && Unsigned(k.bits) % TWO_TO_63 > INFINITY)
  {
    if k.Real? { NaNIs(k.bits); }
  }

  lemma NaNIs(b: Eight)
    ensures IsNaN(b) <==> Unsigned(b) % TWO_TO_63 > INFINITY
  {
    hide Unsigned, Power256;
    var low := b[..6];
    assert b == low + [b[6], b[7]];
    UnsignedTwo(low, b[6], b[7]);
    UnsignedLess(low);
    UnsignedZero(low);
    SixBytes();
    AboveInfinity(Unsigned(low), b[6], b[7]);
    assert low == [0, 0, 0, 0, 0, 0] <==> forall i | 0 <= i < 6 :: low[i] == 0;
  }

  lemma SixBytes()
    ensures Power256(6) == 0x1_0000_0000_0000
  {
    Powers();
    assert Power256(4) == 256 * 256 * Power256(2);
    assert Power256(6) == 256 * 256 * Power256(4);
  }

  lemma AboveInfinity(low: nat, x: Byte, y: Byte)
    requires low < 0x1_0000_0000_0000
    ensures var n := low + 0x1_0000_0000_0000 * (x + 256 * y);
            n % TWO_TO_63 > INFINITY <==> y % 128 == 127 && x / 16 == 15 && !(x % 16 == 0 && low == 0)
  {
    var r := low + 0x1_0000_0000_0000 * (x + 256 * (y % 128));
    var n := low + 0x1_0000_0000_0000 * (x + 256 * y);
    assert n == TWO_TO_63 * (y / 128) + r;
    ModUnique(n, TWO_TO_63, y / 128, r);
  }

  lemma Shifted(a: int, u: int, p: int, w: int)
    ensures a + 256 * (u + p * w) == a + 256 * u + (256 * p) * w
  {
  }

  lemma {:induction false} UnsignedTwo(s: seq<Byte>, x: Byte, y: Byte)
    ensures Unsigned(s + [x, y]) == Unsigned(s) + Power256(|s|) * (x + 256 * y)
    decreases |s|
  {
    if s == [] {
      assert s + [x, y] == [x, y] && [x, y][1..] == [y] && [y][1..] == [];
    } else {
      UnsignedTwo(s[1..], x, y);
      assert (s + [x, y])[1..] == s[1..] + [x, y];
      Shifted(s[0], Unsigned(s[1..]), Power256(|s| - 1), x + 256 * y);
    }
  }
}
