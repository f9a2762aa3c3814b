/** Stored character sets (lpcset.c). A set is a bitmap of 32 bytes; trees and instructions keep only the bytes outside
    a run of zeros or of ones. The stored form has the members of the bitmap, and two sets are stored alike only when
    they are equal, which is why the compiler and the machine may be described with plain sets. */
module LpegCharset {
  import opened LpegTree
  import opened LpegCode

  type Octet = bv8

  /** Bytes of a bitmap. */
  const SIZE: nat := 32

  /** Bytes of an instruction. */
  const INSTRUCTION: nat := 4

  const TWO_TO_THE_32: nat := 0x1_0000_0000

  type Bitmap = s: seq<Octet> | |s| == SIZE witness seq(SIZE, _ => 0)

  function Mask(k: nat): Octet {
    match k
    case 0 => 1
    case 1 => 2
    case 2 => 4
    case 3 => 8
    case 4 => 16
    case 5 => 32
    case 6 => 64
    case _ => 128
  }

  /** Bit `k` of one byte. */
  predicate Bit(b: Octet, k: nat) {
    b & Mask(k) != 0
  }

  /** `testchar`. */
  predicate TestChar(buff: seq<Octet>, c: nat)
    requires c < 8 * |buff|
  {
    Bit(buff[c / 8], c % 8)
  }

  /** The set that a bitmap stands for. */
  function Chars(cs: Bitmap): CharSet {
    set c: Byte | IsByte(c) && TestChar(cs, c)
  }

  /** What `charsettype` finds. A general set keeps the bytes from `offset` on; all others have the value `deflt`. */
  datatype Kind = Nothing | Single(c: Byte) | Everything | General(info: Info)

  datatype Info = Info(offset: nat, bytes: seq<Octet>, deflt: Octet)

  predicate InfoOk(info: Info) {
    && info.offset + |info.bytes| <= SIZE && info.bytes != []
    && (info.deflt == 0 || info.deflt == 0xFF)
  }

  /** `onlybit`. */
  function OnlyBit(c: int, b: Octet): int {
    var (c1, b1) := if b & 0xF0 != 0 then (c + 4, b >> 4) else (c, b);
    var (c2, b2) := if b1 & 0x0C != 0 then (c1 + 2, b1 >> 2) else (c1, b1);
    if b2 & 0x02 != 0 then c2 + 1 else c2
  }

  /** A byte with a single bit: the bit is found, and it is the only one. */
  lemma OnlyBitFound(c: int, b: Octet)
    requires b != 0 && b & (b - 1) == 0
    ensures 0 <= OnlyBit(c, b) - c < 8
    ensures forall k | 0 <= k < 8 :: Bit(b, k) <==> k == OnlyBit(c, b) - c
  {
  }

  lemma SameBits(a: Octet, b: Octet)
    requires forall k | 0 <= k < 8 :: Bit(a, k) == Bit(b, k)
    ensures a == b
  {
    assert Bit(a, 0) == Bit(b, 0) && Bit(a, 1) == Bit(b, 1) && Bit(a, 2) == Bit(b, 2) && Bit(a, 3) == Bit(b, 3);
    assert Bit(a, 4) == Bit(b, 4) && Bit(a, 5) == Bit(b, 5) && Bit(a, 6) == Bit(b, 6) && Bit(a, 7) == Bit(b, 7);
  }

  /** The member that stands for bit `k` of byte `i`. */
  lemma Located(i: nat, k: nat)
    requires i < SIZE && k < 8
    ensures (8 * i + k) / 8 == i && (8 * i + k) % 8 == k && 8 * i + k < 256
  {
  }

  lemma CharBit(cs: Bitmap, i: nat, k: nat)
    requires i < SIZE && k < 8
    ensures IsByte(8 * i + k) && (8 * i + k in Chars(cs) <==> Bit(cs[i], k))
  {
    Located(i, k);
  }

  /** A bitmap is determined by its members. */
  lemma SameChars(a: Bitmap, b: Bitmap)
    requires Chars(a) == Chars(b)
    ensures a == b
  {
    forall i | 0 <= i < SIZE ensures a[i] == b[i] {
      forall k | 0 <= k < 8 ensures Bit(a[i], k) == Bit(b[i], k) {
        CharBit(a, i, k);
        CharBit(b, i, k);
      }
      SameBits(a[i], b[i]);
    }
  }

  /** Index of the first byte from `i` on that is not `v`. */
  function First(cs: Bitmap, v: Octet, i: nat): (r: nat)
    requires i <= SIZE
    ensures i <= r <= SIZE && (r < SIZE ==> cs[r] != v)
    ensures forall j | i <= j < r :: cs[j] == v
    decreases SIZE - i
  {
    if i < SIZE && cs[i] == v then First(cs, v, i + 1) else i
  }

  /** Index of the last byte up to `i` that is not `v`. */
  function Last(cs: Bitmap, v: Octet, i: int): (r: int)
    requires -1 <= i < SIZE
    ensures -1 <= r <= i && (r >= 0 ==> cs[r] != v)
    ensures forall j | r < j <= i :: cs[j] == v
    decreases i
  {
    if i >= 0 && cs[i] == v then Last(cs, v, i - 1) else i
  }

  /** The bytes of a bitmap outside the outer runs of `v`. */
  function Between(cs: Bitmap, v: Octet): (info: Info)
    requires v == 0 || v == 0xFF
    requires First(cs, v, 0) < SIZE
    ensures InfoOk(info)
  {
    var low := First(cs, v, 0);
    assert cs[low] != v;
    var high := Last(cs, v, SIZE - 1);
    Info(low, cs[low..high + 1], v)
  }

  function TypeOf(cs: Bitmap): Kind {
    var low1 := First(cs, 0, 0);
    if low1 == SIZE then Nothing
    else if |Between(cs, 0).bytes| == 1 && cs[low1] & (cs[low1] - 1) == 0 then
      OnlyBitFound(8 * low1, cs[low1]);
      Single(OnlyBit(8 * low1, cs[low1]))
    else if First(cs, 0xFF, 0) == SIZE then Everything
    else if |Between(cs, 0).bytes| <= |Between(cs, 0xFF).bytes| then General(Between(cs, 0))
    else General(Between(cs, 0xFF))
  }

  lemma {:induction false} FirstIs(cs: Bitmap, v: Octet, i: nat, k: nat)
    requires i <= k <= SIZE && (k < SIZE ==> cs[k] != v) && forall j | i <= j < k :: cs[j] == v
    ensures First(cs, v, i) == k
  {
  }

  lemma {:induction false} LastIs(cs: Bitmap, v: Octet, i: nat, k: nat)
    requires k <= i < SIZE && cs[k] != v && forall j | k < j <= i :: cs[j] == v
    ensures Last(cs, v, i) == k
  {
  }

  lemma BetweenIs(cs: Bitmap, v: Octet, low: nat, high: int)
    requires v == 0 || v == 0xFF
    requires First(cs, v, 0) == low < SIZE && Last(cs, v, SIZE - 1) == high
    ensures low <= high && Between(cs, v) == Info(low, cs[low..high + 1], v)
  {
  }

  /** `charsettype`. */
  method CharSetType(cs: Bitmap) returns (kind: Kind)
    ensures kind == TypeOf(cs)
  {
    hide First, Last, Between, OnlyBit, Bit, Mask, InfoOk;
    var low1 := 0;
    while low1 < SIZE && cs[low1] == 0
      invariant 0 <= low1 <= SIZE && forall j | 0 <= j < low1 :: cs[j] == 0
    {
      low1 := low1 + 1;
    }
    FirstIs(cs, 0, 0, low1);
    if low1 == SIZE {
      return Nothing;
    }
    var high1 := SIZE - 1;
    while cs[high1] == 0
      invariant low1 <= high1 < SIZE && forall j | high1 < j < SIZE :: cs[j] == 0
      decreases high1
    {
      high1 := high1 - 1;
    }
    LastIs(cs, 0, SIZE - 1, high1);
    BetweenIs(cs, 0, low1, high1);
    if low1 == high1 {
      var b := cs[low1];
      if b & (b - 1) == 0 {
        OnlyBitFound(low1 * 8, b);
        return Single(OnlyBit(low1 * 8, b));
      }
    }
    var low0 := 0;
    while low0 < SIZE && cs[low0] == 0xFF
      invariant 0 <= low0 <= SIZE && forall j | 0 <= j < low0 :: cs[j] == 0xFF
    {
      low0 := low0 + 1;
    }
    FirstIs(cs, 0xFF, 0, low0);
    if low0 == SIZE {
      return Everything;
    }
    var high0 := SIZE - 1;
    while cs[high0] == 0xFF
      invariant low0 <= high0 < SIZE && forall j | high0 < j < SIZE :: cs[j] == 0xFF
      decreases high0
    {
      high0 := high0 - 1;
    }
    LastIs(cs, 0xFF, SIZE - 1, high0);
    BetweenIs(cs, 0xFF, low0, high0);
    if high1 - low1 <= high0 - low0 {
      kind := General(Info(low1, cs[low1..high1 + 1], 0));
    } else {
      kind := General(Info(low0, cs[low0..high0 + 1], 0xFF));
    }
  }

  /** The bitmap that a stored set is expanded to (`tocharset`, case TSet). */
  function Expanded(info: Info): Bitmap
    requires InfoOk(info)
  {
    seq(SIZE, i => if info.offset <= i < info.offset + |info.bytes| then info.bytes[i - info.offset] else info.deflt)
  }

  /** Of all ways to store a set, with either default, the one chosen takes the fewest bytes. */
  lemma StoredShortest(cs: Bitmap, other: Info)
    requires TypeOf(cs).General? && InfoOk(other) && (other.deflt == 0 || other.deflt == 0xFF)
    requires Expanded(other) == cs
    ensures |TypeOf(cs).info.bytes| <= |other.bytes|
  {
    var v := other.deflt;
    var low, high := First(cs, v, 0), Last(cs, v, SIZE - 1);
    assert cs[low] != v && cs[high] != v;
    assert Expanded(other)[low] != v && Expanded(other)[high] != v;
    BetweenIs(cs, v, low, high);
  }

  /** `tocharset` for the four trees that match a single character. */
  function Bits(kind: Kind): Bitmap
    requires kind.General? ==> InfoOk(kind.info)
  {
    match kind
    case Nothing => seq(SIZE, _ => 0)
    case Single(c) => seq(SIZE, i => if i == c / 8 then Mask(c % 8) else 0)
    case Everything => seq(SIZE, _ => 0xFF)
    case General(info) => Expanded(info)
  }

  /** `tocharset`, with the bitmap filled in place. */
  method ToCharset(kind: Kind, cs: array<Octet>)
    requires cs.Length == SIZE && (kind.General? ==> InfoOk(kind.info))
    modifies cs
    ensures cs[..] == Bits(kind)
  {
    match kind {
      case Single(c) =>
        FillSet(cs, 0);
        cs[c / 8] := cs[c / 8] | Mask(c % 8);
      case Everything =>
        FillSet(cs, 0xFF);
      case Nothing =>
        FillSet(cs, 0);
      case General(info) =>
        FillSet(cs, info.deflt);
        var i := 0;
        while i < |info.bytes|
          invariant 0 <= i <= |info.bytes|
          invariant forall j | 0 <= j < SIZE ::
            cs[j] == if info.offset <= j < info.offset + i then info.bytes[j - info.offset] else info.deflt
        {
          cs[info.offset + i] := info.bytes[i];
          i := i + 1;
        }
    }
  }

  /** `fillset`. */
  method FillSet(cs: array<Octet>, b: Octet)
    requires cs.Length == SIZE
    modifies cs
    ensures forall j | 0 <= j < SIZE :: cs[j] == b
  {
    for i := 0 to SIZE
      invariant forall j | 0 <= j < i :: cs[j] == b
    {
      cs[i] := b;
    }
  }

  lemma BetweenExpanded(cs: Bitmap, v: Octet)
    requires v == 0 || v == 0xFF
    requires First(cs, v, 0) < SIZE
    ensures Expanded(Between(cs, v)) == cs
  {
  }

  /** A byte apart from which all are zero, and which has one bit. */
  lemma SingleBits(cs: Bitmap, i: nat)
    requires i < SIZE && cs[i] != 0 && cs[i] & (cs[i] - 1) == 0
    requires forall j | 0 <= j < SIZE && j != i :: cs[j] == 0
    ensures 0 <= OnlyBit(8 * i, cs[i]) < 256
    ensures Bits(Single(OnlyBit(8 * i, cs[i]))) == cs
  {
    OnlyBitFound(8 * i, cs[i]);
    var k := OnlyBit(8 * i, cs[i]) - 8 * i;
    Located(i, k);
    OneBit(cs[i], k);
  }

  lemma OneBit(b: Octet, k: nat)
    requires k < 8 && forall j | 0 <= j < 8 :: Bit(b, j) <==> j == k
    ensures b == Mask(k)
  {
    forall j | 0 <= j < 8 ensures Bit(Mask(k), j) <==> j == k {}
    SameBits(b, Mask(k));
  }

  /** A byte is all that is not zero. */
  lemma BetweenOne(cs: Bitmap)
    requires First(cs, 0, 0) < SIZE && |Between(cs, 0).bytes| == 1
    ensures var i := First(cs, 0, 0); cs[i] != 0 && forall j | 0 <= j < SIZE && j != i :: cs[j] == 0
  {
  }

  /** Storing a set in a tree and expanding the tree gives the set back. */
  lemma StoredWhole(cs: Bitmap)
    ensures TypeOf(cs).General? ==> InfoOk(TypeOf(cs).info)
    ensures Bits(TypeOf(cs)) == cs
  {
    hide First, Between, Expanded, InfoOk, OnlyBit;
    var low1 := First(cs, 0, 0);
    if low1 < SIZE {
      BetweenExpanded(cs, 0);
      if |Between(cs, 0).bytes| == 1 && cs[low1] & (cs[low1] - 1) == 0 {
        BetweenOne(cs);
        SingleBits(cs, low1);
      }
      if First(cs, 0xFF, 0) < SIZE { BetweenExpanded(cs, 0xFF); }
    }
  }

  lemma MaskFound(i: nat, k: nat)
    requires k < 8
    ensures Mask(k) != 0 && Mask(k) & (Mask(k) - 1) == 0 && OnlyBit(8 * i, Mask(k)) == 8 * i + k
  {
  }

  /** The special forms are recognised. */
  lemma SpecialFound(kind: Kind)
    requires !kind.General?
    ensures TypeOf(Bits(kind)) == kind
  {
    hide Mask, OnlyBit, First, Last, Between, InfoOk;
    var cs := Bits(kind);
    match kind {
      case Nothing =>
        FirstIs(cs, 0, 0, SIZE);
      case Everything =>
        FirstIs(cs, 0, 0, 0);
        LastIs(cs, 0, SIZE - 1, SIZE - 1);
        BetweenIs(cs, 0, 0, SIZE - 1);
        FirstIs(cs, 0xFF, 0, SIZE);
      case Single(c) =>
        var i := c / 8;
        MaskFound(i, c % 8);
        FirstIs(cs, 0, 0, i);
        LastIs(cs, 0, SIZE - 1, i);
        BetweenIs(cs, 0, i, i);
    }
  }

  lemma BitsChars(kind: Kind)
    requires !kind.General?
    ensures Chars(Bits(kind)) == match kind
                                 case Nothing => {}
                                 case Single(c) => {c}
                                 case _ => Full()
  {
    var cs := Bits(kind);
    if kind.Single? {
      forall c: Byte ensures c in Chars(cs) <==> c == kind.c {
        OneMask(c % 8, kind.c % 8);
        assert IsByte(c);
      }
    } else {
      forall c: Byte ensures c in Chars(cs) <==> kind.Everything? { assert IsByte(c); }
    }
  }

  lemma OneMask(j: nat, k: nat)
    requires j < 8 && k < 8
    ensures Bit(Mask(k), j) <==> j == k
    ensures !Bit(0, j) && Bit(0xFF, j)
  {
  }

  /** The kind of a set says whether it is empty, full, or a single character. */
  lemma KindMeans(cs: Bitmap)
    ensures TypeOf(cs).Nothing? <==> Chars(cs) == {}
    ensures TypeOf(cs).Everything? <==> Chars(cs) == Full()
    ensures forall c: Byte :: TypeOf(cs) == Single(c) <==> Chars(cs) == {c}
  {
    StoredWhole(cs);
    KindIs(cs, Nothing);
    KindIs(cs, Everything);
    forall c: Byte ensures TypeOf(cs) == Single(c) <==> Chars(cs) == {c} { KindIs(cs, Single(c)); }
  }

  lemma KindIs(cs: Bitmap, kind: Kind)
    requires !kind.General?
    ensures TypeOf(cs) == kind <==> Chars(cs) == Chars(Bits(kind))
    ensures Chars(Bits(kind)) == match kind
                                 case Nothing => {}
                                 case Single(c) => {c}
                                 case _ => Full()
  {
    hide TypeOf, Chars, Bits;
    StoredWhole(cs);
    SpecialFound(kind);
    BitsChars(kind);
    if Chars(cs) == Chars(Bits(kind)) { SameChars(cs, Bits(kind)); }
  }

  /** The form of test that `codetestset` picks from the bitmap is the one the compiler picks from the set. */
  lemma TestTypes(cs: Bitmap)
    ensures TestFor(Chars(cs), false) == match TypeOf(cs)
                                         case Nothing => TestNone
                                         case Everything => TestAll
                                         case Single(c) => TestOne(c)
                                         case General(_) => TestIn(Chars(cs))
  {
    hide TypeOf, Chars;
    KindMeans(cs);
    match TypeOf(cs) {
      case Single(c) =>
        assert Chars(cs) == {c};
      case General(_) =>
        forall c: Byte ensures Chars(cs) != {c} {}
      case _ =>
    }
  }

  /** `instsize`. */
  function InstSize(l: nat): (n: nat)
    ensures l <= INSTRUCTION * n < l + INSTRUCTION
  {
    (l + INSTRUCTION - 1) / INSTRUCTION
  }

  /** `getbytefromcharset`. */
  function GetByte(info: Info, index: nat): Octet {
    if index < |info.bytes| then info.bytes[index] else info.deflt
  }

  /** The fields of a set instruction: its offset in bits, its size in instructions, and the bytes that follow it. */
  datatype SetInstr = SetInstr(offset: nat, size: nat, deflt: Octet, buff: seq<Octet>)

  function Packed(info: Info): SetInstr {
    var n := InstSize(|info.bytes|);
    SetInstr(info.offset * 8, n, info.deflt, seq(n * INSTRUCTION, i requires i >= 0 => GetByte(info, i)))
  }

  /** `addcharset`: fill the space after the instruction. */
  method AddCharset(info: Info, charset: array<Octet>)
    requires charset.Length == InstSize(|info.bytes|) * INSTRUCTION
    modifies charset
    ensures charset[..] == Packed(info).buff
  {
    for i := 0 to charset.Length
      invariant forall j | 0 <= j < i :: charset[j] == GetByte(info, j)
    {
      charset[i] := GetByte(info, i);
    }
  }

  /** `charinset`; the subtraction is one of 32-bit unsigned numbers. */
  predicate CharInSet(i: SetInstr, c: Byte)
    requires |i.buff| == i.size * INSTRUCTION
  {
    var d := (c - i.offset) % TWO_TO_THE_32;
    if d >= i.size * INSTRUCTION * 8 then i.deflt != 0 else TestChar(i.buff, d)
  }

  /** The machine's test of a stored set is membership in the set. */
  lemma StoredTest(info: Info, c: Byte)
    requires InfoOk(info)
    ensures CharInSet(Packed(info), c) <==> c in Chars(Expanded(info))
  {
    var i := Packed(info);
    assert IsByte(c);
    OneMask(c % 8, 0);
    if c < i.offset {
      assert (c - i.offset) % TWO_TO_THE_32 == c - i.offset + TWO_TO_THE_32;
    } else {
      assert (c - i.offset) % TWO_TO_THE_32 == c - i.offset;
      Shifted(c, info.offset);
    }
  }

  lemma Shifted(c: nat, k: nat)
    requires c >= 8 * k
    ensures (c - 8 * k) / 8 == c / 8 - k && (c - 8 * k) % 8 == c % 8
  {
  }

  /** An instruction that may dominate a set: a test of a set, or anything else. */
  datatype Dominator = TestSet(set1: SetInstr) | Other

  /** `cs_equal`. */
  method CsEqual(instr: Dominator, info: Info) returns (equal: bool)
    requires instr.TestSet? ==> |instr.set1.buff| == instr.set1.size * INSTRUCTION
    ensures equal <==> instr == TestSet(Packed(info))
  {
    if instr.Other? {
      return false;
    }
    var p := instr.set1;
    if p.offset != info.offset * 8 || p.size != InstSize(|info.bytes|) || p.deflt != info.deflt {
      return false;
    }
    for i := 0 to InstSize(|info.bytes|) * INSTRUCTION
      invariant forall j | 0 <= j < i :: p.buff[j] == GetByte(info, j)
    {
      if p.buff[i] != GetByte(info, i) {
        return false;
      }
    }
    return true;
  }

  /** Two general sets are stored alike in instructions exactly when they are equal. */
  lemma StoredEqual(a: Bitmap, b: Bitmap)
    requires TypeOf(a).General? && TypeOf(b).General?
    ensures Packed(TypeOf(a).info) == Packed(TypeOf(b).info) <==> Chars(a) == Chars(b)
  {
    hide TypeOf, Chars, Packed, Expanded, CharInSet, InfoOk;
    StoredWhole(a);
    StoredWhole(b);
    var ia, ib := TypeOf(a).info, TypeOf(b).info;
    if Packed(ia) == Packed(ib) {
      forall c: Byte ensures c in Chars(a) <==> c in Chars(b) {
        StoredTest(ia, c);
        StoredTest(ib, c);
      }
    }
    if Chars(a) == Chars(b) { SameChars(a, b); }
  }
}
