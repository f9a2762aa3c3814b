/** DES with padding (lua-crypt.c). The S-boxes and the key schedule are parameters here: what this module proves holds
    for any. DesTables has those of the code. */
module Des {
  import opened Common

  type Word = bv32
  type Octet = bv8

  /** `Boxes(i, x)` is entry `x` of S-box `i`; a schedule gives the 32 subkeys of an 8-byte key. */
  type Boxes = (nat, Word) -> Word

  type Subkeys = s: seq<Word> | |s| == 32 witness seq(32, _ => 0)

  type Schedule = seq<Octet> -> Subkeys

  datatype Halves = Halves(x: Word, y: Word)

  // Words and bytes, big-endian

  function GetWord(s: seq<Octet>): Word
    requires |s| == 4
  {
    (s[0] as Word << 24) | (s[1] as Word << 16) | (s[2] as Word << 8) | s[3] as Word
  }

  function PutWord(n: Word): (s: seq<Octet>)
    ensures |s| == 4
  {
    [((n >> 24) & 0xFF) as Octet, ((n >> 16) & 0xFF) as Octet, ((n >> 8) & 0xFF) as Octet, (n & 0xFF) as Octet]
  }

  lemma GetPut(n: Word)
    ensures GetWord(PutWord(n)) == n
  {
  }

  lemma PutGet(s: seq<Octet>)
    requires |s| == 4
    ensures PutWord(GetWord(s)) == s
  {
  }

  // The permutations

  /** One exchange of bits between two words: those of `a`, shifted by `n`, and those of `b`, under the mask. */
  function Crossed(x: Word, y: Word, n: bv6, mask: Word): Halves
    requires n < 32
  {
    var t := ((x >> n) ^ y) & mask;
    Halves(x ^ (t << n), y ^ t)
  }

  /** Rotation by one bit. */
  function Left(x: Word): Word {
    (x << 1) | (x >> 31)
  }

  function Right(x: Word): Word {
    (x << 31) | (x >> 1)
  }

  /** `DES_IP`. */
  function Initial(h: Halves): Halves {
    var a := Crossed(h.x, h.y, 4, 0x0F0F0F0F);
    var b := Crossed(a.x, a.y, 16, 0x0000FFFF);
    var c := Swap(Crossed(b.y, b.x, 2, 0x33333333));
    var d := Swap(Crossed(c.y, c.x, 8, 0x00FF00FF));
    var e := Halves(d.x, Left(d.y));
    var f := Crossed(e.x, e.y, 0, 0xAAAAAAAA);
    Halves(Left(f.x), f.y)
  }

  function Swap(h: Halves): Halves {
    Halves(h.y, h.x)
  }

  /** `DES_FP`. */
  function Final(h: Halves): Halves {
    var e := Halves(Right(h.x), h.y);
    var d := Crossed(e.x, e.y, 0, 0xAAAAAAAA);
    var c := Halves(d.x, Right(d.y));
    var b := Swap(Crossed(c.y, c.x, 8, 0x00FF00FF));
    var a := Swap(Crossed(b.y, b.x, 2, 0x33333333));
    var z := Crossed(a.x, a.y, 16, 0x0000FFFF);
    Crossed(z.x, z.y, 4, 0x0F0F0F0F)
  }

  lemma CrossedTwice4(x: Word, y: Word)
    ensures var h := Crossed(x, y, 4, 0x0F0F0F0F); Crossed(h.x, h.y, 4, 0x0F0F0F0F) == Halves(x, y)
  {
  }

  lemma CrossedTwice16(x: Word, y: Word)
    ensures var h := Crossed(x, y, 16, 0x0000FFFF); Crossed(h.x, h.y, 16, 0x0000FFFF) == Halves(x, y)
  {
  }

  lemma CrossedTwice2(x: Word, y: Word)
    ensures var h := Crossed(x, y, 2, 0x33333333); Crossed(h.x, h.y, 2, 0x33333333) == Halves(x, y)
  {
  }

  lemma CrossedTwice8(x: Word, y: Word)
    ensures var h := Crossed(x, y, 8, 0x00FF00FF); Crossed(h.x, h.y, 8, 0x00FF00FF) == Halves(x, y)
  {
  }

  lemma CrossedTwice0(x: Word, y: Word)
    ensures var h := Crossed(x, y, 0, 0xAAAAAAAA); Crossed(h.x, h.y, 0, 0xAAAAAAAA) == Halves(x, y)
  {
  }

  lemma RotateBack(x: Word)
    ensures Right(Left(x)) == x && Left(Right(x)) == x
  {
  }

  lemma XorTwice(a: Word, b: Word)
    ensures (a ^ b) ^ b == a
  {
  }

  /** The final permutation undoes the initial one ... */
  lemma FinalInitial(h: Halves)
    ensures Final(Initial(h)) == h
  {
    hide Crossed, Left, Right;
    var a := Crossed(h.x, h.y, 4, 0x0F0F0F0F);
    var b := Crossed(a.x, a.y, 16, 0x0000FFFF);
    var c := Swap(Crossed(b.y, b.x, 2, 0x33333333));
    var d := Swap(Crossed(c.y, c.x, 8, 0x00FF00FF));
    var e := Halves(d.x, Left(d.y));
    var f := Crossed(e.x, e.y, 0, 0xAAAAAAAA);
    CrossedTwice4(h.x, h.y);
    CrossedTwice16(a.x, a.y);
    CrossedTwice2(b.y, b.x);
    CrossedTwice8(c.y, c.x);
    CrossedTwice0(e.x, e.y);
    RotateBack(d.y);
    RotateBack(f.x);
  }

  /** ... and the other way round. */
  lemma InitialFinal(h: Halves)
    ensures Initial(Final(h)) == h
  {
    hide Crossed, Left, Right;
    var e := Halves(Right(h.x), h.y);
    var d := Crossed(e.x, e.y, 0, 0xAAAAAAAA);
    var c := Halves(d.x, Right(d.y));
    var b := Swap(Crossed(c.y, c.x, 8, 0x00FF00FF));
    var a := Swap(Crossed(b.y, b.x, 2, 0x33333333));
    var z := Crossed(a.x, a.y, 16, 0x0000FFFF);
    CrossedTwice0(e.x, e.y);
    CrossedTwice8(c.y, c.x);
    CrossedTwice2(b.y, b.x);
    CrossedTwice16(a.x, a.y);
    CrossedTwice4(z.x, z.y);
    RotateBack(h.x);
    RotateBack(d.y);
  }

  // The rounds

  function XorAll(a: Word, b: Word, c: Word, d: Word, e: Word, f: Word, g: Word, h: Word): Word {
    a ^ b ^ c ^ d ^ e ^ f ^ g ^ h
  }

  /** What the S-boxes give together, each for its own number. */
  function Looked(boxes: Boxes, n1: Word, n2: Word, n3: Word, n4: Word, n5: Word, n6: Word, n7: Word, n8: Word): Word {
    XorAll(boxes(8, n8), boxes(6, n6), boxes(4, n4), boxes(2, n2),
           boxes(7, n7), boxes(5, n5), boxes(3, n3), boxes(1, n1))
  }

  /** What a round adds to the other half. */
  function Mix(boxes: Boxes, k0: Word, k1: Word, x: Word): Word {
    var t := k0 ^ x;
    var u := k1 ^ ((x << 28) | (x >> 4));
    Looked(boxes, (u >> 24) & 0x3F, (t >> 24) & 0x3F, (u >> 16) & 0x3F, (t >> 16) & 0x3F,
           (u >> 8) & 0x3F, (t >> 8) & 0x3F, u & 0x3F, t & 0x3F)
  }

  /** `DES_ROUND`: the new `y`. */
  function Mixed(boxes: Boxes, k0: Word, k1: Word, x: Word, y: Word): Word {
    y ^ Mix(boxes, k0, k1, x)
  }

  /** A round, after which the halves change places. */
  function Round(boxes: Boxes, k0: Word, k1: Word, h: Halves): Halves {
    Halves(h.y, Mixed(boxes, k0, k1, h.y, h.x))
  }

  function Rounds(boxes: Boxes, keys: seq<Word>, h: Halves): Halves
    requires |keys| % 2 == 0
  {
    if keys == [] then h else Rounds(boxes, keys[2..], Round(boxes, keys[0], keys[1], h))
  }

  /** The subkeys of the rounds in reverse; the two subkeys of a round stay in order. */
  function Backwards(keys: seq<Word>): (s: seq<Word>)
    requires |keys| % 2 == 0
    ensures |s| == |keys|
  {
    if keys == [] then [] else Backwards(keys[2..]) + keys[..2]
  }

  lemma {:induction false} BackwardsAt(keys: seq<Word>, i: nat)
    requires |keys| % 2 == 0 && i % 2 == 0 && i + 1 < |keys|
    ensures Backwards(keys)[i] == keys[|keys| - 2 - i] && Backwards(keys)[i + 1] == keys[|keys| - 1 - i]
  {
    if i < |keys| - 2 { BackwardsAt(keys[2..], i); }
  }

  lemma {:induction false} RoundsAppend(boxes: Boxes, a: seq<Word>, k0: Word, k1: Word, h: Halves)
    requires |a| % 2 == 0
    ensures Rounds(boxes, a + [k0, k1], h) == Round(boxes, k0, k1, Rounds(boxes, a, h))
    decreases |a|
  {
    var s := a + [k0, k1];
    if a == [] {
      assert s[2..] == [];
    } else {
      assert s[2..] == a[2..] + [k0, k1];
      RoundsAppend(boxes, a[2..], k0, k1, Round(boxes, a[0], a[1], h));
    }
  }

  /** A round with swapped halves undoes the round. */
  lemma RoundBack(boxes: Boxes, k0: Word, k1: Word, h: Halves)
    ensures Round(boxes, k0, k1, Swap(Round(boxes, k0, k1, h))) == Swap(h)
  {
    XorTwice(h.x, Mix(boxes, k0, k1, h.y));
  }

  /** The rounds in reverse undo the rounds, for any S-boxes and subkeys. */
  lemma {:induction false} RoundsBack(boxes: Boxes, keys: seq<Word>, h: Halves)
    requires |keys| % 2 == 0
    ensures Rounds(boxes, Backwards(keys), Swap(Rounds(boxes, keys, h))) == Swap(h)
    decreases |keys|
  {
    hide Round;
    if keys != [] {
      var first := Round(boxes, keys[0], keys[1], h);
      RoundsBack(boxes, keys[2..], first);
      RoundsAppend(boxes, Backwards(keys[2..]), keys[0], keys[1], Swap(Rounds(boxes, keys, h)));
      assert keys[..2] == [keys[0], keys[1]];
      RoundBack(boxes, keys[0], keys[1], h);
    }
  }

  // Blocks

  function GetBlock(s: seq<Octet>): Halves
    requires |s| == 8
  {
    Halves(GetWord(s[..4]), GetWord(s[4..]))
  }

  function PutBlock(h: Halves): (s: seq<Octet>)
    ensures |s| == 8
  {
    PutWord(h.x) + PutWord(h.y)
  }

  /** `des_crypt`. */
  function Block(boxes: Boxes, keys: Subkeys, s: seq<Octet>): (r: seq<Octet>)
    requires |s| == 8
    ensures |r| == 8
  {
    PutBlock(Final(Swap(Rounds(boxes, keys, Initial(GetBlock(s))))))
  }

  lemma GetPutBlock(h: Halves)
    ensures GetBlock(PutBlock(h)) == h
  {
    hide GetWord, PutWord;
    TakeDrop(PutWord(h.x), PutWord(h.y));
    GetPut(h.x);
    GetPut(h.y);
  }

  lemma PutGetBlock(s: seq<Octet>)
    requires |s| == 8
    ensures PutBlock(GetBlock(s)) == s
  {
    hide GetWord, PutWord;
    PutGet(s[..4]);
    PutGet(s[4..]);
  }

  /** Decrypting is encrypting with the subkeys backwards. */
  lemma BlockBack(boxes: Boxes, keys: Subkeys, s: seq<Octet>)
    requires |s| == 8
    ensures Block(boxes, Backwards(keys), Block(boxes, keys, s)) == s
  {
    hide Initial, Final, Rounds, GetBlock, PutBlock, Backwards;
    var h := Initial(GetBlock(s));
    var e := Swap(Rounds(boxes, keys, h));
    GetPutBlock(Final(e));
    InitialFinal(e);
    RoundsBack(boxes, keys, h);
    FinalInitial(GetBlock(s));
    PutGetBlock(s);
  }

  /** All blocks of a text, one after the other. */
  function Blocks(boxes: Boxes, keys: Subkeys, s: seq<Octet>): (r: seq<Octet>)
    requires |s| % 8 == 0
    ensures |r| == |s|
  {
    if s == [] then [] else Block(boxes, keys, s[..8]) + Blocks(boxes, keys, s[8..])
  }

  lemma {:induction false} BlocksBack(boxes: Boxes, keys: Subkeys, s: seq<Octet>)
    requires |s| % 8 == 0
    ensures Blocks(boxes, Backwards(keys), Blocks(boxes, keys, s)) == s
    decreases |s|
  {
    hide Block, Backwards;
    if s != [] {
      BlockBack(boxes, keys, s[..8]);
      BlocksBack(boxes, keys, s[8..]);
      TakeDrop(Block(boxes, keys, s[..8]), Blocks(boxes, keys, s[8..]));
    }
  }

  lemma {:induction false} BlocksNext(boxes: Boxes, keys: Subkeys, s: seq<Octet>, b: seq<Octet>)
    requires |s| % 8 == 0 && |b| == 8
    ensures Blocks(boxes, keys, s + b) == Blocks(boxes, keys, s) + Block(boxes, keys, b)
    decreases |s|
  {
    hide Block;
    if s == [] {
      NoMore(b);
      assert b[..8] == b && b[8..] == [];
      NoMore(Block(boxes, keys, b));
    } else {
      BlocksNext(boxes, keys, s[8..], b);
      assert (s + b)[..8] == s[..8] && (s + b)[8..] == s[8..] + b;
      Assoc(Block(boxes, keys, s[..8]), Blocks(boxes, keys, s[8..]), Block(boxes, keys, b));
    }
  }

  // Padding

  const ISO7816_4: int := 0
  const PKCS7: int := 1

  predicate ModeOk(mode: int) {
    mode == ISO7816_4 || mode == PKCS7
  }

  /** What fills a last block that holds `offset` bytes of text. */
  function Padding(mode: int, offset: nat): (s: seq<Octet>)
    requires ModeOk(mode) && offset < 8
    ensures |s| == 8 - offset
  {
    if mode == ISO7816_4 then [0x80] + seq(7 - offset, _ => 0) else seq(8 - offset, _ => (8 - offset) as Octet)
  }

  function Padded(mode: int, text: seq<Octet>): (s: seq<Octet>)
    requires ModeOk(mode)
    ensures |s| % 8 == 0 && |s| > |text| && s[..|text|] == text
  {
    text + Padding(mode, |text| % 8)
  }

  /** The byte with `i` bytes behind it. */
  function FromEnd(s: seq<Octet>, i: nat): Octet
    requires i < |s|
  {
    s[|s| - 1 - i]
  }

  /** `padding_remove_iso7816_4`, when the last `i` bytes are known to be 0. The result 0 means an error. */
  function Iso(s: seq<Octet>, i: nat): (n: nat)
    requires |s| >= 8 && i <= 8
    decreases 8 - i
  {
    if i == 8 then 0
    else if FromEnd(s, i) == 0 then Iso(s, i + 1)
    else if FromEnd(s, i) == 0x80 then i + 1
    else 0
  }

  /** The size of a padding of equal bytes, when the last byte is not above the length. */
  function Pkcs(s: seq<Octet>): (n: nat)
    requires |s| >= 8
  {
    var p := FromEnd(s, 0) as nat;
    if p <= |s| && forall i | 1 <= i < p :: FromEnd(s, i) == FromEnd(s, 0) then p else 0
  }

  function PaddingSize(mode: int, s: seq<Octet>): nat
    requires ModeOk(mode) && |s| >= 8
  {
    if mode == ISO7816_4 then Iso(s, 0) else Pkcs(s)
  }

  /** A size that `ldesdecode` takes for one. */
  function Accepted(padding: nat): nat {
    if padding > 8 then 0 else padding
  }

  lemma {:induction false} IsoZeros(s: seq<Octet>, i: nat, n: nat)
    requires |s| >= 8 && i <= n < 8
    requires FromEnd(s, n) == 0x80 && forall j | 0 <= j < n :: FromEnd(s, j) == 0
    ensures Iso(s, i) == n + 1
    decreases n - i
  {
    if i < n { IsoZeros(s, i + 1, n); }
  }

  /** The padding that was added is found again, whatever the text ends with. */
  lemma PaddingFound(mode: int, text: seq<Octet>)
    requires ModeOk(mode)
    ensures PaddingSize(mode, Padded(mode, text)) == 8 - |text| % 8
  {
    hide Iso, Padding;
    var s, offset := Padded(mode, text), |text| % 8;
    PaddingBytes(mode, offset);
    forall i | 0 <= i < 8 - offset ensures FromEnd(s, i) == Padding(mode, offset)[7 - offset - i] {}
    if mode == ISO7816_4 { IsoZeros(s, 0, 7 - offset); }
  }

  lemma PaddingBytes(mode: int, offset: nat)
    requires ModeOk(mode) && offset < 8
    ensures mode == ISO7816_4 ==> Padding(mode, offset)[0] == 0x80 && forall i | 0 < i < 8 - offset ::
      Padding(mode, offset)[i] == 0
    ensures mode != ISO7816_4 ==> forall i | 0 <= i < 8 - offset :: Padding(mode, offset)[i] == (8 - offset) as Octet
  {
  }

  /** `add_padding`: a last block in the buffer `buf`. */
  method AddPadding(buf: array<Octet>, src: seq<Octet>, mode: int) returns (ok: bool)
    requires buf.Length == 8
    modifies buf
    ensures ok == (ModeOk(mode) && |src| < 8)
    ensures ok ==> buf[..] == src + Padding(mode, |src|)
  {
    if mode < 0 || mode >= 2 || |src| >= 8 {
      return false;
    }
    var offset := |src|;
    forall i | 0 <= i < offset {
      buf[i] := src[i];
    }
    if mode == ISO7816_4 {
      buf[offset] := 0x80;
      forall i | offset + 1 <= i < 8 {
        buf[i] := 0;
      }
    } else {
      var x := (8 - offset) as Octet;
      forall i | offset <= i < 8 {
        buf[i] := x;
      }
    }
    return true;
  }

  /** `padding_remove_iso7816_4`. */
  method RemoveIso(buffer: array<Octet>) returns (padding: nat)
    requires buffer.Length >= 8
    ensures padding == Iso(buffer[..], 0)
  {
    var last := buffer.Length - 1;
    padding := 1;
    var i := 0;
    while i < 8
      invariant 0 <= i <= 8 && padding == i + 1 && last == buffer.Length - 1 - i
      invariant Iso(buffer[..], 0) == Iso(buffer[..], i)
    {
      if buffer[last] == 0 {
        padding := padding + 1;
      } else if buffer[last] == 0x80 {
        return;
      } else {
        break;
      }
      i, last := i + 1, last - 1;
    }
    return 0;
  }

  /** The byte with `i` bytes of the buffer behind it; in front of the buffer lies `front`, counted backwards. */
  function Before(s: seq<Octet>, front: nat -> Octet, i: nat): Octet {
    if i < |s| then FromEnd(s, i) else front(i - |s|)
  }

  /** What `padding_remove_pkcs7` answers, whatever lies in front of the buffer. */
  ghost function PkcsWalk(s: seq<Octet>, front: nat -> Octet): nat
    requires |s| >= 8
  {
    var p := FromEnd(s, 0) as nat;
    if forall i | 1 <= i < p :: Before(s, front, i) == FromEnd(s, 0) then p else 0
  }

  /** When it reads in front of the buffer: all bytes are equal, and their value is above the length. */
  predicate ReadsInFront(s: seq<Octet>)
    requires |s| >= 8
  {
    FromEnd(s, 0) as nat > |s| && forall i | 1 <= i < |s| :: FromEnd(s, i) == FromEnd(s, 0)
  }

  /** Then its answer depends on what is there, but it is no size of a padding. */
  lemma WalkAnswers(s: seq<Octet>, front: nat -> Octet)
    requires |s| >= 8
    ensures !ReadsInFront(s) ==> PkcsWalk(s, front) == Pkcs(s)
    ensures ReadsInFront(s) ==> Pkcs(s) == 0 && (PkcsWalk(s, front) == 0 || PkcsWalk(s, front) > |s|)
    ensures Accepted(PkcsWalk(s, front)) == Accepted(Pkcs(s))
  {
    var p := FromEnd(s, 0) as nat;
    forall i | 1 <= i < |s| ensures Before(s, front, i) == FromEnd(s, i) {}
    if p > |s| && !ReadsInFront(s) {
      var i :| 1 <= i < |s| && FromEnd(s, i) != FromEnd(s, 0);
      assert Before(s, front, i) != FromEnd(s, 0);
    }
  }

  /** `padding_remove_pkcs7`; `outside` tells whether it reads in front of the buffer. */
  method RemovePkcs(buffer: array<Octet>, front: nat -> Octet) returns (padding: nat, outside: bool)
    requires buffer.Length >= 8
    ensures padding == PkcsWalk(buffer[..], front)
    ensures outside <==> ReadsInFront(buffer[..])
  {
    var last := buffer.Length - 1;
    var x := buffer[last];
    padding, outside := x as nat, false;
    assert forall j | 1 <= j < buffer.Length :: FromEnd(buffer[..], j) == Before(buffer[..], front, j);
    var i := 1;
    while i < padding
      invariant 1 <= i && last == buffer.Length - i && padding == x as nat && (i <= padding || (padding == 0 && i == 1))
      invariant outside <==> i > buffer.Length
      invariant forall j | 1 <= j < i :: Before(buffer[..], front, j) == x
      decreases padding - i
    {
      last := last - 1;
      var here := if last >= 0 then buffer[last] else front(-1 - last);
      outside := last < 0;
      assert here == Before(buffer[..], front, i);
      if here != x {
        if !outside { assert FromEnd(buffer[..], i) == here; }
        return 0, outside;
      }
      i := i + 1;
    }
  }

  /** `remove_padding`: what is in front of the buffer does not matter for what `ldesdecode` accepts. */
  method RemovePadding(buffer: array<Octet>, mode: int, front: nat -> Octet) returns (padding: nat)
    requires ModeOk(mode) && buffer.Length >= 8
    ensures Accepted(padding) == Accepted(PaddingSize(mode, buffer[..]))
    ensures mode == ISO7816_4 ==> padding == Iso(buffer[..], 0)
    ensures mode != ISO7816_4 ==> padding == PkcsWalk(buffer[..], front)
  {
    hide Iso, Pkcs, PkcsWalk, ReadsInFront;
    if mode == ISO7816_4 {
      padding := RemoveIso(buffer);
    } else {
      var outside: bool;
      padding, outside := RemovePkcs(buffer, front);
      WalkAnswers(buffer[..], front);
    }
  }

  // Texts

  /** The sixteen rounds of `des_crypt`, two for each turn of the loop. */
  method SixteenRounds(boxes: Boxes, keys: Subkeys, h: Halves) returns (x: Word, y: Word)
    ensures Halves(x, y) == Rounds(boxes, keys, h)
  {
    hide Rounds, Mixed, Round;
    x, y := h.x, h.y;
    var i := 0;
    while i < 32
      invariant 0 <= i <= 32 && i % 4 == 0
      invariant Rounds(boxes, keys, h) == Rounds(boxes, keys[i..], Halves(x, y))
    {
      TwoRounds(boxes, keys[i..], Halves(x, y));
      x := Mixed(boxes, keys[i], keys[i + 1], y, x);
      y := Mixed(boxes, keys[i + 2], keys[i + 3], x, y);
      assert keys[i..][4..] == keys[i + 4..];
      i := i + 4;
    }
    NoRounds(boxes, Halves(x, y));
  }

  lemma NoRounds(boxes: Boxes, h: Halves)
    ensures Rounds(boxes, [], h) == h
  {
  }

  /** Two rounds; DES_ROUND is used with the halves in turn. */
  lemma TwoRounds(boxes: Boxes, keys: seq<Word>, h: Halves)
    requires |keys| % 2 == 0 && |keys| >= 4
    ensures var x := Mixed(boxes, keys[0], keys[1], h.y, h.x);
            var y := Mixed(boxes, keys[2], keys[3], x, h.y);
            Rounds(boxes, keys, h) == Rounds(boxes, keys[4..], Halves(x, y))
  {
    hide Mixed, Rounds;
    RoundsTwice(boxes, keys, h);
  }

  lemma RoundsTwice(boxes: Boxes, keys: seq<Word>, h: Halves)
    requires |keys| % 2 == 0 && |keys| >= 4
    ensures Rounds(boxes, keys, h)
         == Rounds(boxes, keys[4..], Round(boxes, keys[2], keys[3], Round(boxes, keys[0], keys[1], h)))
  {
    hide Round;
    assert keys[2..][2..] == keys[4..];
  }

  /** `des_crypt`: from `input` into eight bytes of the output buffer. */
  method Crypt(boxes: Boxes, keys: Subkeys, input: seq<Octet>, output: array<Octet>, at: nat)
    requires |input| == 8 && at + 8 <= output.Length
    modifies output
    ensures output[..at + 8] == old(output[..at]) + Block(boxes, keys, input)
  {
    hide Initial, Final, Rounds, GetWord, PutWord;
    var h := Initial(Halves(GetWord(input[..4]), GetWord(input[4..])));
    var x, y := SixteenRounds(boxes, keys, h);
    var f := Final(Halves(y, x));
    var r := PutWord(f.x) + PutWord(f.y);
    forall j | 0 <= j < 8 {
      output[at + j] := r[j];
    }
    assert output[..at + 8] == old(output[..at]) + r;
  }

  /** `ldesencode`: an error for a key of another size or an unknown padding mode. */
  method Encode(boxes: Boxes, schedule: Schedule, key: seq<Octet>, text: seq<Octet>, mode: int)
    returns (r: Option<array<Octet>>)
    ensures r.Some? == (|key| == 8 && ModeOk(mode))
    ensures r.Some? ==> fresh(r.value) && r.value[..] == Blocks(boxes, schedule(key), Padded(mode, text))
  {
    hide Blocks, Block, Padding;
    if |key| != 8 {
      return None;
    }
    var keys := schedule(key);
    var buffer := new Octet[(|text| + 8) / 8 * 8](_ => 0);
    var i := 0;
    NoBlocks(boxes, keys);
    while i < |text| - 7
      invariant 0 <= i <= |text| && i % 8 == 0
      invariant buffer[..i] == Blocks(boxes, keys, text[..i])
    {
      Crypt(boxes, keys, text[i..i + 8], buffer, i);
      BlocksNext(boxes, keys, text[..i], text[i..i + 8]);
      assert text[..i + 8] == text[..i] + text[i..i + 8];
      i := i + 8;
    }
    var tail := new Octet[8](_ => 0);
    var ok := AddPadding(tail, text[i..], mode);
    if !ok {
      return None;
    }
    Crypt(boxes, keys, tail[..], buffer, i);
    BlocksNext(boxes, keys, text[..i], tail[..]);
    Assoc(text[..i], text[i..], Padding(mode, |text| - i));
    assert text == text[..i] + text[i..];
    assert buffer[..] == buffer[..i + 8];
    return Some(buffer);
  }

  lemma NoBlocks(boxes: Boxes, keys: Subkeys)
    ensures Blocks(boxes, keys, []) == []
  {
  }

  /** What `ldesdecode` gives: nothing for a key or a text of a wrong size, an unknown mode or a wrong padding. */
  function Decoded(boxes: Boxes, schedule: Schedule, key: seq<Octet>, text: seq<Octet>, mode: int): Option<seq<Octet>> {
    if |key| != 8 || |text| % 8 != 0 || text == [] || !ModeOk(mode) then None
    else
      var plain := Blocks(boxes, Backwards(schedule(key)), text);
      var padding := Accepted(PaddingSize(mode, plain));
      if padding == 0 then None else Some(plain[..|plain| - padding])
  }

  /** `ldesdecode`; the answer does not depend on what lies in front of its buffer. */
  method Decode(boxes: Boxes, schedule: Schedule, key: seq<Octet>, text: seq<Octet>, mode: int,
        front: nat -> Octet)
    returns (r: Option<seq<Octet>>)
    ensures r == Decoded(boxes, schedule, key, text, mode)
  {
    hide Blocks, Block, Backwards, PaddingSize;
    if |key| != 8 {
      return None;
    }
    var keys := Reversed(schedule(key));
    if |text| % 8 != 0 || |text| == 0 {
      return None;
    }
    var buffer := new Octet[|text|](_ => 0);
    var i := 0;
    NoBlocks(boxes, keys);
    while i < |text|
      invariant 0 <= i <= |text| && i % 8 == 0
      invariant buffer[..i] == Blocks(boxes, keys, text[..i])
    {
      Crypt(boxes, keys, text[i..i + 8], buffer, i);
      BlocksNext(boxes, keys, text[..i], text[i..i + 8]);
      assert text[..i + 8] == text[..i] + text[i..i + 8];
      i := i + 8;
    }
    assert text[..i] == text && buffer[..i] == buffer[..];
    if mode < 0 || mode >= 2 {
      return None;
    }
    var padding := RemovePadding(buffer, mode, front);
    if padding <= 0 || padding > 8 {
      return None;
    }
    return Some(buffer[..|text| - padding]);
  }

  /** The loop of `ldesdecode` that turns the subkeys around. */
  method Reversed(keys: Subkeys) returns (r: Subkeys)
    ensures r == Backwards(keys)
  {
    hide Backwards;
    var sk := new Word[32](_ => 0);
    var i := 0;
    while i < 32
      invariant 0 <= i <= 32 && i % 2 == 0
      invariant sk[..i] == Backwards(keys)[..i]
    {
      BackwardsAt(keys, i);
      sk[i] := keys[30 - i];
      sk[i + 1] := keys[31 - i];
      assert sk[..i + 2] == sk[..i] + [sk[i], sk[i + 1]];
      assert Backwards(keys)[..i + 2] == Backwards(keys)[..i] + [Backwards(keys)[i], Backwards(keys)[i + 1]];
      i := i + 2;
    }
    r := sk[..];
    assert r == sk[..i];
  }

  /** Decoding gives back the encoded text: for all S-boxes and key schedules, 8-byte keys, texts and padding modes. */
  lemma DecodeEncode(boxes: Boxes, schedule: Schedule, key: seq<Octet>, text: seq<Octet>, mode: int)
    requires |key| == 8 && ModeOk(mode)
    ensures Decoded(boxes, schedule, key, Blocks(boxes, schedule(key), Padded(mode, text)), mode) == Some(text)
  {
    hide Blocks, Backwards, PaddingSize, Padding;
    BlocksBack(boxes, schedule(key), Padded(mode, text));
    PaddingFound(mode, text);
  }
}
