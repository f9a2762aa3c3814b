/** SHA-1 over data that comes in pieces (lsha1.c). The function on blocks is a parameter: what is proved is that the
    buffering, the bit count and the padding make the digest a function of the data alone, and when they do not.
    Sha1Block has the function of the code. */
module Sha1 {
  import opened Common

  const TWO_TO_32: nat := 0x1_0000_0000
  const TWO_TO_64: nat := 0x1_0000_0000_0000_0000

  /** From this length on a piece upsets the bit count. */
  const TWO_TO_29: nat := 0x2000_0000

  const BLOCK: nat := 64

  type Word = n: nat | n < 0x1_0000_0000

  type State = s: seq<Word> | |s| == 5 witness [0, 0, 0, 0, 0]

  /** `SHA1_Transform`. */
  type Transform = (State, seq<Byte>) -> State

  const INIT: State := [0x67452301, 0xEFCDAB89, 0x98BADCFE, 0x10325476, 0xC3D2E1F0]

  // The digest as a function of the data

  /** The state after all whole blocks of `data`. */
  function Absorb(f: Transform, st: State, data: seq<Byte>): State
    decreases |data|
  {
    if |data| < BLOCK then st else Absorb(f, f(st, data[..BLOCK]), data[BLOCK..])
  }

  /** The bytes behind the last whole block. */
  function Tail(data: seq<Byte>): (t: seq<Byte>)
    ensures |t| == |data| % BLOCK
    decreases |data|
  {
    if |data| < BLOCK then data else Tail(data[BLOCK..])
  }

  lemma {:induction false} AbsorbAppend(f: Transform, st: State, a: seq<Byte>, b: seq<Byte>)
    ensures Absorb(f, st, a + b) == Absorb(f, Absorb(f, st, a), Tail(a) + b)
    ensures Tail(a + b) == Tail(Tail(a) + b)
    decreases |a|
  {
    if |a| >= BLOCK {
      AbsorbAppend(f, f(st, a[..BLOCK]), a[BLOCK..], b);
      assert (a + b)[..BLOCK] == a[..BLOCK] && (a + b)[BLOCK..] == a[BLOCK..] + b;
    }
  }

  function Zeros(n: nat): (s: seq<Byte>)
    ensures |s| == n
  {
    seq(n, _ => 0)
  }

  /** A word, its highest byte first. */
  function BigEndian(w: Word): (s: seq<Byte>)
    ensures |s| == 4
  {
    [w / 0x1000000 % 256, w / 0x10000 % 256, w / 0x100 % 256, w % 256]
  }

  /** How many zeros go between the mark and the length. */
  function Gap(n: nat): (k: nat)
    ensures k < BLOCK && (n + 1 + k) % BLOCK == 56
  {
    (119 - n % BLOCK) % BLOCK
  }

  /** The data, a mark, zeros, and the number of bits. */
  function Padded(data: seq<Byte>, bits: nat): (s: seq<Byte>)
    requires bits < TWO_TO_64
    ensures |s| % BLOCK == 0
  {
    data + [0x80] + Zeros(Gap(|data|)) + BigEndian(bits / TWO_TO_32) + BigEndian(bits % TWO_TO_32)
  }

  function Output(st: State): seq<Byte> {
    BigEndian(st[0]) + BigEndian(st[1]) + BigEndian(st[2]) + BigEndian(st[3]) + BigEndian(st[4])
  }

  function Digest(f: Transform, data: seq<Byte>, bits: nat): seq<Byte>
    requires bits < TWO_TO_64
  {
    Output(Absorb(f, INIT, Padded(data, bits)))
  }

  /** The number that bytes stand for, the highest one first. */
  function Number(s: seq<Byte>): nat {
    if s == [] then 0 else 256 * Number(s[..|s| - 1]) + s[|s| - 1]
  }

  lemma NumberNext(s: seq<Byte>, b: Byte)
    ensures Number(s + [b]) == 256 * Number(s) + b
  {
    assert (s + [b])[..|s|] == s;
  }

  /** Four more bytes. */
  lemma NumberFour(s: seq<Byte>, a: Byte, b: Byte, c: Byte, d: Byte)
    ensures Number(s + [a, b, c, d]) == TWO_TO_32 * Number(s) + (0x1000000 * a + 0x10000 * b + 0x100 * c + d)
  {
    hide Number;
    NumberNext(s, a);
    NumberNext(s + [a], b);
    NumberNext(s + [a] + [b], c);
    NumberNext(s + [a] + [b] + [c], d);
    assert s + [a] + [b] + [c] + [d] == s + [a, b, c, d];
  }

  lemma WordBytes(w: Word)
    ensures 0x1000000 * (w / 0x1000000 % 256) + 0x10000 * (w / 0x10000 % 256) + 0x100 * (w / 0x100 % 256) + w % 256 == w
  {
  }

  /** Appending a word appends the number that it is. */
  lemma BigEndianIs(s: seq<Byte>, w: Word)
    ensures Number(s + BigEndian(w)) == TWO_TO_32 * Number(s) + w
  {
    hide Number;
    NumberFour(s, w / 0x1000000 % 256, w / 0x10000 % 256, w / 0x100 % 256, w % 256);
    WordBytes(w);
  }

  lemma NoNumber()
    ensures Number([]) == 0
  {
  }

  /** The padding of the standard: a mark, as few zeros as make whole blocks, and the length as a number of 64 bits. */
  lemma PaddedIs(data: seq<Byte>, bits: nat)
    requires bits < TWO_TO_64
    ensures var s, n := Padded(data, bits), |data|;
            && |s| % BLOCK == 0 && n + 9 <= |s| < n + 9 + BLOCK
            && s[..n] == data && s[n] == 0x80 && (forall i | n < i < |s| - 8 :: s[i] == 0)
            && Number(s[|s| - 8..]) == bits
  {
    hide BigEndian, Number;
    var s, n := Padded(data, bits), |data|;
    var high, low := BigEndian(bits / TWO_TO_32), BigEndian(bits % TWO_TO_32);
    assert s[|s| - 8..] == high + low;
    BigEndianIs([], bits / TWO_TO_32);
    NoMore(high);
    NoNumber();
    BigEndianIs(high, bits % TWO_TO_32);
  }

  /** Each word of the state comes out as the number that its four bytes stand for. */
  lemma OutputIs(st: State, i: nat)
    requires i < 5
    ensures |Output(st)| == 20 && Number(Output(st)[4 * i..4 * i + 4]) == st[i]
  {
    hide BigEndian, Number;
    BigEndianIs([], st[i]);
    NoNumber();
    NoMore(BigEndian(st[i]));
    assert Output(st)[4 * i..4 * i + 4] == BigEndian(st[i]);
  }

  // The bit count

  /** What `sat_SHA1_Update` makes of the two words of the count for a piece of `len` bytes: the carry is found by
      comparing the new low word with the full length in bits. */
  function Counted(bits: nat, len: nat): (r: nat)
    requires bits < TWO_TO_64
    ensures r < TWO_TO_64
  {
    var low := (bits % TWO_TO_32 + 8 * len) % TWO_TO_32;
    var carry := if low < 8 * len then 1 else 0;
    (bits / TWO_TO_32 + carry + len / TWO_TO_29) % TWO_TO_32 * TWO_TO_32 + low
  }

  /** The count is right exactly for pieces below 2^29 bytes, and longer ones when the low words add up to a carry. */
  lemma CountedRight(bits: nat, len: nat)
    requires bits < TWO_TO_64
    ensures Counted(bits, len) == (bits + 8 * len) % TWO_TO_64 <==>
            len < TWO_TO_29 || bits % TWO_TO_32 + 8 * len % TWO_TO_32 >= TWO_TO_32
  {
    var b0, b1 := bits % TWO_TO_32, bits / TWO_TO_32;
    var l0, l1 := 8 * len % TWO_TO_32, len / TWO_TO_29;
    assert 8 * len == l1 * TWO_TO_32 + l0;
    var over := if b0 + l0 >= TWO_TO_32 then 1 else 0;
    var low := b0 + l0 - over * TWO_TO_32;
    LowWord(b0, l1, l0, over);
    assert bits + 8 * len == (b1 + l1 + over) * TWO_TO_32 + low;
    Wrapped(b1 + l1 + over, low);
    var carry := if low < 8 * len then 1 else 0;
    assert Counted(bits, len) == (b1 + carry + l1) % TWO_TO_32 * TWO_TO_32 + low;
    Neighbours(b1 + l1);
  }

  lemma LowWord(b0: nat, l1: nat, l0: nat, over: nat)
    requires b0 + l0 - over * TWO_TO_32 < TWO_TO_32 && b0 + l0 >= over * TWO_TO_32
    ensures (b0 + (l1 * TWO_TO_32 + l0)) % TWO_TO_32 == b0 + l0 - over * TWO_TO_32
  {
    assert b0 + (l1 * TWO_TO_32 + l0) == (l1 + over) * TWO_TO_32 + (b0 + l0 - over * TWO_TO_32);
  }

  lemma Neighbours(n: nat)
    ensures n % TWO_TO_32 != (n + 1) % TWO_TO_32
  {
  }

  lemma Wrapped(high: nat, low: nat)
    requires low < TWO_TO_32
    ensures (high * TWO_TO_32 + low) % TWO_TO_64 == high % TWO_TO_32 * TWO_TO_32 + low
  {
    assert high == high / TWO_TO_32 * TWO_TO_32 + high % TWO_TO_32;
    assert high * TWO_TO_32 + low == high / TWO_TO_32 * TWO_TO_64 + (high % TWO_TO_32 * TWO_TO_32 + low);
  }

  // The context, updated in place

  class Context {
    const f: Transform
    var state: State
    var low: Word
    var high: Word
    var buffer: array<Byte>
    ghost var data: seq<Byte>

    /** Bytes that wait in the buffer. */
    function Filled(): (n: nat)
      reads this`low
      ensures n < BLOCK
    {
      low / 8 % BLOCK
    }

    ghost predicate Valid()
      reads this, buffer
    {
      && buffer.Length == BLOCK && state == Absorb(f, INIT, data)
      && low == 8 * |data| % TWO_TO_32 && Filled() == |data| % BLOCK && buffer[..Filled()] == Tail(data)
    }

    /** The number of bits, as far as it was counted right. */
    function Bits(): (n: nat)
      reads this`low, this`high
      ensures n < TWO_TO_64
    {
      high * TWO_TO_32 + low
    }

    /** `sat_SHA1_Init`. */
    constructor (f: Transform)
      ensures Valid() && fresh(buffer) && data == [] && Bits() == 0 && this.f == f
    {
      this.f := f;
      state, low, high := INIT, 0, 0;
      buffer := new Byte[BLOCK](_ => 0);
      data := [];
    }

    /** `memcpy` to byte `at` of the buffer. */
    method Copy(at: nat, s: seq<Byte>)
      requires at + |s| <= buffer.Length
      modifies buffer
      ensures buffer[..at + |s|] == old(buffer[..at]) + s
    {
      for k := 0 to |s|
        invariant buffer[..at + k] == old(buffer[..at]) + s[..k]
      {
        buffer[at + k] := s[k];
        assert buffer[..at + (k + 1)] == buffer[..at + k] + [s[k]];
      }
    }

    /** `sat_SHA1_Update`. */
    method Update(piece: seq<Byte>)
      requires Valid()
      modifies this, buffer
      ensures Valid() && buffer == old(buffer) && data == old(data) + piece
      ensures Bits() == Counted(old(Bits()), |piece|)
    {
      hide Absorb, Tail, Counted;
      ghost var all, was := Tail(data) + piece, Bits();
      var len, j := |piece|, Filled();
      AbsorbAppend(f, INIT, data, piece);
      CountBits(piece, len);
      assert Bits() == Counted(was, len);
      data := data + piece;
      var i := 0;
      if j + len > 63 {
        i := BLOCK - j;
        Copy(j, piece[..i]);
        FirstBlock(f, state, all, buffer[..], piece[i..]);
        state := f(state, buffer[..]);
        i := WholeBlocks(piece, i);
        j := 0;
      } else {
        Short(f, state, all);
      }
      Copy(j, piece[i..]);
    }

    /** The count. */
    method CountBits(ghost piece: seq<Byte>, len: nat)
      requires low == 8 * |data| % TWO_TO_32 && len == |piece|
      modifies this`low, this`high
      ensures Bits() == Counted(old(Bits()), len)
      ensures low == 8 * |data + piece| % TWO_TO_32 && Filled() == |data + piece| % BLOCK
    {
      hide Counted;
      CountStep(high, low, |data|, len);
      low := (low + 8 * len) % TWO_TO_32;
      if low < 8 * len {
        high := (high + 1) % TWO_TO_32;
      }
      high := (high + len / TWO_TO_29) % TWO_TO_32;
      FilledRight(|data + piece|);
    }

    /** `sat_SHA1_Final`. */
    method Final() returns (digest: seq<Byte>)
      requires Valid()
      modifies this, buffer
      ensures digest == Digest(f, old(data), old(Bits()))
    {
      hide Absorb, Tail, Counted, BigEndian, Gap;
      ghost var bits, n := Bits(), |data|;
      var finalcount := BigEndian(high) + BigEndian(low);
      assert bits / TWO_TO_32 == high && bits % TWO_TO_32 == low;
      Update([0x80]);
      ghost var marked, k := data, 0;
      assert marked == marked + Zeros(0);
      while Filled() != 56
        invariant Valid() && data == marked + Zeros(k) && 0 <= k <= Gap(n) && buffer == old(buffer)
        decreases Gap(n) - k
      {
        assert k < Gap(n);
        Update([0]);
        ZerosNext(marked, k);
        k := k + 1;
      }
      GapOnly(n, k);
      Update(finalcount);
      Assoc(marked + Zeros(k), BigEndian(bits / TWO_TO_32), BigEndian(bits % TWO_TO_32));
      digest := Output(state);
    }

    /** The loop of `sat_SHA1_Update` over the whole blocks of the piece from byte `from` on. */
    method WholeBlocks(piece: seq<Byte>, from: nat) returns (i: nat)
      requires from <= |piece|
      modifies this`state
      ensures from <= i <= |piece| < i + BLOCK
      ensures state == Absorb(f, old(state), piece[from..]) && Tail(piece[from..]) == piece[i..]
    {
      i := from;
      while i + 63 < |piece|
        invariant from <= i <= |piece|
        invariant Absorb(f, state, piece[i..]) == Absorb(f, old(state), piece[from..])
        invariant Tail(piece[i..]) == Tail(piece[from..])
      {
        assert piece[i..][..BLOCK] == piece[i..i + BLOCK] && piece[i..][BLOCK..] == piece[i + BLOCK..];
        state := f(state, piece[i..i + BLOCK]);
        i := i + BLOCK;
      }
    }
  }

  lemma ZerosNext(s: seq<Byte>, k: nat)
    ensures s + Zeros(k) + [0] == s + Zeros(k + 1)
  {
  }

  /** The number of zeros is the only one below a block. */
  lemma GapOnly(n: nat, k: nat)
    requires k < BLOCK && (n + 1 + k) % BLOCK == 56
    ensures k == Gap(n)
  {
  }

  /** The two words, updated one after the other. */
  lemma CountStep(high: Word, low: Word, n: nat, len: nat)
    requires low == 8 * n % TWO_TO_32
    ensures var l := (low + 8 * len) % TWO_TO_32;
            var h := if l < 8 * len then (high + 1) % TWO_TO_32 else high;
            && l == 8 * (n + len) % TWO_TO_32
            && Counted(high * TWO_TO_32 + low, len) == (h + len / TWO_TO_29) % TWO_TO_32 * TWO_TO_32 + l
  {
    var bits, l := high * TWO_TO_32 + low, (low + 8 * len) % TWO_TO_32;
    assert bits / TWO_TO_32 == high && bits % TWO_TO_32 == low;
    ModAdd(8 * n, 8 * len);
    if l < 8 * len { ModAdd(high + 1, len / TWO_TO_29); }
  }

  lemma ModAdd(a: nat, b: nat)
    ensures (a % TWO_TO_32 + b) % TWO_TO_32 == (a + b) % TWO_TO_32
  {
    var q := a / TWO_TO_32;
    assert a + b == q * TWO_TO_32 + (a % TWO_TO_32 + b);
  }

  lemma FilledRight(n: nat)
    ensures 8 * n % TWO_TO_32 / 8 % BLOCK == n % BLOCK
  {
    var q, r := n / TWO_TO_29, n % TWO_TO_29;
    LowBits(8 * n, q, 8 * r);
    assert 8 * r / 8 == r;
    WholeBlocksGone(r, q * 8388608);
  }

  lemma LowBits(m: nat, q: nat, r: nat)
    requires m == q * TWO_TO_32 + r && r < TWO_TO_32
    ensures m % TWO_TO_32 == r
  {
  }

  lemma WholeBlocksGone(r: nat, k: nat)
    ensures (r + k * BLOCK) % BLOCK == r % BLOCK
  {
  }

  lemma FirstBlock(f: Transform, st: State, all: seq<Byte>, block: seq<Byte>, rest: seq<Byte>)
    requires |block| == BLOCK && all == block + rest
    ensures Absorb(f, st, all) == Absorb(f, f(st, block), rest) && Tail(all) == Tail(rest)
  {
    assert all[..BLOCK] == block && all[BLOCK..] == rest;
  }

  lemma Short(f: Transform, st: State, all: seq<Byte>)
    requires |all| < BLOCK
    ensures Absorb(f, st, all) == st && Tail(all) == all
  {
  }

  // Data in pieces

  /** The count after some pieces. */
  function CountAll(pieces: seq<seq<Byte>>): (bits: nat)
    ensures bits < TWO_TO_64
  {
    if pieces == [] then 0 else Counted(CountAll(pieces[..|pieces| - 1]), |pieces[|pieces| - 1]|)
  }

  /** The digest of the data with its true length. */
  function Standard(f: Transform, data: seq<Byte>): seq<Byte> {
    Digest(f, data, 8 * |data| % TWO_TO_64)
  }

  lemma {:induction false} CountAllRight(pieces: seq<seq<Byte>>)
    requires forall p | p in pieces :: |p| < TWO_TO_29
    ensures CountAll(pieces) == 8 * |Join(pieces)| % TWO_TO_64
    decreases |pieces|
  {
    hide Counted;
    if pieces != [] {
      var front, last := pieces[..|pieces| - 1], pieces[|pieces| - 1];
      CountAllRight(front);
      JoinAppend(front, last);
      assert pieces == front + [last];
      CountedRight(CountAll(front), |last|);
      var n := 8 * |Join(front)|;
      ModAdd64(n, 8 * |last|);
    }
  }

  lemma ModAdd64(a: nat, b: nat)
    ensures (a % TWO_TO_64 + b) % TWO_TO_64 == (a + b) % TWO_TO_64
  {
    var q := a / TWO_TO_64;
    assert a + b == q * TWO_TO_64 + (a % TWO_TO_64 + b);
  }

  /** Pieces below 2^29 bytes: the digest is that of the data, however it was cut. */
  method Sum(f: Transform, pieces: seq<seq<Byte>>) returns (digest: seq<Byte>)
    ensures digest == Digest(f, Join(pieces), CountAll(pieces))
    ensures (forall p | p in pieces :: |p| < TWO_TO_29) ==> digest == Standard(f, Join(pieces))
  {
    hide Counted, Digest;
    var context := new Context(f);
    for k := 0 to |pieces|
      invariant context.Valid() && fresh(context) && fresh(context.buffer) && context.f == f
      invariant context.data == Join(pieces[..k]) && context.Bits() == CountAll(pieces[..k])
    {
      context.Update(pieces[k]);
      JoinAppend(pieces[..k], pieces[k]);
      assert pieces[..k + 1] == pieces[..k] + [pieces[k]] && pieces[..k + 1][..k] == pieces[..k];
    }
    assert pieces[..|pieces|] == pieces;
    digest := context.Final();
    if forall p | p in pieces :: |p| < TWO_TO_29 { CountAllRight(pieces); }
  }

  /** `lsha1` hands over all data as one piece: the length is right exactly below 2^29 bytes. */
  lemma OnePiece(data: seq<Byte>)
    ensures CountAll([data]) == 8 * |data| % TWO_TO_64 <==> |data| < TWO_TO_29
  {
    hide Counted;
    assert [data][..0] == [];
    CountedRight(0, |data|);
  }
}
