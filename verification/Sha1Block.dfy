/** The function on blocks of lsha1.c, which rotates the names of its five words and expands the sixteen words of the
    block in place, is that of the secure hash standard (FIPS 180-4, section 6.1.2). */
module Sha1Block {
  import opened Common
  import Sha1

  type Word = bv32

  function Rol(x: Word, n: bv6): Word
    requires 0 < n < 32
  {
    (x << n) | (x >> (32 - n))
  }

  // The standard

  datatype Five = Five(a: Word, b: Word, c: Word, d: Word, e: Word)

  type Block = s: seq<Word> | |s| == 16 witness seq(16, _ => 0)

  function Ch(x: Word, y: Word, z: Word): Word {
    (x & y) ^ (!x & z)
  }

  function Parity(x: Word, y: Word, z: Word): Word {
    x ^ y ^ z
  }

  function Maj(x: Word, y: Word, z: Word): Word {
    (x & y) ^ (x & z) ^ (y & z)
  }

  function F(t: nat, x: Word, y: Word, z: Word): Word {
    if t < 20 then Ch(x, y, z) else if t < 40 then Parity(x, y, z) else if t < 60 then Maj(x, y, z) else Parity(x, y, z)
  }

  function K(t: nat): Word {
    if t < 20 then 0x5A827999 else if t < 40 then 0x6ED9EBA1 else if t < 60 then 0x8F1BBCDC else 0xCA62C1D6
  }

  /** The message schedule. */
  function W(m: Block, t: nat): Word {
    if t < 16 then m[t] else Rol(W(m, t - 3) ^ W(m, t - 8) ^ W(m, t - 14) ^ W(m, t - 16), 1)
  }

  function Sum(a: Word, b: Word, c: Word, d: Word, e: Word): Word {
    a + b + c + d + e
  }

  function Step(v: Five, t: nat, w: Word): Five {
    Five(Sum(Rol(v.a, 5), F(t, v.b, v.c, v.d), v.e, K(t), w), v.a, Rol(v.b, 30), v.c, v.d)
  }

  /** The working variables after `t` steps. */
  function Steps(h: Five, m: Block, t: nat): Five {
    if t == 0 then h else Step(Steps(h, m, t - 1), t - 1, W(m, t - 1))
  }

  function Worked(h: Five, m: Block): Five {
    Steps(h, m, 80)
  }

  function Plus(a: Word, b: Word): Word {
    a + b
  }

  function Compress(h: Five, m: Block): Five {
    var v := Worked(h, m);
    Five(Plus(h.a, v.a), Plus(h.b, v.b), Plus(h.c, v.c), Plus(h.d, v.d), Plus(h.e, v.e))
  }

  // The code

  lemma ChIs(w: Word, x: Word, y: Word)
    ensures ((w & (x ^ y)) ^ y) == Ch(w, x, y)
  {
  }

  lemma MajIs(w: Word, x: Word, y: Word)
    ensures (((w | x) & y) | (w & x)) == Maj(w, x, y)
  {
  }

  /** What `R0` to `R4` add for the three words in the middle. */
  function Mixed(t: nat, w: Word, x: Word, y: Word): Word {
    if t < 20 then (w & (x ^ y)) ^ y
    else if t < 40 then w ^ x ^ y
    else if t < 60 then ((w | x) & y) | (w & x)
    else w ^ x ^ y
  }

  lemma MixedIs(t: nat, w: Word, x: Word, y: Word)
    ensures Mixed(t, w, x, y) == F(t, w, x, y)
  {
    hide Ch, Maj;
    ChIs(w, x, y);
    MajIs(w, x, y);
  }

  /** The word that plays part `j` in round `t`: the five names move on by one in each round. */
  function Part(t: nat, j: nat): (k: nat)
    requires j < 5
    ensures k < 5
  {
    if j >= t % 5 then j - t % 5 else j + 5 - t % 5
  }

  /** Each word plays one part. */
  lemma Parts(t: nat)
    ensures Part(t, 4) !in [Part(t, 0), Part(t, 1), Part(t, 2), Part(t, 3)]
    ensures Part(t, 1) !in [Part(t, 0), Part(t, 2), Part(t, 3)]
    ensures Part(t + 1, 0) == Part(t, 4) && Part(t + 1, 1) == Part(t, 0) && Part(t + 1, 2) == Part(t, 1)
    ensures Part(t + 1, 3) == Part(t, 2) && Part(t + 1, 4) == Part(t, 3)
  {
    assert (t + 1) % 5 == if t % 5 == 4 then 0 else t % 5 + 1;
  }

  function Named(r: seq<Word>, t: nat): Five
    requires |r| == 5
  {
    Five(r[Part(t, 0)], r[Part(t, 1)], r[Part(t, 2)], r[Part(t, 3)], r[Part(t, 4)])
  }

  /** The last sixteen words of the schedule, each in its place. */
  ghost predicate Window(l: seq<Word>, m: Block, t: nat) {
    |l| == 16 && forall u | 0 <= u < 16 :: l[u] == W(m, Newest(t, u))
  }

  /** The last number below `t`, or below 16 at first, that is `u` modulo 16. */
  function Newest(t: nat, u: nat): (n: nat)
    requires u < 16
    ensures n % 16 == u && (t <= 16 ==> n == u) && (t > 16 ==> t - 16 <= n < t)
  {
    if t <= 16 then u else t - 1 - (t - 1 - u) % 16
  }

  lemma NewestIs(t: nat, n: nat)
    requires t >= 16 && t - 16 <= n < t
    ensures Newest(t, n % 16) == n
  {
    var k := Newest(t, n % 16);
    assert (n - k) % 16 == 0 && -16 < n - k < 16;
  }

  lemma NewestNext(t: nat, u: nat)
    requires t >= 16 && u < 16
    ensures Newest(t + 1, u) == if u == t % 16 then t else Newest(t, u)
  {
  }

  lemma WindowAt(l: seq<Word>, m: Block, t: nat, n: nat, u: nat)
    requires Window(l, m, t) && t >= 16 && t - 16 <= n < t && u == n % 16
    ensures l[u] == W(m, n)
  {
    hide W;
    NewestIs(t, n);
  }

  lemma WindowNext(l: seq<Word>, m: Block, t: nat)
    requires Window(l, m, t) && t >= 16
    ensures Window(l[t % 16 := W(m, t)], m, t + 1)
  {
    hide W, Newest;
    var after, next := l[t % 16 := W(m, t)], t + 1;
    forall u | 0 <= u < 16 ensures after[u] == W(m, Newest(next, u)) { NewestNext(t, u); }
  }

  lemma WindowEarly(l: seq<Word>, m: Block, t: nat)
    requires Window(l, m, t) && t < 16
    ensures l[t] == W(m, t) && Window(l, m, t + 1)
  {
    hide W;
  }

  lemma WNext(m: Block, t: nat)
    requires t >= 16
    ensures W(m, t) == Rol(W(m, t - 3) ^ W(m, t - 8) ^ W(m, t - 14) ^ W(m, t - 16), 1)
  {
    hide Rol;
  }

  /** `blk`: the word of the schedule for round `t`, kept in place of the one from sixteen rounds before. */
  method Expand(l: array<Word>, ghost m: Block, t: nat) returns (w: Word)
    requires l.Length == 16 && Window(l[..], m, t)
    modifies l
    ensures w == W(m, t) && Window(l[..], m, t + 1)
  {
    hide W, Window, Rol;
    if t < 16 {
      WindowEarly(l[..], m, t);
      w := l[t];
    } else {
      WindowAt(l[..], m, t, t - 3, (t + 13) % 16);
      WindowAt(l[..], m, t, t - 8, (t + 8) % 16);
      WindowAt(l[..], m, t, t - 14, (t + 2) % 16);
      WindowAt(l[..], m, t, t - 16, t % 16);
      WindowNext(l[..], m, t);
      WNext(m, t);
      w := Rol(l[(t + 13) % 16] ^ l[(t + 8) % 16] ^ l[(t + 2) % 16] ^ l[t % 16], 1);
      l[t % 16] := w;
    }
  }

  function Increased(z: Word, f: Word, w: Word, k: Word, v: Word): Word {
    z + (f + w + k + v)
  }

  lemma SameSum(z: Word, f: Word, w: Word, k: Word, v: Word)
    ensures Increased(z, f, w, k, v) == Sum(v, f, z, k, w)
  {
  }

  /** Round `t` on the five words, with the word `w` of the schedule. */
  function Round(r: seq<Word>, t: nat, w: Word): (s: seq<Word>)
    requires |r| == 5
    ensures |s| == 5
  {
    var p0, p1, p2, p3, p4 := Part(t, 0), Part(t, 1), Part(t, 2), Part(t, 3), Part(t, 4);
    var s := r[p4 := Increased(r[p4], Mixed(t, r[p1], r[p2], r[p3]), w, K(t), Rol(r[p0], 5))];
    s[p1 := Rol(s[p1], 30)]
  }

  lemma RoundIs(r: seq<Word>, t: nat, w: Word)
    requires |r| == 5
    ensures Named(Round(r, t, w), t + 1) == Step(Named(r, t), t, w)
  {
    hide Mixed, F, K, Rol, Part, Sum, Increased;
    var v := Named(r, t);
    Parts(t);
    MixedIs(t, v.b, v.c, v.d);
    SameSum(v.e, F(t, v.b, v.c, v.d), w, K(t), Rol(v.a, 5));
  }

  /** `R0` to `R4`. */
  method DoRound(r: array<Word>, t: nat, w: Word)
    requires r.Length == 5
    modifies r
    ensures r[..] == Round(old(r[..]), t, w)
  {
    hide Rol, K, Mixed, Part, Increased;
    var p0, p1, p2, p3, p4 := Part(t, 0), Part(t, 1), Part(t, 2), Part(t, 3), Part(t, 4);
    r[p4] := Increased(r[p4], Mixed(t, r[p1], r[p2], r[p3]), w, K(t), Rol(r[p0], 5));
    r[p1] := Rol(r[p1], 30);
  }

  /** The unrolled rounds of `SHA1_Transform` are the turns of this loop. */
  method AllRounds(r: array<Word>, block: array<Word>)
    requires r.Length == 5 && block.Length == 16 && r != block
    modifies r, block
    ensures Named(r[..], 80) == Worked(old(Named(r[..], 0)), old(block[..]))
  {
    hide Steps, W, Window, Step, Named, Round;
    ghost var h, m := Named(r[..], 0), block[..];
    StartWindow(m);
    NoSteps(h, m);
    for t := 0 to 80
      invariant Window(block[..], m, t) && Named(r[..], t) == Steps(h, m, t)
    {
      var w := Expand(block, m, t);
      RoundIs(r[..], t, w);
      NextStep(h, m, t);
      DoRound(r, t, w);
    }
  }

  /** `SHA1_Transform` on the words of a block. */
  method Transform(state: array<Word>, block: array<Word>)
    requires state.Length == 5 && block.Length == 16 && state != block
    modifies state, block
    ensures Named(state[..], 0) == Compress(old(Named(state[..], 0)), old(block[..]))
  {
    hide Worked, Named, Compress, Plus;
    ghost var s, m := state[..], block[..];
    var r := new Word[5];
    forall i | 0 <= i < 5 { r[i] := state[i]; }
    assert r[..] == s && block[..] == m;
    AllRounds(r, block);
    ghost var v := r[..];
    forall i | 0 <= i < 5 { state[i] := Plus(state[i], r[i]); }
    Sums(s, v, state[..], m);
  }

  lemma Sums(s: seq<Word>, r: seq<Word>, u: seq<Word>, m: Block)
    requires |s| == |r| == |u| == 5 && Named(r, 80) == Worked(Named(s, 0), m)
    requires forall i | 0 <= i < 5 :: u[i] == Plus(s[i], r[i])
    ensures Named(u, 0) == Compress(Named(s, 0), m)
  {
    hide Worked, Named, Plus;
    Names(s, 0);
    Names(r, 80);
    Names(u, 0);
  }

  lemma Names(r: seq<Word>, t: nat)
    requires |r| == 5 && t % 5 == 0
    ensures Named(r, t) == Five(r[0], r[1], r[2], r[3], r[4])
  {
  }

  lemma NoSteps(h: Five, m: Block)
    ensures Steps(h, m, 0) == h
  {
  }

  lemma NextStep(h: Five, m: Block, t: nat)
    ensures Steps(h, m, t + 1) == Step(Steps(h, m, t), t, W(m, t))
  {
    hide Step, W;
  }

  lemma StartWindow(m: Block)
    ensures Window(m, m, 0)
  {
  }

  // Bytes

  function ToWord(a: Word, b: Word, c: Word, d: Word): Word {
    (a << 24) | (b << 16) | (c << 8) | d
  }

  /** `blk0`: a word loaded with its lowest byte first comes out with its highest byte first. */
  lemma Swapped(a: Word, b: Word, c: Word, d: Word)
    requires a < 256 && b < 256 && c < 256 && d < 256
    ensures var l := ToWord(d, c, b, a);
            (Rol(l, 24) & 0xFF00FF00) | (Rol(l, 8) & 0x00FF00FF) == ToWord(a, b, c, d)
  {
  }

  function Words(s: seq<Byte>): Block
    requires |s| == 64
  {
    seq(16, i requires 0 <= i < 16 =>
      ToWord(s[4 * i] as Word, s[4 * i + 1] as Word, s[4 * i + 2] as Word, s[4 * i + 3] as Word))
  }

  function ToFive(st: Sha1.State): Five {
    Five(st[0] as Word, st[1] as Word, st[2] as Word, st[3] as Word, st[4] as Word)
  }

  function ToState(v: Five): Sha1.State {
    [v.a as nat, v.b as nat, v.c as nat, v.d as nat, v.e as nat]
  }

  /** The function on blocks that makes the digests of Sha1 those of the standard. */
  function OnBlocks(st: Sha1.State, s: seq<Byte>): Sha1.State {
    if |s| == 64 then ToState(Compress(ToFive(st), Words(s))) else st
  }

  const START: Five := Five(0x67452301, 0xEFCDAB89, 0x98BADCFE, 0x10325476, 0xC3D2E1F0)

  /** The hash value after the blocks of a padded message. */
  function Hashed(h: Five, message: seq<Byte>): Five
    decreases |message|
  {
    if |message| < 64 then h else Hashed(Compress(h, Words(message[..64])), message[64..])
  }

  lemma AsWord(w: Word)
    ensures (w as nat) as Word == w
  {
  }

  lemma AsFive(v: Five)
    ensures ToFive(ToState(v)) == v
  {
    AsWord(v.a);
    AsWord(v.b);
    AsWord(v.c);
    AsWord(v.d);
    AsWord(v.e);
  }

  lemma {:induction false} AbsorbIs(v: Five, message: seq<Byte>)
    ensures Sha1.Absorb(OnBlocks, ToState(v), message) == ToState(Hashed(v, message))
    decreases |message|
  {
    hide ToFive, ToState, Compress, Words;
    if |message| >= 64 {
      AsFive(v);
      AbsorbIs(Compress(v, Words(message[..64])), message[64..]);
    }
  }

  lemma StartIs()
    ensures ToState(START) == Sha1.INIT
  {
  }

  /** With `SHA1_Transform` the digest is that of the standard: of the hash value of the padded data. */
  lemma DigestIs(data: seq<Byte>)
    requires 8 * |data| < Sha1.TWO_TO_64
    ensures Sha1.Standard(OnBlocks, data) == Sha1.Output(ToState(Hashed(START, Sha1.Padded(data, 8 * |data|))))
  {
    hide OnBlocks, ToState, Hashed, Sha1.Absorb, Sha1.Output, Sha1.Padded;
    StartIs();
    AbsorbIs(START, Sha1.Padded(data, 8 * |data|));
  }
}
