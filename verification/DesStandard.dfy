/** The data encryption standard as FIPS 46-3 defines it. As there, bits are numbered from 1, the most significant one
    first, and the numbers below are the rows of its tables. */
module DesStandard {
  type Word = bv32

  /** A block, or a key with its parity bits: bits 1 to 32 and 33 to 64. */
  datatype Block = Block(x: Word, y: Word)

  /** A round key: eight groups of six bits. */
  datatype RoundKey = RoundKey(k1: Word, k2: Word, k3: Word, k4: Word, k5: Word, k6: Word, k7: Word, k8: Word)

  function Bit(h: Block, n: nat): Word
    requires 1 <= n <= 64
  {
    if n <= 32 then (h.x >> (32 - n)) & 1 else (h.y >> (64 - n)) & 1
  }

  function Six(h: Block, a: nat, b: nat, c: nat, d: nat, e: nat, f: nat): Word
    requires 1 <= a <= 64 && 1 <= b <= 64 && 1 <= c <= 64 && 1 <= d <= 64 && 1 <= e <= 64 && 1 <= f <= 64
  {
    (Bit(h, a) << 5) | (Bit(h, b) << 4) | (Bit(h, c) << 3) | (Bit(h, d) << 2) | (Bit(h, e) << 1) | Bit(h, f)
  }

  function Seven(h: Block, a: nat, b: nat, c: nat, d: nat, e: nat, f: nat, g: nat): Word
    requires 1 <= a <= 64 && 1 <= b <= 64 && 1 <= c <= 64 && 1 <= d <= 64 && 1 <= e <= 64 && 1 <= f <= 64
    requires 1 <= g <= 64
  {
    (Six(h, a, b, c, d, e, f) << 1) | Bit(h, g)
  }

  function Eight(h: Block, a: nat, b: nat, c: nat, d: nat, e: nat, f: nat, g: nat, i: nat): Word
    requires 1 <= a <= 64 && 1 <= b <= 64 && 1 <= c <= 64 && 1 <= d <= 64 && 1 <= e <= 64 && 1 <= f <= 64
    requires 1 <= g <= 64 && 1 <= i <= 64
  {
    (Six(h, a, b, c, d, e, f) << 2) | (Bit(h, g) << 1) | Bit(h, i)
  }

  function FourBytes(a: Word, b: Word, c: Word, d: Word): Word {
    (a << 24) | (b << 16) | (c << 8) | d
  }

  /** The initial permutation. */
  function IP(h: Block): Block {
    Block(FourBytes(
            Eight(h, 58, 50, 42, 34, 26, 18, 10, 2),
            Eight(h, 60, 52, 44, 36, 28, 20, 12, 4),
            Eight(h, 62, 54, 46, 38, 30, 22, 14, 6),
            Eight(h, 64, 56, 48, 40, 32, 24, 16, 8)),
          FourBytes(
            Eight(h, 57, 49, 41, 33, 25, 17, 9, 1),
            Eight(h, 59, 51, 43, 35, 27, 19, 11, 3),
            Eight(h, 61, 53, 45, 37, 29, 21, 13, 5),
            Eight(h, 63, 55, 47, 39, 31, 23, 15, 7)))
  }

  /** Six bits of the expanded half for each S-box. */
  function E(r: Word): RoundKey {
    var h := Block(r, 0);
    RoundKey(
      Six(h, 32, 1, 2, 3, 4, 5),
      Six(h, 4, 5, 6, 7, 8, 9),
      Six(h, 8, 9, 10, 11, 12, 13),
      Six(h, 12, 13, 14, 15, 16, 17),
      Six(h, 16, 17, 18, 19, 20, 21),
      Six(h, 20, 21, 22, 23, 24, 25),
      Six(h, 24, 25, 26, 27, 28, 29),
      Six(h, 28, 29, 30, 31, 32, 1))
  }

  /** The rows of an S-box, a hexadecimal digit for each column. */
  function Row(i: nat, row: Word): bv64 {
    match i
    case 1 => Rows(row, 0xE4D12FB83A6C5907, 0x0F74E2D1A6CB9538, 0x41E8D62BFC973A50, 0xFC8249175B3EA06D)
    case 2 => Rows(row, 0xF18E6B34972DC05A, 0x3D47F28EC01A69B5, 0x0E7BA4D158C6932F, 0xD8A13F42B67C05E9)
    case 3 => Rows(row, 0xA09E63F51DC7B428, 0xD709346A285ECBF1, 0xD6498F30B12C5AE7, 0x1AD069874FE3B52C)
    case 4 => Rows(row, 0x7DE3069A1285BC4F, 0xD8B56F03472C1AE9, 0xA690CB7DF13E5284, 0x3F06A1D8945BC72E)
    case 5 => Rows(row, 0x2C417AB6853FD0E9, 0xEB2C47D150FA3986, 0x421BAD78F9C5630E, 0xB8C71E2D6F09A453)
    case 6 => Rows(row, 0xC1AF92680D34E75B, 0xAF427C9561DE0B38, 0x9EF528C3704A1DB6, 0x432C95FABE17608D)
    case 7 => Rows(row, 0x4B2EF08D3C975A61, 0xD0B7491AE35C2F86, 0x14BDC37EAF680592, 0x6BD814A7950FE23C)
    case _ => Rows(row, 0xD2846FB1A93E50C7, 0x1FD8A374C56B0E92, 0x7B419CE206ADF358, 0x21E74A8DFC90356B)
  }

  function Rows(row: Word, r0: bv64, r1: bv64, r2: bv64, r3: bv64): bv64 {
    if row == 0 then r0 else if row == 1 then r1 else if row == 2 then r2 else r3
  }

  /** S-box `i` of six bits: the outer two name the row, the inner four the column. */
  function S(i: nat, x: Word): Word {
    var row, column := ((x >> 4) & 2) | (x & 1), (x >> 1) & 0xF;
    ((Row(i, row) >> (60 - 4 * column as bv7)) & 0xF) as Word
  }

  function P(w: Word): Word {
    var h := Block(w, 0);
    FourBytes(
      Eight(h, 16, 7, 20, 21, 29, 12, 28, 17),
      Eight(h, 1, 15, 23, 26, 5, 18, 31, 10),
      Eight(h, 2, 8, 24, 14, 32, 27, 3, 9),
      Eight(h, 19, 13, 30, 6, 22, 11, 4, 25))
  }

  /** The eight S-boxes side by side. */
  function Boxed(e: RoundKey): Word {
    (S(1, e.k1) << 28) | (S(2, e.k2) << 24) | (S(3, e.k3) << 20) | (S(4, e.k4) << 16)
    | (S(5, e.k5) << 12) | (S(6, e.k6) << 8) | (S(7, e.k7) << 4) | S(8, e.k8)
  }

  function Xor(a: RoundKey, b: RoundKey): RoundKey {
    RoundKey(a.k1 ^ b.k1, a.k2 ^ b.k2, a.k3 ^ b.k3, a.k4 ^ b.k4, a.k5 ^ b.k5, a.k6 ^ b.k6, a.k7 ^ b.k7, a.k8 ^ b.k8)
  }

  /** The cipher function. */
  function F(r: Word, key: RoundKey): Word {
    P(Boxed(Xor(E(r), key)))
  }

  function Next(l: Word, r: Word, key: RoundKey): Word {
    l ^ F(r, key)
  }

  /** The rounds; the halves are exchanged in the end. */
  function Rounds(keys: seq<RoundKey>, l: Word, r: Word): Block {
    if keys == [] then Block(r, l) else Rounds(keys[1..], r, Next(l, r, keys[0]))
  }

  // The key schedule, on the two halves of 28 bits

  function PC1C(key: Block): Word {
    (Seven(key, 57, 49, 41, 33, 25, 17, 9) << 21)
    | (Seven(key, 1, 58, 50, 42, 34, 26, 18) << 14)
    | (Seven(key, 10, 2, 59, 51, 43, 35, 27) << 7)
    | Seven(key, 19, 11, 3, 60, 52, 44, 36)
  }

  function PC1D(key: Block): Word {
    (Seven(key, 63, 55, 47, 39, 31, 23, 15) << 21)
    | (Seven(key, 7, 62, 54, 46, 38, 30, 22) << 14)
    | (Seven(key, 14, 6, 61, 53, 45, 37, 29) << 7)
    | Seven(key, 21, 13, 5, 28, 20, 12, 4)
  }

  function Rotated(c: Word, n: nat): Word
    requires n <= 28
  {
    ((c << n) | (c >> (28 - n))) & 0x0FFFFFFF
  }

  /** By how much the halves are rotated before round `i`, counted from 0. */
  function Shift(i: nat): (n: nat)
    ensures n == 1 || n == 2
  {
    if i < 2 || i == 8 || i == 15 then 1 else 2
  }

  /** Of the 56 bits; they are laid out as the first ones of a block. */
  function PC2(c: Word, d: Word): RoundKey {
    var h := Block((c << 4) | (d >> 24), d << 8);
    RoundKey(
      Six(h, 14, 17, 11, 24, 1, 5),
      Six(h, 3, 28, 15, 6, 21, 10),
      Six(h, 23, 19, 12, 4, 26, 8),
      Six(h, 16, 7, 27, 20, 13, 2),
      Six(h, 41, 52, 31, 37, 47, 55),
      Six(h, 30, 40, 51, 45, 33, 48),
      Six(h, 44, 49, 39, 56, 34, 53),
      Six(h, 46, 42, 50, 36, 29, 32))
  }

  /** The keys of the rounds from `i` on. */
  function RoundKeys(c: Word, d: Word, i: nat): (ks: seq<RoundKey>)
    decreases 16 - i
  {
    if i >= 16 then []
    else
      var c1, d1 := Rotated(c, Shift(i)), Rotated(d, Shift(i));
      [PC2(c1, d1)] + RoundKeys(c1, d1, i + 1)
  }

  function KeySchedule(key: Block): seq<RoundKey> {
    RoundKeys(PC1C(key), PC1D(key), 0)
  }

  /** `output` is `input` enciphered, or deciphered if the keys are in reverse: the last permutation is the inverse of
      the initial one. */
  predicate Enciphers(keys: seq<RoundKey>, input: Block, output: Block) {
    IP(output) == Rounds(keys, IP(input).x, IP(input).y)
  }
}
