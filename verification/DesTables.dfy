/** The S-boxes and the key schedule of lua-crypt.c. With these the cipher of module Des is the data encryption
    standard: each table entry is an S-box of the standard, permuted and rotated by one bit. */
module DesTables {
  import opened Common
  import opened Des
  import Std = DesStandard

  // The tables

  /** The entry that the last three bits of `x` name. */
  function Entry(x: Word, a: Word, b: Word, c: Word, d: Word, e: Word, f: Word, g: Word, h: Word): Word {
    if x & 4 == 0 then (if x & 2 == 0 then (if x & 1 == 0 then a else b) else (if x & 1 == 0 then c else d))
    else if x & 2 == 0 then (if x & 1 == 0 then e else f) else (if x & 1 == 0 then g else h)
  }

  function SB1(x: Word): Word {
    match x >> 3
    case 0 => Entry(x, 0x01010400, 0x00000000, 0x00010000, 0x01010404,
                       0x01010004, 0x00010404, 0x00000004, 0x00010000)
    case 1 => Entry(x, 0x00000400, 0x01010400, 0x01010404, 0x00000400,
                       0x01000404, 0x01010004, 0x01000000, 0x00000004)
    case 2 => Entry(x, 0x00000404, 0x01000400, 0x01000400, 0x00010400,
                       0x00010400, 0x01010000, 0x01010000, 0x01000404)
    case 3 => Entry(x, 0x00010004, 0x01000004, 0x01000004, 0x00010004,
                       0x00000000, 0x00000404, 0x00010404, 0x01000000)
    case 4 => Entry(x, 0x00010000, 0x01010404, 0x00000004, 0x01010000,
                       0x01010400, 0x01000000, 0x01000000, 0x00000400)
    case 5 => Entry(x, 0x01010004, 0x00010000, 0x00010400, 0x01000004,
                       0x00000400, 0x00000004, 0x01000404, 0x00010404)
    case 6 => Entry(x, 0x01010404, 0x00010004, 0x01010000, 0x01000404,
                       0x01000004, 0x00000404, 0x00010404, 0x01010400)
    case _ => Entry(x, 0x00000404, 0x01000400, 0x01000400, 0x00000000,
                       0x00010004, 0x00010400, 0x00000000, 0x01010004)
  }

  function SB2(x: Word): Word {
    match x >> 3
    case 0 => Entry(x, 0x80108020, 0x80008000, 0x00008000, 0x00108020,
                       0x00100000, 0x00000020, 0x80100020, 0x80008020)
    case 1 => Entry(x, 0x80000020, 0x80108020, 0x80108000, 0x80000000,
                       0x80008000, 0x00100000, 0x00000020, 0x80100020)
    case 2 => Entry(x, 0x00108000, 0x00100020, 0x80008020, 0x00000000,
                       0x80000000, 0x00008000, 0x00108020, 0x80100000)
    case 3 => Entry(x, 0x00100020, 0x80000020, 0x00000000, 0x00108000,
                       0x00008020, 0x80108000, 0x80100000, 0x00008020)
    case 4 => Entry(x, 0x00000000, 0x00108020, 0x80100020, 0x00100000,
                       0x80008020, 0x80100000, 0x80108000, 0x00008000)
    case 5 => Entry(x, 0x80100000, 0x80008000, 0x00000020, 0x80108020,
                       0x00108020, 0x00000020, 0x00008000, 0x80000000)
    case 6 => Entry(x, 0x00008020, 0x80108000, 0x00100000, 0x80000020,
                       0x00100020, 0x80008020, 0x80000020, 0x00100020)
    case _ => Entry(x, 0x00108000, 0x00000000, 0x80008000, 0x00008020,
                       0x80000000, 0x80100020, 0x80108020, 0x00108000)
  }

  function SB3(x: Word): Word {
    match x >> 3
    case 0 => Entry(x, 0x00000208, 0x08020200, 0x00000000, 0x08020008,
                       0x08000200, 0x00000000, 0x00020208, 0x08000200)
    case 1 => Entry(x, 0x00020008, 0x08000008, 0x08000008, 0x00020000,
                       0x08020208, 0x00020008, 0x08020000, 0x00000208)
    case 2 => Entry(x, 0x08000000, 0x00000008, 0x08020200, 0x00000200,
                       0x00020200, 0x08020000, 0x08020008, 0x00020208)
    case 3 => Entry(x, 0x08000208, 0x00020200, 0x00020000, 0x08000208,
                       0x00000008, 0x08020208, 0x00000200, 0x08000000)
    case 4 => Entry(x, 0x08020200, 0x08000000, 0x00020008, 0x00000208,
                       0x00020000, 0x08020200, 0x08000200, 0x00000000)
    case 5 => Entry(x, 0x00000200, 0x00020008, 0x08020208, 0x08000200,
                       0x08000008, 0x00000200, 0x00000000, 0x08020008)
    case 6 => Entry(x, 0x08000208, 0x00020000, 0x08000000, 0x08020208,
                       0x00000008, 0x00020208, 0x00020200, 0x08000008)
    case _ => Entry(x, 0x08020000, 0x08000208, 0x00000208, 0x08020000,
                       0x00020208, 0x00000008, 0x08020008, 0x00020200)
  }

  function SB4(x: Word): Word {
    match x >> 3
    case 0 => Entry(x, 0x00802001, 0x00002081, 0x00002081, 0x00000080,
                       0x00802080, 0x00800081, 0x00800001, 0x00002001)
    case 1 => Entry(x, 0x00000000, 0x00802000, 0x00802000, 0x00802081,
                       0x00000081, 0x00000000, 0x00800080, 0x00800001)
    case 2 => Entry(x, 0x00000001, 0x00002000, 0x00800000, 0x00802001,
                       0x00000080, 0x00800000, 0x00002001, 0x00002080)
    case 3 => Entry(x, 0x00800081, 0x00000001, 0x00002080, 0x00800080,
                       0x00002000, 0x00802080, 0x00802081, 0x00000081)
    case 4 => Entry(x, 0x00800080, 0x00800001, 0x00802000, 0x00802081,
                       0x00000081, 0x00000000, 0x00000000, 0x00802000)
    case 5 => Entry(x, 0x00002080, 0x00800080, 0x00800081, 0x00000001,
                       0x00802001, 0x00002081, 0x00002081, 0x00000080)
    case 6 => Entry(x, 0x00802081, 0x00000081, 0x00000001, 0x00002000,
                       0x00800001, 0x00002001, 0x00802080, 0x00800081)
    case _ => Entry(x, 0x00002001, 0x00002080, 0x00800000, 0x00802001,
                       0x00000080, 0x00800000, 0x00002000, 0x00802080)
  }

  function SB5(x: Word): Word {
    match x >> 3
    case 0 => Entry(x, 0x00000100, 0x02080100, 0x02080000, 0x42000100,
                       0x00080000, 0x00000100, 0x40000000, 0x02080000)
    case 1 => Entry(x, 0x40080100, 0x00080000, 0x02000100, 0x40080100,
                       0x42000100, 0x42080000, 0x00080100, 0x40000000)
    case 2 => Entry(x, 0x02000000, 0x40080000, 0x40080000, 0x00000000,
                       0x40000100, 0x42080100, 0x42080100, 0x02000100)
    case 3 => Entry(x, 0x42080000, 0x40000100, 0x00000000, 0x42000000,
                       0x02080100, 0x02000000, 0x42000000, 0x00080100)
    case 4 => Entry(x, 0x00080000, 0x42000100, 0x00000100, 0x02000000,
                       0x40000000, 0x02080000, 0x42000100, 0x40080100)
    case 5 => Entry(x, 0x02000100, 0x40000000, 0x42080000, 0x02080100,
                       0x40080100, 0x00000100, 0x02000000, 0x42080000)
    case 6 => Entry(x, 0x42080100, 0x00080100, 0x42000000, 0x42080100,
                       0x02080000, 0x00000000, 0x40080000, 0x42000000)
    case _ => Entry(x, 0x00080100, 0x02000100, 0x40000100, 0x00080000,
                       0x00000000, 0x40080000, 0x02080100, 0x40000100)
  }

  function SB6(x: Word): Word {
    match x >> 3
    case 0 => Entry(x, 0x20000010, 0x20400000, 0x00004000, 0x20404010,
                       0x20400000, 0x00000010, 0x20404010, 0x00400000)
    case 1 => Entry(x, 0x20004000, 0x00404010, 0x00400000, 0x20000010,
                       0x00400010, 0x20004000, 0x20000000, 0x00004010)
    case 2 => Entry(x, 0x00000000, 0x00400010, 0x20004010, 0x00004000,
                       0x00404000, 0x20004010, 0x00000010, 0x20400010)
    case 3 => Entry(x, 0x20400010, 0x00000000, 0x00404010, 0x20404000,
                       0x00004010, 0x00404000, 0x20404000, 0x20000000)
    case 4 => Entry(x, 0x20004000, 0x00000010, 0x20400010, 0x00404000,
                       0x20404010, 0x00400000, 0x00004010, 0x20000010)
    case 5 => Entry(x, 0x00400000, 0x20004000, 0x20000000, 0x00004010,
                       0x20000010, 0x20404010, 0x00404000, 0x20400000)
    case 6 => Entry(x, 0x00404010, 0x20404000, 0x00000000, 0x20400010,
                       0x00000010, 0x00004000, 0x20400000, 0x00404010)
    case _ => Entry(x, 0x00004000, 0x00400010, 0x20004010, 0x00000000,
                       0x20404000, 0x20000000, 0x00400010, 0x20004010)
  }

  function SB7(x: Word): Word {
    match x >> 3
    case 0 => Entry(x, 0x00200000, 0x04200002, 0x04000802, 0x00000000,
                       0x00000800, 0x04000802, 0x00200802, 0x04200800)
    case 1 => Entry(x, 0x04200802, 0x00200000, 0x00000000, 0x04000002,
                       0x00000002, 0x04000000, 0x04200002, 0x00000802)
    case 2 => Entry(x, 0x04000800, 0x00200802, 0x00200002, 0x04000800,
                       0x04000002, 0x04200000, 0x04200800, 0x00200002)
    case 3 => Entry(x, 0x04200000, 0x00000800, 0x00000802, 0x04200802,
                       0x00200800, 0x00000002, 0x04000000, 0x00200800)
    case 4 => Entry(x, 0x04000000, 0x00200800, 0x00200000, 0x04000802,
                       0x04000802, 0x04200002, 0x04200002, 0x00000002)
    case 5 => Entry(x, 0x00200002, 0x04000000, 0x04000800, 0x00200000,
                       0x04200800, 0x00000802, 0x00200802, 0x04200800)
    case 6 => Entry(x, 0x00000802, 0x04000002, 0x04200802, 0x04200000,
                       0x00200800, 0x00000000, 0x00000002, 0x04200802)
    case _ => Entry(x, 0x00000000, 0x00200802, 0x04200000, 0x00000800,
                       0x04000002, 0x04000800, 0x00000800, 0x00200002)
  }

  function SB8(x: Word): Word {
    match x >> 3
    case 0 => Entry(x, 0x10001040, 0x00001000, 0x00040000, 0x10041040,
                       0x10000000, 0x10001040, 0x00000040, 0x10000000)
    case 1 => Entry(x, 0x00040040, 0x10040000, 0x10041040, 0x00041000,
                       0x10041000, 0x00041040, 0x00001000, 0x00000040)
    case 2 => Entry(x, 0x10040000, 0x10000040, 0x10001000, 0x00001040,
                       0x00041000, 0x00040040, 0x10040040, 0x10041000)
    case 3 => Entry(x, 0x00001040, 0x00000000, 0x00000000, 0x10040040,
                       0x10000040, 0x10001000, 0x00041040, 0x00040000)
    case 4 => Entry(x, 0x00041040, 0x00040000, 0x10041000, 0x00001000,
                       0x00000040, 0x10040040, 0x00001000, 0x00041040)
    case 5 => Entry(x, 0x10001000, 0x00000040, 0x10000040, 0x10040000,
                       0x10040040, 0x10000000, 0x00040000, 0x10001040)
    case 6 => Entry(x, 0x00000000, 0x10041040, 0x00040040, 0x10000040,
                       0x10040000, 0x10001000, 0x10001040, 0x00000000)
    case _ => Entry(x, 0x10041040, 0x00041000, 0x00041000, 0x00001040,
                       0x00001040, 0x00040040, 0x10000000, 0x10041000)
  }

  function Tables(i: nat, x: Word): Word {
    match i
    case 1 => SB1(x)
    case 2 => SB2(x)
    case 3 => SB3(x)
    case 4 => SB4(x)
    case 5 => SB5(x)
    case 6 => SB6(x)
    case 7 => SB7(x)
    case _ => SB8(x)
  }

  // Each entry spreads the four bits of the S-box, one bit to each byte

  /** Where the four bits go. */
  function Spread(v: Word, a: bv6, b: bv6, c: bv6, d: bv6): Word
    requires a < 32 && b < 32 && c < 32 && d < 32
  {
    (((v >> 3) & 1) << a) | (((v >> 2) & 1) << b) | (((v >> 1) & 1) << c) | ((v & 1) << d)
  }

  function Permuted(i: nat, v: Word): Word {
    match i
    case 1 => Spread(v, 24, 16, 10, 2)
    case 2 => Spread(v, 20, 5, 31, 15)
    case 3 => Spread(v, 9, 17, 3, 27)
    case 4 => Spread(v, 7, 13, 23, 0)
    case 5 => Spread(v, 25, 19, 8, 30)
    case 6 => Spread(v, 29, 4, 22, 14)
    case 7 => Spread(v, 1, 21, 11, 26)
    case _ => Spread(v, 28, 6, 18, 12)
  }

  // ... box by box, for the numbers whose first bit is 0 and for those where it is 1

  lemma Box1Low(x: Word)
    requires x < 32
    ensures SB1(x) == Permuted(1, Std.S(1, x)) && Std.S(1, x) < 16
  {
    match x >> 3
    case 0 =>
    case 1 =>
    case 2 =>
    case 3 =>
    case _ =>
  }

  lemma Box1High(x: Word)
    requires 32 <= x < 64
    ensures SB1(x) == Permuted(1, Std.S(1, x)) && Std.S(1, x) < 16
  {
    match x >> 3
    case 4 =>
    case 5 =>
    case 6 =>
    case 7 =>
    case _ =>
  }

  lemma Box2Low(x: Word)
    requires x < 32
    ensures SB2(x) == Permuted(2, Std.S(2, x)) && Std.S(2, x) < 16
  {
    match x >> 3
    case 0 =>
    case 1 =>
    case 2 =>
    case 3 =>
    case _ =>
  }

  lemma Box2High(x: Word)
    requires 32 <= x < 64
    ensures SB2(x) == Permuted(2, Std.S(2, x)) && Std.S(2, x) < 16
  {
    match x >> 3
    case 4 =>
    case 5 =>
    case 6 =>
    case 7 =>
    case _ =>
  }

  lemma Box3Low(x: Word)
    requires x < 32
    ensures SB3(x) == Permuted(3, Std.S(3, x)) && Std.S(3, x) < 16
  {
    match x >> 3
    case 0 =>
    case 1 =>
    case 2 =>
    case 3 =>
    case _ =>
  }

  lemma Box3High(x: Word)
    requires 32 <= x < 64
    ensures SB3(x) == Permuted(3, Std.S(3, x)) && Std.S(3, x) < 16
  {
    match x >> 3
    case 4 =>
    case 5 =>
    case 6 =>
    case 7 =>
    case _ =>
  }

  lemma Box4Low(x: Word)
    requires x < 32
    ensures SB4(x) == Permuted(4, Std.S(4, x)) && Std.S(4, x) < 16
  {
    match x >> 3
    case 0 =>
    case 1 =>
    case 2 =>
    case 3 =>
    case _ =>
  }

  lemma Box4High(x: Word)
    requires 32 <= x < 64
    ensures SB4(x) == Permuted(4, Std.S(4, x)) && Std.S(4, x) < 16
  {
    match x >> 3
    case 4 =>
    case 5 =>
    case 6 =>
    case 7 =>
    case _ =>
  }

  lemma Box5Low(x: Word)
    requires x < 32
    ensures SB5(x) == Permuted(5, Std.S(5, x)) && Std.S(5, x) < 16
  {
    match x >> 3
    case 0 =>
    case 1 =>
    case 2 =>
    case 3 =>
    case _ =>
  }

  lemma Box5High(x: Word)
    requires 32 <= x < 64
    ensures SB5(x) == Permuted(5, Std.S(5, x)) && Std.S(5, x) < 16
  {
    match x >> 3
    case 4 =>
    case 5 =>
    case 6 =>
    case 7 =>
    case _ =>
  }

  lemma Box6Low(x: Word)
    requires x < 32
    ensures SB6(x) == Permuted(6, Std.S(6, x)) && Std.S(6, x) < 16
  {
    match x >> 3
    case 0 =>
    case 1 =>
    case 2 =>
    case 3 =>
    case _ =>
  }

  lemma Box6High(x: Word)
    requires 32 <= x < 64
    ensures SB6(x) == Permuted(6, Std.S(6, x)) && Std.S(6, x) < 16
  {
    match x >> 3
    case 4 =>
    case 5 =>
    case 6 =>
    case 7 =>
    case _ =>
  }

  lemma Box7Low(x: Word)
    requires x < 32
    ensures SB7(x) == Permuted(7, Std.S(7, x)) && Std.S(7, x) < 16
  {
    match x >> 3
    case 0 =>
    case 1 =>
    case 2 =>
    case 3 =>
    case _ =>
  }

  lemma Box7High(x: Word)
    requires 32 <= x < 64
    ensures SB7(x) == Permuted(7, Std.S(7, x)) && Std.S(7, x) < 16
  {
    match x >> 3
    case 4 =>
    case 5 =>
    case 6 =>
    case 7 =>
    case _ =>
  }

  lemma Box8Low(x: Word)
    requires x < 32
    ensures SB8(x) == Permuted(8, Std.S(8, x)) && Std.S(8, x) < 16
  {
    match x >> 3
    case 0 =>
    case 1 =>
    case 2 =>
    case 3 =>
    case _ =>
  }

  lemma Box8High(x: Word)
    requires 32 <= x < 64
    ensures SB8(x) == Permuted(8, Std.S(8, x)) && Std.S(8, x) < 16
  {
    match x >> 3
    case 4 =>
    case 5 =>
    case 6 =>
    case 7 =>
    case _ =>
  }

  lemma BoxLow(i: nat, x: Word)
    requires 1 <= i <= 8 && x < 32
    ensures Tables(i, x) == Permuted(i, Std.S(i, x)) && Std.S(i, x) < 16
  {
    hide Std.S, Permuted;
    match i
    case 1 => Box1Low(x);
    case 2 => Box2Low(x);
    case 3 => Box3Low(x);
    case 4 => Box4Low(x);
    case 5 => Box5Low(x);
    case 6 => Box6Low(x);
    case 7 => Box7Low(x);
    case 8 => Box8Low(x);
  }

  lemma BoxHigh(i: nat, x: Word)
    requires 1 <= i <= 8 && 32 <= x < 64
    ensures Tables(i, x) == Permuted(i, Std.S(i, x)) && Std.S(i, x) < 16
  {
    hide Std.S, Permuted;
    match i
    case 1 => Box1High(x);
    case 2 => Box2High(x);
    case 3 => Box3High(x);
    case 4 => Box4High(x);
    case 5 => Box5High(x);
    case 6 => Box6High(x);
    case 7 => Box7High(x);
    case 8 => Box8High(x);
  }

  /** Every entry of every table is what the standard's S-box gives, permuted and rotated. */
  lemma BoxIs(i: nat, x: Word)
    requires 1 <= i <= 8 && x < 64
    ensures Tables(i, x) == Permuted(i, Std.S(i, x)) && Std.S(i, x) < 16
  {
    if x < 32 { BoxLow(i, x); } else { BoxHigh(i, x); }
  }

  // The initial permutation. The code keeps the halves rotated by one bit

  function Unrotated(h: Halves): Std.Block {
    Std.Block(Right(h.x), Right(h.y))
  }

  function Plain(h: Halves): Std.Block {
    Std.Block(h.x, h.y)
  }

  // ... row by row of the table: the numbers are those of the standard

  lemma InitialRow1(h: Halves)
    ensures (Right(Initial(h).x) >> 24) & 0xFF == Std.Eight(Plain(h), 58, 50, 42, 34, 26, 18, 10, 2)
  {
  }

  lemma InitialRow2(h: Halves)
    ensures (Right(Initial(h).x) >> 16) & 0xFF == Std.Eight(Plain(h), 60, 52, 44, 36, 28, 20, 12, 4)
  {
  }

  lemma InitialRow3(h: Halves)
    ensures (Right(Initial(h).x) >> 8) & 0xFF == Std.Eight(Plain(h), 62, 54, 46, 38, 30, 22, 14, 6)
  {
  }

  lemma InitialRow4(h: Halves)
    ensures (Right(Initial(h).x) >> 0) & 0xFF == Std.Eight(Plain(h), 64, 56, 48, 40, 32, 24, 16, 8)
  {
  }

  lemma InitialRow5(h: Halves)
    ensures (Right(Initial(h).y) >> 24) & 0xFF == Std.Eight(Plain(h), 57, 49, 41, 33, 25, 17, 9, 1)
  {
  }

  lemma InitialRow6(h: Halves)
    ensures (Right(Initial(h).y) >> 16) & 0xFF == Std.Eight(Plain(h), 59, 51, 43, 35, 27, 19, 11, 3)
  {
  }

  lemma InitialRow7(h: Halves)
    ensures (Right(Initial(h).y) >> 8) & 0xFF == Std.Eight(Plain(h), 61, 53, 45, 37, 29, 21, 13, 5)
  {
  }

  lemma InitialRow8(h: Halves)
    ensures (Right(Initial(h).y) >> 0) & 0xFF == Std.Eight(Plain(h), 63, 55, 47, 39, 31, 23, 15, 7)
  {
  }

  lemma Bytes(w: Word)
    ensures w == Std.FourBytes((w >> 24) & 0xFF, (w >> 16) & 0xFF, (w >> 8) & 0xFF, (w >> 0) & 0xFF)
  {
  }

  /** The exchanges of `DES_IP` are the initial permutation of the standard. */
  lemma InitialIs(h: Halves)
    ensures Unrotated(Initial(h)) == Std.IP(Plain(h))
  {
    hide Std.Eight, Std.FourBytes, Initial, Right;
    Bytes(Right(Initial(h).x));
    Bytes(Right(Initial(h).y));
    InitialRow1(h);
    InitialRow2(h);
    InitialRow3(h);
    InitialRow4(h);
    InitialRow5(h);
    InitialRow6(h);
    InitialRow7(h);
    InitialRow8(h);
  }

  // A round

  /** The groups of the two subkeys of a round, in the order of the S-boxes that use them. */
  function RoundKey(k0: Word, k1: Word): Std.RoundKey {
    Std.RoundKey((k1 >> 24) & 0x3F, (k0 >> 24) & 0x3F, (k1 >> 16) & 0x3F, (k0 >> 16) & 0x3F,
                 (k1 >> 8) & 0x3F, (k0 >> 8) & 0x3F, k1 & 0x3F, k0 & 0x3F)
  }

  /** The inputs of the S-boxes, as `DES_ROUND` takes them from the other half. */
  function Inputs(k0: Word, k1: Word, x: Word): Std.RoundKey {
    var t := k0 ^ x;
    var u := k1 ^ ((x << 28) | (x >> 4));
    Std.RoundKey((u >> 24) & 0x3F, (t >> 24) & 0x3F, (u >> 16) & 0x3F, (t >> 16) & 0x3F,
                 (u >> 8) & 0x3F, (t >> 8) & 0x3F, u & 0x3F, t & 0x3F)
  }

  lemma Input1(k0: Word, k1: Word, r: Word)
    ensures Inputs(k0, k1, Left(r)).k1 == Std.Xor(Std.E(r), RoundKey(k0, k1)).k1 < 64
  {
  }

  lemma Input2(k0: Word, k1: Word, r: Word)
    ensures Inputs(k0, k1, Left(r)).k2 == Std.Xor(Std.E(r), RoundKey(k0, k1)).k2 < 64
  {
  }

  lemma Input3(k0: Word, k1: Word, r: Word)
    ensures Inputs(k0, k1, Left(r)).k3 == Std.Xor(Std.E(r), RoundKey(k0, k1)).k3 < 64
  {
  }

  lemma Input4(k0: Word, k1: Word, r: Word)
    ensures Inputs(k0, k1, Left(r)).k4 == Std.Xor(Std.E(r), RoundKey(k0, k1)).k4 < 64
  {
  }

  lemma Input5(k0: Word, k1: Word, r: Word)
    ensures Inputs(k0, k1, Left(r)).k5 == Std.Xor(Std.E(r), RoundKey(k0, k1)).k5 < 64
  {
  }

  lemma Input6(k0: Word, k1: Word, r: Word)
    ensures Inputs(k0, k1, Left(r)).k6 == Std.Xor(Std.E(r), RoundKey(k0, k1)).k6 < 64
  {
  }

  lemma Input7(k0: Word, k1: Word, r: Word)
    ensures Inputs(k0, k1, Left(r)).k7 == Std.Xor(Std.E(r), RoundKey(k0, k1)).k7 < 64
  {
  }

  lemma Input8(k0: Word, k1: Word, r: Word)
    ensures Inputs(k0, k1, Left(r)).k8 == Std.Xor(Std.E(r), RoundKey(k0, k1)).k8 < 64
  {
  }

  /** Each S-box gets its six bits of the expanded half under the subkey. */
  lemma InputsAre(k0: Word, k1: Word, r: Word)
    ensures Inputs(k0, k1, Left(r)) == Std.Xor(Std.E(r), RoundKey(k0, k1))
    ensures SixBits(Inputs(k0, k1, Left(r)))
  {
    hide Inputs, Left, Std.E, Std.Xor, RoundKey;
    Input1(k0, k1, r);
    Input2(k0, k1, r);
    Input3(k0, k1, r);
    Input4(k0, k1, r);
    Input5(k0, k1, r);
    Input6(k0, k1, r);
    Input7(k0, k1, r);
    Input8(k0, k1, r);
  }

  predicate SixBits(e: Std.RoundKey) {
    e.k1 < 64 && e.k2 < 64 && e.k3 < 64 && e.k4 < 64 && e.k5 < 64 && e.k6 < 64 && e.k7 < 64 && e.k8 < 64
  }

  /** What a round adds, of the four bits that each S-box gives. */
  function Added(v1: Word, v2: Word, v3: Word, v4: Word, v5: Word, v6: Word, v7: Word, v8: Word): Word {
    XorAll(Permuted(8, v8), Permuted(6, v6), Permuted(4, v4), Permuted(2, v2),
           Permuted(7, v7), Permuted(5, v5), Permuted(3, v3), Permuted(1, v1))
  }

  function Joined(v1: Word, v2: Word, v3: Word, v4: Word, v5: Word, v6: Word, v7: Word, v8: Word): Word {
    (v1 << 28) | (v2 << 24) | (v3 << 20) | (v4 << 16) | (v5 << 12) | (v6 << 8) | (v7 << 4) | v8
  }

  // ... row by row of the permutation P

  lemma PermutedRow1(v1: Word, v2: Word, v3: Word, v4: Word, v5: Word, v6: Word, v7: Word, v8: Word)
    requires v1 < 16 && v2 < 16 && v3 < 16 && v4 < 16 && v5 < 16 && v6 < 16 && v7 < 16 && v8 < 16
    ensures var h := Std.Block(Joined(v1, v2, v3, v4, v5, v6, v7, v8), 0);
            (Right(Added(v1, v2, v3, v4, v5, v6, v7, v8)) >> 24) & 0xFF == Std.Eight(h, 16, 7, 20, 21, 29, 12, 28, 17)
  {
  }

  lemma PermutedRow2(v1: Word, v2: Word, v3: Word, v4: Word, v5: Word, v6: Word, v7: Word, v8: Word)
    requires v1 < 16 && v2 < 16 && v3 < 16 && v4 < 16 && v5 < 16 && v6 < 16 && v7 < 16 && v8 < 16
    ensures var h := Std.Block(Joined(v1, v2, v3, v4, v5, v6, v7, v8), 0);
            (Right(Added(v1, v2, v3, v4, v5, v6, v7, v8)) >> 16) & 0xFF == Std.Eight(h, 1, 15, 23, 26, 5, 18, 31, 10)
  {
  }

  lemma PermutedRow3(v1: Word, v2: Word, v3: Word, v4: Word, v5: Word, v6: Word, v7: Word, v8: Word)
    requires v1 < 16 && v2 < 16 && v3 < 16 && v4 < 16 && v5 < 16 && v6 < 16 && v7 < 16 && v8 < 16
    ensures var h := Std.Block(Joined(v1, v2, v3, v4, v5, v6, v7, v8), 0);
            (Right(Added(v1, v2, v3, v4, v5, v6, v7, v8)) >> 8) & 0xFF == Std.Eight(h, 2, 8, 24, 14, 32, 27, 3, 9)
  {
  }

  lemma PermutedRow4(v1: Word, v2: Word, v3: Word, v4: Word, v5: Word, v6: Word, v7: Word, v8: Word)
    requires v1 < 16 && v2 < 16 && v3 < 16 && v4 < 16 && v5 < 16 && v6 < 16 && v7 < 16 && v8 < 16
    ensures var h := Std.Block(Joined(v1, v2, v3, v4, v5, v6, v7, v8), 0);
            (Right(Added(v1, v2, v3, v4, v5, v6, v7, v8)) >> 0) & 0xFF == Std.Eight(h, 19, 13, 30, 6, 22, 11, 4, 25)
  {
  }

  lemma PermutedIs(v1: Word, v2: Word, v3: Word, v4: Word, v5: Word, v6: Word, v7: Word, v8: Word)
    requires v1 < 16 && v2 < 16 && v3 < 16 && v4 < 16 && v5 < 16 && v6 < 16 && v7 < 16 && v8 < 16
    ensures Right(Added(v1, v2, v3, v4, v5, v6, v7, v8)) == Std.P(Joined(v1, v2, v3, v4, v5, v6, v7, v8))
  {
    hide Std.Eight, Std.FourBytes, Added, Joined, Right;
    Bytes(Right(Added(v1, v2, v3, v4, v5, v6, v7, v8)));
    PermutedRow1(v1, v2, v3, v4, v5, v6, v7, v8);
    PermutedRow2(v1, v2, v3, v4, v5, v6, v7, v8);
    PermutedRow3(v1, v2, v3, v4, v5, v6, v7, v8);
    PermutedRow4(v1, v2, v3, v4, v5, v6, v7, v8);
  }

  function LookedUp(e: Std.RoundKey): Word {
    Looked(Tables, e.k1, e.k2, e.k3, e.k4, e.k5, e.k6, e.k7, e.k8)
  }

  lemma MixLooks(k0: Word, k1: Word, x: Word)
    ensures Mix(Tables, k0, k1, x) == LookedUp(Inputs(k0, k1, x))
  {
    hide Looked;
  }

  lemma LookedAdds(e: Std.RoundKey)
    requires SixBits(e)
    ensures LookedUp(e) == Added(Std.S(1, e.k1), Std.S(2, e.k2), Std.S(3, e.k3), Std.S(4, e.k4),
                                 Std.S(5, e.k5), Std.S(6, e.k6), Std.S(7, e.k7), Std.S(8, e.k8))
    ensures SmallBoxes(e)
  {
    hide Std.S, Permuted, Tables, XorAll;
    BoxIs(1, e.k1);
    BoxIs(2, e.k2);
    BoxIs(3, e.k3);
    BoxIs(4, e.k4);
    BoxIs(5, e.k5);
    BoxIs(6, e.k6);
    BoxIs(7, e.k7);
    BoxIs(8, e.k8);
  }

  predicate SmallBoxes(e: Std.RoundKey) {
    && Std.S(1, e.k1) < 16 && Std.S(2, e.k2) < 16 && Std.S(3, e.k3) < 16 && Std.S(4, e.k4) < 16
    && Std.S(5, e.k5) < 16 && Std.S(6, e.k6) < 16 && Std.S(7, e.k7) < 16 && Std.S(8, e.k8) < 16
  }

  lemma LookedIs(e: Std.RoundKey)
    requires SixBits(e)
    ensures Right(LookedUp(e)) == Std.P(Std.Boxed(e))
  {
    hide Std.S, Std.P, Right, Added, SixBits, LookedUp;
    LookedAdds(e);
    PermutedIs(Std.S(1, e.k1), Std.S(2, e.k2), Std.S(3, e.k3), Std.S(4, e.k4),
               Std.S(5, e.k5), Std.S(6, e.k6), Std.S(7, e.k7), Std.S(8, e.k8));
  }

  /** What a round adds to the other half is the cipher function of the standard. */
  lemma MixIs(k0: Word, k1: Word, r: Word)
    ensures Right(Mix(Tables, k0, k1, Left(r))) == Std.F(r, RoundKey(k0, k1))
  {
    hide Mix, Inputs, LookedUp, Left, Right, Std.E, Std.P, Std.Xor, Std.Boxed, RoundKey, SixBits;
    MixLooks(k0, k1, Left(r));
    InputsAre(k0, k1, r);
    LookedIs(Inputs(k0, k1, Left(r)));
  }

  // The rounds

  /** The round keys that a sequence of subkeys holds. */
  function RoundKeys(keys: seq<Word>): (ks: seq<Std.RoundKey>)
    requires |keys| % 2 == 0
    ensures |ks| == |keys| / 2
  {
    if keys == [] then [] else [RoundKey(keys[0], keys[1])] + RoundKeys(keys[2..])
  }

  lemma RoundIs(k0: Word, k1: Word, l: Word, r: Word)
    ensures Round(Tables, k0, k1, Halves(Left(l), Left(r))) == Halves(Left(r), Left(Std.Next(l, r, RoundKey(k0, k1))))
  {
    hide Mix, Std.F, RoundKey;
    MixIs(k0, k1, r);
    LeftXor(l, Std.F(r, RoundKey(k0, k1)));
    RotateBack(Mix(Tables, k0, k1, Left(r)));
  }

  lemma LeftXor(a: Word, b: Word)
    ensures Left(a ^ b) == Left(a) ^ Left(b)
  {
  }

  /** The rounds, each on halves rotated by one bit, are those of the standard. */
  lemma {:induction false} RoundsAre(keys: seq<Word>, l: Word, r: Word)
    requires |keys| % 2 == 0
    ensures var s := Std.Rounds(RoundKeys(keys), l, r);
            Rounds(Tables, keys, Halves(Left(l), Left(r))) == Halves(Left(s.y), Left(s.x))
    decreases |keys|
  {
    hide Round, Left, Std.Next, RoundKey;
    if keys != [] {
      RoundIs(keys[0], keys[1], l, r);
      RoundsAre(keys[2..], r, Std.Next(l, r, RoundKey(keys[0], keys[1])));
      assert RoundKeys(keys)[1..] == RoundKeys(keys[2..]);
    }
  }

  lemma RoundKeysFirst(keys: seq<Word>)
    requires |keys| % 2 == 0 && keys != []
    ensures RoundKeys(keys) == [RoundKey(keys[0], keys[1])] + RoundKeys(keys[2..])
  {
    hide RoundKey;
  }

  lemma {:induction false} RoundKeysAppend(a: seq<Word>, b: seq<Word>)
    requires |a| % 2 == 0 && |b| % 2 == 0
    ensures RoundKeys(a + b) == RoundKeys(a) + RoundKeys(b)
    decreases |a|
  {
    hide RoundKey, RoundKeys;
    if a == [] {
      NoMore(b);
      NoRoundKeys();
      NoMore(RoundKeys(b));
    } else {
      RoundKeysAppend(a[2..], b);
      assert (a + b)[2..] == a[2..] + b;
      RoundKeysFirst(a);
      RoundKeysFirst(a + b);
      Assoc([RoundKey(a[0], a[1])], RoundKeys(a[2..]), RoundKeys(b));
    }
  }

  lemma NoRoundKeys()
    ensures RoundKeys([]) == []
  {
  }

  function Reverse<T>(s: seq<T>): seq<T> {
    if s == [] then [] else Reverse(s[1..]) + [s[0]]
  }

  /** Turned around for deciphering, the subkeys hold the round keys in reverse. */
  lemma {:induction false} BackwardsKeys(keys: seq<Word>)
    requires |keys| % 2 == 0
    ensures RoundKeys(Backwards(keys)) == Reverse(RoundKeys(keys))
    decreases |keys|
  {
    hide RoundKey;
    if keys != [] {
      BackwardsKeys(keys[2..]);
      RoundKeysAppend(Backwards(keys[2..]), keys[..2]);
      assert keys[..2][2..] == [];
      assert RoundKeys(keys)[1..] == RoundKeys(keys[2..]);
    }
  }

  // The key schedule

  function LHs(x: Word): Word {
    match x >> 3
    case 0 => Entry(x, 0x00000000, 0x00000001, 0x00000100, 0x00000101,
                       0x00010000, 0x00010001, 0x00010100, 0x00010101)
    case _ => Entry(x, 0x01000000, 0x01000001, 0x01000100, 0x01000101,
                       0x01010000, 0x01010001, 0x01010100, 0x01010101)
  }

  function RHs(x: Word): Word {
    match x >> 3
    case 0 => Entry(x, 0x00000000, 0x01000000, 0x00010000, 0x01010000,
                       0x00000100, 0x01000100, 0x00010100, 0x01010100)
    case _ => Entry(x, 0x00000001, 0x01000001, 0x00010001, 0x01010001,
                       0x00000101, 0x01000101, 0x00010101, 0x01010101)
  }

  /** The two exchanges of `des_main_ks`. */
  function Exchanged(key: Halves): Halves {
    var a := Swap(Crossed(key.y, key.x, 4, 0x0F0F0F0F));
    Swap(Crossed(a.y, a.x, 0, 0x10101010))
  }

  /** Eight spread nibbles make 28 bits. */
  function Packed(a: Word, b: Word, c: Word, d: Word, e: Word, f: Word, g: Word, h: Word): Word {
    ((a << 3) | (b << 2) | (c << 1) | d | (e << 7) | (f << 6) | (g << 5) | (h << 4)) & 0x0FFFFFFF
  }

  function KeyX(x: Word): Word {
    Packed(LHs(x & 0xF), LHs((x >> 8) & 0xF), LHs((x >> 16) & 0xF), LHs((x >> 24) & 0xF),
           LHs((x >> 5) & 0xF), LHs((x >> 13) & 0xF), LHs((x >> 21) & 0xF), LHs((x >> 29) & 0xF))
  }

  function KeyY(y: Word): Word {
    Packed(RHs((y >> 1) & 0xF), RHs((y >> 9) & 0xF), RHs((y >> 17) & 0xF), RHs((y >> 25) & 0xF),
           RHs((y >> 4) & 0xF), RHs((y >> 12) & 0xF), RHs((y >> 20) & 0xF), RHs((y >> 28) & 0xF))
  }

  function Turned(x: Word, i: nat): Word {
    if i < 2 || i == 8 || i == 15 then ((x << 1) | (x >> 27)) & 0x0FFFFFFF
    else ((x << 2) | (x >> 26)) & 0x0FFFFFFF
  }

  /** The first subkey of a round. */
  function First(x: Word, y: Word): Word {
    ((x << 4) & 0x24000000) | ((x << 28) & 0x10000000) | ((x << 14) & 0x08000000)
    | ((x << 18) & 0x02080000) | ((x << 6) & 0x01000000) | ((x << 9) & 0x00200000)
    | ((x >> 1) & 0x00100000) | ((x << 10) & 0x00040000) | ((x << 2) & 0x00020000)
    | ((x >> 10) & 0x00010000) | ((y >> 13) & 0x00002000) | ((y >> 4) & 0x00001000)
    | ((y << 6) & 0x00000800) | ((y >> 1) & 0x00000400) | ((y >> 14) & 0x00000200)
    | (y & 0x00000100) | ((y >> 5) & 0x00000020) | ((y >> 10) & 0x00000010)
    | ((y >> 3) & 0x00000008) | ((y >> 18) & 0x00000004) | ((y >> 26) & 0x00000002)
    | ((y >> 24) & 0x00000001)
  }

  /** The second subkey of a round. */
  function Second(x: Word, y: Word): Word {
    ((x << 15) & 0x20000000) | ((x << 17) & 0x10000000) | ((x << 10) & 0x08000000)
    | ((x << 22) & 0x04000000) | ((x >> 2) & 0x02000000) | ((x << 1) & 0x01000000)
    | ((x << 16) & 0x00200000) | ((x << 11) & 0x00100000) | ((x << 3) & 0x00080000)
    | ((x >> 6) & 0x00040000) | ((x << 15) & 0x00020000) | ((x >> 4) & 0x00010000)
    | ((y >> 2) & 0x00002000) | ((y << 8) & 0x00001000) | ((y >> 14) & 0x00000808)
    | ((y >> 9) & 0x00000400) | (y & 0x00000200) | ((y << 7) & 0x00000100)
    | ((y >> 7) & 0x00000020) | ((y >> 3) & 0x00000011) | ((y << 2) & 0x00000004)
    | ((y >> 21) & 0x00000002)
  }

  // Each entry of the two small tables spreads four bits

  lemma LHsIs(x: Word)
    requires x < 16
    ensures LHs(x) == Spread(x, 24, 16, 8, 0)
  {
  }

  lemma RHsIs(x: Word)
    requires x < 16
    ensures RHs(x) == Spread(x, 0, 8, 16, 24)
  {
  }

  function SpreadX(x: Word): Word {
    Packed(Spread(x & 0xF, 24, 16, 8, 0), Spread((x >> 8) & 0xF, 24, 16, 8, 0),
           Spread((x >> 16) & 0xF, 24, 16, 8, 0), Spread((x >> 24) & 0xF, 24, 16, 8, 0),
           Spread((x >> 5) & 0xF, 24, 16, 8, 0), Spread((x >> 13) & 0xF, 24, 16, 8, 0),
           Spread((x >> 21) & 0xF, 24, 16, 8, 0), Spread((x >> 29) & 0xF, 24, 16, 8, 0))
  }

  function SpreadY(y: Word): Word {
    Packed(Spread((y >> 1) & 0xF, 0, 8, 16, 24), Spread((y >> 9) & 0xF, 0, 8, 16, 24),
           Spread((y >> 17) & 0xF, 0, 8, 16, 24), Spread((y >> 25) & 0xF, 0, 8, 16, 24),
           Spread((y >> 4) & 0xF, 0, 8, 16, 24), Spread((y >> 12) & 0xF, 0, 8, 16, 24),
           Spread((y >> 20) & 0xF, 0, 8, 16, 24), Spread((y >> 28) & 0xF, 0, 8, 16, 24))
  }

  lemma Nibble(x: Word)
    ensures x & 0xF < 16
  {
  }

  lemma KeyXSpreads(x: Word)
    ensures KeyX(x) == SpreadX(x)
  {
    hide LHs, Spread, Packed;
    Nibble(x);
    LHsIs(x & 0xF);
    Nibble(x >> 8);
    LHsIs((x >> 8) & 0xF);
    Nibble(x >> 16);
    LHsIs((x >> 16) & 0xF);
    Nibble(x >> 24);
    LHsIs((x >> 24) & 0xF);
    Nibble(x >> 5);
    LHsIs((x >> 5) & 0xF);
    Nibble(x >> 13);
    LHsIs((x >> 13) & 0xF);
    Nibble(x >> 21);
    LHsIs((x >> 21) & 0xF);
    Nibble(x >> 29);
    LHsIs((x >> 29) & 0xF);
  }

  lemma KeyYSpreads(y: Word)
    ensures KeyY(y) == SpreadY(y)
  {
    hide RHs, Spread, Packed;
    Nibble(y >> 1);
    RHsIs((y >> 1) & 0xF);
    Nibble(y >> 9);
    RHsIs((y >> 9) & 0xF);
    Nibble(y >> 17);
    RHsIs((y >> 17) & 0xF);
    Nibble(y >> 25);
    RHsIs((y >> 25) & 0xF);
    Nibble(y >> 4);
    RHsIs((y >> 4) & 0xF);
    Nibble(y >> 12);
    RHsIs((y >> 12) & 0xF);
    Nibble(y >> 20);
    RHsIs((y >> 20) & 0xF);
    Nibble(y >> 28);
    RHsIs((y >> 28) & 0xF);
  }

  // ... row by row of permuted choice 1

  lemma ChoiceC1(key: Halves)
    ensures (SpreadX(Exchanged(key).x) >> 21) & 0x7F == Std.Seven(Plain(key), 57, 49, 41, 33, 25, 17, 9)
  {
  }

  lemma ChoiceC2(key: Halves)
    ensures (SpreadX(Exchanged(key).x) >> 14) & 0x7F == Std.Seven(Plain(key), 1, 58, 50, 42, 34, 26, 18)
  {
  }

  lemma ChoiceC3(key: Halves)
    ensures (SpreadX(Exchanged(key).x) >> 7) & 0x7F == Std.Seven(Plain(key), 10, 2, 59, 51, 43, 35, 27)
  {
  }

  lemma ChoiceC4(key: Halves)
    ensures (SpreadX(Exchanged(key).x) >> 0) & 0x7F == Std.Seven(Plain(key), 19, 11, 3, 60, 52, 44, 36)
  {
  }

  lemma ChoiceD1(key: Halves)
    ensures (SpreadY(Exchanged(key).y) >> 21) & 0x7F == Std.Seven(Plain(key), 63, 55, 47, 39, 31, 23, 15)
  {
  }

  lemma ChoiceD2(key: Halves)
    ensures (SpreadY(Exchanged(key).y) >> 14) & 0x7F == Std.Seven(Plain(key), 7, 62, 54, 46, 38, 30, 22)
  {
  }

  lemma ChoiceD3(key: Halves)
    ensures (SpreadY(Exchanged(key).y) >> 7) & 0x7F == Std.Seven(Plain(key), 14, 6, 61, 53, 45, 37, 29)
  {
  }

  lemma ChoiceD4(key: Halves)
    ensures (SpreadY(Exchanged(key).y) >> 0) & 0x7F == Std.Seven(Plain(key), 21, 13, 5, 28, 20, 12, 4)
  {
  }

  lemma Sevens(w: Word)
    requires w <= 0x0FFFFFFF
    ensures w == ((((w >> 21) & 0x7F) << 21) | (((w >> 14) & 0x7F) << 14)
                  | (((w >> 7) & 0x7F) << 7) | ((w >> 0) & 0x7F))
  {
  }

  lemma KeySizes(key: Halves)
    ensures KeyX(key.x) <= 0x0FFFFFFF && KeyY(key.y) <= 0x0FFFFFFF
  {
    hide LHs, RHs;
  }

  /** The two halves of the key are those of permuted choice 1. */
  lemma ChoiceIs(key: Halves)
    ensures KeyX(Exchanged(key).x) == Std.PC1C(Plain(key)) && KeyY(Exchanged(key).y) == Std.PC1D(Plain(key))
  {
    hide Std.Seven, KeyX, KeyY, SpreadX, SpreadY, Exchanged;
    KeyXSpreads(Exchanged(key).x);
    KeyYSpreads(Exchanged(key).y);
    KeySizes(Exchanged(key));
    Sevens(KeyX(Exchanged(key).x));
    Sevens(KeyY(Exchanged(key).y));
    ChoiceC1(key);
    ChoiceC2(key);
    ChoiceC3(key);
    ChoiceC4(key);
    ChoiceD1(key);
    ChoiceD2(key);
    ChoiceD3(key);
    ChoiceD4(key);
  }

  lemma TurnedOne(x: Word)
    ensures ((x << 1) | (x >> 27)) & 0x0FFFFFFF == Std.Rotated(x, 1) <= 0x0FFFFFFF
  {
  }

  lemma TurnedTwo(x: Word)
    ensures ((x << 2) | (x >> 26)) & 0x0FFFFFFF == Std.Rotated(x, 2) <= 0x0FFFFFFF
  {
  }

  lemma TurnedIs(x: Word, i: nat)
    ensures Turned(x, i) == Std.Rotated(x, Std.Shift(i)) <= 0x0FFFFFFF
  {
    hide Std.Rotated;
    TurnedOne(x);
    TurnedTwo(x);
  }

  lemma Subkey1(x: Word, y: Word)
    requires x <= 0x0FFFFFFF && y <= 0x0FFFFFFF
    ensures RoundKey(First(x, y), Second(x, y)).k1 == Std.PC2(x, y).k1
  {
  }

  lemma Subkey2(x: Word, y: Word)
    requires x <= 0x0FFFFFFF && y <= 0x0FFFFFFF
    ensures RoundKey(First(x, y), Second(x, y)).k2 == Std.PC2(x, y).k2
  {
  }

  lemma Subkey3(x: Word, y: Word)
    requires x <= 0x0FFFFFFF && y <= 0x0FFFFFFF
    ensures RoundKey(First(x, y), Second(x, y)).k3 == Std.PC2(x, y).k3
  {
  }

  lemma Subkey4(x: Word, y: Word)
    requires x <= 0x0FFFFFFF && y <= 0x0FFFFFFF
    ensures RoundKey(First(x, y), Second(x, y)).k4 == Std.PC2(x, y).k4
  {
  }

  lemma Subkey5(x: Word, y: Word)
    requires x <= 0x0FFFFFFF && y <= 0x0FFFFFFF
    ensures RoundKey(First(x, y), Second(x, y)).k5 == Std.PC2(x, y).k5
  {
  }

  lemma Subkey6(x: Word, y: Word)
    requires x <= 0x0FFFFFFF && y <= 0x0FFFFFFF
    ensures RoundKey(First(x, y), Second(x, y)).k6 == Std.PC2(x, y).k6
  {
  }

  lemma Subkey7(x: Word, y: Word)
    requires x <= 0x0FFFFFFF && y <= 0x0FFFFFFF
    ensures RoundKey(First(x, y), Second(x, y)).k7 == Std.PC2(x, y).k7
  {
  }

  lemma Subkey8(x: Word, y: Word)
    requires x <= 0x0FFFFFFF && y <= 0x0FFFFFFF
    ensures RoundKey(First(x, y), Second(x, y)).k8 == Std.PC2(x, y).k8
  {
  }

  /** The two subkeys of a round hold what permuted choice 2 gives, group by group. */
  lemma SubkeysAre(x: Word, y: Word)
    requires x <= 0x0FFFFFFF && y <= 0x0FFFFFFF
    ensures RoundKey(First(x, y), Second(x, y)) == Std.PC2(x, y)
  {
    hide RoundKey, First, Second, Std.PC2;
    Subkey1(x, y);
    Subkey2(x, y);
    Subkey3(x, y);
    Subkey4(x, y);
    Subkey5(x, y);
    Subkey6(x, y);
    Subkey7(x, y);
    Subkey8(x, y);
  }

  /** The subkeys of the rounds from `i` on. */
  function KeyWords(x: Word, y: Word, i: nat): (ks: seq<Word>)
    ensures |ks| == if i < 16 then 32 - 2 * i else 0
    decreases 16 - i
  {
    if i >= 16 then []
    else
      var x1, y1 := Turned(x, i), Turned(y, i);
      [First(x1, y1), Second(x1, y1)] + KeyWords(x1, y1, i + 1)
  }

  lemma {:induction false} KeyWordsAre(x: Word, y: Word, i: nat)
    requires x <= 0x0FFFFFFF && y <= 0x0FFFFFFF
    ensures RoundKeys(KeyWords(x, y, i)) == Std.RoundKeys(x, y, i)
    decreases 16 - i
  {
    hide RoundKey, First, Second, Turned, Std.PC2, Std.Rotated;
    if i < 16 {
      var x1, y1 := Turned(x, i), Turned(y, i);
      TurnedIs(x, i);
      TurnedIs(y, i);
      SubkeysAre(x1, y1);
      KeyWordsAre(x1, y1, i + 1);
      assert KeyWords(x, y, i)[2..] == KeyWords(x1, y1, i + 1);
    }
  }

  /** `des_main_ks`. */
  function KeySchedule(key: seq<Octet>): Subkeys {
    if |key| != 8 then seq(32, _ => 0)
    else
      var h := Exchanged(GetBlock(key));
      KeyWords(KeyX(h.x), KeyY(h.y), 0)
  }

  /** The subkeys hold the round keys of the standard. */
  lemma ScheduleIs(key: seq<Octet>)
    requires |key| == 8
    ensures RoundKeys(KeySchedule(key)) == Std.KeySchedule(Plain(GetBlock(key)))
  {
    hide GetBlock, KeyX, KeyY, Exchanged, Std.PC1C, Std.PC1D, KeyWords;
    ChoiceIs(GetBlock(key));
    KeySizes(Exchanged(GetBlock(key)));
    KeyWordsAre(Std.PC1C(Plain(GetBlock(key))), Std.PC1D(Plain(GetBlock(key))), 0);
  }

  lemma NextWords(x: Word, y: Word, i: nat)
    requires i < 16
    ensures var x1, y1 := Turned(x, i), Turned(y, i);
            KeyWords(x, y, i) == [First(x1, y1), Second(x1, y1)] + KeyWords(x1, y1, i + 1)
  {
    hide First, Second, Turned;
  }

  /** `des_main_ks`, as it fills the array. */
  method MainKs(sk: array<Word>, key: seq<Octet>)
    requires sk.Length == 32 && |key| == 8
    modifies sk
    ensures sk[..] == KeySchedule(key)
  {
    hide GetBlock, KeyX, KeyY, Exchanged, First, Second, Turned, KeyWords;
    var h := Exchanged(GetBlock(key));
    var x, y := KeyX(h.x), KeyY(h.y);
    var i := 0;
    NoMore(KeyWords(x, y, 0));
    while i < 16
      invariant 0 <= i <= 16
      invariant sk[..2 * i] + KeyWords(x, y, i) == KeyWords(KeyX(h.x), KeyY(h.y), 0)
    {
      ghost var done := sk[..2 * i];
      NextWords(x, y, i);
      x, y := Turned(x, i), Turned(y, i);
      sk[2 * i], sk[2 * i + 1] := First(x, y), Second(x, y);
      assert sk[..2 * (i + 1)] == done + [First(x, y), Second(x, y)];
      Assoc(done, [First(x, y), Second(x, y)], KeyWords(x, y, i + 1));
      i := i + 1;
    }
    NoMore(sk[..]);
    assert sk[..32] == sk[..];
  }

  // The cipher

  lemma FinalIs(s: Std.Block)
    ensures Std.IP(Plain(Final(Halves(Left(s.x), Left(s.y))))) == s
  {
    hide Std.IP, Initial, Final, Left, Right;
    var h := Halves(Left(s.x), Left(s.y));
    InitialIs(Final(h));
    InitialFinal(h);
    RotateBack(s.x);
    RotateBack(s.y);
  }

  /** `des_crypt` with the tables of the code is the standard's cipher with the round keys that the subkeys hold. */
  lemma BlockIs(keys: Subkeys, s: seq<Octet>)
    requires |s| == 8
    ensures Std.Enciphers(RoundKeys(keys), Plain(GetBlock(s)), Plain(GetBlock(Block(Tables, keys, s))))
  {
    hide Std.IP, Initial, Final, Left, Right, GetBlock, PutBlock, Std.Rounds, RoundKeys;
    var h := Initial(GetBlock(s));
    InitialIs(GetBlock(s));
    RotateBack(h.x);
    RotateBack(h.y);
    RoundsAre(keys, Right(h.x), Right(h.y));
    var r := Std.Rounds(RoundKeys(keys), Right(h.x), Right(h.y));
    FinalIs(r);
    GetPutBlock(Final(Halves(Left(r.x), Left(r.y))));
  }

  /** Only one block can be the output. */
  lemma OneOutput(keys: seq<Std.RoundKey>, input: Std.Block, a: Halves, b: Halves)
    requires Std.Enciphers(keys, input, Plain(a)) && Std.Enciphers(keys, input, Plain(b))
    ensures a == b
  {
    hide Std.IP, Initial, Right, Std.Rounds;
    InitialIs(a);
    InitialIs(b);
    SameRight(Initial(a).x, Initial(b).x);
    SameRight(Initial(a).y, Initial(b).y);
    FinalInitial(a);
    FinalInitial(b);
  }

  lemma SameRight(a: Word, b: Word)
    requires Right(a) == Right(b)
    ensures a == b
  {
    RotateBack(a);
    RotateBack(b);
  }

  /** The block at byte `i`. */
  function BlockOf(s: seq<Octet>, i: nat): Std.Block
    requires i + 8 <= |s|
  {
    Plain(GetBlock(s[i..i + 8]))
  }

  /** What `ldesencode` puts into its buffer and what `ldesdecode` makes of it, block by block: each is enciphered, or
      deciphered, under the round keys of the standard's key schedule. */
  lemma BlocksAre(key: seq<Octet>, s: seq<Octet>, i: nat)
    requires |key| == 8 && |s| % 8 == 0 && i % 8 == 0 && i + 8 <= |s|
    ensures Std.Enciphers(Std.KeySchedule(BlockOf(key, 0)), BlockOf(s, i),
                          BlockOf(Blocks(Tables, KeySchedule(key), s), i))
    ensures Std.Enciphers(Reverse(Std.KeySchedule(BlockOf(key, 0))), BlockOf(s, i),
                          BlockOf(Blocks(Tables, Backwards(KeySchedule(key)), s), i))
  {
    hide Block, GetBlock, KeySchedule, Std.KeySchedule, Std.Enciphers, Backwards, RoundKeys, Blocks;
    var keys := KeySchedule(key);
    assert key[0..8] == key;
    ScheduleIs(key);
    BackwardsKeys(keys);
    BlockAt(keys, s, i);
    BlockAt(Backwards(keys), s, i);
    BlockIs(keys, s[i..i + 8]);
    BlockIs(Backwards(keys), s[i..i + 8]);
  }

  lemma {:induction false} BlockAt(keys: Subkeys, s: seq<Octet>, i: nat)
    requires |s| % 8 == 0 && i % 8 == 0 && i + 8 <= |s|
    ensures Blocks(Tables, keys, s)[i..i + 8] == Block(Tables, keys, s[i..i + 8])
    decreases i
  {
    hide Block;
    if i > 0 {
      BlockAt(keys, s[8..], i - 8);
      assert s[8..][i - 8..i] == s[i..i + 8];
      assert Blocks(Tables, keys, s)[i..i + 8] == Blocks(Tables, keys, s[8..])[i - 8..i];
    }
  }

}
