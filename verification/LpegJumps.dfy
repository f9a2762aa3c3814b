/** Following jumps comes to an end: in code generated from verified patterns, and in every code `peephole` makes
    of it, `finaltarget` reaches an instruction that is no jump. */
module LpegJumps {
  import opened Common
  import opened LpegTree
  import opened LpegAnalysis
  import opened LpegVm
  import opened LpegCode
  import opened LpegShapes
  import opened LpegCorrect
  import opened LpegVerify
  import P = LpegPeephole

  predicate IsJump(C: Code, p: int) {
    0 <= p < |C| && C[p].IJmp?
  }

  /** Following the jumps from `p` ends. */
  ghost predicate Stops(C: Code, p: int) {
    exists q: int, n: nat :: JumpChain(C, p, q, n) && !IsJump(C, q)
  }

  lemma StopsHere(C: Code, p: int)
    requires !IsJump(C, p)
    ensures Stops(C, p)
  {
    assert JumpChain(C, p, p, 0);
  }

  lemma StopsStep(C: Code, p: int)
    requires IsJump(C, p)
    ensures Stops(C, p) <==> Stops(C, p + C[p].off)
  {
    if Stops(C, p + C[p].off) {
      var q: int, n: nat :| JumpChain(C, p + C[p].off, q, n) && !IsJump(C, q);
      assert JumpChain(C, p, q, n + 1);
    }
    if Stops(C, p) {
      var q: int, n: nat :| JumpChain(C, p, q, n) && !IsJump(C, q);
      assert JumpChain(C, p + C[p].off, q, n - 1);
    }
  }

  /** A placed instruction stops if it is no jump, or its target does. */
  lemma PlacedStops(C: Code, base: int, x: Instr, pos: seq<int>)
    requires CodeAt(C, base, [x], pos) && !x.IOpenCall?
    requires x.IJmp? ==> Stops(C, base + x.off)
    ensures Stops(C, base)
  {
    assert Resolves(C, base + 0, [x][0], pos);
    if x.IJmp? { StopsStep(C, base); } else { StopsHere(C, base); }
  }

  lemma TestStops(C: Code, base: int, tt: Test, off: int, pos: seq<int>)
    requires CodeAt(C, base, TestCode(tt, off), pos)
    requires Stops(C, base + off)
    ensures !tt.NoTest? ==> Stops(C, base)
  {
    if !tt.NoTest? { PlacedStops(C, base, TestCode(tt, off)[0], pos); }
  }

  /** All grammars inside `t` are sound. */
  predicate GrammarsVerified(t: Tree)
    decreases t
  {
    match t
    case Rep(p) => GrammarsVerified(p)
    case Not(p) => GrammarsVerified(p)
    case And(p) => GrammarsVerified(p)
    case Behind(_, p) => GrammarsVerified(p)
    case Seq(p1, p2) => GrammarsVerified(p1) && GrammarsVerified(p2)
    case Choice(p1, p2) => GrammarsVerified(p1) && GrammarsVerified(p2)
    case Grammar(rs) => Sound(rs)
    case _ => true
  }

  lemma {:induction false} TameGrammars(t: Tree)
    requires Tame(t) || Verified(t)
    ensures GrammarsVerified(t)
    decreases t
  {
    match t
    case Rep(p) => TameGrammars(p);
    case Not(p) => TameGrammars(p);
    case And(p) => TameGrammars(p);
    case Behind(_, p) => TameGrammars(p);
    case Seq(p1, p2) => TameGrammars(p1); TameGrammars(p2);
    case Choice(p1, p2) => TameGrammars(p1); TameGrammars(p2);
    case _ =>
  }

  /** The starts of the rules `t` may call stop. */
  ghost predicate CallsStop(C: Code, pos: seq<int>, t: Tree) {
    forall k: nat | Mentions(t, k) :: k < |pos| && Stops(C, pos[k])
  }

  lemma CallsStopParts(C: Code, pos: seq<int>, t: Tree)
    requires CallsStop(C, pos, t)
    ensures t.Rep? || t.Not? || t.And? || t.Behind? ==> CallsStop(C, pos, t.p)
    ensures t.Seq? || t.Choice? ==> CallsStop(C, pos, t.p1) && CallsStop(C, pos, t.p2)
  {
    forall p, k: nat | (p == t || ((t.Rep? || t.Not? || t.And? || t.Behind?) && p == t.p)
                        || ((t.Seq? || t.Choice?) && (p == t.p1 || p == t.p2))) && Mentions(p, k)
      ensures k < |pos| && Stops(C, pos[k])
    {
      assert Mentions(t, k);
    }
  }

  ghost predicate AllStop(C: Code, from: int, to: int) {
    forall p | from <= p <= to :: Stops(C, p)
  }

  lemma {:induction false} GrammarParts(t: Tree)
    requires GrammarsVerified(t)
    ensures t.Rep? || t.Not? || t.And? || t.Behind? ==> GrammarsVerified(t.p)
    ensures t.Seq? || t.Choice? ==> GrammarsVerified(t.p1) && GrammarsVerified(t.p2)
  {
  }

  lemma StopParts(C: Code, pos: seq<int>, t: Tree)
    requires GrammarsVerified(t) && CallsStop(C, pos, t)
    ensures t.Rep? || t.Not? || t.And? || t.Behind? ==> GrammarsVerified(t.p) && CallsStop(C, pos, t.p)
    ensures t.Seq? || t.Choice? ==> GrammarsVerified(t.p1) && CallsStop(C, pos, t.p1)
    ensures t.Seq? || t.Choice? ==> GrammarsVerified(t.p2) && CallsStop(C, pos, t.p2)
  {
    GrammarParts(t);
    CallsStopParts(C, pos, t);
  }

  lemma Cover(C: Code, a: int, b: int, c: int, d: int)
    requires AllStop(C, a, b) && AllStop(C, c, d) && c <= b + 1
    ensures AllStop(C, a, d)
  {
  }

  lemma Single(C: Code, p: int)
    ensures Stops(C, p) <==> AllStop(C, p, p)
  {
  }

  lemma Ends(C: Code, a: int, b: int)
    requires AllStop(C, a, b) && a <= b
    ensures Stops(C, a) && Stops(C, b)
  {
  }

  // The instructions around the parts of a block

  /** An optional test and the instruction after it. */
  lemma GuardStops(C: Code, base: int, test: Test, off: int, enter: Instr, pos: seq<int>)
    requires CodeAt(C, base, TestCode(test, off), pos) && CodeAt(C, base + TestLen(test), [enter], pos)
    requires !enter.IJmp? && !enter.IOpenCall?
    requires !test.NoTest? ==> Stops(C, base + off)
    ensures AllStop(C, base, base + TestLen(test))
  {
    hide Stops, CodeAt;
    PlacedStops(C, base + TestLen(test), enter, pos);
    if !test.NoTest? { TestStops(C, base, test, off, pos); }
  }

  lemma TestedBlockStops(C: Code, base: int, test: Test, c1: Code, jump: bool, c2: Code, pos: seq<int>)
    requires CodeAt(C, base, TestedBlock(test, c1, jump, c2), pos) && TestLen(test) == 1 && (jump || c2 == [])
    requires Stops(C, TestedSecond(base, c1, jump)) && Stops(C, base + |TestedBlock(test, c1, jump, c2)|)
    ensures Stops(C, base) && Stops(C, base + 1 + |c1|)
  {
    hide Stops, CodeAt;
    TestedBlockParts(C, base, test, c1, jump, c2, pos);
    TestStops(C, base, test, TestedSecond(0, c1, jump), pos);
    if jump { PlacedStops(C, base + 1 + |c1|, IJmp(1 + |c2|), pos); }
  }

  lemma ChoiceBlockStops(C: Code, base: int, test: Test, c1: Code, c2: Code, pos: seq<int>)
    requires CodeAt(C, base, ChoiceBlock(test, c1, c2), pos)
    requires Stops(C, base + TestLen(test) + 2 + |c1|)
    ensures Stops(C, base + TestLen(test) + 1 + |c1|) && AllStop(C, base, base + TestLen(test))
  {
    hide Stops, CodeAt;
    ChoiceBlockParts(C, base, test, c1, c2, pos);
    PlacedStops(C, base + TestLen(test) + 1 + |c1|, ICommit(1 + |c2|), pos);
    GuardStops(C, base, test, 3 + |c1|, IChoice(2 + |c1|), pos);
  }

  lemma LoopBlockStops(C: Code, base: int, test: Test, opt: bool, c: Code, pos: seq<int>)
    requires CodeAt(C, base, LoopBlock(test, opt, c), pos)
    requires Stops(C, base + TestLen(test) + 2 + |c|)
    ensures Stops(C, base + TestLen(test) + 1 + |c|) && AllStop(C, base, base + TestLen(test))
  {
    hide Stops, CodeAt;
    LoopBlockParts(C, base, test, opt, c, pos);
    PlacedStops(C, base + TestLen(test) + 1 + |c|, IPartialCommit(-|c|), pos);
    GuardStops(C, base, test, 3 + |c|, Enter(opt, |c|), pos);
  }

  lemma NotBlockStops(C: Code, base: int, test: Test, c: Code, pos: seq<int>)
    requires CodeAt(C, base, NotBlock(test, c), pos)
    requires Stops(C, base + TestLen(test) + 2 + |c|)
    ensures CodeAt(C, base + TestLen(test) + 1, c, pos)
    ensures Stops(C, base + TestLen(test) + 1 + |c|) && AllStop(C, base, base + TestLen(test))
  {
    hide Stops, CodeAt;
    Split4(C, base, TestCode(test, 3 + |c|), [IChoice(2 + |c|)], c, [IFailTwice], pos);
    PlacedStops(C, base + TestLen(test) + 1 + |c|, IFailTwice, pos);
    GuardStops(C, base, test, 3 + |c|, IChoice(2 + |c|), pos);
  }

  lemma AndBlockStops(C: Code, base: int, c: Code, pos: seq<int>)
    requires CodeAt(C, base, [IChoice(2 + |c|)] + c + [IBackCommit(2), IFail], pos)
    ensures CodeAt(C, base + 1, c, pos)
    ensures Stops(C, base) && Stops(C, base + 1 + |c|) && Stops(C, base + 2 + |c|)
  {
    hide Stops, CodeAt;
    assert [IBackCommit(2), IFail] == [IBackCommit(2)] + [IFail];
    Split3(C, base, [IChoice(2 + |c|)], c, [IBackCommit(2), IFail], pos);
    Split(C, base + 1 + |c|, [IBackCommit(2)], [IFail], pos);
    PlacedStops(C, base + 2 + |c|, IFail, pos);
    PlacedStops(C, base + 1 + |c|, IBackCommit(2), pos);
    PlacedStops(C, base, IChoice(2 + |c|), pos);
  }

  lemma BackStops(C: Code, base: int, n: nat, pos: seq<int>)
    requires CodeAt(C, base, Back(n), pos) && Stops(C, base + |Back(n)|)
    ensures AllStop(C, base, base + |Back(n)|)
  {
    hide Stops, CodeAt;
    if n > 0 { PlacedStops(C, base, IBehind(n), pos); }
  }

  // Whole blocks

  ghost predicate StopContext(C: Code, G: seq<Tree>, pos: seq<int>, base: int, t: Tree, opt: bool, tt: Test,
        fl: CharSet) {
    && CodeAt(C, base, Gen(G, t, opt, tt, fl), pos) && GrammarsVerified(t) && CallsStop(C, pos, t)
    && Stops(C, base + |Gen(G, t, opt, tt, fl)|)
  }

  /** If the end of a block stops, so does every position of it. */
  lemma {:induction false} BlockStops(C: Code, G: seq<Tree>, pos: seq<int>, base: int, t: Tree, opt: bool, tt: Test,
        fl: CharSet)
    requires StopContext(C, G, pos, base, t, opt, tt, fl)
    ensures AllStop(C, base, base + |Gen(G, t, opt, tt, fl)|)
    decreases Depth(t), 0, 0, t, 1
  {
    hide Gen, WellFormed, AllWellFormed, GetFirst, HeadFail, FixedLen, CheckAux, TestFor, CodeAt, RulesAt, Stops,
         GrammarsVerified, CallsStop, AllStop;
    match t
    case Seq(p1, p2) => SeqStops(C, G, pos, base, p1, p2, opt, tt, fl);
    case Choice(p1, p2) =>
      if TestDecides(G, p1, SecondFirst(G, p2, fl)) {
        TestedChoiceStops(C, G, pos, base, p1, p2, opt, tt, fl);
      } else if opt && p2.True? {
        OptChoiceStops(C, G, pos, base, p1, opt, tt, fl);
      } else {
        PlainChoiceStops(C, G, pos, base, p1, p2, opt, tt, fl);
      }
    case Rep(p) =>
      if OneChar(p) {
        CharRepStops(C, G, pos, base, p, opt, tt, fl);
      } else if TestDecides(G, p, fl) {
        TestedLoopStops(C, G, pos, base, p, opt, tt, fl);
      } else {
        PlainLoopStops(C, G, pos, base, p, opt, tt, fl);
      }
    case Not(p) => NotStops(C, G, pos, base, p, opt, tt, fl);
    case And(p) => AndStops(C, G, pos, base, p, opt, tt, fl);
    case Behind(n, p) => BehindStops(C, G, pos, base, n, p, opt, tt, fl);
    case Grammar(rs) => GrammarStops(C, G, pos, base, rs, opt, tt, fl);
    case Call(k) =>
      ShapeCall(G, k, opt, tt, fl);
      CallStops(C, pos, base, k);
      ShortStops(C, base, 1);
    case True =>
      ShapeLeaf(G, t, opt, tt, fl);
      ShortStops(C, base, 0);
    case _ =>
      ShapeLeaf(G, t, opt, tt, fl);
      LeafStart(C, G, pos, base, t, opt, tt, fl);
      ShortStops(C, base, 1);
  }

  lemma LeafStart(C: Code, G: seq<Tree>, pos: seq<int>, base: int, t: Tree, opt: bool, tt: Test, fl: CharSet)
    requires t.Char? || t.Set? || t.Any? || t.False?
    requires CodeAt(C, base, Gen(G, t, opt, tt, fl), pos)
    ensures Stops(C, base)
  {
    hide Gen, CodeAt, Stops;
    ShapeLeaf(G, t, opt, tt, fl);
    var x := match t
             case Char(c) => if tt == TestOne(c) then IAny else IChar(c)
             case Set(cs) => if tt == TestIn(cs) then IAny else ISet(cs)
             case Any => IAny
             case _ => IFail;
    assert Gen(G, t, opt, tt, fl) == [x];
    PlacedStops(C, base, x, pos);
  }

  lemma CallStops(C: Code, pos: seq<int>, base: int, k: nat)
    requires CodeAt(C, base, [IOpenCall(k)], pos) && CallsStop(C, pos, Call(k))
    ensures Stops(C, base)
  {
    hide Stops;
    assert Resolves(C, base + 0, [IOpenCall(k)][0], pos) && Mentions(Call(k), k);
    if IsJump(C, base) { StopsStep(C, base); } else { StopsHere(C, base); }
  }

  lemma ShortStops(C: Code, base: int, n: nat)
    requires n <= 1 && Stops(C, base) && Stops(C, base + n)
    ensures AllStop(C, base, base + n)
  {
  }

  lemma {:induction false} SeqStops(C: Code, G: seq<Tree>, pos: seq<int>, base: int, p1: Tree, p2: Tree, opt: bool,
        tt: Test, fl: CharSet)
    requires StopContext(C, G, pos, base, Seq(p1, p2), opt, tt, fl)
    ensures AllStop(C, base, base + |Gen(G, Seq(p1, p2), opt, tt, fl)|)
    decreases Depth(Seq(p1, p2)), 0, 0, Seq(p1, p2), 0
  {
    hide Gen, WellFormed, AllWellFormed, GetFirst, HeadFail, FixedLen, CheckAux, TestFor, CodeAt, RulesAt, Stops,
         GrammarsVerified, CallsStop, AllStop, GenSeq, SeqFollow, SeqTest;
    StopParts(C, pos, Seq(p1, p2));
    var fl1, tt2 := SeqFollow(G, p1, p2, fl), SeqTest(G, p1, tt);
    var c1, c2 := Gen(G, p1, false, tt, fl1), Gen(G, p2, opt, tt2, fl);
    ShapeSeq(G, p1, p2, opt, tt, fl);
    Split(C, base, c1, c2, pos);
    BlockStops(C, G, pos, base + |c1|, p2, opt, tt2, fl);
    Ends(C, base + |c1|, base + |c1| + |c2|);
    BlockStops(C, G, pos, base, p1, false, tt, fl1);
    Cover(C, base, base + |c1|, base + |c1|, base + |c1| + |c2|);
  }

  lemma {:induction false} TestedChoiceStops(C: Code, G: seq<Tree>, pos: seq<int>, base: int, p1: Tree, p2: Tree,
        opt: bool, tt: Test, fl: CharSet)
    requires TestDecides(G, p1, SecondFirst(G, p2, fl))
    requires StopContext(C, G, pos, base, Choice(p1, p2), opt, tt, fl)
    ensures AllStop(C, base, base + |Gen(G, Choice(p1, p2), opt, tt, fl)|)
    decreases Depth(Choice(p1, p2)), 0, 0, Choice(p1, p2), 0
  {
    hide Gen, WellFormed, AllWellFormed, GetFirst, HeadFail, FixedLen, CheckAux, TestFor, CodeAt, RulesAt, Stops,
         GrammarsVerified, CallsStop, AllStop, GenChoice, TestDecides, DecidingTest, TestedBlock;
    StopParts(C, pos, Choice(p1, p2));
    var test := DecidingTest(G, p1);
    var c1, c2 := Gen(G, p1, false, test, fl), Gen(G, p2, opt, NoTest, fl);
    var second := TestedSecond(base, c1, !p2.True?);
    ShapeTestedChoice(G, p1, p2, opt, tt, fl);
    TestedBlockParts(C, base, test, c1, !p2.True?, c2, pos);
    BlockStops(C, G, pos, second, p2, opt, NoTest, fl);
    Ends(C, second, second + |c2|);
    TestedBlockStops(C, base, test, c1, !p2.True?, c2, pos);
    BlockStops(C, G, pos, base + 1, p1, false, test, fl);
    Single(C, base);
    Cover(C, base, base, base + 1, base + 1 + |c1|);
    Cover(C, base, base + 1 + |c1|, second, second + |c2|);
  }

  lemma {:induction false} OptChoiceStops(C: Code, G: seq<Tree>, pos: seq<int>, base: int, p1: Tree, opt: bool,
        tt: Test, fl: CharSet)
    requires opt && !TestDecides(G, p1, SecondFirst(G, True, fl))
    requires StopContext(C, G, pos, base, Choice(p1, True), opt, tt, fl)
    ensures AllStop(C, base, base + |Gen(G, Choice(p1, True), opt, tt, fl)|)
    decreases Depth(Choice(p1, True)), 0, 0, Choice(p1, True), 0
  {
    hide Gen, WellFormed, AllWellFormed, GetFirst, HeadFail, FixedLen, CheckAux, TestFor, CodeAt, RulesAt, Stops,
         GrammarsVerified, CallsStop, AllStop, GenChoice, TestDecides;
    StopParts(C, pos, Choice(p1, True));
    var c1 := Gen(G, p1, true, NoTest, Full());
    ShapeOptChoice(G, p1, tt, fl);
    Split(C, base, [IPartialCommit(1)], c1, pos);
    BlockStops(C, G, pos, base + 1, p1, true, NoTest, Full());
    PlacedStops(C, base, IPartialCommit(1), pos);
    Single(C, base);
    Cover(C, base, base, base + 1, base + 1 + |c1|);
  }

  lemma {:induction false} PlainChoiceStops(C: Code, G: seq<Tree>, pos: seq<int>, base: int, p1: Tree, p2: Tree,
        opt: bool, tt: Test, fl: CharSet)
    requires !TestDecides(G, p1, SecondFirst(G, p2, fl)) && !(opt && p2.True?)
    requires StopContext(C, G, pos, base, Choice(p1, p2), opt, tt, fl)
    ensures AllStop(C, base, base + |Gen(G, Choice(p1, p2), opt, tt, fl)|)
    decreases Depth(Choice(p1, p2)), 0, 0, Choice(p1, p2), 0
  {
    hide Gen, WellFormed, AllWellFormed, GetFirst, HeadFail, FixedLen, CheckAux, TestFor, CodeAt, RulesAt, Stops,
         GrammarsVerified, CallsStop, AllStop, GenChoice, TestDecides, EntryTest, ChoiceBlock;
    StopParts(C, pos, Choice(p1, p2));
    var test := EntryTest(G, p1);
    var c1, c2 := Gen(G, p1, p2.True?, test, Full()), Gen(G, p2, opt, NoTest, fl);
    var b1 := base + TestLen(test);
    var l1 := b1 + 2 + |c1|;
    ShapePlainChoice(G, p1, p2, opt, tt, fl);
    ChoiceBlockParts(C, base, test, c1, c2, pos);
    BlockStops(C, G, pos, l1, p2, opt, NoTest, fl);
    Ends(C, l1, l1 + |c2|);
    ChoiceBlockStops(C, base, test, c1, c2, pos);
    BlockStops(C, G, pos, b1 + 1, p1, p2.True?, test, Full());
    Cover(C, base, b1, b1 + 1, b1 + 1 + |c1|);
    Cover(C, base, b1 + 1 + |c1|, l1, l1 + |c2|);
  }

  lemma CharRepStops(C: Code, G: seq<Tree>, pos: seq<int>, base: int, p: Tree, opt: bool, tt: Test, fl: CharSet)
    requires OneChar(p) && CodeAt(C, base, Gen(G, Rep(p), opt, tt, fl), pos)
    requires Stops(C, base + |Gen(G, Rep(p), opt, tt, fl)|)
    ensures AllStop(C, base, base + |Gen(G, Rep(p), opt, tt, fl)|)
  {
    hide Gen, GenRep, CodeAt, Stops;
    ShapeCharRep(G, p, opt, tt, fl);
    if p.Set? {
      PlacedStops(C, base, ISpan(p.cs), pos);
    } else if p.Any? || p.Char? {
      var test := if p.Any? then ITestAny(3) else ITestChar(p.c, 3);
      assert [test, IAny, IJmp(-2)] == [test] + [IAny] + [IJmp(-2)];
      Split3(C, base, [test], [IAny], [IJmp(-2)], pos);
      PlacedStops(C, base, test, pos);
      PlacedStops(C, base + 1, IAny, pos);
      PlacedStops(C, base + 2, IJmp(-2), pos);
    }
  }

  lemma {:induction false} TestedLoopStops(C: Code, G: seq<Tree>, pos: seq<int>, base: int, p: Tree, opt: bool,
        tt: Test, fl: CharSet)
    requires !OneChar(p) && TestDecides(G, p, fl)
    requires StopContext(C, G, pos, base, Rep(p), opt, tt, fl)
    ensures AllStop(C, base, base + |Gen(G, Rep(p), opt, tt, fl)|)
    decreases Depth(Rep(p)), 0, 0, Rep(p), 0
  {
    hide Gen, WellFormed, AllWellFormed, GetFirst, HeadFail, FixedLen, CheckAux, TestFor, CodeAt, RulesAt, Stops,
         GrammarsVerified, CallsStop, AllStop, GenRep, TestDecides, DecidingTest, TestedLoopBlock;
    StopParts(C, pos, Rep(p));
    var test := DecidingTest(G, p);
    var c := Gen(G, p, false, test, Full());
    ShapeTestedLoop(G, p, opt, tt, fl);
    TestedLoopParts(C, base, test, c, pos);
    TestStops(C, base, test, 2 + |c|, pos);
    PlacedStops(C, base + 1 + |c|, IJmp(-1 - |c|), pos);
    BlockStops(C, G, pos, base + 1, p, false, test, Full());
    Single(C, base);
    Single(C, base + 2 + |c|);
    Cover(C, base, base, base + 1, base + 1 + |c|);
    Cover(C, base, base + 1 + |c|, base + 2 + |c|, base + 2 + |c|);
  }

  lemma {:induction false} PlainLoopStops(C: Code, G: seq<Tree>, pos: seq<int>, base: int, p: Tree, opt: bool,
        tt: Test, fl: CharSet)
    requires !OneChar(p) && !TestDecides(G, p, fl)
    requires StopContext(C, G, pos, base, Rep(p), opt, tt, fl)
    ensures AllStop(C, base, base + |Gen(G, Rep(p), opt, tt, fl)|)
    decreases Depth(Rep(p)), 0, 0, Rep(p), 0
  {
    hide Gen, WellFormed, AllWellFormed, GetFirst, HeadFail, FixedLen, CheckAux, TestFor, CodeAt, RulesAt, Stops,
         GrammarsVerified, CallsStop, AllStop, GenRep, TestDecides, EntryTest, LoopBlock;
    StopParts(C, pos, Rep(p));
    var test := EntryTest(G, p);
    var c := Gen(G, p, false, NoTest, Full());
    var b1 := base + TestLen(test);
    ShapePlainLoop(G, p, opt, tt, fl);
    LoopBlockParts(C, base, test, opt, c, pos);
    LoopBlockStops(C, base, test, opt, c, pos);
    BlockStops(C, G, pos, b1 + 1, p, false, NoTest, Full());
    Single(C, b1 + 2 + |c|);
    Cover(C, base, b1, b1 + 1, b1 + 1 + |c|);
    Cover(C, base, b1 + 1 + |c|, b1 + 2 + |c|, b1 + 2 + |c|);
  }

  lemma {:induction false} NotStops(C: Code, G: seq<Tree>, pos: seq<int>, base: int, p: Tree, opt: bool, tt: Test,
        fl: CharSet)
    requires StopContext(C, G, pos, base, Not(p), opt, tt, fl)
    ensures AllStop(C, base, base + |Gen(G, Not(p), opt, tt, fl)|)
    decreases Depth(Not(p)), 0, 0, Not(p), 0
  {
    hide Gen, WellFormed, AllWellFormed, GetFirst, HeadFail, FixedLen, CheckAux, TestFor, CodeAt, RulesAt, Stops,
         GrammarsVerified, CallsStop, AllStop, GenNot, EntryTest;
    StopParts(C, pos, Not(p));
    var test := EntryTest(G, p);
    var b1 := base + TestLen(test);
    if HeadFail(G, MAX_CALLS, p) {
      ShapeHeadNot(G, p, opt, tt, fl);
      Split(C, base, TestCode(test, 2), [IFail], pos);
      GuardStops(C, base, test, 2, IFail, pos);
      Single(C, base + 2);
      Cover(C, base, base + 1, base + 2, base + 2);
    } else {
      var c := Gen(G, p, false, NoTest, Full());
      ShapeNot(G, p, opt, tt, fl);
      NotBlockStops(C, base, test, c, pos);
      BlockStops(C, G, pos, b1 + 1, p, false, NoTest, Full());
      Single(C, b1 + 2 + |c|);
      Cover(C, base, b1, b1 + 1, b1 + 1 + |c|);
      Cover(C, base, b1 + 1 + |c|, b1 + 2 + |c|, b1 + 2 + |c|);
    }
  }

  lemma {:induction false} AndStops(C: Code, G: seq<Tree>, pos: seq<int>, base: int, p: Tree, opt: bool, tt: Test,
        fl: CharSet)
    requires StopContext(C, G, pos, base, And(p), opt, tt, fl)
    ensures AllStop(C, base, base + |Gen(G, And(p), opt, tt, fl)|)
    decreases Depth(And(p)), 0, 0, And(p), 0
  {
    hide Gen, WellFormed, AllWellFormed, GetFirst, HeadFail, FixedLen, CheckAux, TestFor, CodeAt, RulesAt, Stops,
         GrammarsVerified, CallsStop, AllStop, GenAnd;
    StopParts(C, pos, And(p));
    var n := FixedLen(G, MAX_CALLS, p);
    var c := Gen(G, p, false, tt, Full());
    ShapeAnd(G, p, opt, tt, fl);
    if WalksBack(n) {
      Split(C, base, c, Back(n), pos);
      BackStops(C, base + |c|, n, pos);
      Ends(C, base + |c|, base + |c| + |Back(n)|);
      BlockStops(C, G, pos, base, p, false, tt, Full());
      Cover(C, base, base + |c|, base + |c|, base + |c| + |Back(n)|);
    } else {
      AndBlockStops(C, base, c, pos);
      BlockStops(C, G, pos, base + 1, p, false, tt, Full());
      Single(C, base);
      Single(C, base + 2 + |c|);
      Single(C, base + 3 + |c|);
      Cover(C, base, base, base + 1, base + 1 + |c|);
      Cover(C, base, base + 1 + |c|, base + 2 + |c|, base + 2 + |c|);
      Cover(C, base, base + 2 + |c|, base + 3 + |c|, base + 3 + |c|);
    }
  }

  lemma {:induction false} BehindStops(C: Code, G: seq<Tree>, pos: seq<int>, base: int, n: nat, p: Tree, opt: bool,
        tt: Test, fl: CharSet)
    requires StopContext(C, G, pos, base, Behind(n, p), opt, tt, fl)
    ensures AllStop(C, base, base + |Gen(G, Behind(n, p), opt, tt, fl)|)
    decreases Depth(Behind(n, p)), 0, 0, Behind(n, p), 0
  {
    hide Gen, WellFormed, AllWellFormed, GetFirst, HeadFail, FixedLen, CheckAux, TestFor, CodeAt, RulesAt, Stops,
         GrammarsVerified, CallsStop, AllStop, GenBehind, Back;
    StopParts(C, pos, Behind(n, p));
    var c := Gen(G, p, false, NoTest, Full());
    var b1 := base + |Back(n)|;
    ShapeBehind(G, n, p, opt, tt, fl);
    Split(C, base, Back(n), c, pos);
    BlockStops(C, G, pos, b1, p, false, NoTest, Full());
    Ends(C, b1, b1 + |c|);
    BackStops(C, base, n, pos);
    Cover(C, base, b1, b1, b1 + |c|);
  }

  lemma GrammarRules(rs: seq<Tree>)
    requires GrammarsVerified(Grammar(rs))
    ensures Sound(rs) && |rs| > 0 && AllWellFormed(rs) && forall k | 0 <= k < |rs| :: Tame(rs[k])
    ensures DepthAll(rs) < Depth(Grammar(rs))
  {
  }

  lemma {:induction false} GrammarStops(C: Code, G: seq<Tree>, pos: seq<int>, base: int, rs: seq<Tree>, opt: bool,
        tt: Test, fl: CharSet)
    requires StopContext(C, G, pos, base, Grammar(rs), opt, tt, fl)
    ensures AllStop(C, base, base + |Gen(G, Grammar(rs), opt, tt, fl)|)
    decreases Depth(Grammar(rs)), 0, 0, Grammar(rs), 0
  {
    hide Gen, WellFormed, AllWellFormed, GetFirst, HeadFail, FixedLen, CheckAux, TestFor, CodeAt, RulesAt, Stops,
         GrammarsVerified, CallsStop, AllStop, GenGrammar, GenRules, CorrectCalls, Positions, VerifyGrammar, Tame,
         StartsStop, Depth, DepthAll;
    var body := GenRules(rs, rs);
    var rules := CorrectCalls(body, Positions(rs, rs, 0), 0);
    ShapeGrammar(G, rs, opt, tt, fl);
    GrammarRules(rs);
    assert [ICall(2), IJmp(1 + |body|)] == [ICall(2)] + [IJmp(1 + |body|)];
    Split3(C, base, [ICall(2)], [IJmp(1 + |body|)], rules, pos);
    PlacedStops(C, base, ICall(2), pos);
    PlacedStops(C, base + 1, IJmp(1 + |body|), pos);
    var rulePos := RulesPlaced(C, base + 2, rs, pos);
    RuleStartsStop(C, rs, rulePos);
    RulesStop(C, rs, rulePos, 0, base + 2);
    assert rs[0..] == rs;
    Single(C, base);
    Single(C, base + 1);
    Cover(C, base, base, base + 1, base + 1);
    Cover(C, base, base + 1, base + 2, base + 2 + |body|);
  }

  /** The start of every used rule stops. */
  ghost predicate StartsStop(C: Code, G: seq<Tree>, pos: seq<int>) {
    |pos| == |G| && forall k | 0 <= k < |G| && Used(G, k) :: Stops(C, pos[k])
  }

  lemma RuleStartsStop(C: Code, G: seq<Tree>, pos: seq<int>)
    requires Sound(G) && RulesAt(C, G, pos)
    ensures StartsStop(C, G, pos)
    decreases DepthAll(G), 3
  {
    hide Stops, CodeAt, Gen, AllWellFormed, VerifyGrammar, Tame;
    forall k | 0 <= k < |G| && Used(G, k) ensures Stops(C, pos[k]) { RuleStartStops(C, G, pos, k); }
  }

  /** What a rule of a grammar may call stops. */
  lemma RuleCallsStop(C: Code, G: seq<Tree>, pos: seq<int>, k: nat)
    requires AllWellFormed(G) && StartsStop(C, G, pos) && k < |G|
    ensures CallsStop(C, pos, G[k])
  {
    hide Stops;
    assert WellFormed(G[k], |G|);
    forall j: nat | Mentions(G[k], j) ensures j < |pos| && Stops(C, pos[j]) {
      MentionsBelow(G[k], j, |G|);
      assert Used(G, j);
    }
  }

  lemma DepthRest(rs: seq<Tree>, done: nat)
    requires done < |rs|
    ensures DepthAll(rs[done + 1..]) <= DepthAll(rs[done..]) && Depth(rs[done]) <= DepthAll(rs[done..])
  {
    assert rs[done..][0] == rs[done] && rs[done..][1..] == rs[done + 1..];
  }

  /** All positions of the rules from the `done`-th on. */
  lemma {:induction false} RulesStop(C: Code, G: seq<Tree>, pos: seq<int>, done: nat, start: int)
    requires AllWellFormed(G) && (forall k | 0 <= k < |G| :: Tame(G[k])) && StartsStop(C, G, pos) && done <= |G|
    requires CodeAt(C, start, GenRules(G, G[done..]), pos) && Stops(C, start + |GenRules(G, G[done..])|)
    ensures AllStop(C, start, start + |GenRules(G, G[done..])|)
    decreases DepthAll(G[done..]), 2, |G| - done
  {
    hide Stops, CodeAt, AllStop, Gen, GenRules, AllWellFormed, Tame, StartsStop, CallsStop, DepthAll, Depth;
    if done < |G| {
      var rs := G[done..];
      var c := Gen(G, G[done], false, NoTest, Full());
      assert rs[0] == G[done] && rs[1..] == G[done + 1..];
      ShapeRules(G, rs, 0);
      DepthRest(G, done);
      Split3(C, start, c, [IRet], GenRules(G, rs[1..]), pos);
      RulesStop(C, G, pos, done + 1, start + |c| + 1);
      PlacedStops(C, start + |c|, IRet, pos);
      TameGrammars(G[done]);
      RuleCallsStop(C, G, pos, done);
      BlockStops(C, G, pos, start, G[done], false, NoTest, Full());
      Cover(C, start, start + |c|, start + |c| + 1, start + |GenRules(G, rs)|);
    } else {
      assert G[done..] == [];
      ShapeNoRules(G);
      Single(C, start);
    }
  }

  lemma ShapeNoRules(G: seq<Tree>)
    ensures GenRules(G, []) == []
  {
  }

  lemma RuleStartStops(C: Code, G: seq<Tree>, pos: seq<int>, k: nat)
    requires Sound(G) && RulesAt(C, G, pos)
    requires k < |G| && Used(G, k)
    ensures Stops(C, pos[k])
    decreases DepthAll(G), 2
  {
    hide Stops, CodeAt, Gen, VerifyRule, Tame, WellFormed, AllWellFormed, RulesAt;
    RuleIsAt(C, G, pos, k);
    PlacedStops(C, pos[k] + |Gen(G, G[k], false, NoTest, Full())|, IRet, pos);
    EntryStops(C, G, pos, pos[k], G[k], false, NoTest, Full(), 0, false);
  }

  // The start of a block

  ghost predicate EntryContext(C: Code, G: seq<Tree>, pos: seq<int>, base: int, t: Tree, opt: bool, tt: Test,
        fl: CharSet, passed: nat, nb: bool) {
    && passed <= MAX_RULES && Tame(t) && WellFormed(t, |G|)
    && AllWellFormed(G) && (forall j | 0 <= j < |G| :: Tame(G[j])) && RulesAt(C, G, pos)
    && CodeAt(C, base, Gen(G, t, opt, tt, fl), pos)
    && VerifyRule(G, t, passed, nb).Accepted? && Keeps(G, t, passed, nb)
    && (VerifyRule(G, t, passed, nb).nb ==> Stops(C, base + |Gen(G, t, opt, tt, fl)|))
  }

  /** What `verifyrule` says of the parts of an accepted pattern. */
  lemma VerifyParts(G: seq<Tree>, t: Tree, passed: nat, nb: bool)
    requires passed <= MAX_RULES && Tame(t) && VerifyRule(G, t, passed, nb).Accepted? && Keeps(G, t, passed, nb)
    ensures t.Rep? || t.Not? || t.And? || t.Behind? ==> Tame(t.p)
    ensures t.Behind? ==> CallFree(t.p)
    ensures t.Seq? || t.Choice? ==> Tame(t.p1) && Tame(t.p2)
    ensures t.Rep? || t.Not? || t.And? ==>
              && VerifyRule(G, t.p, passed, true).Accepted? && Keeps(G, t.p, passed, true)
              && VerifyRule(G, t, passed, nb) == VerifyRule(G, t.p, passed, true)
    ensures t.Seq? ==>
              && VerifyRule(G, t.p1, passed, false).Accepted? && Keeps(G, t.p1, passed, false)
              && (VerifyRule(G, t.p1, passed, false).nb ==>
                  VerifyRule(G, t.p2, passed, nb) == VerifyRule(G, t, passed, nb) && Keeps(G, t.p2, passed, nb))
    ensures t.Choice? ==>
              && VerifyRule(G, t.p1, passed, nb).Accepted?
              && VerifyRule(G, t, passed, nb) == VerifyRule(G, t.p2, passed, VerifyRule(G, t.p1, passed, nb).nb)
              && Keeps(G, t.p2, passed, VerifyRule(G, t.p1, passed, nb).nb)
    ensures t.Call? ==> t.k < |G| && passed < MAX_RULES
    ensures t.Call? ==> VerifyRule(G, t, passed, nb) == VerifyRule(G, G[t.k], passed + 1, nb)
    ensures t.Call? ==> Keeps(G, G[t.k], passed + 1, nb)
    ensures t.Behind? || t.True? ==> VerifyRule(G, t, passed, nb).nb
  {
  }

  lemma PassableStays(G: seq<Tree>, t: Tree, passed: nat)
    requires passed <= MAX_RULES
    requires VerifyRule(G, t, passed, true).Accepted? && Keeps(G, t, passed, true)
    ensures VerifyRule(G, t, passed, true).nb
  {
    hide Keeps, VerifyRule;
    VerifyRuleSound(G, t, passed, true, [], 0, 0);
  }

  /** Jumps from the start of a block that may be entered without advancing: they end inside, or lead to its end only
      if the block may be passed without advancing, or to a rule that `verifyrule` has counted. */
  lemma {:induction false} EntryStops(C: Code, G: seq<Tree>, pos: seq<int>, base: int, t: Tree, opt: bool, tt: Test,
        fl: CharSet, passed: nat, nb: bool)
    requires EntryContext(C, G, pos, base, t, opt, tt, fl, passed, nb)
    ensures Stops(C, base)
    decreases Level(G, t), 1, MAX_RULES - passed, t, 1
  {
    hide Gen, WellFormed, AllWellFormed, GetFirst, HeadFail, FixedLen, CheckAux, TestFor, CodeAt, RulesAt, Stops,
         Tame, Keeps, VerifyRule;
    VerifyParts(G, t, passed, nb);
    WellFormedParts(t, |G|);
    match t
    case Seq(p1, p2) => SeqEntry(C, G, pos, base, p1, p2, opt, tt, fl, passed, nb);
    case Choice(p1, p2) => ChoiceEntry(C, G, pos, base, p1, p2, opt, tt, fl, passed, nb);
    case Rep(p) =>
      PassableStays(G, p, passed);
      RepEntry(C, G, pos, base, p, opt, tt, fl);
    case Not(p) =>
      PassableStays(G, p, passed);
      NotEntry(C, G, pos, base, p, opt, tt, fl);
    case And(p) =>
      PassableStays(G, p, passed);
      AndEntry(C, G, pos, base, p, opt, tt, fl, passed, nb);
    case Behind(n, p) => BehindEntry(C, G, pos, base, t, opt, tt, fl);
    case Call(k) => CallEntry(C, G, pos, base, k, opt, tt, fl, passed, nb);
    case True => ShapeLeaf(G, t, opt, tt, fl);
    case Grammar(rs) => GrammarEntry(C, G, pos, base, rs, opt, tt, fl);
    case _ => LeafStart(C, G, pos, base, t, opt, tt, fl);
  }

  /** The block of a grammar starts with a call. */
  lemma GrammarEntry(C: Code, G: seq<Tree>, pos: seq<int>, base: int, rs: seq<Tree>, opt: bool, tt: Test, fl: CharSet)
    requires CodeAt(C, base, Gen(G, Grammar(rs), opt, tt, fl), pos)
    ensures Stops(C, base)
  {
    hide Gen, CodeAt, Stops, GenGrammar, GenRules, CorrectCalls, Positions;
    var body := GenRules(rs, rs);
    var rules := CorrectCalls(body, Positions(rs, rs, 0), 0);
    ShapeGrammar(G, rs, opt, tt, fl);
    assert [ICall(2), IJmp(1 + |body|)] == [ICall(2)] + [IJmp(1 + |body|)];
    Split3(C, base, [ICall(2)], [IJmp(1 + |body|)], rules, pos);
    PlacedStops(C, base, ICall(2), pos);
  }

  lemma {:induction false} SeqEntry(C: Code, G: seq<Tree>, pos: seq<int>, base: int, p1: Tree, p2: Tree, opt: bool,
        tt: Test, fl: CharSet, passed: nat, nb: bool)
    requires EntryContext(C, G, pos, base, Seq(p1, p2), opt, tt, fl, passed, nb)
    ensures Stops(C, base)
    decreases Level(G, Seq(p1, p2)), 1, MAX_RULES - passed, Seq(p1, p2), 0
  {
    hide Gen, WellFormed, AllWellFormed, GetFirst, HeadFail, FixedLen, CheckAux, TestFor, CodeAt, RulesAt, Stops,
         Tame, Keeps, VerifyRule, GenSeq, SeqFollow, SeqTest;
    var fl1, tt2 := SeqFollow(G, p1, p2, fl), SeqTest(G, p1, tt);
    var c1, c2 := Gen(G, p1, false, tt, fl1), Gen(G, p2, opt, tt2, fl);
    ShapeSeq(G, p1, p2, opt, tt, fl);
    VerifyParts(G, Seq(p1, p2), passed, nb);
    WellFormedParts(Seq(p1, p2), |G|);
    Split(C, base, c1, c2, pos);
    if VerifyRule(G, p1, passed, false).nb {
      EntryStops(C, G, pos, base + |c1|, p2, opt, tt2, fl, passed, nb);
    }
    EntryStops(C, G, pos, base, p1, false, tt, fl1, passed, false);
  }

  /** A choice either starts with an instruction that is no jump, or jumps to its second alternative. */
  lemma ChoiceStart(C: Code, G: seq<Tree>, pos: seq<int>, base: int, p1: Tree, p2: Tree, opt: bool, tt: Test,
        fl: CharSet)
    returns (at: int)
    requires CodeAt(C, base, Gen(G, Choice(p1, p2), opt, tt, fl), pos)
    ensures at == base ==> Stops(C, base)
    ensures at != base ==>
              && (Stops(C, at) ==> Stops(C, base))
              && CodeAt(C, at, Gen(G, p2, opt, NoTest, fl), pos)
              && at + |Gen(G, p2, opt, NoTest, fl)| == base + |Gen(G, Choice(p1, p2), opt, tt, fl)|
  {
    hide Gen, GenChoice, GetFirst, HeadFail, TestFor, CodeAt, Stops;
    var c2 := Gen(G, p2, opt, NoTest, fl);
    if TestDecides(G, p1, SecondFirst(G, p2, fl)) {
      var test := DecidingTest(G, p1);
      var c1 := Gen(G, p1, false, test, fl);
      ShapeTestedChoice(G, p1, p2, opt, tt, fl);
      TestedBlockParts(C, base, test, c1, !p2.True?, c2, pos);
      at := TestedSecond(base, c1, !p2.True?);
      if Stops(C, at) { TestStops(C, base, test, TestedSecond(0, c1, !p2.True?), pos); }
    } else if opt && p2.True? {
      ShapeOptChoice(G, p1, tt, fl);
      Split(C, base, [IPartialCommit(1)], Gen(G, p1, true, NoTest, Full()), pos);
      PlacedStops(C, base, IPartialCommit(1), pos);
      at := base;
    } else {
      var test := EntryTest(G, p1);
      var c1 := Gen(G, p1, p2.True?, test, Full());
      ShapePlainChoice(G, p1, p2, opt, tt, fl);
      ChoiceBlockParts(C, base, test, c1, c2, pos);
      if test.NoTest? {
        PlacedStops(C, base, IChoice(2 + |c1|), pos);
        at := base;
      } else {
        at := base + 3 + |c1|;
        if Stops(C, at) { TestStops(C, base, test, 3 + |c1|, pos); }
      }
    }
  }

  lemma {:induction false} ChoiceEntry(C: Code, G: seq<Tree>, pos: seq<int>, base: int, p1: Tree, p2: Tree,
        opt: bool, tt: Test, fl: CharSet, passed: nat, nb: bool)
    requires EntryContext(C, G, pos, base, Choice(p1, p2), opt, tt, fl, passed, nb)
    ensures Stops(C, base)
    decreases Level(G, Choice(p1, p2)), 1, MAX_RULES - passed, Choice(p1, p2), 0
  {
    hide Gen, WellFormed, AllWellFormed, GetFirst, HeadFail, FixedLen, CheckAux, TestFor, CodeAt, RulesAt, Stops,
         Tame, Keeps, VerifyRule, GenChoice;
    VerifyParts(G, Choice(p1, p2), passed, nb);
    WellFormedParts(Choice(p1, p2), |G|);
    var at := ChoiceStart(C, G, pos, base, p1, p2, opt, tt, fl);
    if at != base {
      EntryStops(C, G, pos, at, p2, opt, NoTest, fl, passed, VerifyRule(G, p1, passed, nb).nb);
    }
  }

  lemma RepEntry(C: Code, G: seq<Tree>, pos: seq<int>, base: int, p: Tree, opt: bool, tt: Test, fl: CharSet)
    requires CodeAt(C, base, Gen(G, Rep(p), opt, tt, fl), pos) && Stops(C, base + |Gen(G, Rep(p), opt, tt, fl)|)
    ensures Stops(C, base)
  {
    hide Gen, GenRep, GetFirst, HeadFail, TestFor, CodeAt, Stops;
    if OneChar(p) {
      CharRepStops(C, G, pos, base, p, opt, tt, fl);
    } else if TestDecides(G, p, fl) {
      var test := DecidingTest(G, p);
      var c := Gen(G, p, false, test, Full());
      ShapeTestedLoop(G, p, opt, tt, fl);
      TestedLoopParts(C, base, test, c, pos);
      TestStops(C, base, test, 2 + |c|, pos);
    } else {
      ShapePlainLoop(G, p, opt, tt, fl);
      LoopBlockStops(C, base, EntryTest(G, p), opt, Gen(G, p, false, NoTest, Full()), pos);
    }
  }

  lemma NotEntry(C: Code, G: seq<Tree>, pos: seq<int>, base: int, p: Tree, opt: bool, tt: Test, fl: CharSet)
    requires CodeAt(C, base, Gen(G, Not(p), opt, tt, fl), pos) && Stops(C, base + |Gen(G, Not(p), opt, tt, fl)|)
    ensures Stops(C, base)
  {
    hide Gen, GenNot, GetFirst, HeadFail, TestFor, CodeAt, Stops;
    var test := EntryTest(G, p);
    if HeadFail(G, MAX_CALLS, p) {
      ShapeHeadNot(G, p, opt, tt, fl);
      Split(C, base, TestCode(test, 2), [IFail], pos);
      TestStops(C, base, test, 2, pos);
    } else {
      ShapeNot(G, p, opt, tt, fl);
      NotBlockStops(C, base, test, Gen(G, p, false, NoTest, Full()), pos);
    }
  }

  lemma {:induction false} AndEntry(C: Code, G: seq<Tree>, pos: seq<int>, base: int, p: Tree, opt: bool, tt: Test,
        fl: CharSet, passed: nat, nb: bool)
    requires EntryContext(C, G, pos, base, And(p), opt, tt, fl, passed, nb)
    requires VerifyRule(G, And(p), passed, nb).nb
    ensures Stops(C, base)
    decreases Level(G, And(p)), 1, MAX_RULES - passed, And(p), 0
  {
    hide Gen, WellFormed, AllWellFormed, GetFirst, HeadFail, FixedLen, CheckAux, TestFor, CodeAt, RulesAt, Stops,
         Tame, Keeps, VerifyRule, GenAnd, AllStop;
    var n := FixedLen(G, MAX_CALLS, p);
    var c := Gen(G, p, false, tt, Full());
    ShapeAnd(G, p, opt, tt, fl);
    VerifyParts(G, And(p), passed, nb);
    WellFormedParts(And(p), |G|);
    if WalksBack(n) {
      Split(C, base, c, Back(n), pos);
      BackStops(C, base + |c|, n, pos);
      Ends(C, base + |c|, base + |c| + |Back(n)|);
      EntryStops(C, G, pos, base, p, false, tt, Full(), passed, true);
    } else {
      AndBlockStops(C, base, c, pos);
    }
  }

  /** Nothing inside a look-behind calls a rule. */
  lemma BehindEntry(C: Code, G: seq<Tree>, pos: seq<int>, base: int, t: Tree, opt: bool, tt: Test, fl: CharSet)
    requires t.Behind? && Tame(t) && CallFree(t.p)
    requires CodeAt(C, base, Gen(G, t, opt, tt, fl), pos) && Stops(C, base + |Gen(G, t, opt, tt, fl)|)
    ensures Stops(C, base)
    decreases Depth(t), 0, 0, t, 2
  {
    hide Gen, CodeAt, Stops;
    TameGrammars(t);
    forall k: nat | Mentions(t, k) ensures false { CallFreeMentions(t.p, k); }
    assert CallsStop(C, pos, t);
    BlockStops(C, G, pos, base, t, opt, tt, fl);
  }

  lemma {:induction false} CallFreeMentions(t: Tree, k: nat)
    requires CallFree(t)
    ensures !Mentions(t, k)
    decreases t
  {
    match t
    case Rep(p) => CallFreeMentions(p, k);
    case Not(p) => CallFreeMentions(p, k);
    case And(p) => CallFreeMentions(p, k);
    case Behind(_, p) => CallFreeMentions(p, k);
    case Seq(p1, p2) => CallFreeMentions(p1, k); CallFreeMentions(p2, k);
    case Choice(p1, p2) => CallFreeMentions(p1, k); CallFreeMentions(p2, k);
    case _ =>
  }

  lemma {:induction false} CallEntry(C: Code, G: seq<Tree>, pos: seq<int>, base: int, k: nat, opt: bool, tt: Test,
        fl: CharSet, passed: nat, nb: bool)
    requires k < |G|
    requires EntryContext(C, G, pos, base, Call(k), opt, tt, fl, passed, nb)
    ensures Stops(C, base)
    decreases Level(G, Call(k)), 1, MAX_RULES - passed, Call(k), 0
  {
    hide Gen, WellFormed, AllWellFormed, GetFirst, HeadFail, FixedLen, CheckAux, TestFor, CodeAt, RulesAt, Stops,
         Tame, Keeps, VerifyRule;
    VerifyParts(G, Call(k), passed, nb);
    ShapeCall(G, k, opt, tt, fl);
    RuleIsAt(C, G, pos, k);
    PlacedStops(C, pos[k] + |Gen(G, G[k], false, NoTest, Full())|, IRet, pos);
    EntryStops(C, G, pos, pos[k], G[k], false, NoTest, Full(), passed + 1, nb);
    CallStart(C, pos, base, k);
  }

  lemma CallStart(C: Code, pos: seq<int>, base: int, k: nat)
    requires CodeAt(C, base, [IOpenCall(k)], pos) && k < |pos| && Stops(C, pos[k])
    ensures Stops(C, base)
  {
    hide Stops;
    assert Resolves(C, base + 0, [IOpenCall(k)][0], pos);
    if IsJump(C, base) { StopsStep(C, base); } else { StopsHere(C, base); }
  }

  // From chains that end to `finaltarget`

  lemma {:induction false} ChainUnique(C: Code, p: int, q1: int, n1: nat, q2: int, n2: nat)
    requires JumpChain(C, p, q1, n1) && !IsJump(C, q1) && JumpChain(C, p, q2, n2) && !IsJump(C, q2)
    ensures q1 == q2 && n1 == n2
    decreases n1
  {
    if n1 > 0 && n2 > 0 { ChainUnique(C, p + C[p].off, q1, n1 - 1, q2, n2 - 1); }
  }

  ghost predicate LongerChain(C: Code, p: int, q: int, n: int) {
    IsJump(C, p) && exists m: nat :: JumpChain(C, p, q, m) && m > n
  }

  /** A chain that ends visits no position twice, so it is no longer than the code. */
  lemma {:induction false} ChainShort(C: Code, p: int, q: int, n: nat, visited: set<int>)
    requires JumpChain(C, p, q, n) && !IsJump(C, q)
    requires forall v | v in visited :: LongerChain(C, v, q, n)
    ensures n + |visited| <= |C|
    decreases n
  {
    if n == 0 {
      var all := NumbersBelow(|C|);
      forall v | v in visited ensures v in all { assert LongerChain(C, v, q, n); }
      SubsetSize(visited, all);
    } else {
      if p in visited {
        var m: nat :| JumpChain(C, p, q, m) && m > n;
        ChainUnique(C, p, q, n, q, m);
      }
      var visited' := visited + {p};
      forall v | v in visited' ensures LongerChain(C, v, q, n - 1) {
        if v == p { assert JumpChain(C, v, q, n); }
        else { assert LongerChain(C, v, q, n); }
      }
      ChainShort(C, p + C[p].off, q, n - 1, visited');
    }
  }

  lemma {:induction false} TargetIsEnd(C: Code, p: int, q: int, n: nat, fuel: nat)
    requires JumpChain(C, p, q, n) && !IsJump(C, q) && n <= fuel
    ensures FinalTarget(C, p, fuel) == q
    decreases n
  {
    if n > 0 { TargetIsEnd(C, p + C[p].off, q, n - 1, fuel - 1); }
  }

  lemma FinalTargetStops(C: Code, p: int)
    requires Stops(C, p)
    ensures !IsJump(C, FinalTarget(C, p, |C|))
  {
    var q: int, n: nat :| JumpChain(C, p, q, n) && !IsJump(C, q);
    ChainShort(C, p, q, n, {});
    TargetIsEnd(C, p, q, n, |C|);
  }

  /** Optimising jumps only shortens chains. */
  lemma {:induction false} RefinedStops(C: Code, opt: Code, p: int, q: int, n: nat)
    requires P.Refines(C, opt) && JumpChain(C, p, q, n) && !IsJump(C, q)
    ensures Stops(opt, p)
    decreases n
  {
    if IsJump(opt, p) {
      assert P.Stands(C, p, opt[p]);
      var q1: int :| P.StandsAt(C, p, opt[p], q1);
      var l := p + opt[p].off;
      var n1: nat :| JumpChain(C, p, q1, n1);
      var n2: nat :| JumpChain(C, q1 + C[q1].off, l, n2);
      assert JumpChain(C, q1, l, n2 + 1);
      P.ChainTrans(C, p, q1, l, n1, n2 + 1);
      ChainRest(C, p, l, n1 + n2 + 1, q, n);
      RefinedStops(C, opt, l, q, n - (n1 + n2 + 1));
      StopsStep(opt, p);
    } else {
      StopsHere(opt, p);
    }
  }

  lemma {:induction false} ChainRest(C: Code, p: int, l: int, k: nat, q: int, n: nat)
    requires JumpChain(C, p, l, k) && JumpChain(C, p, q, n) && !IsJump(C, q)
    ensures k <= n && JumpChain(C, l, q, n - k)
    decreases k
  {
    if k > 0 { ChainRest(C, p + C[p].off, l, k - 1, q, n - 1); }
  }

  /** Jumps end everywhere in the code of a verified pattern. */
  lemma EmitStops(t: Tree)
    requires Verified(t) && WellFormed(t, 0)
    ensures AllStop(Emit(t), 0, |Emit(t)| - 1)
  {
    hide Gen, WellFormed, Verified, Stops, CodeAt, GrammarsVerified;
    EmitPlaced(t);
    TameGrammars(t);
    forall k: nat | Mentions(t, k) ensures false { MentionsBelow(t, k, 0); }
    PlacedStops(Emit(t), |Gen([], t, false, NoTest, Full())|, IEnd, []);
    BlockStops(Emit(t), [], [], 0, t, false, NoTest, Full());
  }

  /** `finaltarget` ends everywhere in the code of a verified pattern and in every stage of its optimisation. */
  lemma FinalTargetEnds(t: Tree, opt: Code, p: nat)
    requires Verified(t) && WellFormed(t, 0)
    requires P.Refines(Emit(t), opt) && p < |opt|
    ensures Stops(opt, p) && !IsJump(opt, FinalTarget(opt, p, |opt|))
  {
    var C := Emit(t);
    EmitStops(t);
    assert Stops(C, p);
    var q: int, n: nat :| JumpChain(C, p, q, n) && !IsJump(C, q);
    RefinedStops(C, opt, p, q, n);
    FinalTargetStops(opt, p);
  }

  // Where jumps go round

  /** A <- behind(&A): the look-behind is accepted like the one of `CallBehind`, and as the predicate has length 0 the
      rule is nothing but a call of itself. */
  const BehindCall: seq<Tree> := [Behind(0, And(Call(0)))]

  lemma BehindCallCode()
    ensures Emit(Grammar(BehindCall)) == [ICall(2), IJmp(3), IJmp(0), IRet, IEnd]
  {
    var G := BehindCall;
    assert FixedLen(G, MAX_CALLS, Call(0)) == 0;
    assert Gen(G, And(Call(0)), false, NoTest, Full()) == [IOpenCall(0)];
    assert Gen(G, G[0], false, NoTest, Full()) == [IOpenCall(0)];
    assert G[1..] == [] && GenRules(G, []) == [];
    var body := GenRules(G, G);
    assert body == [IOpenCall(0), IRet];
    assert Positions(G, G, 0) == [0];
    assert FinalTarget(body, 1, 2) == 1;
    assert CorrectCalls(body, [0], 0) == [IJmp(0), IRet] by {
      assert body[0 := IJmp(0)] == [IJmp(0), IRet];
      assert CorrectCalls([IJmp(0), IRet], [0], 1) == [IJmp(0), IRet];
    }
  }

  /** `finaltarget` never comes to an end on it. */
  lemma BehindCallJumps()
    ensures VerifyGrammar(BehindCall) && WellFormed(Grammar(BehindCall), 0)
    ensures !Stops(Emit(Grammar(BehindCall)), 2)
  {
    BehindCallCode();
    var C := Emit(Grammar(BehindCall));
    assert WellFormed(BehindCall[0], 1);
    forall q: int, n: nat | JumpChain(C, 2, q, n) ensures IsJump(C, q) { GoesRound(C, q, n); }
  }

  lemma {:induction false} GoesRound(C: Code, q: int, n: nat)
    requires |C| > 2 && C[2] == IJmp(0) && JumpChain(C, 2, q, n)
    ensures q == 2
    decreases n
  {
    if n > 0 { GoesRound(C, q, n - 1); }
  }
}
