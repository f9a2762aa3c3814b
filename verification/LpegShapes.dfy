/** The blocks of code the generator builds, by kind of pattern: each as a function of the blocks of its parts. */
module LpegShapes {
  import opened LpegTree
  import opened LpegAnalysis
  import opened LpegVm
  import opened LpegCode

  /** The test put before a pattern that stays under a choice point. */
  function EntryTest(G: seq<Tree>, p: Tree): Test {
    var f := GetFirst(G, MAX_CALLS, p, Full());
    TestFor(f.cs, f.empty)
  }

  /** When a test may replace a choice point: the pattern is headfail, or what follows starts differently. */
  predicate TestDecides(G: seq<Tree>, p: Tree, next: CharSet) {
    HeadFail(G, MAX_CALLS, p)
    || (!GetFirst(G, MAX_CALLS, p, Full()).empty && Disjoint(GetFirst(G, MAX_CALLS, p, Full()).cs, next))
  }

  function DecidingTest(G: seq<Tree>, p: Tree): Test {
    TestFor(GetFirst(G, MAX_CALLS, p, Full()).cs, false)
  }

  /** What the second alternative of a choice may start with. */
  function SecondFirst(G: seq<Tree>, p2: Tree, fl: CharSet): CharSet {
    GetFirst(G, MAX_CALLS, p2, fl).cs
  }

  predicate OneChar(p: Tree) {
    p.False? || p.Any? || p.Char? || p.Set?
  }

  /** The test alone decides between `c1`, with a jump over `c2`, and `c2`. */
  function TestedBlock(test: Test, c1: Code, jump: bool, c2: Code): Code {
    var jmp := if jump then [IJmp(1 + |c2|)] else [];
    TestCode(test, 1 + |c1| + |jmp|) + c1 + jmp + c2
  }

  /** `c1` under a choice point that leads to `c2`; a test in front may lead there at once. */
  function ChoiceBlock(test: Test, c1: Code, c2: Code): Code {
    TestCode(test, 3 + |c1|) + [IChoice(2 + |c1|)] + c1 + [ICommit(1 + |c2|)] + c2
  }

  /** `c` again and again while the test passes. */
  function TestedLoopBlock(test: Test, c: Code): Code {
    TestCode(test, 2 + |c|) + c + [IJmp(-1 - |c|)]
  }

  /** Entering a loop: a new choice point, or in an optional context the one that is there. */
  function Enter(opt: bool, n: nat): Instr {
    if opt then IPartialCommit(1) else IChoice(2 + n)
  }

  /** `c` again and again under a choice point that leads behind the loop. */
  function LoopBlock(test: Test, opt: bool, c: Code): Code {
    TestCode(test, 3 + |c|) + [Enter(opt, |c|)] + c + [IPartialCommit(-|c|)]
  }

  /** `c` under a choice point that leads on; its success fails the whole block. */
  function NotBlock(test: Test, c: Code): Code {
    TestCode(test, 3 + |c|) + [IChoice(2 + |c|)] + c + [IFailTwice]
  }

  function Back(n: nat): Code {
    if n > 0 then [IBehind(n)] else []
  }

  lemma ShapeSeq(G: seq<Tree>, p1: Tree, p2: Tree, opt: bool, tt: Test, fl: CharSet)
    ensures Gen(G, Seq(p1, p2), opt, tt, fl) == GenSeq(G, Seq(p1, p2), opt, tt, fl)
            == Gen(G, p1, false, tt, SeqFollow(G, p1, p2, fl)) + Gen(G, p2, opt, SeqTest(G, p1, tt), fl)
  {
    hide GetFirst, HeadFail, CheckAux, FixedLen, TestFor;
  }

  lemma ChoiceIsGenChoice(G: seq<Tree>, p1: Tree, p2: Tree, opt: bool, tt: Test, fl: CharSet)
    ensures Gen(G, Choice(p1, p2), opt, tt, fl) == GenChoice(G, Choice(p1, p2), opt, fl)
    ensures p2.True? ==> Gen(G, p2, opt, NoTest, fl) == []
  {
    hide GenChoice;
  }

  lemma DecidingLen(G: seq<Tree>, p: Tree)
    ensures TestLen(DecidingTest(G, p)) == 1
  {
    hide GetFirst;
  }

  lemma ShapeTestedChoice(G: seq<Tree>, p1: Tree, p2: Tree, opt: bool, tt: Test, fl: CharSet)
    requires TestDecides(G, p1, SecondFirst(G, p2, fl))
    ensures Gen(G, Choice(p1, p2), opt, tt, fl) == GenChoice(G, Choice(p1, p2), opt, fl)
            == TestedBlock(DecidingTest(G, p1), Gen(G, p1, false, DecidingTest(G, p1), fl), !p2.True?,
                           Gen(G, p2, opt, NoTest, fl))
    ensures p2.True? ==> Gen(G, p2, opt, NoTest, fl) == []
    ensures TestLen(DecidingTest(G, p1)) == 1
  {
    hide Gen, GetFirst, HeadFail, CheckAux, FixedLen, TestFor, TestCode;
    ChoiceIsGenChoice(G, p1, p2, opt, tt, fl);
    DecidingLen(G, p1);
  }

  lemma ShapeOptChoice(G: seq<Tree>, p1: Tree, tt: Test, fl: CharSet)
    requires !TestDecides(G, p1, SecondFirst(G, True, fl))
    ensures Gen(G, Choice(p1, True), true, tt, fl) == GenChoice(G, Choice(p1, True), true, fl)
            == [IPartialCommit(1)] + Gen(G, p1, true, NoTest, Full())
  {
    hide Gen, GetFirst, HeadFail, CheckAux, FixedLen, TestFor, TestCode;
    ChoiceIsGenChoice(G, p1, True, true, tt, fl);
  }

  lemma ShapePlainChoice(G: seq<Tree>, p1: Tree, p2: Tree, opt: bool, tt: Test, fl: CharSet)
    requires !TestDecides(G, p1, SecondFirst(G, p2, fl)) && !(opt && p2.True?)
    ensures Gen(G, Choice(p1, p2), opt, tt, fl) == GenChoice(G, Choice(p1, p2), opt, fl)
            == ChoiceBlock(EntryTest(G, p1), Gen(G, p1, p2.True?, EntryTest(G, p1), Full()),
                           Gen(G, p2, opt, NoTest, fl))
    ensures p2.True? ==> Gen(G, p2, opt, NoTest, fl) == []
  {
    hide Gen, GetFirst, HeadFail, CheckAux, FixedLen, TestFor, TestCode;
    ChoiceIsGenChoice(G, p1, p2, opt, tt, fl);
  }

  lemma ShapeCharRep(G: seq<Tree>, p: Tree, opt: bool, tt: Test, fl: CharSet)
    requires OneChar(p)
    ensures Gen(G, Rep(p), opt, tt, fl) == GenRep(G, Rep(p), opt, fl)
            == match p
               case False => []
               case Any => [ITestAny(3), IAny, IJmp(-2)]
               case Char(c) => [ITestChar(c, 3), IAny, IJmp(-2)]
               case Set(cs) => [ISpan(cs)]
               case _ => []
  {
    hide GetFirst, HeadFail, CheckAux, FixedLen, TestFor;
  }

  lemma RepIsGenRep(G: seq<Tree>, p: Tree, opt: bool, tt: Test, fl: CharSet)
    ensures Gen(G, Rep(p), opt, tt, fl) == GenRep(G, Rep(p), opt, fl)
  {
    hide GenRep;
  }

  lemma ShapeTestedLoop(G: seq<Tree>, p: Tree, opt: bool, tt: Test, fl: CharSet)
    requires !OneChar(p) && TestDecides(G, p, fl)
    ensures Gen(G, Rep(p), opt, tt, fl) == GenRep(G, Rep(p), opt, fl)
            == TestedLoopBlock(DecidingTest(G, p), Gen(G, p, false, DecidingTest(G, p), Full()))
    ensures TestLen(DecidingTest(G, p)) == 1
  {
    hide Gen, GetFirst, HeadFail, CheckAux, FixedLen, TestFor, TestCode;
    RepIsGenRep(G, p, opt, tt, fl);
    DecidingLen(G, p);
  }

  lemma ShapePlainLoop(G: seq<Tree>, p: Tree, opt: bool, tt: Test, fl: CharSet)
    requires !OneChar(p) && !TestDecides(G, p, fl)
    ensures Gen(G, Rep(p), opt, tt, fl) == GenRep(G, Rep(p), opt, fl)
            == LoopBlock(EntryTest(G, p), opt, Gen(G, p, false, NoTest, Full()))
  {
    hide Gen, GetFirst, HeadFail, CheckAux, FixedLen, TestFor;
    RepIsGenRep(G, p, opt, tt, fl);
  }

  lemma ShapeHeadNot(G: seq<Tree>, p: Tree, opt: bool, tt: Test, fl: CharSet)
    requires HeadFail(G, MAX_CALLS, p)
    ensures Gen(G, Not(p), opt, tt, fl) == GenNot(G, Not(p)) == TestCode(EntryTest(G, p), 2) + [IFail]
    ensures TestLen(EntryTest(G, p)) == 1
  {
    hide GetFirst, HeadFail, CheckAux, FixedLen;
    HeadFailEmpty(G, MAX_CALLS, p);
  }

  lemma ShapeNot(G: seq<Tree>, p: Tree, opt: bool, tt: Test, fl: CharSet)
    requires !HeadFail(G, MAX_CALLS, p)
    ensures Gen(G, Not(p), opt, tt, fl) == GenNot(G, Not(p))
            == NotBlock(EntryTest(G, p), Gen(G, p, false, NoTest, Full()))
  {
    hide GetFirst, HeadFail, CheckAux, FixedLen, TestFor;
  }

  predicate WalksBack(n: int) {
    0 <= n <= MAX_BEHIND
  }

  lemma ShapeAnd(G: seq<Tree>, p: Tree, opt: bool, tt: Test, fl: CharSet)
    ensures var c, n := Gen(G, p, false, tt, Full()), FixedLen(G, MAX_CALLS, p);
            Gen(G, And(p), opt, tt, fl) == GenAnd(G, And(p), tt)
            == if WalksBack(n) then c + Back(n) else [IChoice(2 + |c|)] + c + [IBackCommit(2), IFail]
  {
    hide GetFirst, HeadFail, CheckAux, FixedLen, TestFor;
  }

  lemma ShapeBehind(G: seq<Tree>, n: nat, p: Tree, opt: bool, tt: Test, fl: CharSet)
    ensures Gen(G, Behind(n, p), opt, tt, fl) == GenBehind(G, Behind(n, p))
            == Back(n) + Gen(G, p, false, NoTest, Full())
  {
    hide GetFirst, HeadFail, CheckAux, FixedLen, TestFor;
  }

  lemma ShapeCall(G: seq<Tree>, k: nat, opt: bool, tt: Test, fl: CharSet)
    ensures Gen(G, Call(k), opt, tt, fl) == [IOpenCall(k)]
  {
    hide GetFirst, HeadFail, CheckAux, FixedLen, TestFor;
  }

  lemma ShapeGrammar(G: seq<Tree>, rs: seq<Tree>, opt: bool, tt: Test, fl: CharSet)
    ensures var body := GenRules(rs, rs);
            Gen(G, Grammar(rs), opt, tt, fl) == GenGrammar(Grammar(rs))
            == [ICall(2), IJmp(1 + |body|)] + CorrectCalls(body, Positions(rs, rs, 0), 0)
  {
    hide GetFirst, HeadFail, CheckAux, FixedLen, TestFor;
  }

  lemma ShapeLeaf(G: seq<Tree>, t: Tree, opt: bool, tt: Test, fl: CharSet)
    requires t.Char? || t.Set? || t.Any? || t.True? || t.False?
    ensures Gen(G, t, opt, tt, fl) ==
            match t
            case Char(c) => if tt == TestOne(c) then [IAny] else [IChar(c)]
            case Set(cs) => if tt == TestIn(cs) then [IAny] else [ISet(cs)]
            case Any => [IAny]
            case True => []
            case _ => [IFail]
  {
    hide GetFirst, HeadFail, CheckAux, FixedLen, TestFor;
  }

  lemma ShapeRules(G: seq<Tree>, rs: seq<Tree>, start: nat)
    requires rs != []
    ensures var c := Gen(G, rs[0], false, NoTest, Full());
            && GenRules(G, rs) == c + [IRet] + GenRules(G, rs[1..])
            && Positions(G, rs, start) == [start] + Positions(G, rs[1..], start + |c| + 1)
  {
    hide GetFirst, HeadFail, CheckAux, FixedLen, TestFor;
  }
}
