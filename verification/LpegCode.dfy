/** Code generation (lpcode.c). Every function returns the block of code one C function appends; blocks hold
    relative offsets only, so they mean the same wherever they are placed. */
module LpegCode {
  import opened LpegTree
  import opened LpegAnalysis
  import opened LpegVm

  /** What the code generator knows of the test that protects the code it emits (`tt` in the C code). */
  datatype Test = NoTest | TestNone | TestAll | TestOne(c: Byte) | TestIn(cs: CharSet)

  /** `codetestset`: the test for set `cs`; none when the empty string must pass (`charsettype` picks the form). */
  function TestFor(cs: CharSet, empty: bool): Test {
    if empty then NoTest
    else if cs == {} then TestNone
    else if exists c | 0 <= c < 256 :: cs == {c} then
      var c :| 0 <= c < 256 && cs == {c}; TestOne(c)
    else if cs == Full() then TestAll
    else TestIn(cs)
  }

  function TestCode(tt: Test, off: int): Code {
    match tt
    case NoTest => []
    case TestNone => [IJmp(off)]
    case TestAll => [ITestAny(off)]
    case TestOne(c) => [ITestChar(c, off)]
    case TestIn(cs) => [ITestSet(cs, off)]
  }

  function TestLen(tt: Test): nat {
    if tt.NoTest? then 0 else 1
  }

  predicate Disjoint(a: CharSet, b: CharSet) {
    a * b == {}
  }

  function NeedFollow(t: Tree): bool {
    match t
    case Choice(_, _) => true
    case Rep(_) => true
    case Seq(_, p2) => NeedFollow(p2)
    case _ => false
  }

  /** `codegen`. `opt`: the code comes last inside an optional pattern whose choice it may reuse;
      `tt`: the test that protects it; `fl`: its follow set. */
  function Gen(G: seq<Tree>, t: Tree, opt: bool, tt: Test, fl: CharSet): Code
    decreases t, 1
  {
    match t
    case Char(c) => if tt == TestOne(c) then [IAny] else [IChar(c)]
    case Any => [IAny]
    case Set(cs) => if tt == TestIn(cs) then [IAny] else [ISet(cs)]
    case True => []
    case False => [IFail]
    case Choice(_, _) => GenChoice(G, t, opt, fl)
    case Rep(_) => GenRep(G, t, opt, fl)
    case Behind(_, _) => GenBehind(G, t)
    case Not(_) => GenNot(G, t)
    case And(_) => GenAnd(G, t, tt)
    case Seq(_, _) => GenSeq(G, t, opt, tt, fl)
    case Call(k) => [IOpenCall(k)]
    case Grammar(_) => GenGrammar(t)
  }

  /** The sequence case of `codegen` with `codeseq1`. */
  function GenSeq(G: seq<Tree>, t: Tree, opt: bool, tt: Test, fl: CharSet): Code
    requires t.Seq?
    decreases t, 0
  {
    Gen(G, t.p1, false, tt, SeqFollow(G, t.p1, t.p2, fl)) + Gen(G, t.p2, opt, SeqTest(G, t.p1, tt), fl)
  }

  /** `codebehind`. */
  function GenBehind(G: seq<Tree>, t: Tree): Code
    requires t.Behind?
    decreases t, 0
  {
    (if t.n > 0 then [IBehind(t.n)] else []) + Gen(G, t.p, false, NoTest, Full())
  }

  /** `codegrammar`: a call of the first rule, a jump over the rules, and the rules. */
  function GenGrammar(t: Tree): Code
    requires t.Grammar?
    decreases t, 0
  {
    var body := GenRules(t.rules, t.rules);
    [ICall(2), IJmp(1 + |body|)] + CorrectCalls(body, Positions(t.rules, t.rules, 0), 0)
  }

  /** Follow set handed to the first part of a sequence. */
  function SeqFollow(G: seq<Tree>, p1: Tree, p2: Tree, fl: CharSet): CharSet {
    if NeedFollow(p1) then GetFirst(G, MAX_CALLS, p2, fl).cs else Full()
  }

  /** The test that still protects the second part of a sequence. */
  function SeqTest(G: seq<Tree>, p1: Tree, tt: Test): Test {
    if FixedLen(G, MAX_CALLS, p1) != 0 then NoTest else tt
  }

  /** `codechoice`. */
  function GenChoice(G: seq<Tree>, t: Tree, opt: bool, fl: CharSet): Code
    requires t.Choice?
    decreases t, 0
  {
    var Choice(p1, p2) := t;
    var f1 := GetFirst(G, MAX_CALLS, p1, Full());
    if HeadFail(G, MAX_CALLS, p1)
       || (!f1.empty && Disjoint(f1.cs, GetFirst(G, MAX_CALLS, p2, fl).cs)) then
      // LpegShapes.TestedBlock
      var test := TestFor(f1.cs, false);
      var c1 := Gen(G, p1, false, test, fl);
      var c2 := Gen(G, p2, opt, NoTest, fl);
      var jmp := if p2.True? then [] else [IJmp(1 + |c2|)];
      TestCode(test, 1 + |c1| + |jmp|) + c1 + jmp + c2
    else if opt && p2.True? then
      // in an optional context the choice point that is there serves
      [IPartialCommit(1)] + Gen(G, p1, true, NoTest, Full())
    else
      // LpegShapes.ChoiceBlock
      var test := TestFor(f1.cs, f1.empty);
      var c1 := Gen(G, p1, p2.True?, test, Full());
      var c2 := Gen(G, p2, opt, NoTest, fl);
      TestCode(test, 3 + |c1|) + [IChoice(2 + |c1|)] + c1 + [ICommit(1 + |c2|)] + c2
  }

  /** `coderep` and `coderepcharset`. */
  function GenRep(G: seq<Tree>, t: Tree, opt: bool, fl: CharSet): Code
    requires t.Rep?
    decreases t, 0
  {
    var p := t.p;
    match p
    case False => []
    case Any => [ITestAny(3), IAny, IJmp(-2)]
    case Char(c) => [ITestChar(c, 3), IAny, IJmp(-2)]
    case Set(cs) => [ISpan(cs)]
    case _ =>
      var f := GetFirst(G, MAX_CALLS, p, Full());
      if HeadFail(G, MAX_CALLS, p) || (!f.empty && Disjoint(f.cs, fl)) then
        // LpegShapes.TestedLoopBlock
        var test := TestFor(f.cs, false);
        var c := Gen(G, p, false, test, Full());
        TestCode(test, 2 + |c|) + c + [IJmp(-1 - |c|)]
      else
        // LpegShapes.LoopBlock
        var test := TestFor(f.cs, f.empty);
        var c := Gen(G, p, false, NoTest, Full());
        TestCode(test, 3 + |c|) + [if opt then IPartialCommit(1) else IChoice(2 + |c|)]
        + c + [IPartialCommit(-|c|)]
  }

  /** `codenot`. */
  function GenNot(G: seq<Tree>, t: Tree): Code
    requires t.Not?
    decreases t, 0
  {
    var p := t.p;
    var f := GetFirst(G, MAX_CALLS, p, Full());
    var test := TestFor(f.cs, f.empty);
    if HeadFail(G, MAX_CALLS, p) then
      TestCode(test, 2) + [IFail]
    else
      var c := Gen(G, p, false, NoTest, Full());
      TestCode(test, 3 + |c|) + [IChoice(2 + |c|)] + c + [IFailTwice]
  }

  /** `codeand`. */
  function GenAnd(G: seq<Tree>, t: Tree, tt: Test): Code
    requires t.And?
    decreases t, 0
  {
    var p := t.p;
    var n := FixedLen(G, MAX_CALLS, p);
    var c := Gen(G, p, false, tt, Full());
    if 0 <= n <= MAX_BEHIND then
      c + (if n > 0 then [IBehind(n)] else [])
    else
      [IChoice(2 + |c|)] + c + [IBackCommit(2), IFail]
  }

  /** The rules of a grammar, one after another, each closed by a return. */
  function GenRules(G: seq<Tree>, rs: seq<Tree>): Code
    decreases rs, 2
  {
    if rs == [] then [] else
    Gen(G, rs[0], false, NoTest, Full()) + [IRet] + GenRules(G, rs[1..])
  }

  /** Start of each rule in `GenRules`, counted from `start`. */
  function Positions(G: seq<Tree>, rs: seq<Tree>, start: nat): (pos: seq<nat>)
    ensures |pos| == |rs|
    decreases rs, 2
  {
    if rs == [] then [] else
    [start] + Positions(G, rs[1..], start + |Gen(G, rs[0], false, NoTest, Full())| + 1)
  }

  /** `finaltarget`: follow jumps from `i`, at most `fuel` of them. */
  function FinalTarget(code: Code, i: int, fuel: nat): int
    decreases fuel
  {
    if fuel > 0 && 0 <= i < |code| && code[i].IJmp? then FinalTarget(code, i + code[i].off, fuel - 1) else i
  }

  predicate ReturnsAt(code: Code, i: int) {
    var ft := FinalTarget(code, i, |code|);
    0 <= ft < |code| && code[ft].IRet?
  }

  /** `correctcalls` from instruction `i` on: open calls become calls, or jumps when a return follows. */
  function CorrectCalls(code: Code, positions: seq<nat>, i: nat): (c: Code)
    ensures |c| == |code|
    decreases |code| - i
  {
    if i >= |code| then code
    else if code[i].IOpenCall? && code[i].k < |positions| then
      var off := positions[code[i].k] - i;
      var instr := if ReturnsAt(code, i + 1) then IJmp(off) else ICall(off);
      CorrectCalls(code[i := instr], positions, i + 1)
    else CorrectCalls(code, positions, i + 1)
  }
}
