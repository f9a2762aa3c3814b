/** The compiler and the interpreter as the program runs them: `CompileState` appends instructions to a growing code
    and patches labels in place, `Match` is one loop over an explicit stack. Each method is tied to the function that
    specifies it, whose meaning LpegCorrect, LpegPeephole and LpegVerify establish. */
module LpegCompiler {
  import opened Common
  import opened LpegTree
  import opened LpegAnalysis
  import opened LpegVm
  import opened LpegCode
  import opened LpegShapes
  import P = LpegPeephole
  import C = LpegCorrect
  import J = LpegJumps
  import V = LpegVerify

  /** No instruction (NOINST). */
  const NOINST: int := -1

  /** What the instruction at `tt` tests. */
  function TestAt(code: Code, tt: int): Test
    requires tt < |code|
  {
    if tt < 0 then NoTest else
    match code[tt]
    case IJmp(_) => TestNone
    case ITestAny(_) => TestAll
    case ITestChar(c, _) => TestOne(c)
    case ITestSet(cs, _) => TestIn(cs)
    case _ => NoTest
  }

  lemma Assoc4(a: Code, b: Code, c: Code, d: Code)
    ensures a + b + c == a + (b + c)
    ensures a + b + c + d == a + (b + c + d)
    ensures a + b + c + d == a + b + (c + d)
  {
  }

  lemma Assoc5(a: Code, b: Code, c: Code, d: Code, e: Code)
    ensures a + b + c + d + e == a + (b + c + d + e)
  {
  }

  lemma Inner(a: Code, b: Code, c: Code, d: Code, e: Code)
    ensures a + b + (c + (d + e)) == a + b + c + d + e
  {
  }

  lemma Outer(a: Code, b: Code, c: Code, d: Code, e: Code, f: Code)
    ensures a + b + c + d + e + f == a + (b + c + d + e + f)
  {
    Assoc5(a, b, c, d, e);
    Assoc4(a, b + c + d + e, f, []);
  }

  lemma TestSize(tc: Test, off: int)
    ensures |TestCode(tc, off)| == |TestCode(tc, 0)|
  {
  }

  lemma Patched(a: Code, x: Instr, b: Code, y: Instr)
    ensures (a + [x] + b)[|a| := y] == a + [y] + b
  {
  }

  class CompileState {
    var code: Code

    constructor ()
      ensures code == []
    {
      code := [];
    }

    method AddInstruction(x: Instr) returns (i: int)
      modifies this
      ensures i == |old(code)| && code == old(code) + [x]
    {
      i := |code|;
      code := code + [x];
    }

    /** `jumptothere`: patch an instruction to jump to `target`. */
    method JumpToThere(instruction: int, target: int)
      requires instruction < |code|
      requires instruction >= 0 ==> P.Labelled(code[instruction])
      modifies this
      ensures instruction < 0 ==> code == old(code)
      ensures instruction >= 0 ==>
                code == old(code)[instruction := P.WithOffset(old(code)[instruction], target - instruction)]
    {
      if instruction >= 0 {
        code := code[instruction := P.WithOffset(code[instruction], target - instruction)];
      }
    }

    method JumpToHere(instruction: int)
      requires instruction < |code|
      requires instruction >= 0 ==> P.Labelled(code[instruction])
      modifies this
      ensures instruction < 0 ==> code == old(code)
      ensures instruction >= 0 ==>
                code == old(code)[instruction := P.WithOffset(old(code)[instruction], |old(code)| - instruction)]
    {
      JumpToThere(instruction, |code|);
    }

    /** `jumptohere` for the instruction `x` between the blocks `a` and `b`. */
    method PatchHere(instruction: int, ghost a: Code, ghost x: Instr, ghost b: Code)
      requires code == a + [x] + b && instruction == |a| && P.Labelled(x)
      modifies this
      ensures code == a + [P.WithOffset(x, 1 + |b|)] + b
    {
      assert code[instruction] == x;
      JumpToHere(instruction);
      Patched(a, x, b, P.WithOffset(x, 1 + |b|));
    }

    /** `codetestset`: the label is patched later. */
    method CodeTestSet(cs: CharSet, e: bool) returns (test: int)
      modifies this
      ensures code == old(code) + TestCode(TestFor(cs, e), 0)
      ensures if TestFor(cs, e).NoTest? then test == NOINST else test == |old(code)|
    {
      var t := TestFor(cs, e);
      match t {
        case NoTest => test := NOINST;
        case TestNone => test := AddInstruction(IJmp(0));
        case TestAll => test := AddInstruction(ITestAny(0));
        case TestOne(c) => test := AddInstruction(ITestChar(c, 0));
        case TestIn(set1) => test := AddInstruction(ITestSet(set1, 0));
      }
      assert old(code) + [] == old(code);
    }

    /** Patch the test at the start of the block `old + TestCode(t, 0) + rest`. */
    method CloseTest(ghost before: Code, ghost t: Test, ghost rest: Code, test: int)
      requires code == before + TestCode(t, 0) + rest
      requires if t.NoTest? then test == NOINST else test == |before|
      modifies this
      ensures code == before + TestCode(t, TestLen(t) + |rest|) + rest
    {
      ghost var was := code;
      JumpToHere(test);
      if !t.NoTest? {
        ghost var x := TestCode(t, 0)[0];
        ghost var y := TestCode(t, TestLen(t) + |rest|)[0];
        assert was == before + [x] + rest;
        assert y == P.WithOffset(x, TestLen(t) + |rest|);
        Patched(before, x, rest, y);
      }
    }

    /** `codegen`. */
    method CodeGen(G: seq<Tree>, t: Tree, opt: bool, tt: int, fl: CharSet)
      requires tt < |code| && C.WellFormed(t, |G|)
      modifies this
      ensures code == old(code) + Gen(G, t, opt, TestAt(old(code), tt), fl)
      decreases t, 1
    {
      hide Gen, C.WellFormed, GetFirst, HeadFail, FixedLen, CheckAux, TestFor;
      ghost var test := TestAt(code, tt);
      C.WellFormedParts(t, |G|);
      match t {
        case Choice(_, _) =>
          CodeChoice(G, t, opt, fl, test);
        case Rep(_) =>
          CodeRep(G, t, opt, fl, test);
        case Behind(_, _) =>
          CodeBehind(G, t, opt, fl, test);
        case Not(_) =>
          CodeNot(G, t, opt, fl, test);
        case And(_) =>
          CodeAnd(G, t, opt, tt, fl);
        case Seq(_, _) =>
          CodeSeq(G, t, opt, tt, fl);
        case Call(k) =>
          ShapeCall(G, k, opt, test, fl);
          var _ := AddInstruction(IOpenCall(k));
        case Grammar(rs) =>
          CodeGrammar(G, rs, opt, fl, test);
        case _ =>
          CodeLeaf(G, t, opt, tt, fl);
      }
    }

    /** The characters: a test that dominates one makes it `any`. */
    method CodeLeaf(G: seq<Tree>, t: Tree, opt: bool, tt: int, fl: CharSet)
      requires t.Char? || t.Set? || t.Any? || t.True? || t.False?
      requires tt < |code|
      modifies this
      ensures code == old(code) + Gen(G, t, opt, TestAt(old(code), tt), fl)
    {
      hide Gen;
      ShapeLeaf(G, t, opt, TestAt(code, tt), fl);
      match t {
        case Char(c) =>
          var dominated := tt >= 0 && code[tt].ITestChar? && code[tt].c == c;
          var _ := AddInstruction(if dominated then IAny else IChar(c));
        case Any =>
          var _ := AddInstruction(IAny);
        case Set(cs) =>
          var dominated := tt >= 0 && code[tt].ITestSet? && code[tt].cs == cs;
          var _ := AddInstruction(if dominated then IAny else ISet(cs));
        case True =>
          assert code + [] == code;
        case False =>
          var _ := AddInstruction(IFail);
      }
    }

    /** `codebehind`. */
    method CodeBehind(G: seq<Tree>, t: Tree, opt: bool, fl: CharSet, ghost tt: Test)
      requires t.Behind? && C.WellFormed(t.p, |G|)
      modifies this
      ensures code == old(code) + Gen(G, t, opt, tt, fl)
      decreases t, 0
    {
      hide Gen, C.WellFormed;
      var Behind(n, p) := t;
      ghost var before := code;
      ShapeBehind(G, n, p, opt, tt, fl);
      if n > 0 { var _ := AddInstruction(IBehind(n)); }
      assert code == before + Back(n);
      CodeGen(G, p, false, NOINST, Full());
      Assoc4(before, Back(n), Gen(G, p, false, NoTest, Full()), []);
    }

    /** The sequence case of `codegen` with `codeseq1`. */
    method CodeSeq(G: seq<Tree>, t: Tree, opt: bool, tt: int, fl: CharSet)
      requires t.Seq? && tt < |code| && C.WellFormed(t.p1, |G|) && C.WellFormed(t.p2, |G|)
      modifies this
      ensures code == old(code) + Gen(G, t, opt, TestAt(old(code), tt), fl)
      decreases t, 0
    {
      hide Gen, C.WellFormed, GetFirst, FixedLen;
      var Seq(p1, p2) := t;
      ghost var before, test := code, TestAt(code, tt);
      ShapeSeq(G, p1, p2, opt, test, fl);
      var fl1 := SeqFollow(G, p1, p2, fl);
      CodeGen(G, p1, false, tt, fl1);
      ghost var c1 := Gen(G, p1, false, test, fl1);
      var tt2 := if FixedLen(G, MAX_CALLS, p1) != 0 then NOINST else tt;
      assert tt >= 0 ==> code[tt] == before[tt];
      CodeGen(G, p2, opt, tt2, fl);
      Assoc4(before, c1, Gen(G, p2, opt, SeqTest(G, p1, test), fl), []);
    }

    /** `codechoice`. */
    method CodeChoice(G: seq<Tree>, t: Tree, opt: bool, fl: CharSet, ghost tt: Test)
      requires t.Choice? && C.WellFormed(t.p1, |G|) && C.WellFormed(t.p2, |G|)
      modifies this
      ensures code == old(code) + Gen(G, t, opt, tt, fl)
      decreases t, 0
    {
      hide Gen, C.WellFormed, GetFirst, HeadFail, FixedLen, CheckAux, TestFor;
      var Choice(p1, p2) := t;
      if TestDecides(G, p1, SecondFirst(G, p2, fl)) {
        CodeTestedChoice(G, t, opt, fl, tt);
      } else if opt && p2.True? {
        ghost var before := code;
        ShapeOptChoice(G, p1, tt, fl);
        var pc := AddInstruction(IPartialCommit(0));
        JumpToHere(pc);
        CodeGen(G, p1, true, NOINST, Full());
        Assoc4(before, [IPartialCommit(1)], Gen(G, p1, true, NoTest, Full()), []);
      } else {
        CodePlainChoice(G, t, opt, fl, tt);
      }
    }

    /** First case of `codechoice`: a `TestedBlock`. */
    method CodeTestedChoice(G: seq<Tree>, t: Tree, opt: bool, fl: CharSet, ghost tt: Test)
      requires t.Choice? && C.WellFormed(t.p1, |G|) && C.WellFormed(t.p2, |G|)
      requires TestDecides(G, t.p1, SecondFirst(G, t.p2, fl))
      modifies this
      ensures code == old(code) + Gen(G, t, opt, tt, fl)
      decreases t, 0, 0
    {
      hide Gen, C.WellFormed, GetFirst, HeadFail, FixedLen, CheckAux, TestFor, TestDecides, TestCode;
      var Choice(p1, p2) := t;
      ghost var before, tc := code, DecidingTest(G, p1);
      ghost var c1, c2 := Gen(G, p1, false, tc, fl), Gen(G, p2, opt, NoTest, fl);
      ShapeTestedChoice(G, p1, p2, opt, tt, fl);
      var test := CodeTestSet(GetFirst(G, MAX_CALLS, p1, Full()).cs, false);
      var jmp := NOINST;
      TestPlaced(before, tc);
      CodeGen(G, p1, false, test, fl);
      if !p2.True? {
        jmp := AddInstruction(IJmp(0));
      }
      ghost var j0 := if p2.True? then [] else [IJmp(0)];
      ghost var tcode := TestCode(tc, 1 + |c1| + |j0|);
      Assoc4(before + TestCode(tc, 0), c1, j0, []);
      NoMore(before + TestCode(tc, 0) + c1);
      CloseTest(before, tc, c1 + j0, test);
      ghost var mid := before + tcode + c1;
      TestSize(tc, 1 + |c1| + |j0|);
      Assoc4(before + tcode, c1, j0, []);
      CodeGen(G, p2, opt, NOINST, fl);
      if !p2.True? {
        PatchHere(jmp, mid, IJmp(0), c2);
        Assoc5(before, tcode, c1, [IJmp(1 + |c2|)], c2);
      } else {
        Assoc5(before, tcode, c1, [], c2);
        NoMore(mid);
      }
    }

    /** Last case of `codechoice`: a `ChoiceBlock`. */
    method CodePlainChoice(G: seq<Tree>, t: Tree, opt: bool, fl: CharSet, ghost tt: Test)
      requires t.Choice? && C.WellFormed(t.p1, |G|) && C.WellFormed(t.p2, |G|)
      requires !TestDecides(G, t.p1, SecondFirst(G, t.p2, fl)) && !(opt && t.p2.True?)
      modifies this
      ensures code == old(code) + Gen(G, t, opt, tt, fl)
      decreases t, 0, 0
    {
      hide Gen, C.WellFormed, GetFirst, HeadFail, FixedLen, CheckAux, TestFor, TestDecides, TestCode;
      var Choice(p1, p2) := t;
      ghost var before, tc := code, EntryTest(G, p1);
      ghost var c1, c2 := Gen(G, p1, p2.True?, tc, Full()), Gen(G, p2, opt, NoTest, fl);
      ghost var choice := [IChoice(2 + |c1|)];
      ShapePlainChoice(G, p1, p2, opt, tt, fl);
      var f1 := GetFirst(G, MAX_CALLS, p1, Full());
      var test := CodeTestSet(f1.cs, f1.empty);
      ghost var b1 := code;
      var pchoice := AddInstruction(IChoice(0));
      TestPlaced(before, tc);
      assert TestAt(code, test) == tc;
      CodeGen(G, p1, p2.True?, test, Full());
      var pcommit := AddInstruction(ICommit(0));
      Assoc4(b1, [IChoice(0)], c1, [ICommit(0)]);
      PatchHere(pchoice, b1, IChoice(0), c1 + [ICommit(0)]);
      CloseBlock(before, tc, IChoice(2 + |c1|), c1, ICommit(0), test);
      ghost var tcode := TestCode(tc, 3 + |c1|);
      ghost var mid := before + tcode + choice + c1;
      TestSize(tc, 3 + |c1|);
      Assoc5(before, tcode, choice, c1, [ICommit(0)]);
      CodeGen(G, p2, opt, NOINST, fl);
      PatchHere(pcommit, mid, ICommit(0), c2);
      Outer(before, tcode, choice, c1, [ICommit(1 + |c2|)], c2);
    }

    /** `coderep` with `coderepcharset`. */
    method CodeRep(G: seq<Tree>, t: Tree, opt: bool, fl: CharSet, ghost tt: Test)
      requires t.Rep? && C.WellFormed(t.p, |G|)
      modifies this
      ensures code == old(code) + Gen(G, t, opt, tt, fl)
      decreases t, 0
    {
      hide Gen, C.WellFormed, GetFirst, HeadFail, FixedLen, CheckAux, TestFor;
      if OneChar(t.p) {
        CodeCharRep(G, t, opt, fl, tt);
      } else if TestDecides(G, t.p, fl) {
        CodeTestedLoop(G, t, opt, fl, tt);
      } else {
        CodePlainLoop(G, t, opt, fl, tt);
      }
    }

    method CodeCharRep(G: seq<Tree>, t: Tree, opt: bool, fl: CharSet, ghost tt: Test)
      requires t.Rep? && OneChar(t.p)
      modifies this
      ensures code == old(code) + Gen(G, t, opt, tt, fl)
    {
      hide Gen;
      var p := t.p;
      ghost var before := code;
      ShapeCharRep(G, p, opt, tt, fl);
      match p {
        case False =>
          assert code + [] == code;
        case Any =>
          var test := AddInstruction(ITestAny(0));
          var _ := AddInstruction(IAny);
          CloseLoop(test);
          assert code == before + [ITestAny(3), IAny, IJmp(-2)];
        case Char(c) =>
          var test := AddInstruction(ITestChar(c, 0));
          var _ := AddInstruction(IAny);
          CloseLoop(test);
          assert code == before + [ITestChar(c, 3), IAny, IJmp(-2)];
        case Set(cs) =>
          var _ := AddInstruction(ISpan(cs));
      }
    }

    /** The loop of `coderep` without choice point: a `TestedLoopBlock`. */
    method CodeTestedLoop(G: seq<Tree>, t: Tree, opt: bool, fl: CharSet, ghost tt: Test)
      requires t.Rep? && !OneChar(t.p) && C.WellFormed(t.p, |G|) && TestDecides(G, t.p, fl)
      modifies this
      ensures code == old(code) + Gen(G, t, opt, tt, fl)
      decreases t, 0, 0
    {
      hide Gen, C.WellFormed, GetFirst, HeadFail, FixedLen, CheckAux, TestFor, TestDecides;
      ghost var before, tc := code, DecidingTest(G, t.p);
      ghost var c := Gen(G, t.p, false, tc, Full());
      ShapeTestedLoop(G, t.p, opt, tt, fl);
      var test := CodeTestSet(GetFirst(G, MAX_CALLS, t.p, Full()).cs, false);
      TestPlaced(before, tc);
      CodeGen(G, t.p, false, test, Full());
      ghost var x0 := TestCode(tc, 0)[0];
      assert TestCode(tc, 0) == [x0];
      ghost var y := P.WithOffset(x0, 2 + |c|);
      assert TestCode(tc, 2 + |c|) == [y];
      Assoc4(before, [x0], c, [IJmp(-1 - |c|)]);
      assert code[test] == x0;
      CloseLoop(test);
      Patched(before, x0, c + [IJmp(-1 - |c|)], y);
      Assoc4(before, [y], c, [IJmp(-1 - |c|)]);
    }

    /** The loop of `coderep` under a choice point: a `LoopBlock`. */
    method CodePlainLoop(G: seq<Tree>, t: Tree, opt: bool, fl: CharSet, ghost tt: Test)
      requires t.Rep? && !OneChar(t.p) && C.WellFormed(t.p, |G|) && !TestDecides(G, t.p, fl)
      modifies this
      ensures code == old(code) + Gen(G, t, opt, tt, fl)
      decreases t, 0, 0
    {
      hide Gen, C.WellFormed, GetFirst, HeadFail, FixedLen, CheckAux, TestFor, TestDecides, TestCode;
      var p := t.p;
      ghost var before, tc := code, EntryTest(G, p);
      ghost var c := Gen(G, p, false, NoTest, Full());
      ghost var e1 := Enter(opt, |c|);
      ShapePlainLoop(G, p, opt, tt, fl);
      var f := GetFirst(G, MAX_CALLS, p, Full());
      var test := CodeTestSet(f.cs, f.empty);
      ghost var b1 := code;
      var pchoice := NOINST;
      if opt {
        var pc := AddInstruction(IPartialCommit(0));
        JumpToHere(pc);
      } else {
        pchoice := AddInstruction(IChoice(0));
      }
      ghost var e0 := if opt then IPartialCommit(1) else IChoice(0);
      assert code == b1 + [e0];
      var l2 := |code|;
      CodeGen(G, p, false, NOINST, Full());
      var commit := AddInstruction(IPartialCommit(0));
      JumpToThere(commit, l2);
      Patched(b1 + [e0] + c, IPartialCommit(0), [], IPartialCommit(-|c|));
      Assoc4(b1, [e0], c, [IPartialCommit(-|c|)]);
      assert code == b1 + [e0] + (c + [IPartialCommit(-|c|)]);
      if !opt { PatchHere(pchoice, b1, e0, c + [IPartialCommit(-|c|)]); }
      CloseBlock(before, tc, e1, c, IPartialCommit(-|c|), test);
    }

    /** Patch the test in front of an instruction, a block and an instruction. */
    method CloseBlock(ghost before: Code, ghost tc: Test, ghost x: Instr, ghost c: Code, ghost y: Instr, test: int)
      requires code == before + TestCode(tc, 0) + [x] + (c + [y])
      requires if tc.NoTest? then test == NOINST else test == |before|
      modifies this
      ensures code == before + (TestCode(tc, 3 + |c|) + [x] + c + [y])
    {
      ghost var body := [x] + (c + [y]);
      Assoc4(before + TestCode(tc, 0), [x], c + [y], []);
      CloseTest(before, tc, body, test);
      ghost var off := TestLen(tc) + |body|;
      assert TestCode(tc, off) == TestCode(tc, 3 + |c|);
      Inner(before, TestCode(tc, off), [x], c, [y]);
      Assoc5(before, TestCode(tc, off), [x], c, [y]);
    }

    /** `closeloop`: jump back to the test and let the test leave the loop. */
    method CloseLoop(test: int)
      requires 0 <= test < |code| && P.Labelled(code[test])
      modifies this
      ensures var n := |old(code)|;
              code == (old(code) + [IJmp(test - n)])[test := P.WithOffset(old(code)[test], n + 1 - test)]
    {
      var jmp := AddInstruction(IJmp(0));
      JumpToHere(test);
      JumpToThere(jmp, test);
    }

    /** `codenot`. */
    method CodeNot(G: seq<Tree>, t: Tree, opt: bool, fl: CharSet, ghost tt: Test)
      requires t.Not? && C.WellFormed(t.p, |G|)
      modifies this
      ensures code == old(code) + Gen(G, t, opt, tt, fl)
      decreases t, 0
    {
      hide Gen, C.WellFormed, GetFirst, HeadFail, FixedLen, CheckAux, TestFor;
      var p := t.p;
      ghost var before, tc := code, EntryTest(G, p);
      var f := GetFirst(G, MAX_CALLS, p, Full());
      var test := CodeTestSet(f.cs, f.empty);
      ghost var b1 := code;
      if HeadFail(G, MAX_CALLS, p) {
        ShapeHeadNot(G, p, opt, tt, fl);
        var _ := AddInstruction(IFail);
        CloseTest(before, tc, [IFail], test);
        Assoc4(before, TestCode(tc, 2), [IFail], []);
      } else {
        ShapeNot(G, p, opt, tt, fl);
        var pchoice := AddInstruction(IChoice(0));
        CodeGen(G, p, false, NOINST, Full());
        ghost var c := Gen(G, p, false, NoTest, Full());
        var _ := AddInstruction(IFailTwice);
        Assoc4(b1, [IChoice(0)], c, [IFailTwice]);
        PatchHere(pchoice, b1, IChoice(0), c + [IFailTwice]);
        CloseBlock(before, tc, IChoice(2 + |c|), c, IFailTwice, test);
      }
    }

    /** `codeand`. */
    method CodeAnd(G: seq<Tree>, t: Tree, opt: bool, tt: int, fl: CharSet)
      requires t.And? && tt < |code| && C.WellFormed(t.p, |G|)
      modifies this
      ensures code == old(code) + Gen(G, t, opt, TestAt(old(code), tt), fl)
      decreases t, 0
    {
      hide Gen, C.WellFormed, GetFirst, HeadFail, FixedLen, CheckAux, TestFor;
      var p := t.p;
      ghost var before, test := code, TestAt(code, tt);
      ghost var c := Gen(G, p, false, test, Full());
      ShapeAnd(G, p, opt, test, fl);
      var n := FixedLen(G, MAX_CALLS, p);
      if WalksBack(n) {
        CodeGen(G, p, false, tt, Full());
        if n > 0 { var _ := AddInstruction(IBehind(n)); }
        Assoc4(before, c, Back(n), []);
        assert code == before + c + Back(n);
      } else {
        var pchoice := AddInstruction(IChoice(0));
        assert tt >= 0 ==> code[tt] == before[tt];
        CodeGen(G, p, false, tt, Full());
        var pcommit := AddInstruction(IBackCommit(0));
        Assoc4(before, [IChoice(0)], c, [IBackCommit(0)]);
        PatchHere(pchoice, before, IChoice(0), c + [IBackCommit(0)]);
        var _ := AddInstruction(IFail);
        ghost var mid := before + [IChoice(2 + |c|)] + c;
        Assoc4(before, [IChoice(2 + |c|)], c, [IBackCommit(0)]);
        PatchHere(pcommit, mid, IBackCommit(0), [IFail]);
        assert code == mid + [IBackCommit(2)] + [IFail];
        assert [IBackCommit(2), IFail] == [IBackCommit(2)] + [IFail];
        Assoc4(before, [IChoice(2 + |c|)], c, [IBackCommit(2), IFail]);
        Assoc4(mid, [IBackCommit(2)], [IFail], []);
      }
    }

    /** `codegrammar`. */
    method CodeGrammar(G: seq<Tree>, rs: seq<Tree>, opt: bool, fl: CharSet, ghost tt: Test)
      requires |rs| > 0 && C.AllWellFormed(rs)
      modifies this
      ensures code == old(code) + Gen(G, Grammar(rs), opt, tt, fl)
      decreases Grammar(rs), 0
    {
      hide Gen, C.WellFormed, GenRules, Positions, CorrectCalls;
      ghost var before := code;
      var firstcall := AddInstruction(ICall(0));
      var jumptoend := AddInstruction(IJmp(0));
      var start := |code|;
      JumpToHere(firstcall);
      assert code == before + [ICall(2), IJmp(0)];
      var positions := CodeRules(rs, start);
      ghost var body := GenRules(rs, rs);
      Assoc4(before, [ICall(2)], [IJmp(0)], body);
      assert before + [ICall(2), IJmp(0)] == before + [ICall(2)] + [IJmp(0)];
      PatchHere(jumptoend, before + [ICall(2)], IJmp(0), body);
      ghost var head := before + [ICall(2), IJmp(1 + |body|)];
      assert head == before + [ICall(2)] + [IJmp(1 + |body|)];
      C.GenRulesCalls(rs, rs, |rs|);
      CorrectCallsFrom(head, body, positions, start);
      ShapeGrammar(G, rs, opt, tt, fl);
      Assoc4(before, [ICall(2), IJmp(1 + |body|)], CorrectCalls(body, Positions(rs, rs, 0), 0), []);
    }

    /** The loop of `codegrammar` over the rules; `positions` collects where each starts. */
    method CodeRules(rs: seq<Tree>, start: nat) returns (positions: seq<nat>)
      requires C.AllWellFormed(rs) && start == |code|
      modifies this
      ensures code == old(code) + GenRules(rs, rs)
      ensures |positions| == |rs| && forall k | 0 <= k < |positions| :: start <= positions[k]
      ensures Rebased(positions, start) == Positions(rs, rs, 0)
      decreases Grammar(rs), 0, 0
    {
      hide Gen, C.WellFormed, GenRules, Positions;
      ghost var before := code;
      positions := [];
      var k := 0;
      NoRules(rs);
      while k < |rs|
        invariant 0 <= k <= |rs| && |positions| == k
        invariant code == before + GenRules(rs, rs[..k])
        invariant forall j | 0 <= j < k :: positions[j] == start + Positions(rs, rs[..k], 0)[j]
      {
        positions := positions + [|code|];
        assert C.WellFormed(rs[k], |rs|);
        CodeGen(rs, rs[k], false, NOINST, Full());
        var _ := AddInstruction(IRet);
        RulesGrow(rs, rs, k, 0);
        k := k + 1;
      }
      assert rs[..k] == rs;
    }

    /** `correctcalls` on the instructions from `from` to the end. */
    method CorrectCallsFrom(ghost head: Code, ghost body: Code, positions: seq<nat>, from: nat)
      requires code == head + body && from == |head|
      requires forall k | 0 <= k < |positions| :: from <= positions[k]
      requires C.CallsBelow(body, |positions|)
      modifies this
      ensures code == head + CorrectCalls(body, Rebased(positions, from), 0)
    {
      ghost var rel := Rebased(positions, from);
      var i := from;
      ghost var cur := body;
      while i < |code|
        invariant from <= i <= |code| && |code| == |head| + |body|
        invariant |cur| == |body| && code == head + cur
        invariant C.CallsBelow(cur, |positions|)
        invariant CorrectCalls(body, rel, 0) == CorrectCalls(cur, rel, i - from)
      {
        assert code[i] == cur[i - from];
        if code[i].IOpenCall? {
          assert cur[i - from] in cur;
          var rule := positions[code[i].k];
          var ft := TargetWithin(from, i + 1);
          Tail(head, cur);
          var x := if ft < |code| && ft >= from && code[ft].IRet? then IJmp(rule - i) else ICall(rule - i);
          assert rel[cur[i - from].k] - (i - from) == rule - i;
          code := code[i := x];
          ghost var next := cur[i - from := x];
          assert code == head + next;
          forall y | y in next && y.IOpenCall? ensures y.k < |positions| {
            var q :| 0 <= q < |next| && next[q] == y;
            assert q != i - from && cur[q] in cur;
          }
          cur := next;
        }
        i := i + 1;
      }
    }

    /** `finaltarget` among the instructions from `from` on; the code after `from` never jumps out of them. */
    method TargetWithin(from: nat, i: int) returns (ft: int)
      requires from <= |code|
      ensures ft == from + FinalTarget(code[from..], i - from, |code| - from)
    {
      ft := i;
      var fuel := |code| - from;
      while fuel > 0 && from <= ft < |code| && code[ft].IJmp?
        invariant 0 <= fuel
        invariant FinalTarget(code[from..], i - from, |code| - from) == FinalTarget(code[from..], ft - from, fuel)
        decreases fuel
      {
        ft, fuel := ft + code[ft].off, fuel - 1;
      }
    }

    /** `peephole`. */
    method Peephole()
      requires J.AllStop(code, 0, |code| - 1)
      modifies this
      ensures code == P.Peephole(old(code))
    {
      ghost var was := code;
      P.RefinesSelf(code);
      var i := 0;
      while i < |code|
        invariant 0 <= i <= |code| == |was|
        invariant P.Refines(was, code)
        invariant P.Peephole(was) == P.Optimise(code, i)
      {
        var x := OptimiseAt(i, was);
        P.OptimisedStands(code, i);
        P.StandsBack(was, code, i, x);
        ghost var cur := code;
        code := code[i := x];
        forall p | 0 <= p < |was| ensures P.Stands(was, p, code[p]) {
          if p != i { assert code[p] == cur[p]; }
        }
        i := i + 1;
      }
    }

    /** What `peephole` makes of instruction `i`. */
    method OptimiseAt(i: nat, ghost was: Code) returns (x: Instr)
      requires i < |code| && P.Refines(was, code) && J.AllStop(was, 0, |was| - 1)
      ensures x == P.Optimised(code, i)
    {
      x := code[i];
      if x.IJmp? {
        var ft := FinalTargetOf(code, i, was);
        if 0 <= ft < |code| {
          var y := code[ft];
          if y.IRet? || y.IFail? || y.IFailTwice? || y.IEnd? {
            x := y;
          } else if P.IsCommit(y) {
            x := P.MovedCommit(code, i, ft);
          } else {
            x := P.WithOffset(x, ft - i);
          }
        } else {
          x := P.WithOffset(x, ft - i);
        }
      } else if P.Labelled(x) {
        x := P.WithOffset(x, P.FinalLabel(code, i) - i);
      }
    }
  }

  /** `finaltarget`, the unbounded loop: it ends because the code refines one whose jumps do. */
  method FinalTargetOf(code: Code, i: nat, ghost was: Code) returns (ft: int)
    requires i < |code| && P.Refines(was, code) && J.AllStop(was, 0, |was| - 1)
    ensures ft == FinalTarget(code, i, |code|) && !J.IsJump(code, ft)
  {
    assert J.Stops(was, i);
    ghost var q: int, n: nat :| C.JumpChain(was, i, q, n) && !J.IsJump(was, q);
    J.RefinedStops(was, code, i, q, n);
    J.FinalTargetStops(code, i);
    ghost var e: int, m: nat :| C.JumpChain(code, i, e, m) && !J.IsJump(code, e);
    ft := i;
    J.ChainShort(code, i, e, m, {});
    J.TargetIsEnd(code, i, e, m, |code|);
    while 0 <= ft < |code| && code[ft].IJmp?
      invariant C.JumpChain(code, ft, e, m)
      decreases m
    {
      ft := ft + code[ft].off;
      m := m - 1;
    }
  }

  function Rebased(positions: seq<nat>, from: nat): (rel: seq<nat>)
    requires forall k | 0 <= k < |positions| :: from <= positions[k]
    ensures |rel| == |positions| && forall k | 0 <= k < |positions| :: rel[k] == positions[k] - from
  {
    seq(|positions|, k requires 0 <= k < |positions| => positions[k] - from)
  }

  lemma Tail(head: Code, cur: Code)
    ensures (head + cur)[|head|..] == cur
  {
  }

  lemma NoRules(rs: seq<Tree>)
    ensures GenRules(rs, rs[..0]) == [] && Positions(rs, rs[..0], 0) == []
  {
    assert rs[..0] == [];
  }

  /** The test just placed is the one its index names. */
  lemma TestPlaced(before: Code, tc: Test)
    ensures !tc.NoTest? ==>
              && TestLen(tc) == |TestCode(tc, 0)| == 1
              && TestAt(before + TestCode(tc, 0), |before|) == tc
              && forall x :: TestAt(before + TestCode(tc, 0) + [x], |before|) == tc
  {
  }

  /** One more rule at the end. */
  lemma {:induction false} RulesGrow(G: seq<Tree>, rs: seq<Tree>, k: nat, start: nat)
    requires k < |rs|
    ensures GenRules(G, rs[..k + 1]) == GenRules(G, rs[..k]) + Gen(G, rs[k], false, NoTest, Full()) + [IRet]
    ensures Positions(G, rs[..k + 1], start) == Positions(G, rs[..k], start) + [start + |GenRules(G, rs[..k])|]
  {
    hide Gen, GenRules, Positions;
    assert rs[..k + 1] == rs[..k] + [rs[k]];
    RulesAppend(G, rs[..k], rs[k], start);
  }

  lemma {:induction false} RulesAppend(G: seq<Tree>, rs: seq<Tree>, t: Tree, start: nat)
    ensures GenRules(G, rs + [t]) == GenRules(G, rs) + Gen(G, t, false, NoTest, Full()) + [IRet]
    ensures Positions(G, rs + [t], start) == Positions(G, rs, start) + [start + |GenRules(G, rs)|]
    decreases |rs|
  {
    hide Gen, GenRules, Positions;
    var c := Gen(G, t, false, NoTest, Full());
    ShapeRules(G, rs + [t], start);
    if rs == [] {
      NoRulesFrom(G, start + |c| + 1);
      NoRulesFrom(G, start);
      assert rs + [t] == [t] && [t][1..] == [];
      assert [] + c + [IRet] == c + [IRet] == c + [IRet] + [];
    } else {
      var c0 := Gen(G, rs[0], false, NoTest, Full());
      ShapeRules(G, rs, start);
      RulesAppend(G, rs[1..], t, start + |c0| + 1);
      assert (rs + [t])[1..] == rs[1..] + [t];
      Assoc4(c0 + [IRet], GenRules(G, rs[1..]), c, [IRet]);
    }
  }

  lemma NoRulesFrom(G: seq<Tree>, start: nat)
    ensures GenRules(G, []) == [] && Positions(G, [], start) == []
  {
  }

  /** `compile`. */
  method CompilePattern(t: Tree) returns (code: Code)
    requires V.Verified(t) && C.WellFormed(t, 0)
    ensures code == P.Compile(t)
  {
    hide Gen, C.WellFormed, V.Verified, J.AllStop;
    var cs := new CompileState();
    cs.CodeGen([], t, false, NOINST, Full());
    NoMore(Gen([], t, false, NoTest, Full()));
    var _ := cs.AddInstruction(IEnd);
    J.EmitStops(t);
    cs.Peephole();
    code := cs.code;
  }

  // The interpreter

  /** The stack as a list, top first. */
  function FromSeq(a: seq<Entry>): Stack {
    if a == [] then Bottom else Push(a[|a| - 1], FromSeq(a[..|a| - 1]))
  }

  lemma TopEntry(stack: seq<Entry>)
    ensures FromSeq(stack).Push? <==> stack != []
    ensures stack != [] ==> FromSeq(stack).e == stack[|stack| - 1]
  {
  }

  predicate OnStack(x: Instr) {
    x.IRet? || x.IChoice? || x.ICall? || x.ICommit? || x.IPartialCommit? || x.IBackCommit? || x.IFailTwice? || x.IFail?
  }

  /** The matching engine: program counter `p`, subject position `s`, and a stack that doubles when it is full. */
  class Engine {
    const code: Code
    const subject: Subject
    var p: int
    var s: nat
    var stack: array<Entry>
    var top: nat

    ghost predicate Valid()
      reads this, stack
    {
      top <= stack.Length && stack.Length > 0
    }

    ghost function Config(): State
      requires Valid()
      reads this, stack
    {
      Run(p, s, FromSeq(stack[..top]))
    }

    constructor (code: Code, subject: Subject, start: nat)
      ensures Valid() && fresh(stack) && this.code == code && this.subject == subject
      ensures Config() == Init(start)
    {
      this.code, this.subject, p, s := code, subject, 0, start;
      stack := new Entry[2](_ => Alt(GIVEUP, start));
      top := 1;
      new;
      assert stack[..1] == [Alt(GIVEUP, start)];
      assert FromSeq([Alt(GIVEUP, start)]) == Push(Alt(GIVEUP, start), FromSeq([]));
    }

    /** Add an entry, doubling the stack first when it is full (`doublestack`). */
    method PushEntry(e: Entry)
      requires Valid()
      modifies this`stack, this`top, stack
      ensures Valid() && (stack == old(stack) || fresh(stack))
      ensures FromSeq(stack[..top]) == Push(e, old(FromSeq(stack[..top])))
    {
      ghost var was := stack[..top];
      if top == stack.Length {
        var bigger := new Entry[2 * stack.Length](_ => e);
        forall k | 0 <= k < top { bigger[k] := stack[k]; }
        stack := bigger;
        assert stack[..top] == was;
      }
      stack[top] := e;
      top := top + 1;
      assert stack[..top] == was + [e];
      assert (was + [e])[..|was|] == was;
    }

    /** Drop the top entry. */
    method Pop() returns (e: Entry)
      requires Valid() && top > 0
      modifies this`top
      ensures Valid() && top == old(top) - 1
      ensures old(FromSeq(stack[..top])) == Push(e, FromSeq(stack[..top]))
    {
      ghost var was := stack[..top];
      top := top - 1;
      e := stack[top];
      assert was[..|was| - 1] == stack[..top];
    }

    /** `fail`: drop pending calls and resume the last choice. */
    method Backtrack()
      requires Valid() && Unwind(FromSeq(stack[..top])).Run?
      modifies this`top, this`p, this`s
      ensures Valid() && Config() == Unwind(old(FromSeq(stack[..top])))
    {
      var e := Pop();
      while e.Return?
        invariant Valid()
        invariant Unwind(Push(e, FromSeq(stack[..top]))) == Unwind(old(FromSeq(stack[..top])))
        decreases top
      {
        e := Pop();
      }
      p, s := e.pc, e.pos;
    }

    /** One round of the interpreter loop that does not end the match. */
    method Round()
      requires Valid() && 0 <= p < |code| && !code[p].IEnd?
      requires Exec(code[p], subject, p, s, FromSeq(stack[..top])).Run?
      modifies this, stack
      ensures Valid() && (stack == old(stack) || fresh(stack))
      ensures Config() == old(Exec(code[p], subject, p, s, FromSeq(stack[..top])))
    {
      if OnStack(code[p]) {
        StackRound();
        return;
      }
      match code[p] {
        case IAny => if s < |subject| { p, s := p + 1, s + 1; } else { Backtrack(); }
        case IChar(c) => if s < |subject| && subject[s] == c { p, s := p + 1, s + 1; } else { Backtrack(); }
        case ISet(cs) => if s < |subject| && subject[s] in cs { p, s := p + 1, s + 1; } else { Backtrack(); }
        case ITestAny(off) => p := if s < |subject| then p + 1 else p + off;
        case ITestChar(c, off) => p := if s < |subject| && subject[s] == c then p + 1 else p + off;
        case ITestSet(cs, off) => p := if s < |subject| && subject[s] in cs then p + 1 else p + off;
        case ISpan(cs) => Span(cs);
        case IBehind(n) => if n > s { Backtrack(); } else { p, s := p + 1, s - n; }
        case IJmp(off) => p := p + off;
      }
    }

    /** The instructions that work on the stack. */
    method StackRound()
      requires Valid() && 0 <= p < |code| && OnStack(code[p])
      requires Exec(code[p], subject, p, s, FromSeq(stack[..top])).Run?
      modifies this, stack
      ensures Valid() && (stack == old(stack) || fresh(stack))
      ensures Config() == old(Exec(code[p], subject, p, s, FromSeq(stack[..top])))
    {
      hide Unwind, SpanEnd, FromSeq;
      TopEntry(stack[..top]);
      match code[p] {
        case IRet =>
          var e := Pop();
          p := e.pc;
        case IChoice(off) =>
          PushEntry(Alt(p + off, s));
          p := p + 1;
        case ICall(off) =>
          PushEntry(Return(p + 1));
          p := p + off;
        case ICommit(off) =>
          var _ := Pop();
          p := p + off;
        case IPartialCommit(off) => UpdateChoice(off);
        case IBackCommit(off) =>
          var e := Pop();
          p, s := p + off, e.pos;
        case IFailTwice =>
          var _ := Pop();
          Backtrack();
        case IFail => Backtrack();
      }
    }

    /** IPartialCommit: move the top choice to the current position. */
    method UpdateChoice(off: int)
      requires Valid() && top > 0 && stack[top - 1].Alt?
      modifies this`p, stack
      ensures Valid() && p == old(p) + off
      ensures FromSeq(stack[..top]) == old(Push(Alt(stack[top - 1].pc, s), FromSeq(stack[..top]).rest))
    {
      ghost var was := stack[..top];
      stack[top - 1] := Alt(stack[top - 1].pc, s);
      p := p + off;
      assert stack[..top][..top - 1] == was[..top - 1];
    }

    /** The loop of ISpan. */
    method Span(cs: CharSet)
      modifies this`p, this`s
      ensures p == old(p) + 1 && s == SpanEnd(subject, cs, old(s))
    {
      while s < |subject| && subject[s] in cs
        invariant p == old(p) && SpanEnd(subject, cs, s) == SpanEnd(subject, cs, old(s))
        decreases |subject| - s
      {
        s := s + 1;
      }
      p := p + 1;
    }

    /** The loop of `match`, for a run known to end. */
    method Loop(ghost steps: nat, ghost R: Result) returns (r: Result)
      requires Valid() && StepN(code, subject, Config(), steps) == Done(R)
      modifies this, stack
      ensures r == R
    {
      ghost var n := steps;
      while !(p == GIVEUP || (0 <= p < |code| && code[p].IEnd?))
        invariant Valid() && (stack == old(stack) || fresh(stack))
        invariant StepN(code, subject, Config(), n) == Done(R)
        decreases n
      {
        ghost var next := Step(code, subject, Config());
        if !next.Run? { DoneStays(code, subject, next, n - 1); }
        Round();
        n := n - 1;
      }
      DoneStays(code, subject, Step(code, subject, Config()), n - 1);
      r := if p == GIVEUP then Fail else Ok(s);
    }
  }

  /** `lp_match` on a pattern the constructors accept: compile, run, and report the outcome of direct matching. */
  method MatchPattern(t: Tree, subject: Subject, start: nat) returns (r: Result)
    requires V.Verified(t) && C.WellFormed(t, 0) && start <= |subject|
    ensures r != OutOfFuel && exists fuel: nat :: Match([], t, subject, start, fuel) == r
    ensures forall fuel: nat :: Match([], t, subject, start, fuel) != OutOfFuel ==>
                                Match([], t, subject, start, fuel) == r
  {
    var code := CompilePattern(t);
    ghost var R := V.VerifiedCompiles(t, subject, start);
    assert Halts(code, subject, Init(start), R);
    ghost var steps: nat :| StepN(code, subject, Init(start), steps) == Done(R);
    var engine := new Engine(code, subject, start);
    r := engine.Loop(steps, R);
  }
}
