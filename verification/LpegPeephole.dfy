/** Jump optimisation (`peephole` in lpcode.c) leaves the result of every run unchanged. */
module LpegPeephole {
  import opened LpegTree
  import opened LpegVm
  import opened LpegCode
  import C = LpegCorrect

  /** Does the instruction hold a label? */
  predicate Labelled(x: Instr) {
    x.IChoice? || x.ICall? || x.ICommit? || x.IPartialCommit? || x.IBackCommit?
    || x.ITestAny? || x.ITestChar? || x.ITestSet? || x.IJmp?
  }

  function Offset(x: Instr): int
    requires Labelled(x)
  {
    x.off
  }

  /** `jumptothere`: the instruction with its label moved. */
  function WithOffset(x: Instr, off: int): Instr
    requires Labelled(x)
  {
    x.(off := off)
  }

  /** `finallabel`. */
  function FinalLabel(code: Code, i: int): int
    requires 0 <= i < |code| && Labelled(code[i])
  {
    FinalTarget(code, i + Offset(code[i]), |code|)
  }

  predicate IsCommit(x: Instr) {
    x.ICommit? || x.IPartialCommit? || x.IBackCommit?
  }

  /** The commit at `ft` put at `i`, with its label optimised again in the new code. */
  function MovedCommit(code: Code, i: nat, ft: nat): Instr
    requires i < |code| && ft < |code| && IsCommit(code[ft])
  {
    var y := WithOffset(code[ft], FinalLabel(code, ft) - i);
    WithOffset(y, FinalLabel(code[i := y], i) - i)
  }

  /** What `peephole` puts at position `i`. A jump to a commit becomes that commit, whose label is optimised in turn. */
  function Optimised(code: Code, i: nat): Instr
    requires i < |code|
  {
    var x := code[i];
    if x.IJmp? then
      var ft := FinalTarget(code, i, |code|);
      if !(0 <= ft < |code|) then WithOffset(x, ft - i)
      else match code[ft]
           case IRet => IRet
           case IFail => IFail
           case IFailTwice => IFailTwice
           case IEnd => IEnd
           case ICommit(_) => MovedCommit(code, i, ft)
           case IPartialCommit(_) => MovedCommit(code, i, ft)
           case IBackCommit(_) => MovedCommit(code, i, ft)
           case _ => WithOffset(x, ft - i)
    else if Labelled(x) then WithOffset(x, FinalLabel(code, i) - i)
    else x
  }

  /** The loop of `peephole` from position `i` on. */
  function Optimise(code: Code, i: nat): (r: Code)
    ensures |r| == |code|
    decreases |code| - i
  {
    if i >= |code| then code else Optimise(code[i := Optimised(code, i)], i + 1)
  }

  function Peephole(code: Code): Code {
    Optimise(code, 0)
  }

  /** Jumps of `code` lead from `p` to `q`. */
  ghost predicate Leads(code: Code, p: int, q: int) {
    exists n: nat :: C.JumpChain(code, p, q, n)
  }

  /** Instructions that never go on with the next one. */
  predicate NeverFallsThrough(x: Instr) {
    x.IJmp? || x.IRet? || x.IEnd? || x.IFail? || x.IFailTwice? || IsCommit(x)
  }

  /** Same instruction up to its label. */
  predicate SameOp(x: Instr, y: Instr) {
    if Labelled(x) && Labelled(y) then x == WithOffset(y, Offset(x)) else x == y
  }

  /** Executing `x` at `p` amounts to running `code` from `p`: jumps lead to an instruction like `x`, whose label
      leads to the label of `x`. */
  ghost predicate Stands(code: Code, p: int, x: Instr) {
    exists q: int :: StandsAt(code, p, x, q)
  }

  ghost predicate StandsAt(code: Code, p: int, x: Instr, q: int) {
    && Leads(code, p, q) && 0 <= q < |code| && SameOp(x, code[q])
    && (p == q || NeverFallsThrough(x))
    && (Labelled(x) ==> Leads(code, q + Offset(code[q]), p + Offset(x)))
  }

  /** `opt` may replace `code`. */
  ghost predicate Refines(code: Code, opt: Code) {
    |opt| == |code| && forall p | 0 <= p < |code| :: Stands(code, p, opt[p])
  }

  // Jump chains

  lemma LeadsSelf(code: Code, p: int)
    ensures Leads(code, p, p)
  {
    assert C.JumpChain(code, p, p, 0);
  }

  lemma {:induction false} ChainTrans(code: Code, p: int, q: int, r: int, n: nat, m: nat)
    requires C.JumpChain(code, p, q, n) && C.JumpChain(code, q, r, m)
    ensures C.JumpChain(code, p, r, n + m)
    decreases n
  {
    if n > 0 { ChainTrans(code, p + code[p].off, q, r, n - 1, m); }
  }

  lemma LeadsTrans(code: Code, p: int, q: int, r: int)
    requires Leads(code, p, q) && Leads(code, q, r)
    ensures Leads(code, p, r)
  {
    var n: nat :| C.JumpChain(code, p, q, n);
    var m: nat :| C.JumpChain(code, q, r, m);
    ChainTrans(code, p, q, r, n, m);
  }

  lemma LeadsJump(code: Code, p: int)
    requires 0 <= p < |code| && code[p].IJmp?
    ensures Leads(code, p, p + code[p].off)
  {
    assert C.JumpChain(code, p + code[p].off, p + code[p].off, 0);
    assert C.JumpChain(code, p, p + code[p].off, 1);
  }

  /** A jump of the optimised code is a chain of jumps of the unoptimised code. */
  lemma {:induction false} ChainBack(code: Code, opt: Code, p: int, q: int, n: nat)
    requires Refines(code, opt) && C.JumpChain(opt, p, q, n)
    ensures Leads(code, p, q)
    decreases n
  {
    if n == 0 { LeadsSelf(code, p); }
    else {
      assert Stands(code, p, opt[p]);
      var q1: int :| StandsAt(code, p, opt[p], q1);
      assert code[q1].IJmp?;
      LeadsJump(code, q1);
      LeadsTrans(code, p, q1, q1 + code[q1].off);
      LeadsTrans(code, p, q1 + code[q1].off, p + opt[p].off);
      ChainBack(code, opt, p + opt[p].off, q, n - 1);
      LeadsTrans(code, p, p + opt[p].off, q);
    }
  }

  lemma FinalTargetLeads(code: Code, i: int)
    ensures Leads(code, i, FinalTarget(code, i, |code|))
  {
    var n := C.TargetChain(code, code, i, |code|);
  }

  // The loop keeps the relation

  lemma RefinesSelf(code: Code)
    ensures Refines(code, code)
  {
    forall p | 0 <= p < |code| ensures Stands(code, p, code[p]) {
      LeadsSelf(code, p);
      if Labelled(code[p]) { LeadsSelf(code, p + Offset(code[p])); }
      assert StandsAt(code, p, code[p], p);
    }
  }

  lemma LeadsBack(code: Code, opt: Code, p: int, q: int)
    requires Refines(code, opt) && Leads(opt, p, q)
    ensures Leads(code, p, q)
  {
    var n: nat :| C.JumpChain(opt, p, q, n);
    ChainBack(code, opt, p, q, n);
  }

  /** An instruction that stands for `q` in `opt` stands for it in `code`. */
  lemma StandsBack(code: Code, opt: Code, p: int, x: Instr)
    requires Refines(code, opt) && Stands(opt, p, x)
    ensures Stands(code, p, x)
  {
    hide Leads;
    var q: int :| StandsAt(opt, p, x, q);
    assert Stands(code, q, opt[q]);
    var q1: int :| StandsAt(code, q, opt[q], q1);
    LeadsBack(code, opt, p, q);
    LeadsTrans(code, p, q, q1);
    if Labelled(x) {
      LeadsBack(code, opt, q + Offset(opt[q]), p + Offset(x));
      LeadsTrans(code, q1 + Offset(code[q1]), q + Offset(opt[q]), p + Offset(x));
    }
    assert StandsAt(code, p, x, q1);
  }

  lemma OptimisedStands(code: Code, i: nat)
    requires i < |code|
    ensures Stands(code, i, Optimised(code, i))
  {
    var x := code[i];
    var y := Optimised(code, i);
    LeadsSelf(code, i);
    if x.IJmp? {
      var ft := FinalTarget(code, i, |code|);
      FinalTargetLeads(code, i);
      if 0 <= ft < |code| && IsCommit(code[ft]) {
        var l := FinalLabel(code, ft);
        var code1 := code[i := WithOffset(code[ft], l - i)];
        FinalTargetLeads(code, ft + Offset(code[ft]));
        var n := C.TargetChain(code1, code, l, |code|);
        LeadsTrans(code, ft + Offset(code[ft]), l, i + Offset(y));
        assert StandsAt(code, i, y, ft);
      } else if y.IJmp? {
        JumpsOn(code, i, |code|);
        assert StandsAt(code, i, y, i);
      } else {
        assert StandsAt(code, i, y, ft);
      }
    } else if Labelled(x) {
      FinalTargetLeads(code, i + Offset(x));
      assert StandsAt(code, i, y, i);
    } else {
      assert StandsAt(code, i, y, i);
    }
  }

  lemma JumpsOn(code: Code, i: int, fuel: nat)
    requires fuel > 0 && 0 <= i < |code| && code[i].IJmp?
    ensures Leads(code, i + code[i].off, FinalTarget(code, i, fuel))
  {
    var n := C.TargetChain(code, code, i + code[i].off, fuel - 1);
  }

  lemma {:induction false} OptimiseRefines(code: Code, cur: Code, i: nat)
    requires Refines(code, cur)
    ensures Refines(code, Optimise(cur, i))
    decreases |cur| - i
  {
    if i < |cur| {
      var next := cur[i := Optimised(cur, i)];
      OptimisedStands(cur, i);
      StandsBack(code, cur, i, next[i]);
      forall p | 0 <= p < |code| ensures Stands(code, p, next[p]) {
        if p != i { assert next[p] == cur[p]; }
      }
      OptimiseRefines(code, next, i + 1);
    }
  }

  // Runs

  /** The stacks agree up to jumps that the optimised code has already taken. */
  ghost predicate StackLeads(code: Code, a: Stack, b: Stack) {
    match (a, b)
    case (Bottom, Bottom) => true
    case (Push(Alt(p, i), r1), Push(Alt(q, j), r2)) => i == j && Leads(code, p, q) && StackLeads(code, r1, r2)
    case (Push(Return(p), r1), Push(Return(q), r2)) => Leads(code, p, q) && StackLeads(code, r1, r2)
    case _ => false
  }

  ghost predicate StateLeads(code: Code, a: State, b: State) {
    match (a, b)
    case (Run(p, i, s1), Run(q, j, s2)) => i == j && Leads(code, p, q) && StackLeads(code, s1, s2)
    case _ => a == b
  }

  lemma {:induction false} UnwindLeads(code: Code, a: Stack, b: Stack)
    requires StackLeads(code, a, b)
    ensures StateLeads(code, Unwind(a), Unwind(b))
    decreases a
  {
    if a.Push? && a.e.Return? { UnwindLeads(code, a.rest, b.rest); }
  }

  lemma {:induction false} StackLeadsSelf(code: Code, a: Stack)
    ensures StackLeads(code, a, a)
    decreases a
  {
    if a.Push? {
      LeadsSelf(code, a.e.pc);
      StackLeadsSelf(code, a.rest);
    }
  }

  /** One instruction keeps the relation. */
  lemma ExecLeads(code: Code, s: Subject, y: Instr, q: int, x: Instr, p: int, i: nat, a: Stack, b: Stack)
    requires StackLeads(code, a, b) && SameOp(x, y)
    requires p == q || NeverFallsThrough(x)
    requires Labelled(x) ==> Leads(code, q + Offset(y), p + Offset(x))
    ensures StateLeads(code, Exec(y, s, q, i, a), Exec(x, s, p, i, b))
  {
    hide Exec, Leads, Unwind;
    UnwindLeads(code, a, b);
    if NeverFallsThrough(x) {
      if a.Push? { UnwindLeads(code, a.rest, b.rest); }
      ExecLeaves(code, s, y, q, x, p, i, a, b);
    } else {
      LeadsSelf(code, p + 1);
      ExecFallsThrough(code, s, y, x, p, i, a, b);
    }
  }

  lemma ExecLeaves(code: Code, s: Subject, y: Instr, q: int, x: Instr, p: int, i: nat, a: Stack, b: Stack)
    requires StackLeads(code, a, b) && SameOp(x, y) && NeverFallsThrough(x)
    requires StateLeads(code, Unwind(a), Unwind(b))
    requires a.Push? ==> StateLeads(code, Unwind(a.rest), Unwind(b.rest))
    requires Labelled(x) ==> Leads(code, q + Offset(y), p + Offset(x))
    ensures StateLeads(code, Exec(y, s, q, i, a), Exec(x, s, p, i, b))
  {
    hide Leads, Unwind, SpanEnd;
  }

  lemma ExecFallsThrough(code: Code, s: Subject, y: Instr, x: Instr, p: int, i: nat, a: Stack, b: Stack)
    requires StackLeads(code, a, b) && SameOp(x, y) && !NeverFallsThrough(x)
    requires Leads(code, p + 1, p + 1) && StateLeads(code, Unwind(a), Unwind(b))
    requires Labelled(x) ==> Leads(code, p + Offset(y), p + Offset(x))
    ensures StateLeads(code, Exec(y, s, p, i, a), Exec(x, s, p, i, b))
  {
    hide Leads, Unwind, SpanEnd;
    if Labelled(x) { ExecLabelled(code, s, y, x, p, i, a, b); } else { ExecPlain(code, s, x, p, i, a, b); }
  }

  /** An instruction without a label goes on or fails. */
  lemma ExecPlain(code: Code, s: Subject, x: Instr, p: int, i: nat, a: Stack, b: Stack)
    requires StackLeads(code, a, b) && !Labelled(x) && !NeverFallsThrough(x)
    requires Leads(code, p + 1, p + 1) && StateLeads(code, Unwind(a), Unwind(b))
    ensures StateLeads(code, Exec(x, s, p, i, a), Exec(x, s, p, i, b))
  {
    hide Leads, Unwind, SpanEnd, StackLeads;
  }

  /** A test goes on or jumps, a choice and a call push where they would jump. */
  lemma ExecLabelled(code: Code, s: Subject, y: Instr, x: Instr, p: int, i: nat, a: Stack, b: Stack)
    requires StackLeads(code, a, b) && SameOp(x, y) && Labelled(x) && !NeverFallsThrough(x)
    requires Leads(code, p + 1, p + 1) && Leads(code, p + Offset(y), p + Offset(x))
    ensures StateLeads(code, Exec(y, s, p, i, a), Exec(x, s, p, i, b))
  {
    hide Leads, Unwind, SpanEnd;
  }

  /** A run that ends takes all the jumps ahead of it. */
  lemma {:induction false} TakeJumps(code: Code, s: Subject, p: int, q: int, k: nat, i: nat, stk: Stack, n: nat,
        R: Result)
    requires C.JumpChain(code, p, q, k) && StepN(code, s, Run(p, i, stk), n) == Done(R)
    ensures k < n && StepN(code, s, Run(q, i, stk), n - k) == Done(R)
    decreases k
  {
    assert n > 0;
    if k > 0 { TakeJumps(code, s, p + code[p].off, q, k - 1, i, stk, n - 1, R); }
  }

  /** Every run of the unoptimised code that ends, ends the same way in the optimised code. */
  lemma {:induction false} Forward(code: Code, opt: Code, s: Subject, a: State, b: State, n: nat, R: Result)
    requires Refines(code, opt) && StateLeads(code, a, b) && StepN(code, s, a, n) == Done(R)
    ensures Halts(opt, s, b, R)
    decreases n
  {
    if !a.Run? {
      DoneStays(code, s, a, n);
      HaltsDone(opt, s, R);
    } else {
      var q := b.pc;
      var k: nat :| C.JumpChain(code, a.pc, q, k);
      TakeJumps(code, s, a.pc, q, k, a.pos, a.stk, n, R);
      var a1 := Run(q, a.pos, a.stk);
      if q == GIVEUP || !(0 <= q < |code|) {
        DoneStays(code, s, Step(code, s, a1), n - k - 1);
        HaltsDone(opt, s, R);
      } else {
        var q1: int :| StandsAt(code, q, opt[q], q1);
        var k1: nat :| C.JumpChain(code, q, q1, k1);
        TakeJumps(code, s, q, q1, k1, a.pos, a.stk, n - k, R);
        ExecLeads(code, s, code[q1], q1, opt[q], q, a.pos, a.stk, b.stk);
        Forward(code, opt, s, Step(code, s, Run(q1, a.pos, a.stk)), Step(opt, s, b), n - k - k1 - 1, R);
      }
      HaltsStep(opt, s, b, R);
    }
  }

  /** Taking jumps does not change whether and how a run ends. */
  lemma {:induction false} HaltsJumps(code: Code, s: Subject, p: int, q: int, k: nat, i: nat, stk: Stack, R: Result)
    requires C.JumpChain(code, p, q, k)
    ensures Halts(code, s, Run(p, i, stk), R) <==> Halts(code, s, Run(q, i, stk), R)
    decreases k
  {
    if k > 0 {
      HaltsStep(code, s, Run(p, i, stk), R);
      HaltsJumps(code, s, p + code[p].off, q, k - 1, i, stk, R);
    }
  }

  /** Every run of the optimised code that ends, ends the same way in the unoptimised code. */
  lemma {:induction false} Backward(code: Code, opt: Code, s: Subject, a: State, b: State, n: nat, R: Result)
    requires Refines(code, opt) && StateLeads(code, a, b) && StepN(opt, s, b, n) == Done(R)
    ensures Halts(code, s, a, R)
    decreases n
  {
    if !b.Run? {
      DoneStays(opt, s, b, n);
      HaltsDone(code, s, R);
    } else {
      var q := b.pc;
      var a1 := Run(q, a.pos, a.stk);
      if q == GIVEUP || !(0 <= q < |code|) {
        DoneStays(opt, s, Step(opt, s, b), n - 1);
        HaltsDone(code, s, R);
        HaltsStep(code, s, a1, R);
      } else {
        var q1: int :| StandsAt(code, q, opt[q], q1);
        var a2 := Run(q1, a.pos, a.stk);
        ExecLeads(code, s, code[q1], q1, opt[q], q, a.pos, a.stk, b.stk);
        Backward(code, opt, s, Step(code, s, a2), Step(opt, s, b), n - 1, R);
        HaltsStep(code, s, a2, R);
        var k1: nat :| C.JumpChain(code, q, q1, k1);
        HaltsJumps(code, s, q, q1, k1, a.pos, a.stk, R);
      }
      var k: nat :| C.JumpChain(code, a.pc, q, k);
      HaltsJumps(code, s, a.pc, q, k, a.pos, a.stk, R);
    }
  }

  /** `peephole` changes no result of any code, on any subject and from any start. */
  lemma PeepholePreserves(code: Code, s: Subject, i: nat, R: Result)
    ensures Halts(code, s, Init(i), R) <==> Halts(Peephole(code), s, Init(i), R)
  {
    var opt := Peephole(code);
    RefinesSelf(code);
    OptimiseRefines(code, code, 0);
    LeadsSelf(code, 0);
    StackLeadsSelf(code, Init(i).stk);
    if Halts(code, s, Init(i), R) {
      var n: nat :| StepN(code, s, Init(i), n) == Done(R);
      Forward(code, opt, s, Init(i), Init(i), n, R);
    }
    if Halts(opt, s, Init(i), R) {
      var n: nat :| StepN(opt, s, Init(i), n) == Done(R);
      Backward(code, opt, s, Init(i), Init(i), n, R);
    }
  }

  /** `compile`. */
  function Compile(t: Tree): Code {
    Peephole(C.Emit(t))
  }

  /** Compiler correctness: for every pattern, subject and start, whatever direct matching settles on is what the
      compiled code ends with, and no other result is possible. */
  lemma CompileCorrect(t: Tree, s: Subject, i: nat, fuel: nat, R: Result)
    requires C.WellFormed(t, 0) && i <= |s|
    requires Match([], t, s, i, fuel) != OutOfFuel
    ensures Halts(Compile(t), s, Init(i), R) <==> R == Match([], t, s, i, fuel)
  {
    var r := Match([], t, s, i, fuel);
    C.EmitCorrect(t, s, i, fuel);
    PeepholePreserves(C.Emit(t), s, i, r);
    if Halts(Compile(t), s, Init(i), R) {
      var n: nat :| StepN(Compile(t), s, Init(i), n) == Done(R);
      var m: nat :| StepN(Compile(t), s, Init(i), m) == Done(r);
      RunDeterministic(Compile(t), s, Init(i), n, m, R, r);
    }
  }
}
