/** The backtracking machine that runs compiled patterns (`match` in lpvm.c), one element of the code
    sequence per instruction. Offsets are relative to the instruction that holds them. */
module LpegVm {
  import opened LpegTree

  datatype Instr =
    | IAny
    | IChar(c: Byte)
    | ISet(cs: CharSet)
    | ITestAny(off: int)
    | ITestChar(c: Byte, off: int)
    | ITestSet(cs: CharSet, off: int)
    | ISpan(cs: CharSet)
    | IBehind(n: nat)
    | IRet
    | IEnd
    | IChoice(off: int)
    | IJmp(off: int)
    | ICall(off: int)
    | IOpenCall(k: nat)
    | ICommit(off: int)
    | IPartialCommit(off: int)
    | IBackCommit(off: int)
    | IFailTwice
    | IFail

  type Code = seq<Instr>

  /** An entry of the backtrack stack: a choice (where to resume, and at which position) or a pending return. */
  datatype Entry = Alt(pc: int, pos: nat) | Return(pc: int)

  datatype Stack = Bottom | Push(e: Entry, rest: Stack)

  /** `Stuck` is where one of the asserts of `match` would trip or the machine would leave the code. */
  datatype State = Run(pc: int, pos: nat, stk: Stack) | Done(r: Result) | Stuck

  /** Address of the `giveup` instruction, which lies outside every code. */
  const GIVEUP: int := -1

  /** The machine as `match` starts it. */
  function Init(i: nat): State {
    Run(0, i, Push(Alt(GIVEUP, i), Bottom))
  }

  /** Backtracking: drop pending returns, then resume the last choice. */
  function Unwind(stk: Stack): (st: State)
    ensures !st.Done?
  {
    match stk
    case Bottom => Stuck
    case Push(Return(_), rest) => Unwind(rest)
    case Push(Alt(pc, i), rest) => Run(pc, i, rest)
  }

  /** End of the longest run of characters of `cs` from `i`. */
  function SpanEnd(s: Subject, cs: CharSet, i: nat): (j: nat)
    ensures i <= |s| ==> i <= j <= |s|
    decreases |s| - i
  {
    if i < |s| && s[i] in cs then SpanEnd(s, cs, i + 1) else i
  }

  /** One instruction. */
  function Step(C: Code, s: Subject, st: State): State {
    if !st.Run? then st else
    var Run(pc, i, stk) := st;
    if pc == GIVEUP then (if stk.Bottom? then Done(Fail) else Stuck)
    else if !(0 <= pc < |C|) then Stuck
    else Exec(C[pc], s, pc, i, stk)
  }

  function Exec(instr: Instr, s: Subject, pc: int, i: nat, stk: Stack): State {
    match instr
    case IAny => if i < |s| then Run(pc + 1, i + 1, stk) else Unwind(stk)
    case IChar(c) => if i < |s| && s[i] == c then Run(pc + 1, i + 1, stk) else Unwind(stk)
    case ISet(cs) => if i < |s| && s[i] in cs then Run(pc + 1, i + 1, stk) else Unwind(stk)
    case ITestAny(off) => if i < |s| then Run(pc + 1, i, stk) else Run(pc + off, i, stk)
    case ITestChar(c, off) => if i < |s| && s[i] == c then Run(pc + 1, i, stk) else Run(pc + off, i, stk)
    case ITestSet(cs, off) => if i < |s| && s[i] in cs then Run(pc + 1, i, stk) else Run(pc + off, i, stk)
    case ISpan(cs) => Run(pc + 1, SpanEnd(s, cs, i), stk)
    case IBehind(n) => if n > i then Unwind(stk) else Run(pc + 1, i - n, stk)
    case IRet => if stk.Push? && stk.e.Return? then Run(stk.e.pc, i, stk.rest) else Stuck
    case IEnd => if stk.Push? && stk.e.Alt? && stk.rest.Bottom? then Done(Ok(i)) else Stuck
    case IChoice(off) => Run(pc + 1, i, Push(Alt(pc + off, i), stk))
    case IJmp(off) => Run(pc + off, i, stk)
    case ICall(off) => Run(pc + off, i, Push(Return(pc + 1), stk))
    case IOpenCall(_) => Stuck
    case ICommit(off) => if stk.Push? && stk.e.Alt? then Run(pc + off, i, stk.rest) else Stuck
    case IPartialCommit(off) =>
      if stk.Push? && stk.e.Alt? then Run(pc + off, i, Push(Alt(stk.e.pc, i), stk.rest)) else Stuck
    case IBackCommit(off) => if stk.Push? && stk.e.Alt? then Run(pc + off, stk.e.pos, stk.rest) else Stuck
    case IFailTwice => if stk.Push? then Unwind(stk.rest) else Stuck
    case IFail => Unwind(stk)
  }

  function StepN(C: Code, s: Subject, st: State, n: nat): State
    decreases n
  {
    if n == 0 then st else StepN(C, s, Step(C, s, st), n - 1)
  }

  /** The run from `st` ends with result `R`; in particular no assert trips on the way. */
  ghost predicate Halts(C: Code, s: Subject, st: State, R: Result) {
    exists n: nat :: StepN(C, s, st, n) == Done(R)
  }

  lemma HaltsStep(C: Code, s: Subject, st: State, R: Result)
    requires st.Run?
    ensures Halts(C, s, Step(C, s, st), R) <==> Halts(C, s, st, R)
  {
    if Halts(C, s, Step(C, s, st), R) {
      var n: nat :| StepN(C, s, Step(C, s, st), n) == Done(R);
      assert StepN(C, s, st, n + 1) == Done(R);
    }
    if Halts(C, s, st, R) {
      var n: nat :| StepN(C, s, st, n) == Done(R);
      assert n > 0;
      assert StepN(C, s, Step(C, s, st), n - 1) == Done(R);
    }
  }

  lemma HaltsDone(C: Code, s: Subject, R: Result)
    ensures Halts(C, s, Done(R), R)
  {
    assert StepN(C, s, Done(R), 0) == Done(R);
  }

  lemma {:induction false} DoneStays(C: Code, s: Subject, st: State, n: nat)
    requires !st.Run?
    ensures StepN(C, s, st, n) == st
    decreases n
  {
    if n > 0 { DoneStays(C, s, st, n - 1); }
  }

  /** A run has at most one result. */
  lemma {:induction false} RunDeterministic(C: Code, s: Subject, st: State, n: nat, m: nat, R1: Result, R2: Result)
    requires StepN(C, s, st, n) == Done(R1) && StepN(C, s, st, m) == Done(R2)
    ensures R1 == R2
    decreases n
  {
    if !st.Run? {
      DoneStays(C, s, st, n);
      DoneStays(C, s, st, m);
    } else {
      RunDeterministic(C, s, Step(C, s, st), n - 1, m - 1, R1, R2);
    }
  }
}
