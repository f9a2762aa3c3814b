/** The code generator preserves meaning: running the generated code gives the outcome of direct matching.
    Statements are about continuations. If the machine ends with some result when it goes on behind the block
    with the outcome of the match, then it ends with that result when it starts at the block. */
module LpegCorrect {
  import opened LpegTree
  import opened LpegAnalysis
  import opened LpegVm
  import opened LpegCode
  import opened LpegShapes

  /** Trees as the constructors and `finalfix` leave them: calls name rules of the enclosing grammar, and a
      look-behind records the fixed length its pattern had when it was built (calls were still open then). */
  predicate WellFormed(t: Tree, rules: nat)
    decreases t
  {
    match t
    case Rep(p) => WellFormed(p, rules)
    case Not(p) => WellFormed(p, rules)
    case And(p) => WellFormed(p, rules)
    case Seq(p1, p2) => WellFormed(p1, rules) && WellFormed(p2, rules)
    case Choice(p1, p2) => WellFormed(p1, rules) && WellFormed(p2, rules)
    case Behind(n, p) => WellFormed(p, rules) && FixedLen([], 0, p) == n && n <= MAX_BEHIND
    case Call(k) => k < rules
    case Grammar(rs) => 0 < |rs| <= MAX_RULES && forall k | 0 <= k < |rs| :: WellFormed(rs[k], |rs|)
    case _ => true
  }

  predicate AllWellFormed(G: seq<Tree>) {
    forall k {:trigger WellFormed(G[k], |G|)} | 0 <= k < |G| :: WellFormed(G[k], |G|)
  }

  /** A code, a subject, and a set of machine states that running the code neither enters nor leaves (such as the
      states from which the run ends with a given result). */
  datatype Machine = Machine(C: Code, s: Subject, ends: State -> bool)

  ghost predicate Ends(m: Machine, st: State) {
    m.ends(st)
  }

  ghost predicate StepClosed(m: Machine) {
    forall st: State {:trigger Step(m.C, m.s, st)} :: st.Run? ==> (Ends(m, st) <==> Ends(m, Step(m.C, m.s, st)))
  }

  /** Following `n` jumps from `p` leads to `q`. */
  predicate JumpChain(C: Code, p: int, q: int, n: nat)
    decreases n
  {
    if n == 0 then p == q
    else 0 <= p < |C| && C[p].IJmp? && JumpChain(C, p + C[p].off, q, n - 1)
  }

  ghost predicate LeadsToReturn(C: Code, p: int) {
    exists q: int, n: nat :: JumpChain(C, p, q, n) && 0 <= q < |C| && C[q].IRet?
  }

  /** Instruction `p` of `C` is `instr`, where an open call has become a call of its rule, or a jump to it when
      only a return follows. */
  ghost predicate Resolves(C: Code, p: int, instr: Instr, pos: seq<int>)
    requires 0 <= p < |C|
  {
    if instr.IOpenCall? then
      && instr.k < |pos|
      && (C[p] == ICall(pos[instr.k] - p) || (C[p] == IJmp(pos[instr.k] - p) && LeadsToReturn(C, p + 1)))
    else C[p] == instr
  }

  /** `block` stands at `base` of `C`, with rule `k` of the enclosing grammar at `pos[k]`. */
  ghost predicate CodeAt(C: Code, base: int, block: Code, pos: seq<int>) {
    && 0 <= base && base + |block| <= |C|
    && forall q | 0 <= q < |block| :: Resolves(C, base + q, block[q], pos)
  }

  ghost predicate RulesAt(C: Code, G: seq<Tree>, pos: seq<int>) {
    && |pos| == |G|
    && forall k {:trigger RuleAt(C, G, pos, k)} | 0 <= k < |G| :: RuleAt(C, G, pos, k)
  }

  ghost predicate RuleAt(C: Code, G: seq<Tree>, pos: seq<int>, k: nat)
    requires k < |G| == |pos|
  {
    CodeAt(C, pos[k], Gen(G, G[k], false, NoTest, Full()) + [IRet], pos)
  }

  lemma Split(C: Code, base: int, a: Code, b: Code, pos: seq<int>)
    requires CodeAt(C, base, a + b, pos)
    ensures CodeAt(C, base, a, pos) && CodeAt(C, base + |a|, b, pos)
  {
    forall q | 0 <= q < |a| ensures Resolves(C, base + q, a[q], pos) { assert (a + b)[q] == a[q]; }
    forall q | 0 <= q < |b| ensures Resolves(C, base + |a| + q, b[q], pos) { assert (a + b)[|a| + q] == b[q]; }
  }

  lemma Split3(C: Code, base: int, a: Code, b: Code, c: Code, pos: seq<int>)
    requires CodeAt(C, base, a + b + c, pos)
    ensures CodeAt(C, base, a, pos) && CodeAt(C, base + |a|, b, pos) && CodeAt(C, base + |a| + |b|, c, pos)
  {
    Split(C, base, a + b, c, pos);
    Split(C, base, a, b, pos);
  }

  lemma Split4(C: Code, base: int, a: Code, b: Code, c: Code, d: Code, pos: seq<int>)
    requires CodeAt(C, base, a + b + c + d, pos)
    ensures CodeAt(C, base, a, pos) && CodeAt(C, base + |a|, b, pos) && CodeAt(C, base + |a| + |b|, c, pos)
    ensures CodeAt(C, base + |a| + |b| + |c|, d, pos)
  {
    Split(C, base, a + b + c, d, pos);
    Split3(C, base, a, b, c, pos);
  }

  /** Running the instruction at `base`. */
  lemma At(m: Machine, base: int, x: Instr, pos: seq<int>, i: nat, stk: Stack)
    requires StepClosed(m) && CodeAt(m.C, base, [x], pos) && !x.IOpenCall?
    ensures Ends(m, Run(base, i, stk)) <==> Ends(m, Exec(x, m.s, base, i, stk))
  {
    assert Resolves(m.C, base + 0, [x][0], pos);
    assert Step(m.C, m.s, Run(base, i, stk)) == Exec(x, m.s, base, i, stk);
  }

  lemma {:induction false} FollowJumps(m: Machine, p: int, q: int, n: nat, i: nat, stk: Stack)
    requires StepClosed(m) && JumpChain(m.C, p, q, n)
    ensures Ends(m, Run(p, i, stk)) <==> Ends(m, Run(q, i, stk))
    decreases n
  {
    if n > 0 {
      assert Step(m.C, m.s, Run(p, i, stk)) == Run(p + m.C[p].off, i, stk);
      FollowJumps(m, p + m.C[p].off, q, n - 1, i, stk);
    }
  }

  /** The test `tt` passed at position `i`. */
  predicate Passed(tt: Test, s: Subject, i: nat) {
    match tt
    case NoTest => true
    case TestNone => false
    case TestAll => i < |s|
    case TestOne(c) => i < |s| && s[i] == c
    case TestIn(cs) => i < |s| && s[i] in cs
  }

  lemma TestForMeaning(cs: CharSet, empty: bool, s: Subject, i: nat)
    ensures Passed(TestFor(cs, empty), s, i) <==> (empty || (i < |s| && s[i] in cs))
    ensures TestLen(TestFor(cs, empty)) == if empty then 0 else 1
  {
  }

  /** The test before a pattern never turns away a match. */
  lemma TestAdmits(G: seq<Tree>, p: Tree, s: Subject, i: nat, fuel: nat)
    requires i <= |s| && Match(G, p, s, i, fuel).Ok?
    ensures Passed(EntryTest(G, p), s, i)
  {
    var f := GetFirst(G, MAX_CALLS, p, Full());
    TestForMeaning(f.cs, f.empty, s, i);
    GetFirstSound(G, MAX_CALLS, p, Full(), s, i, fuel);
  }

  /** If the test fails, so does the pattern; if the pattern fails all the same, the next character is not one
      that what follows can start with. */
  lemma TestDecidesMeaning(G: seq<Tree>, p: Tree, next: CharSet, s: Subject, i: nat, fuel: nat)
    requires i <= |s| && TestDecides(G, p, next) && Match(G, p, s, i, fuel) != OutOfFuel
    ensures !Passed(DecidingTest(G, p), s, i) ==> Match(G, p, s, i, fuel).Fail?
    ensures Passed(DecidingTest(G, p), s, i) && Match(G, p, s, i, fuel).Fail? ==> i < |s| && s[i] !in next
    ensures TestLen(DecidingTest(G, p)) == 1
  {
    var f := GetFirst(G, MAX_CALLS, p, Full());
    TestForMeaning(f.cs, false, s, i);
    if HeadFail(G, MAX_CALLS, p) { HeadFailSound(G, MAX_CALLS, p, s, i, fuel); }
    if Match(G, p, s, i, fuel).Ok? { GetFirstSound(G, MAX_CALLS, p, Full(), s, i, fuel); }
    if i < |s| && s[i] in f.cs && s[i] in next { assert s[i] in f.cs * next; }
  }

  lemma RunTest(m: Machine, base: int, tt: Test, off: int, pos: seq<int>, i: nat, stk: Stack)
    requires StepClosed(m) && CodeAt(m.C, base, TestCode(tt, off), pos)
    requires Ends(m, Run(if Passed(tt, m.s, i) then base + TestLen(tt) else base + off, i, stk))
    ensures Ends(m, Run(base, i, stk))
  {
    if !tt.NoTest? {
      At(m, base, TestCode(tt, off)[0], pos, i, stk);
    }
  }

  /** The block is left with outcome `r`. In an optional context the choice on top of the stack may have moved,
      and resuming it is as good as going on; before a character outside `fl` the continuation fails anyway. */
  ghost predicate Cont(m: Machine, end: int, stk: Stack, opt: bool, fl: CharSet, r: Result) {
    match r
    case OutOfFuel => false
    case Fail => Ends(m, Unwind(stk))
    case Ok(j) =>
      if opt then
        && OptStack(stk)
        && Ends(m, Run(stk.e.pc, j, stk.rest))
        && forall ic: nat :: Ends(m, Run(end, j, Push(Alt(stk.e.pc, ic), stk.rest)))
      else
        && Ends(m, Run(end, j, stk))
        && (j < |m.s| && m.s[j] !in fl ==> Ends(m, Unwind(stk)))
  }

  predicate OptStack(stk: Stack) {
    stk.Push? && stk.e.Alt?
  }

  /** Everything a block needs from its surroundings. */
  ghost predicate Placed(m: Machine, G: seq<Tree>, pos: seq<int>, base: int, t: Tree, opt: bool, tt: Test,
                         fl: CharSet, i: nat, stk: Stack) {
    && StepClosed(m) && i <= |m.s|
    && AllWellFormed(G) && WellFormed(t, |G|)
    && RulesAt(m.C, G, pos)
    && CodeAt(m.C, base, Gen(G, t, opt, tt, fl), pos)
    && Passed(tt, m.s, i)
    && (opt ==> OptStack(stk) && fl == Full())
  }

  lemma WellFormedParts(t: Tree, n: nat)
    requires WellFormed(t, n)
    ensures t.Rep? || t.Not? || t.And? || t.Behind? ==> WellFormed(t.p, n)
    ensures t.Seq? || t.Choice? ==> WellFormed(t.p1, n) && WellFormed(t.p2, n)
    ensures t.Behind? ==> FixedLen([], 0, t.p) == t.n
    ensures t.Call? ==> t.k < n
    ensures t.Grammar? ==> |t.rules| > 0 && AllWellFormed(t.rules)
  {
  }

  /** Main simulation. */
  lemma {:induction false} Simulates(m: Machine, G: seq<Tree>, pos: seq<int>, base: int, t: Tree, opt: bool, tt: Test,
    fl: CharSet, i: nat, stk: Stack, fuel: nat)
    requires Placed(m, G, pos, base, t, opt, tt, fl, i, stk)
    requires Cont(m, base + |Gen(G, t, opt, tt, fl)|, stk, opt, fl, Match(G, t, m.s, i, fuel))
    ensures Ends(m, Run(base, i, stk))
    decreases fuel, 3
  {
    hide Gen, Match, WellFormed, AllWellFormed, GetFirst, HeadFail, FixedLen, CheckAux, TestFor, StepClosed, Ends,
         Step, CodeAt, RulesAt;
    WellFormedParts(t, |G|);
    match t
    case Seq(p1, p2) => SimulatesSeq(m, G, pos, base, p1, p2, opt, tt, fl, i, stk, fuel);
    case Choice(p1, p2) =>
      if TestDecides(G, p1, SecondFirst(G, p2, fl)) {
        SimulatesTestedChoice(m, G, pos, base, p1, p2, opt, tt, fl, i, stk, fuel);
      } else if opt && p2.True? {
        SimulatesOptChoice(m, G, pos, base, p1, opt, tt, fl, i, stk, fuel);
      } else {
        SimulatesPlainChoice(m, G, pos, base, p1, p2, opt, tt, fl, i, stk, fuel);
      }
    case Rep(p) =>
      if OneChar(p) {
        SimulatesCharRep(m, G, pos, base, p, opt, tt, fl, i, stk, fuel);
      } else if TestDecides(G, p, fl) {
        SimulatesTestedLoop(m, G, pos, base, p, opt, tt, fl, i, stk, fuel);
      } else {
        SimulatesPlainLoop(m, G, pos, base, p, opt, tt, fl, i, stk, fuel);
      }
    case Not(p) =>
      if HeadFail(G, MAX_CALLS, p) {
        SimulatesHeadNot(m, G, pos, base, p, opt, tt, fl, i, stk, fuel);
      } else {
        SimulatesNot(m, G, pos, base, p, opt, tt, fl, i, stk, fuel);
      }
    case And(p) => SimulatesAnd(m, G, pos, base, p, opt, tt, fl, i, stk, fuel);
    case Behind(n, p) => SimulatesBehind(m, G, pos, base, n, p, opt, tt, fl, i, stk, fuel);
    case Call(k) => SimulatesCall(m, G, pos, base, k, opt, tt, fl, i, stk, fuel);
    case Grammar(rs) => SimulatesGrammar(m, G, pos, base, rs, opt, tt, fl, i, stk, fuel);
    case _ => SimulatesLeaf(m, G, pos, base, t, opt, tt, fl, i, stk, fuel);
  }

  lemma SimulatesLeaf(m: Machine, G: seq<Tree>, pos: seq<int>, base: int, t: Tree, opt: bool, tt: Test,
    fl: CharSet, i: nat, stk: Stack, fuel: nat)
    requires t.Char? || t.Set? || t.Any? || t.True? || t.False?
    requires Placed(m, G, pos, base, t, opt, tt, fl, i, stk)
    requires Cont(m, base + |Gen(G, t, opt, tt, fl)|, stk, opt, fl, Match(G, t, m.s, i, fuel))
    ensures Ends(m, Run(base, i, stk))
  {
    hide StepClosed, Ends, Step, CodeAt, Gen;
    ShapeLeaf(G, t, opt, tt, fl);
    if !t.True? { At(m, base, Gen(G, t, opt, tt, fl)[0], pos, i, stk); }
    ContTop(m, base + |Gen(G, t, opt, tt, fl)|, stk, opt, fl, Match(G, t, m.s, i, fuel));
  }

  /** Leaving a block with its own stack untouched is always one of the allowed ways. */
  lemma ContTop(m: Machine, end: int, stk: Stack, opt: bool, fl: CharSet, r: Result)
    requires Cont(m, end, stk, opt, fl, r)
    ensures r.Ok? ==> Ends(m, Run(end, r.pos, stk))
    ensures r.Ok? && opt ==> Ends(m, Run(stk.e.pc, r.pos, stk.rest))
  {
    if r.Ok? && opt {
      assert stk == Push(Alt(stk.e.pc, stk.e.pos), stk.rest);
    }
  }

  lemma SeqTestHolds(G: seq<Tree>, p1: Tree, tt: Test, s: Subject, i: nat, fuel: nat)
    requires i <= |s| && Passed(tt, s, i) && Match(G, p1, s, i, fuel).Ok?
    ensures Passed(SeqTest(G, p1, tt), s, Match(G, p1, s, i, fuel).pos)
  {
    if FixedLen(G, MAX_CALLS, p1) == 0 { FixedLenSound(G, MAX_CALLS, G, p1, s, i, fuel); }
  }

  /** Before a character outside the follow set of `p1`, `p2` fails or stops at once outside `fl`. */
  lemma SeqFollowMeaning(G: seq<Tree>, p1: Tree, p2: Tree, fl: CharSet, s: Subject, k: nat, fuel: nat)
    requires k < |s| && s[k] !in SeqFollow(G, p1, p2, fl)
    ensures Match(G, p2, s, k, fuel).Ok? ==> Match(G, p2, s, k, fuel).pos == k && s[k] !in fl
  {
    if Match(G, p2, s, k, fuel).Ok? { GetFirstSound(G, MAX_CALLS, p2, fl, s, k, fuel); }
  }

  lemma {:induction false} SimulatesSeq(m: Machine, G: seq<Tree>, pos: seq<int>, base: int, p1: Tree, p2: Tree,
        opt: bool, tt: Test, fl: CharSet, i: nat, stk: Stack, fuel: nat)
    requires Placed(m, G, pos, base, Seq(p1, p2), opt, tt, fl, i, stk)
    requires Cont(m, base + |Gen(G, Seq(p1, p2), opt, tt, fl)|, stk, opt, fl, Match(G, Seq(p1, p2), m.s, i, fuel))
    ensures Ends(m, Run(base, i, stk))
    decreases fuel, 2
  {
    hide Gen, Match, WellFormed, AllWellFormed, GetFirst, HeadFail, FixedLen, CheckAux, TestFor, StepClosed, Ends,
         Step, CodeAt, RulesAt, GenSeq, SeqFollow, SeqTest;
    var fl1, tt2 := SeqFollow(G, p1, p2, fl), SeqTest(G, p1, tt);
    var c1, c2 := Gen(G, p1, false, tt, fl1), Gen(G, p2, opt, tt2, fl);
    ShapeSeq(G, p1, p2, opt, tt, fl);
    WellFormedParts(Seq(p1, p2), |G|);
    Split(m.C, base, c1, c2, pos);
    MatchSeq(G, p1, p2, m.s, i, fuel);
    var r1 := Match(G, p1, m.s, i, fuel - 1);
    if r1.Ok? {
      var k := r1.pos;
      SeqTestHolds(G, p1, tt, m.s, i, fuel - 1);
      Simulates(m, G, pos, base + |c1|, p2, opt, tt2, fl, k, stk, fuel - 1);
      if k < |m.s| && m.s[k] !in fl1 {
        SeqFollowMeaning(G, p1, p2, fl, m.s, k, fuel - 1);
        assert Ends(m, Unwind(stk));
      }
    }
    Simulates(m, G, pos, base, p1, false, tt, fl1, i, stk, fuel - 1);
  }

  /** The choice already on the stack serves as the choice point of an option. */
  lemma {:induction false} SimulatesOptChoice(m: Machine, G: seq<Tree>, pos: seq<int>, base: int, p1: Tree,
        opt: bool, tt: Test, fl: CharSet, i: nat, stk: Stack, fuel: nat)
    requires opt && !TestDecides(G, p1, SecondFirst(G, True, fl))
    requires Placed(m, G, pos, base, Choice(p1, True), opt, tt, fl, i, stk)
    requires Cont(m, base + |Gen(G, Choice(p1, True), opt, tt, fl)|, stk, opt, fl,
      Match(G, Choice(p1, True), m.s, i, fuel))
    ensures Ends(m, Run(base, i, stk))
    decreases fuel, 2
  {
    hide Gen, Match, WellFormed, AllWellFormed, GetFirst, HeadFail, FixedLen, CheckAux, TestFor, StepClosed, Ends,
         Step, CodeAt, RulesAt, GenChoice, TestDecides;
    ShapeOptChoice(G, p1, tt, fl);
    WellFormedParts(Choice(p1, True), |G|);
    var c1 := Gen(G, p1, true, NoTest, Full());
    Split(m.C, base, [IPartialCommit(1)], c1, pos);
    At(m, base, IPartialCommit(1), pos, i, stk);
    MatchChoice(G, p1, True, m.s, i, fuel);
    Simulates(m, G, pos, base + 1, p1, true, NoTest, Full(), i, Push(Alt(stk.e.pc, i), stk.rest), fuel - 1);
  }

  function TestedSecond(base: int, c1: Code, jump: bool): int {
    base + 1 + |c1| + if jump then 1 else 0
  }

  lemma TestedBlockParts(C: Code, base: int, test: Test, c1: Code, jump: bool, c2: Code, pos: seq<int>)
    requires TestLen(test) == 1 && CodeAt(C, base, TestedBlock(test, c1, jump, c2), pos)
    ensures CodeAt(C, base, TestCode(test, TestedSecond(0, c1, jump)), pos) && CodeAt(C, base + 1, c1, pos)
    ensures jump ==> CodeAt(C, base + 1 + |c1|, [IJmp(1 + |c2|)], pos)
    ensures CodeAt(C, TestedSecond(base, c1, jump), c2, pos)
    ensures base + |TestedBlock(test, c1, jump, c2)| == TestedSecond(base, c1, jump) + |c2|
  {
    var jmp := if jump then [IJmp(1 + |c2|)] else [];
    Split4(C, base, TestCode(test, 1 + |c1| + |jmp|), c1, jmp, c2, pos);
  }

  lemma EnterTested(m: Machine, base: int, test: Test, c1: Code, jump: bool, c2: Code, pos: seq<int>, i: nat,
        stk: Stack)
    requires StepClosed(m) && TestLen(test) == 1 && CodeAt(m.C, base, TestedBlock(test, c1, jump, c2), pos)
    requires Ends(m, Run(if Passed(test, m.s, i) then base + 1 else TestedSecond(base, c1, jump), i, stk))
    ensures Ends(m, Run(base, i, stk))
  {
    TestedBlockParts(m.C, base, test, c1, jump, c2, pos);
    RunTest(m, base, test, TestedSecond(0, c1, jump), pos, i, stk);
  }

  lemma LeaveTested(m: Machine, base: int, test: Test, c1: Code, jump: bool, c2: Code, pos: seq<int>, j: nat,
        stk: Stack)
    requires StepClosed(m) && TestLen(test) == 1 && CodeAt(m.C, base, TestedBlock(test, c1, jump, c2), pos)
    requires Ends(m, Run(base + |TestedBlock(test, c1, jump, c2)|, j, stk)) && (jump || c2 == [])
    ensures Ends(m, Run(base + 1 + |c1|, j, stk))
  {
    TestedBlockParts(m.C, base, test, c1, jump, c2, pos);
    if jump { At(m, base + 1 + |c1|, IJmp(1 + |c2|), pos, j, stk); }
  }

  /** How the first alternative may be left, when the test passed. */
  lemma TestedFirst(m: Machine, end: int, stk: Stack, opt: bool, fl: CharSet, i: nat, r: Result, end1: int, r1: Result)
    requires Cont(m, end, stk, opt, fl, r) && (opt ==> fl == Full())
    requires r == r1 || (r1.Fail? && r == Ok(i) && i < |m.s| && m.s[i] !in fl)
    requires r1.Ok? ==> Ends(m, Run(end1, r1.pos, stk))
    ensures Cont(m, end1, stk, false, fl, r1)
  {
  }

  /** A test on the next character replaces the choice point. */
  lemma {:induction false} SimulatesTestedChoice(m: Machine, G: seq<Tree>, pos: seq<int>, base: int, p1: Tree,
        p2: Tree, opt: bool, tt: Test, fl: CharSet, i: nat, stk: Stack, fuel: nat)
    requires TestDecides(G, p1, SecondFirst(G, p2, fl))
    requires Placed(m, G, pos, base, Choice(p1, p2), opt, tt, fl, i, stk)
    requires Cont(m, base + |Gen(G, Choice(p1, p2), opt, tt, fl)|, stk, opt, fl, Match(G, Choice(p1, p2), m.s, i, fuel))
    ensures Ends(m, Run(base, i, stk))
    decreases fuel, 2
  {
    hide Gen, Match, WellFormed, AllWellFormed, GetFirst, HeadFail, FixedLen, CheckAux, TestFor, StepClosed, Ends,
         Step, CodeAt, RulesAt, GenChoice, TestDecides, DecidingTest, TestedBlock;
    var test := DecidingTest(G, p1);
    MatchChoice(G, p1, p2, m.s, i, fuel);
    var r, r1 := Match(G, Choice(p1, p2), m.s, i, fuel), Match(G, p1, m.s, i, fuel - 1);
    var c1, c2 := Gen(G, p1, false, test, fl), Gen(G, p2, opt, NoTest, fl);
    ShapeTestedChoice(G, p1, p2, opt, tt, fl);
    WellFormedParts(Choice(p1, p2), |G|);
    TestedChoiceMeaning(G, p1, p2, fl, m.s, i, fuel);
    TestedBlockParts(m.C, base, test, c1, !p2.True?, c2, pos);
    var end := base + |TestedBlock(test, c1, !p2.True?, c2)|;
    ContTop(m, end, stk, opt, fl, r);
    if Passed(test, m.s, i) {
      if r1.Ok? { LeaveTested(m, base, test, c1, !p2.True?, c2, pos, r1.pos, stk); }
      TestedFirst(m, end, stk, opt, fl, i, r, base + 1 + |c1|, r1);
      Simulates(m, G, pos, base + 1, p1, false, test, fl, i, stk, fuel - 1);
    } else {
      Simulates(m, G, pos, TestedSecond(base, c1, !p2.True?), p2, opt, NoTest, fl, i, stk, fuel - 1);
    }
    EnterTested(m, base, test, c1, !p2.True?, c2, pos, i, stk);
  }

  lemma TestedChoiceMeaning(G: seq<Tree>, p1: Tree, p2: Tree, fl: CharSet, s: Subject, i: nat, fuel: nat)
    requires i <= |s| && TestDecides(G, p1, SecondFirst(G, p2, fl))
    requires Match(G, Choice(p1, p2), s, i, fuel) != OutOfFuel
    ensures var test, r := DecidingTest(G, p1), Match(G, Choice(p1, p2), s, i, fuel);
            var r1, r2 := Match(G, p1, s, i, fuel - 1), Match(G, p2, s, i, fuel - 1);
            && TestLen(test) == 1
            && (if Passed(test, s, i)
                then r == r1 || (r1.Fail? && r == Ok(i) && i < |s| && s[i] !in fl)
                else r == r2)
            && r1 != OutOfFuel && (r1.Fail? ==> r == r2)
  {
    var r1, r2 := Match(G, p1, s, i, fuel - 1), Match(G, p2, s, i, fuel - 1);
    TestDecidesMeaning(G, p1, SecondFirst(G, p2, fl), s, i, fuel - 1);
    if r1.Fail? && r2.Ok? { GetFirstSound(G, MAX_CALLS, p2, fl, s, i, fuel - 1); }
  }

  lemma ChoiceBlockParts(C: Code, base: int, test: Test, c1: Code, c2: Code, pos: seq<int>)
    requires CodeAt(C, base, ChoiceBlock(test, c1, c2), pos)
    ensures var b1 := base + TestLen(test);
            && CodeAt(C, base, TestCode(test, 3 + |c1|), pos) && CodeAt(C, b1, [IChoice(2 + |c1|)], pos)
            && CodeAt(C, b1 + 1, c1, pos) && CodeAt(C, b1 + 1 + |c1|, [ICommit(1 + |c2|)], pos)
            && CodeAt(C, b1 + 2 + |c1|, c2, pos)
    ensures |ChoiceBlock(test, c1, c2)| == TestLen(test) + 2 + |c1| + |c2|
  {
    Split4(C, base, TestCode(test, 3 + |c1|) + [IChoice(2 + |c1|)], c1, [ICommit(1 + |c2|)], c2, pos);
    Split(C, base, TestCode(test, 3 + |c1|), [IChoice(2 + |c1|)], pos);
  }

  lemma EnterChoice(m: Machine, base: int, test: Test, c1: Code, c2: Code, pos: seq<int>, i: nat, stk: Stack)
    requires StepClosed(m) && CodeAt(m.C, base, ChoiceBlock(test, c1, c2), pos)
    requires var l1 := base + TestLen(test) + 2 + |c1|;
             if Passed(test, m.s, i) then Ends(m, Run(base + TestLen(test) + 1, i, Push(Alt(l1, i), stk)))
             else Ends(m, Run(l1, i, stk))
    ensures Ends(m, Run(base, i, stk))
  {
    var b1 := base + TestLen(test);
    ChoiceBlockParts(m.C, base, test, c1, c2, pos);
    At(m, b1, IChoice(2 + |c1|), pos, i, stk);
    RunTest(m, base, test, 3 + |c1|, pos, i, stk);
  }

  /** The first alternative is left through the commit, wherever its choice has moved. */
  lemma LeaveChoice(m: Machine, base: int, test: Test, c1: Code, c2: Code, pos: seq<int>, j: nat, i: nat, stk: Stack,
                    opt: bool)
    requires StepClosed(m) && CodeAt(m.C, base, ChoiceBlock(test, c1, c2), pos)
    requires Ends(m, Run(base + |ChoiceBlock(test, c1, c2)|, j, stk))
    requires opt ==> Ends(m, Run(base + TestLen(test) + 2 + |c1|, j, stk))
    ensures var b1 := base + TestLen(test);
            Cont(m, b1 + 1 + |c1|, Push(Alt(b1 + 2 + |c1|, i), stk), opt, Full(), Ok(j))
  {
    var b1 := base + TestLen(test);
    var l1 := b1 + 2 + |c1|;
    ChoiceBlockParts(m.C, base, test, c1, c2, pos);
    forall ic: nat ensures Ends(m, Run(b1 + 1 + |c1|, j, Push(Alt(l1, ic), stk))) {
      At(m, b1 + 1 + |c1|, ICommit(1 + |c2|), pos, j, Push(Alt(l1, ic), stk));
    }
  }

  lemma {:induction false} SimulatesPlainChoice(m: Machine, G: seq<Tree>, pos: seq<int>, base: int, p1: Tree,
        p2: Tree, opt: bool, tt: Test, fl: CharSet, i: nat, stk: Stack, fuel: nat)
    requires !TestDecides(G, p1, SecondFirst(G, p2, fl)) && !(opt && p2.True?)
    requires Placed(m, G, pos, base, Choice(p1, p2), opt, tt, fl, i, stk)
    requires Cont(m, base + |Gen(G, Choice(p1, p2), opt, tt, fl)|, stk, opt, fl, Match(G, Choice(p1, p2), m.s, i, fuel))
    ensures Ends(m, Run(base, i, stk))
    decreases fuel, 2
  {
    hide Gen, Match, WellFormed, AllWellFormed, GetFirst, HeadFail, FixedLen, CheckAux, TestFor, StepClosed, Ends,
         Step, CodeAt, RulesAt, GenChoice, TestDecides, EntryTest, ChoiceBlock;
    var test := EntryTest(G, p1);
    MatchChoice(G, p1, p2, m.s, i, fuel);
    var r1 := Match(G, p1, m.s, i, fuel - 1);
    var c1, c2 := Gen(G, p1, p2.True?, test, Full()), Gen(G, p2, opt, NoTest, fl);
    var b1 := base + TestLen(test);
    var l1 := b1 + 2 + |c1|;
    ShapePlainChoice(G, p1, p2, opt, tt, fl);
    WellFormedParts(Choice(p1, p2), |G|);
    ChoiceBlockParts(m.C, base, test, c1, c2, pos);
    ContTop(m, l1 + |c2|, stk, opt, fl, Match(G, Choice(p1, p2), m.s, i, fuel));
    if r1.Fail? {
      Simulates(m, G, pos, l1, p2, opt, NoTest, fl, i, stk, fuel - 1);
      assert Cont(m, b1 + 1 + |c1|, Push(Alt(l1, i), stk), p2.True?, Full(), r1);
    } else {
      TestAdmits(G, p1, m.s, i, fuel - 1);
      LeaveChoice(m, base, test, c1, c2, pos, r1.pos, i, stk, p2.True?);
    }
    if Passed(test, m.s, i) {
      Simulates(m, G, pos, b1 + 1, p1, p2.True?, test, Full(), i, Push(Alt(l1, i), stk), fuel - 1);
    }
    EnterChoice(m, base, test, c1, c2, pos, i, stk);
  }

  /** A test alone decides. */
  lemma {:induction false} SimulatesHeadNot(m: Machine, G: seq<Tree>, pos: seq<int>, base: int, p: Tree, opt: bool,
        tt: Test, fl: CharSet, i: nat, stk: Stack, fuel: nat)
    requires HeadFail(G, MAX_CALLS, p)
    requires Placed(m, G, pos, base, Not(p), opt, tt, fl, i, stk)
    requires Cont(m, base + |Gen(G, Not(p), opt, tt, fl)|, stk, opt, fl, Match(G, Not(p), m.s, i, fuel))
    ensures Ends(m, Run(base, i, stk))
    decreases fuel, 2
  {
    hide Gen, Match, WellFormed, AllWellFormed, GetFirst, HeadFail, FixedLen, CheckAux, TestFor, StepClosed, Ends,
         Step, CodeAt, RulesAt, GenNot, EntryTest;
    var test := EntryTest(G, p);
    ShapeHeadNot(G, p, opt, tt, fl);
    MatchLook(G, Not(p), m.s, i, fuel);
    HeadFailTest(G, p, m.s, i, fuel - 1);
    ContTop(m, base + 2, stk, opt, fl, Match(G, Not(p), m.s, i, fuel));
    Split(m.C, base, TestCode(test, 2), [IFail], pos);
    At(m, base + 1, IFail, pos, i, stk);
    RunTest(m, base, test, 2, pos, i, stk);
  }

  lemma GuardedNotWiring(m: Machine, base: int, test: Test, c: Code, pos: seq<int>, i: nat, stk: Stack, r: Result)
    requires StepClosed(m)
    requires CodeAt(m.C, base, NotBlock(test, c), pos)
    requires r.Ok? ==> Ends(m, Unwind(stk)) && Passed(test, m.s, i)
    requires r.Fail? ==> Ends(m, Run(base + TestLen(test) + 2 + |c|, i, stk))
    requires r != OutOfFuel
    ensures var b1 := base + TestLen(test);
            var stk1 := Push(Alt(b1 + 2 + |c|, i), stk);
            && CodeAt(m.C, b1 + 1, c, pos)
            && Cont(m, b1 + 1 + |c|, stk1, false, Full(), r)
            && (Ends(m, Run(b1 + 1, i, stk1)) ==> Ends(m, Run(base, i, stk)))
            && (!Passed(test, m.s, i) ==> Ends(m, Run(base, i, stk)))
  {
    var b1 := base + TestLen(test);
    var stk1 := Push(Alt(b1 + 2 + |c|, i), stk);
    Split4(m.C, base, TestCode(test, 3 + |c|), [IChoice(2 + |c|)], c, [IFailTwice], pos);
    if r.Ok? { At(m, b1 + 1 + |c|, IFailTwice, pos, r.pos, stk1); }
    At(m, b1, IChoice(2 + |c|), pos, i, stk);
    if !Passed(test, m.s, i) || Ends(m, Run(b1 + 1, i, stk1)) { RunTest(m, base, test, 3 + |c|, pos, i, stk); }
  }

  lemma {:induction false} SimulatesNot(m: Machine, G: seq<Tree>, pos: seq<int>, base: int, p: Tree, opt: bool,
        tt: Test, fl: CharSet, i: nat, stk: Stack, fuel: nat)
    requires !HeadFail(G, MAX_CALLS, p)
    requires Placed(m, G, pos, base, Not(p), opt, tt, fl, i, stk)
    requires Cont(m, base + |Gen(G, Not(p), opt, tt, fl)|, stk, opt, fl, Match(G, Not(p), m.s, i, fuel))
    ensures Ends(m, Run(base, i, stk))
    decreases fuel, 2
  {
    hide Gen, Match, WellFormed, AllWellFormed, GetFirst, HeadFail, FixedLen, CheckAux, TestFor, StepClosed, Ends,
         Step, CodeAt, RulesAt, GenNot, EntryTest;
    var test := EntryTest(G, p);
    MatchLook(G, Not(p), m.s, i, fuel);
    var r := Match(G, p, m.s, i, fuel - 1);
    var c := Gen(G, p, false, NoTest, Full());
    var b1 := base + TestLen(test);
    ShapeNot(G, p, opt, tt, fl);
    WellFormedParts(Not(p), |G|);
    ContTop(m, b1 + 2 + |c|, stk, opt, fl, Match(G, Not(p), m.s, i, fuel));
    if r.Ok? { TestAdmits(G, p, m.s, i, fuel - 1); }
    GuardedNotWiring(m, base, test, c, pos, i, stk, r);
    if Passed(test, m.s, i) {
      Simulates(m, G, pos, b1 + 1, p, false, NoTest, Full(), i, Push(Alt(b1 + 2 + |c|, i), stk), fuel - 1);
    }
  }

  lemma HeadFailTest(G: seq<Tree>, p: Tree, s: Subject, i: nat, fuel: nat)
    requires i <= |s| && HeadFail(G, MAX_CALLS, p) && Match(G, p, s, i, fuel) != OutOfFuel
    ensures TestLen(EntryTest(G, p)) == 1
    ensures Passed(EntryTest(G, p), s, i) <==> Match(G, p, s, i, fuel).Ok?
  {
    var f := GetFirst(G, MAX_CALLS, p, Full());
    TestForMeaning(f.cs, f.empty, s, i);
    HeadFailSound(G, MAX_CALLS, p, s, i, fuel);
  }

  /** c; behind n: what matched is walked back. */
  lemma WalkBackWiring(m: Machine, base: int, c: Code, n: nat, pos: seq<int>, i: nat, stk: Stack, r: Result)
    requires StepClosed(m) && CodeAt(m.C, base, c + Back(n), pos)
    requires r.Ok? ==> r.pos == i + n && Ends(m, Run(base + |c| + (if n > 0 then 1 else 0), i, stk))
    requires r.Fail? ==> Ends(m, Unwind(stk))
    requires r != OutOfFuel
    ensures CodeAt(m.C, base, c, pos) && Cont(m, base + |c|, stk, false, Full(), r)
  {
    Split(m.C, base, c, Back(n), pos);
    if r.Ok? && n > 0 { At(m, base + |c|, IBehind(n), pos, r.pos, stk); }
  }

  /** The block of an and predicate under a choice point. */
  lemma BackCommitWiring(m: Machine, base: int, c: Code, pos: seq<int>, i: nat, stk: Stack, r: Result)
    requires StepClosed(m) && CodeAt(m.C, base, [IChoice(2 + |c|)] + c + [IBackCommit(2), IFail], pos)
    requires r.Ok? ==> Ends(m, Run(base + 3 + |c|, i, stk))
    requires r.Fail? ==> Ends(m, Unwind(stk))
    requires r != OutOfFuel
    ensures var stk1 := Push(Alt(base + 2 + |c|, i), stk);
            && CodeAt(m.C, base + 1, c, pos)
            && Cont(m, base + 1 + |c|, stk1, false, Full(), r)
            && (Ends(m, Run(base + 1, i, stk1)) ==> Ends(m, Run(base, i, stk)))
  {
    hide StepClosed, Ends, Step;
    var stk1 := Push(Alt(base + 2 + |c|, i), stk);
    Split3(m.C, base, [IChoice(2 + |c|)], c, [IBackCommit(2), IFail], pos);
    assert [IBackCommit(2), IFail] == [IBackCommit(2)] + [IFail];
    Split(m.C, base + 1 + |c|, [IBackCommit(2)], [IFail], pos);
    if r.Ok? { At(m, base + 1 + |c|, IBackCommit(2), pos, r.pos, stk1); }
    else { At(m, base + 2 + |c|, IFail, pos, i, stk); }
    At(m, base, IChoice(2 + |c|), pos, i, stk);
  }

  lemma {:induction false} SimulatesAnd(m: Machine, G: seq<Tree>, pos: seq<int>, base: int, p: Tree, opt: bool,
        tt: Test, fl: CharSet, i: nat, stk: Stack, fuel: nat)
    requires Placed(m, G, pos, base, And(p), opt, tt, fl, i, stk)
    requires Cont(m, base + |Gen(G, And(p), opt, tt, fl)|, stk, opt, fl, Match(G, And(p), m.s, i, fuel))
    ensures Ends(m, Run(base, i, stk))
    decreases fuel, 2
  {
    hide Gen, Match, WellFormed, AllWellFormed, GetFirst, HeadFail, FixedLen, CheckAux, TestFor, StepClosed, Ends,
         Step, CodeAt, RulesAt, GenAnd;
    var n := FixedLen(G, MAX_CALLS, p);
    var c := Gen(G, p, false, tt, Full());
    MatchLook(G, And(p), m.s, i, fuel);
    var r := Match(G, p, m.s, i, fuel - 1);
    ShapeAnd(G, p, opt, tt, fl);
    WellFormedParts(And(p), |G|);
    ContTop(m, base + |Gen(G, And(p), opt, tt, fl)|, stk, opt, fl, Match(G, And(p), m.s, i, fuel));
    if WalksBack(n) {
      FixedLenSound(G, MAX_CALLS, G, p, m.s, i, fuel - 1);
      WalkBackWiring(m, base, c, n, pos, i, stk, r);
      Simulates(m, G, pos, base, p, false, tt, Full(), i, stk, fuel - 1);
    } else {
      BackCommitWiring(m, base, c, pos, i, stk, r);
      Simulates(m, G, pos, base + 1, p, false, tt, Full(), i, Push(Alt(base + 2 + |c|, i), stk), fuel - 1);
    }
  }

  lemma {:induction false} SimulatesBehind(m: Machine, G: seq<Tree>, pos: seq<int>, base: int, n: nat, p: Tree,
        opt: bool, tt: Test, fl: CharSet, i: nat, stk: Stack, fuel: nat)
    requires Placed(m, G, pos, base, Behind(n, p), opt, tt, fl, i, stk)
    requires Cont(m, base + |Gen(G, Behind(n, p), opt, tt, fl)|, stk, opt, fl, Match(G, Behind(n, p), m.s, i, fuel))
    ensures Ends(m, Run(base, i, stk))
    decreases fuel, 2
  {
    hide Gen, Match, WellFormed, AllWellFormed, GetFirst, HeadFail, FixedLen, CheckAux, TestFor, StepClosed, Ends,
         Step, CodeAt, RulesAt, GenBehind;
    var c := Gen(G, p, false, NoTest, Full());
    ShapeBehind(G, n, p, opt, tt, fl);
    WellFormedParts(Behind(n, p), |G|);
    Split(m.C, base, Back(n), c, pos);
    ContTop(m, base + |Back(n)| + |c|, stk, opt, fl, Match(G, Behind(n, p), m.s, i, fuel));
    MatchBehind(G, n, p, m.s, i, fuel);
    if n <= i {
      FixedLenSound([], 0, G, p, m.s, i - n, fuel - 1);
      Simulates(m, G, pos, base + |Back(n)|, p, false, NoTest, Full(), i - n, stk, fuel - 1);
    }
    if n > 0 { At(m, base, IBehind(n), pos, i, stk); }
  }

  lemma RuleIsAt(C: Code, G: seq<Tree>, pos: seq<int>, k: nat)
    requires RulesAt(C, G, pos) && AllWellFormed(G) && k < |G|
    ensures k < |pos| && WellFormed(G[k], |G|)
    ensures var rule := Gen(G, G[k], false, NoTest, Full());
            CodeAt(C, pos[k], rule, pos) && CodeAt(C, pos[k] + |rule|, [IRet], pos)
  {
    hide Gen, WellFormed, CodeAt;
    assert RuleAt(C, G, pos, k) && WellFormed(G[k], |G|);
    Split(C, pos[k], Gen(G, G[k], false, NoTest, Full()), [IRet], pos);
  }

  /** A call goes to its rule, which returns behind it; a tail call jumps there, and the rule returns to where the
      return behind the call would. */
  lemma CallWiring(m: Machine, base: int, k: nat, pos: seq<int>, i: nat, stk: Stack, n: nat,
        r: Result) returns (stk1: Stack)
    requires StepClosed(m) && CodeAt(m.C, base, [IOpenCall(k)], pos)
    requires k < |pos| && CodeAt(m.C, pos[k] + n, [IRet], pos)
    requires r.Ok? ==> Ends(m, Run(base + 1, r.pos, stk))
    requires r.Fail? ==> Ends(m, Unwind(stk))
    requires r != OutOfFuel
    ensures Cont(m, pos[k] + n, stk1, false, Full(), r)
    ensures Ends(m, Run(pos[k], i, stk1)) ==> Ends(m, Run(base, i, stk))
  {
    assert Resolves(m.C, base + 0, [IOpenCall(k)][0], pos);
    assert Step(m.C, m.s, Run(base, i, stk)) == Exec(m.C[base], m.s, base, i, stk);
    if m.C[base].ICall? {
      stk1 := Push(Return(base + 1), stk);
      if r.Ok? { At(m, pos[k] + n, IRet, pos, r.pos, stk1); }
    } else {
      stk1 := stk;
      var q: int, jumps: nat :| JumpChain(m.C, base + 1, q, jumps) && 0 <= q < |m.C| && m.C[q].IRet?;
      if r.Ok? {
        FollowJumps(m, base + 1, q, jumps, r.pos, stk);
        assert Step(m.C, m.s, Run(q, r.pos, stk)) == Exec(IRet, m.s, q, r.pos, stk);
        At(m, pos[k] + n, IRet, pos, r.pos, stk);
      }
    }
  }

  lemma {:induction false} SimulatesCall(m: Machine, G: seq<Tree>, pos: seq<int>, base: int, k: nat, opt: bool,
        tt: Test, fl: CharSet, i: nat, stk: Stack, fuel: nat)
    requires k < |G|
    requires Placed(m, G, pos, base, Call(k), opt, tt, fl, i, stk)
    requires Cont(m, base + |Gen(G, Call(k), opt, tt, fl)|, stk, opt, fl, Match(G, Call(k), m.s, i, fuel))
    ensures Ends(m, Run(base, i, stk))
    decreases fuel, 2
  {
    hide Gen, Match, WellFormed, AllWellFormed, GetFirst, HeadFail, FixedLen, CheckAux, TestFor, StepClosed, Ends,
         Step, CodeAt, RulesAt;
    var rule := Gen(G, G[k], false, NoTest, Full());
    ShapeCall(G, k, opt, tt, fl);
    RuleIsAt(m.C, G, pos, k);
    MatchCall(G, k, m.s, i, fuel);
    var r := Match(G, G[k], m.s, i, fuel - 1);
    ContTop(m, base + 1, stk, opt, fl, r);
    var stk1 := CallWiring(m, base, k, pos, i, stk, |rule|, r);
    Simulates(m, G, pos, pos[k], G[k], false, NoTest, Full(), i, stk1, fuel - 1);
  }

  // Repetition

  lemma SimulatesCharRep(m: Machine, G: seq<Tree>, pos: seq<int>, base: int, p: Tree, opt: bool, tt: Test,
    fl: CharSet, i: nat, stk: Stack, fuel: nat)
    requires OneChar(p)
    requires Placed(m, G, pos, base, Rep(p), opt, tt, fl, i, stk)
    requires Cont(m, base + |Gen(G, Rep(p), opt, tt, fl)|, stk, opt, fl, Match(G, Rep(p), m.s, i, fuel))
    ensures Ends(m, Run(base, i, stk))
  {
    hide Gen, GenRep, WellFormed, AllWellFormed, StepClosed, Ends, Step, CodeAt, RulesAt;
    ShapeCharRep(G, p, opt, tt, fl);
    MatchRep(G, p, m.s, i, fuel);
    CheckAuxSound(G, 0, Rep(p), m.s, i, fuel);
    ContTop(m, base + |Gen(G, Rep(p), opt, tt, fl)|, stk, opt, fl, Match(G, Rep(p), m.s, i, fuel));
    match p
    case False =>
    case Any => SimulatesScan(m, G, base, p, ITestAny(3), pos, i, stk, fuel);
    case Char(c) => SimulatesScan(m, G, base, p, ITestChar(c, 3), pos, i, stk, fuel);
    case Set(cs) =>
      At(m, base, ISpan(cs), pos, i, stk);
      SpanIsRep(G, cs, m.s, i, fuel);
  }

  /** The tight loop for repetitions of one character or of any character. */
  lemma {:induction false} SimulatesScan(m: Machine, G: seq<Tree>, base: int, p: Tree, test: Instr, pos: seq<int>,
        i: nat, stk: Stack, fuel: nat)
    requires i <= |m.s| && StepClosed(m)
    requires (p.Any? && test == ITestAny(3)) || (p.Char? && test == ITestChar(p.c, 3))
    requires CodeAt(m.C, base, [test, IAny, IJmp(-2)], pos)
    requires Match(G, Rep(p), m.s, i, fuel).Ok? && Ends(m, Run(base + 3, Match(G, Rep(p), m.s, i, fuel).pos, stk))
    ensures Ends(m, Run(base, i, stk))
    decreases fuel
  {
    hide StepClosed, Ends, Step;
    assert [test, IAny, IJmp(-2)] == [test] + [IAny] + [IJmp(-2)];
    Split3(m.C, base, [test], [IAny], [IJmp(-2)], pos);
    At(m, base, test, pos, i, stk);
    MatchRep(G, p, m.s, i, fuel);
    if Match(G, p, m.s, i, fuel - 1).Ok? {
      SimulatesScan(m, G, base, p, test, pos, i + 1, stk, fuel - 1);
      At(m, base + 2, IJmp(-2), pos, i + 1, stk);
      At(m, base + 1, IAny, pos, i, stk);
    }
  }

  lemma {:induction false} SpanIsRep(G: seq<Tree>, cs: CharSet, s: Subject, i: nat, fuel: nat)
    requires i <= |s| && Match(G, Rep(Set(cs)), s, i, fuel) != OutOfFuel
    ensures Match(G, Rep(Set(cs)), s, i, fuel) == Ok(SpanEnd(s, cs, i))
    decreases fuel
  {
    if Match(G, Set(cs), s, i, fuel - 1).Ok? { SpanIsRep(G, cs, s, i + 1, fuel - 1); }
  }

  lemma TestedLoopParts(C: Code, base: int, test: Test, c: Code, pos: seq<int>)
    requires CodeAt(C, base, TestedLoopBlock(test, c), pos) && TestLen(test) == 1
    ensures CodeAt(C, base, TestCode(test, 2 + |c|), pos) && CodeAt(C, base + 1, c, pos)
    ensures CodeAt(C, base + 1 + |c|, [IJmp(-1 - |c|)], pos)
    ensures |TestedLoopBlock(test, c)| == 2 + |c|
  {
    Split3(C, base, TestCode(test, 2 + |c|), c, [IJmp(-1 - |c|)], pos);
  }

  /** A loop guarded by a test on the next character, without a choice point. */
  lemma {:induction false} SimulatesTestedLoop(m: Machine, G: seq<Tree>, pos: seq<int>, base: int, p: Tree,
        opt: bool, tt: Test, fl: CharSet, i: nat, stk: Stack, fuel: nat)
    requires !OneChar(p) && TestDecides(G, p, fl)
    requires Placed(m, G, pos, base, Rep(p), opt, tt, fl, i, stk)
    requires Cont(m, base + |Gen(G, Rep(p), opt, tt, fl)|, stk, opt, fl, Match(G, Rep(p), m.s, i, fuel))
    ensures Ends(m, Run(base, i, stk))
    decreases fuel, 2
  {
    hide Gen, Match, WellFormed, AllWellFormed, GetFirst, HeadFail, FixedLen, CheckAux, TestFor, StepClosed, Ends,
         Step, CodeAt, RulesAt, GenRep, TestDecides, DecidingTest, TestedLoopBlock;
    var test := DecidingTest(G, p);
    var c := Gen(G, p, false, test, Full());
    MatchRep(G, p, m.s, i, fuel);
    var r := Match(G, p, m.s, i, fuel - 1);
    ShapeTestedLoop(G, p, opt, tt, fl);
    ShapeTestedLoop(G, p, opt, NoTest, fl);
    WellFormedParts(Rep(p), |G|);
    TestedLoopParts(m.C, base, test, c, pos);
    TestDecidesMeaning(G, p, fl, m.s, i, fuel - 1);
    ContTop(m, base + 2 + |c|, stk, opt, fl, Match(G, Rep(p), m.s, i, fuel));
    if Passed(test, m.s, i) {
      if r.Ok? {
        SimulatesTestedLoop(m, G, pos, base, p, opt, NoTest, fl, r.pos, stk, fuel - 1);
        At(m, base + 1 + |c|, IJmp(-1 - |c|), pos, r.pos, stk);
      } else {
        assert Ends(m, Unwind(stk)) by { LoopLeaves(m, base + 2 + |c|, stk, opt, fl, i); }
      }
      Simulates(m, G, pos, base + 1, p, false, test, Full(), i, stk, fuel - 1);
    }
    RunTest(m, base, test, 2 + |c|, pos, i, stk);
  }

  /** A loop that stops before a character outside the follow set may as well fail. */
  lemma LoopLeaves(m: Machine, end: int, stk: Stack, opt: bool, fl: CharSet, i: nat)
    requires Cont(m, end, stk, opt, fl, Ok(i)) && (opt ==> fl == Full()) && i < |m.s| && m.s[i] !in fl
    ensures Ends(m, Unwind(stk))
  {
    hide Ends;
  }

  lemma LoopBlockParts(C: Code, base: int, test: Test, opt: bool, c: Code, pos: seq<int>)
    requires CodeAt(C, base, LoopBlock(test, opt, c), pos)
    ensures var b1 := base + TestLen(test);
            && CodeAt(C, base, TestCode(test, 3 + |c|), pos) && CodeAt(C, b1, [Enter(opt, |c|)], pos)
            && CodeAt(C, b1 + 1, c, pos) && CodeAt(C, b1 + 1 + |c|, [IPartialCommit(-|c|)], pos)
    ensures |LoopBlock(test, opt, c)| == TestLen(test) + 2 + |c|
  {
    Split4(C, base, TestCode(test, 3 + |c|), [Enter(opt, |c|)], c, [IPartialCommit(-|c|)], pos);
  }

  /** The choice the loop runs under: a new one, or the one of the optional context. */
  function LoopChoice(opt: bool, stk: Stack, end: int, i: nat): Stack
    requires opt ==> OptStack(stk)
  {
    if opt then Push(Alt(stk.e.pc, i), stk.rest) else Push(Alt(end, i), stk)
  }

  lemma EnterLoop(m: Machine, base: int, test: Test, opt: bool, c: Code, pos: seq<int>, i: nat, stk: Stack)
    requires StepClosed(m) && CodeAt(m.C, base, LoopBlock(test, opt, c), pos) && (opt ==> OptStack(stk))
    requires var end := base + |LoopBlock(test, opt, c)|;
             if Passed(test, m.s, i) then Ends(m, Run(base + TestLen(test) + 1, i, LoopChoice(opt, stk, end, i)))
             else Ends(m, Run(end, i, stk))
    ensures Ends(m, Run(base, i, stk))
  {
    hide StepClosed, Ends, Step, CodeAt;
    LoopBlockParts(m.C, base, test, opt, c, pos);
    At(m, base + TestLen(test), Enter(opt, |c|), pos, i, stk);
    RunTest(m, base, test, 3 + |c|, pos, i, stk);
  }

  lemma {:induction false} SimulatesPlainLoop(m: Machine, G: seq<Tree>, pos: seq<int>, base: int, p: Tree, opt: bool,
        tt: Test, fl: CharSet, i: nat, stk: Stack, fuel: nat)
    requires !OneChar(p) && !TestDecides(G, p, fl)
    requires Placed(m, G, pos, base, Rep(p), opt, tt, fl, i, stk)
    requires Cont(m, base + |Gen(G, Rep(p), opt, tt, fl)|, stk, opt, fl, Match(G, Rep(p), m.s, i, fuel))
    ensures Ends(m, Run(base, i, stk))
    decreases fuel, 2
  {
    hide Gen, Match, WellFormed, AllWellFormed, GetFirst, HeadFail, FixedLen, CheckAux, TestFor, StepClosed, Ends,
         Step, CodeAt, RulesAt, GenRep, TestDecides, EntryTest, LoopBlock;
    var test := EntryTest(G, p);
    var c := Gen(G, p, false, NoTest, Full());
    var end := base + |LoopBlock(test, opt, c)|;
    ShapePlainLoop(G, p, opt, tt, fl);
    WellFormedParts(Rep(p), |G|);
    LoopBlockParts(m.C, base, test, opt, c, pos);
    MatchRep(G, p, m.s, i, fuel);
    RepNeverFails(G, p, m.s, i, fuel);
    ContTop(m, end, stk, opt, fl, Match(G, Rep(p), m.s, i, fuel));
    if Passed(test, m.s, i) {
      var top := LoopChoice(opt, stk, end, i);
      SimulatesLoop(m, G, pos, base + TestLen(test) + 1, p, top.e.pc, top.rest, i, fuel);
    } else if Match(G, p, m.s, i, fuel - 1).Ok? {
      TestAdmits(G, p, m.s, i, fuel - 1);
    }
    EnterLoop(m, base, test, opt, c, pos, i, stk);
  }

  lemma RepNeverFails(G: seq<Tree>, p: Tree, s: Subject, i: nat, fuel: nat)
    requires i <= |s| && Match(G, Rep(p), s, i, fuel) != OutOfFuel
    ensures Match(G, Rep(p), s, i, fuel).Ok?
  {
    hide Match;
    CheckAuxSound(G, 0, Rep(p), s, i, fuel);
  }

  /** A loop under a choice point: `resume` is where that choice continues once the body fails. */
  lemma {:induction false} SimulatesLoop(m: Machine, G: seq<Tree>, pos: seq<int>, l1: int, p: Tree, resume: int,
    rest: Stack, i: nat, fuel: nat)
    requires i <= |m.s| && StepClosed(m)
    requires AllWellFormed(G) && WellFormed(p, |G|) && RulesAt(m.C, G, pos)
    requires var c := Gen(G, p, false, NoTest, Full());
             CodeAt(m.C, l1, c, pos) && CodeAt(m.C, l1 + |c|, [IPartialCommit(-|c|)], pos)
    requires Match(G, Rep(p), m.s, i, fuel).Ok? && Ends(m, Run(resume, Match(G, Rep(p), m.s, i, fuel).pos, rest))
    ensures Ends(m, Run(l1, i, Push(Alt(resume, i), rest)))
    decreases fuel, 1
  {
    hide Gen, Match, WellFormed, AllWellFormed, GetFirst, HeadFail, FixedLen, CheckAux, TestFor, StepClosed, Ends,
         Step, CodeAt, RulesAt;
    var c := Gen(G, p, false, NoTest, Full());
    MatchRep(G, p, m.s, i, fuel);
    var r := Match(G, p, m.s, i, fuel - 1);
    var stk := Push(Alt(resume, i), rest);
    assert Unwind(stk) == Run(resume, i, rest);
    if r.Ok? {
      SimulatesLoop(m, G, pos, l1, p, resume, rest, r.pos, fuel - 1);
      At(m, l1 + |c|, IPartialCommit(-|c|), pos, r.pos, stk);
    }
    Simulates(m, G, pos, l1, p, false, NoTest, Full(), i, stk, fuel - 1);
  }

  // Grammars

  /** The block of a grammar. */
  lemma GrammarWiring(m: Machine, base: int, body: Code, rules: Code, pos: seq<int>, rulePos: seq<int>, i: nat,
        stk: Stack, n: nat, r: Result)
    requires StepClosed(m) && CodeAt(m.C, base, [ICall(2), IJmp(1 + |body|)] + rules, pos)
    requires CodeAt(m.C, base + 2 + n, [IRet], rulePos)
    requires r.Ok? ==> Ends(m, Run(base + 2 + |body|, r.pos, stk))
    requires r.Fail? ==> Ends(m, Unwind(stk))
    requires r != OutOfFuel
    ensures Cont(m, base + 2 + n, Push(Return(base + 1), stk), false, Full(), r)
    ensures Ends(m, Run(base + 2, i, Push(Return(base + 1), stk))) ==> Ends(m, Run(base, i, stk))
  {
    hide StepClosed, Ends, Step, CodeAt;
    assert [ICall(2), IJmp(1 + |body|)] == [ICall(2)] + [IJmp(1 + |body|)];
    Split3(m.C, base, [ICall(2)], [IJmp(1 + |body|)], rules, pos);
    if r.Ok? {
      At(m, base + 1, IJmp(1 + |body|), pos, r.pos, stk);
      At(m, base + 2 + n, IRet, rulePos, r.pos, Push(Return(base + 1), stk));
    }
    At(m, base, ICall(2), pos, i, stk);
  }

  lemma {:induction false} SimulatesGrammar(m: Machine, G: seq<Tree>, pos: seq<int>, base: int, rs: seq<Tree>,
        opt: bool, tt: Test, fl: CharSet, i: nat, stk: Stack, fuel: nat)
    requires |rs| > 0 && AllWellFormed(rs)
    requires Placed(m, G, pos, base, Grammar(rs), opt, tt, fl, i, stk)
    requires Cont(m, base + |Gen(G, Grammar(rs), opt, tt, fl)|, stk, opt, fl, Match(G, Grammar(rs), m.s, i, fuel))
    ensures Ends(m, Run(base, i, stk))
    decreases fuel, 2
  {
    hide Gen, Match, WellFormed, AllWellFormed, GetFirst, HeadFail, FixedLen, CheckAux, TestFor, StepClosed, Ends,
         Step, CodeAt, RulesAt, GenGrammar, GenRules, CorrectCalls, Positions;
    var body := GenRules(rs, rs);
    var rules := CorrectCalls(body, Positions(rs, rs, 0), 0);
    var rule := Gen(rs, rs[0], false, NoTest, Full());
    ShapeGrammar(G, rs, opt, tt, fl);
    MatchGrammar(G, rs, m.s, i, fuel);
    var r := Match(rs, rs[0], m.s, i, fuel - 1);
    Split(m.C, base, [ICall(2), IJmp(1 + |body|)], rules, pos);
    var rulePos := RulesPlaced(m.C, base + 2, rs, pos);
    RuleIsAt(m.C, rs, rulePos, 0);
    ContTop(m, base + 2 + |body|, stk, opt, fl, r);
    GrammarWiring(m, base, body, rules, pos, rulePos, i, stk, |rule|, r);
    Simulates(m, rs, rulePos, base + 2, rs[0], false, NoTest, Full(), i, Push(Return(base + 1), stk), fuel - 1);
  }

  /** The corrected code of a grammar at `b` holds all its rules, with their calls resolved. */
  lemma RulesPlaced(C: Code, b: int, rs: seq<Tree>, outer: seq<int>) returns (pos: seq<int>)
    requires |rs| > 0 && AllWellFormed(rs)
    requires CodeAt(C, b, CorrectCalls(GenRules(rs, rs), Positions(rs, rs, 0), 0), outer)
    ensures RulesAt(C, rs, pos) && pos[0] == b && CodeAt(C, b, GenRules(rs, rs), pos)
  {
    hide Gen, GenRules, CorrectCalls, Positions, WellFormed;
    var body := GenRules(rs, rs);
    var rel := Positions(rs, rs, 0);
    var D := CorrectCalls(body, rel, 0);
    GenRulesCalls(rs, rs, |rs|);
    CallsResolved(body, rel, 0);
    ShapeRules(rs, rs, 0);
    pos := seq(|rs|, k requires 0 <= k < |rs| => b + rel[k]);
    forall q | 0 <= q < |body| ensures Resolves(C, b + q, body[q], pos) {
      assert Resolves(D, q, body[q], rel);
      assert Resolves(C, b + q, D[q], outer);
      if body[q].IOpenCall? && D[q].IJmp? {
        var e: int, n: nat :| JumpChain(D, q + 1, e, n) && 0 <= e < |D| && D[e].IRet?;
        ChainShifts(D, C, b, outer, q + 1, e, n);
        assert Resolves(C, b + e, D[e], outer);
        assert JumpChain(C, b + q + 1, b + e, n) && C[b + e].IRet?;
      }
    }
    RulesSplit(C, b, rs, rs, 0, pos);
    forall k | 0 <= k < |rs| ensures RuleAt(C, rs, pos, k) {
      assert pos[k] == b + rel[k];
    }
  }

  lemma {:induction false} ChainShifts(D: Code, C: Code, b: int, outer: seq<int>, p: int, q: int, n: nat)
    requires CodeAt(C, b, D, outer) && JumpChain(D, p, q, n)
    ensures JumpChain(C, b + p, b + q, n)
    decreases n
  {
    if n > 0 {
      assert Resolves(C, b + p, D[p], outer);
      ChainShifts(D, C, b, outer, p + D[p].off, q, n - 1);
    }
  }

  lemma {:induction false} RulesSplit(C: Code, b: int, G: seq<Tree>, rs: seq<Tree>, start: nat, pos: seq<int>)
    requires CodeAt(C, b + start, GenRules(G, rs), pos)
    ensures forall k | 0 <= k < |rs| ::
              CodeAt(C, b + Positions(G, rs, start)[k], Gen(G, rs[k], false, NoTest, Full()) + [IRet], pos)
    decreases rs
  {
    hide Gen, GenRules, Positions, CodeAt;
    if rs != [] {
      var c := Gen(G, rs[0], false, NoTest, Full());
      ShapeRules(G, rs, start);
      Split(C, b + start, c + [IRet], GenRules(G, rs[1..]), pos);
      RulesSplit(C, b, G, rs[1..], start + |c| + 1, pos);
      var p := Positions(G, rs, start);
      forall k | 0 <= k < |rs|
        ensures CodeAt(C, b + p[k], Gen(G, rs[k], false, NoTest, Full()) + [IRet], pos)
      {
        if k > 0 { assert p[k] == Positions(G, rs[1..], start + |c| + 1)[k - 1] && rs[k] == rs[1..][k - 1]; }
      }
    }
  }

  /** `correctcalls` resolves every open call, and what it takes for a return stays one. */
  lemma {:induction false} CallsResolved(code: Code, rel: seq<nat>, i: nat)
    requires i <= |code|
    requires forall x | x in code && x.IOpenCall? :: x.k < |rel|
    ensures var D := CorrectCalls(code, rel, i);
            && |D| == |code|
            && (forall q | 0 <= q < i :: D[q] == code[q])
            && (forall q | i <= q < |code| :: Resolves(D, q, code[q], rel))
    decreases |code| - i
  {
    if i < |code| {
      var D := CorrectCalls(code, rel, i);
      if code[i].IOpenCall? {
        assert code[i] in code;
        var off := rel[code[i].k] - i;
        var instr := if ReturnsAt(code, i + 1) then IJmp(off) else ICall(off);
        var code' := code[i := instr];
        CallsResolved(code', rel, i + 1);
        forall q | i < q < |code| ensures Resolves(D, q, code[q], rel) { assert code'[q] == code[q]; }
        if ReturnsAt(code, i + 1) {
          var ft := FinalTarget(code, i + 1, |code|);
          forall q | 0 <= q < |code| && (code[q].IJmp? || code[q].IRet?) ensures D[q] == code[q] {
            assert q != i && code'[q] == code[q];
            if q > i { assert Resolves(D, q, code'[q], rel); }
          }
          var n := TargetChain(code, D, i + 1, |code|);
          assert D[ft].IRet?;
        }
      } else {
        CallsResolved(code, rel, i + 1);
      }
    }
  }

  /** `finaltarget` is reached by jumps, also in a code that agrees on the jumps. */
  lemma {:induction false} TargetChain(code: Code, D: Code, i: int, fuel: nat) returns (n: nat)
    requires |D| == |code| && forall q | 0 <= q < |code| && code[q].IJmp? :: D[q] == code[q]
    ensures JumpChain(D, i, FinalTarget(code, i, fuel), n)
    decreases fuel
  {
    if fuel > 0 && 0 <= i < |code| && code[i].IJmp? {
      n := TargetChain(code, D, i + code[i].off, fuel - 1);
      n := n + 1;
    } else {
      n := 0;
    }
  }

  ghost predicate CallsBelow(code: Code, n: nat) {
    forall x | x in code && x.IOpenCall? :: x.k < n
  }

  lemma {:induction false} GenRulesCalls(G: seq<Tree>, rs: seq<Tree>, n: nat)
    requires forall k | 0 <= k < |rs| :: WellFormed(rs[k], n)
    ensures CallsBelow(GenRules(G, rs), n)
    decreases rs, 1
  {
    if rs != [] {
      GenCalls(G, rs[0], false, NoTest, Full(), n);
      forall k | 0 <= k < |rs[1..]| ensures WellFormed(rs[1..][k], n) { assert rs[1..][k] == rs[k + 1]; }
      GenRulesCalls(G, rs[1..], n);
    }
  }

  /** Open calls in generated code name rules of the enclosing grammar. */
  lemma {:induction false} GenCalls(G: seq<Tree>, t: Tree, opt: bool, tt: Test, fl: CharSet, n: nat)
    requires WellFormed(t, n)
    ensures CallsBelow(Gen(G, t, opt, tt, fl), n)
    decreases t, 1
  {
    match t
    case Seq(p1, p2) =>
      GenCalls(G, p1, false, tt, SeqFollow(G, p1, p2, fl), n);
      GenCalls(G, p2, opt, SeqTest(G, p1, tt), fl, n);
    case Choice(_, _) => GenChoiceCalls(G, t, opt, fl, n);
    case Rep(_) => GenRepCalls(G, t, opt, fl, n);
    case Not(p) => GenCalls(G, p, false, NoTest, Full(), n);
    case And(p) => GenCalls(G, p, false, tt, Full(), n);
    case Behind(_, p) => GenCalls(G, p, false, NoTest, Full(), n);
    case Grammar(_) => GenGrammarCalls(t);
    case _ =>
  }

  lemma {:induction false} GenChoiceCalls(G: seq<Tree>, t: Tree, opt: bool, fl: CharSet, n: nat)
    requires t.Choice? && WellFormed(t, n)
    ensures CallsBelow(GenChoice(G, t, opt, fl), n)
    decreases t, 0
  {
    var Choice(p1, p2) := t;
    GenCalls(G, p1, false, DecidingTest(G, p1), fl, n);
    GenCalls(G, p1, true, NoTest, Full(), n);
    GenCalls(G, p1, p2.True?, EntryTest(G, p1), Full(), n);
    GenCalls(G, p2, opt, NoTest, fl, n);
  }

  lemma {:induction false} GenRepCalls(G: seq<Tree>, t: Tree, opt: bool, fl: CharSet, n: nat)
    requires t.Rep? && WellFormed(t, n)
    ensures CallsBelow(GenRep(G, t, opt, fl), n)
    decreases t, 0
  {
    GenCalls(G, t.p, false, DecidingTest(G, t.p), Full(), n);
    GenCalls(G, t.p, false, NoTest, Full(), n);
  }

  /** The calls of a grammar are resolved inside it. */
  lemma {:induction false} GenGrammarCalls(t: Tree)
    requires t.Grammar? && WellFormed(t, 0)
    ensures CallsBelow(GenGrammar(t), 0)
    decreases t, 0
  {
    var rs := t.rules;
    var body, rel := GenRules(rs, rs), Positions(rs, rs, 0);
    GenRulesCalls(rs, rs, |rs|);
    CallsResolved(body, rel, 0);
    var D := CorrectCalls(body, rel, 0);
    forall x | x in D ensures !x.IOpenCall? {
      var q :| 0 <= q < |D| && D[q] == x;
      assert Resolves(D, q, body[q], rel);
    }
  }

  /** Compiled code before `peephole`. */
  function Emit(t: Tree): Code {
    Gen([], t, false, NoTest, Full()) + [IEnd]
  }

  /** The machine whose set of states are those from which the run ends with `r`. */
  lemma EndingWith(C: Code, s: Subject, r: Result) returns (m: Machine)
    ensures m.C == C && m.s == s && StepClosed(m)
    ensures forall st: State {:trigger Ends(m, st)} :: Ends(m, st) <==> Halts(C, s, st, r)
  {
    hide Step;
    m := Machine(C, s, st => Halts(C, s, st, r));
    forall st: State | st.Run? ensures Ends(m, st) <==> Ends(m, Step(C, s, st)) { HaltsStep(C, s, st, r); }
  }

  /** Compiled code is placed at 0 and has no open call. */
  lemma EmitPlaced(t: Tree)
    requires WellFormed(t, 0)
    ensures CodeAt(Emit(t), 0, Gen([], t, false, NoTest, Full()), [])
    ensures var n := |Gen([], t, false, NoTest, Full())|; CodeAt(Emit(t), n, [IEnd], [])
  {
    hide Gen, WellFormed;
    var C, code := Emit(t), Gen([], t, false, NoTest, Full());
    assert C == code + [IEnd];
    GenCalls([], t, false, NoTest, Full(), 0);
    forall q | 0 <= q < |C| ensures Resolves(C, 0 + q, C[q], []) {
      if q < |code| { assert C[q] == code[q] && code[q] in code; }
    }
    Split(C, 0, code, [IEnd], []);
  }

  lemma EndHalts(m: Machine, n: nat, i: nat, r: Result)
    requires StepClosed(m) && CodeAt(m.C, n, [IEnd], []) && Ends(m, Done(r)) && r != OutOfFuel
    ensures Cont(m, n, Init(i).stk, false, Full(), r)
  {
    var stk := Init(i).stk;
    if r.Ok? {
      At(m, n, IEnd, [], r.pos, stk);
      assert Exec(IEnd, m.s, n, r.pos, stk) == Done(r);
    } else {
      assert Step(m.C, m.s, Run(GIVEUP, i, Bottom)) == Done(r);
    }
  }

  /** The code of a pattern run from any position ends with exactly the outcome of direct matching. */
  lemma EmitCorrect(t: Tree, s: Subject, i: nat, fuel: nat)
    requires WellFormed(t, 0) && i <= |s|
    requires Match([], t, s, i, fuel) != OutOfFuel
    ensures Halts(Emit(t), s, Init(i), Match([], t, s, i, fuel))
  {
    hide Gen, WellFormed, Match, StepClosed, Ends, Step, CodeAt, Halts;
    var r := Match([], t, s, i, fuel);
    var m := EndingWith(Emit(t), s, r);
    EmitPlaced(t);
    HaltsDone(Emit(t), s, r);
    EndHalts(m, |Gen([], t, false, NoTest, Full())|, i, r);
    Simulates(m, [], [], 0, t, false, NoTest, Full(), i, Init(i).stk, fuel);
  }
}
