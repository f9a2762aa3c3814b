/** What `verifygrammar` of lptree.c rejects, in terms of the trees alone: grammars with a left-recursive rule or with
    a loop whose body may be passed without advancing, and no others. */
module LpegLeftCalls {
  import opened LpegTree
  import opened LpegAnalysis
  import opened LpegCorrect
  import opened LpegVerify
  import opened Common

  /** May `t` be passed without advancing, by way of `n` nested calls at most? */
  predicate MayPass(G: seq<Tree>, n: nat, t: Tree)
    decreases n, t
  {
    match t
    case Char(_) => false
    case Set(_) => false
    case Any => false
    case False => false
    case True => true
    case Rep(_) => true
    case Not(_) => true
    case And(_) => true
    case Behind(_, _) => true
    case Seq(p1, p2) => MayPass(G, n, p1) && MayPass(G, n, p2)
    case Choice(p1, p2) => MayPass(G, n, p1) || MayPass(G, n, p2)
    case Call(k) => k < |G| && n > 0 && MayPass(G, n - 1, G[k])
    case Grammar(_) => Nullable(G, t)
  }

  ghost predicate Passable(G: seq<Tree>, t: Tree) {
    exists n: nat :: MayPass(G, n, t)
  }

  /** Does `t` call rule `k` in a place that is reached without advancing? */
  ghost predicate LeftCalls(G: seq<Tree>, t: Tree, k: nat)
    decreases t
  {
    match t
    case Call(j) => j == k
    case Rep(p) => LeftCalls(G, p, k)
    case Not(p) => LeftCalls(G, p, k)
    case And(p) => LeftCalls(G, p, k)
    case Seq(p1, p2) => LeftCalls(G, p1, k) || (Passable(G, p1) && LeftCalls(G, p2, k))
    case Choice(p1, p2) => LeftCalls(G, p1, k) || LeftCalls(G, p2, k)
    case _ => false
  }

  /** A chain of `n` left calls starts in `t`. */
  ghost predicate Chain(G: seq<Tree>, t: Tree, n: nat)
    decreases n
  {
    n == 0 || exists k: nat :: LeftCalls(G, t, k) && k < |G| && Chain(G, G[k], n - 1)
  }

  // `Passable` covers all that matching can do, and is what the checks compute

  lemma {:induction false} PassableSound(G: seq<Tree>, t: Tree, s: Subject, i: nat, fuel: nat)
    requires i <= |s| && Match(G, t, s, i, fuel) == Ok(i)
    ensures MayPass(G, fuel, t)
    decreases fuel
  {
    match t
    case Seq(p1, p2) =>
      PassableSound(G, p1, s, i, fuel - 1);
      PassableSound(G, p2, s, i, fuel - 1);
      MayPassMore(G, fuel - 1, fuel, p1);
      MayPassMore(G, fuel - 1, fuel, p2);
    case Choice(p1, p2) =>
      var p := if Match(G, p1, s, i, fuel - 1).Ok? then p1 else p2;
      PassableSound(G, p, s, i, fuel - 1);
      MayPassMore(G, fuel - 1, fuel, p);
    case Call(k) => PassableSound(G, G[k], s, i, fuel - 1);
    case Grammar(_) => CheckAuxSound(G, MAX_CALLS, t, s, i, fuel);
    case _ =>
  }

  lemma {:induction false} MayPassMore(G: seq<Tree>, n: nat, m: nat, t: Tree)
    requires n <= m && MayPass(G, n, t)
    ensures MayPass(G, m, t)
    decreases n, t
  {
    match t
    case Seq(p1, p2) =>
      MayPassMore(G, n, m, p1);
      MayPassMore(G, n, m, p2);
    case Choice(p1, p2) => if MayPass(G, n, p1) { MayPassMore(G, n, m, p1); } else { MayPassMore(G, n, m, p2); }
    case Call(k) => MayPassMore(G, n - 1, m - 1, G[k]);
    case _ =>
  }

  /** What `verifyrule` reports to be passable is; and the other way round, where it loses nothing. */
  lemma {:induction false} ReportsPassable(G: seq<Tree>, t: Tree, passed: nat, nb: bool)
    requires passed <= MAX_RULES && VerifyRule(G, t, passed, nb) == Accepted(true)
    ensures nb || MayPass(G, MAX_RULES - passed, t)
    decreases MAX_RULES - passed, t
  {
    match t
    case Seq(p1, p2) =>
      if VerifyRule(G, p1, passed, false) == Accepted(true) {
        ReportsPassable(G, p1, passed, false);
        ReportsPassable(G, p2, passed, nb);
      }
    case Choice(p1, p2) =>
      var nb1 := VerifyRule(G, p1, passed, nb).nb;
      ReportsPassable(G, p2, passed, nb1);
      if nb1 { ReportsPassable(G, p1, passed, nb); }
    case Call(k) => ReportsPassable(G, G[k], passed + 1, nb);
    case _ =>
  }

  lemma {:induction false} PassableReported(G: seq<Tree>, t: Tree, passed: nat, nb: bool, n: nat)
    requires passed <= MAX_RULES && VerifyRule(G, t, passed, nb).Accepted? && Keeps(G, t, passed, nb)
    requires nb || MayPass(G, n, t)
    ensures VerifyRule(G, t, passed, nb) == Accepted(true)
    decreases MAX_RULES - passed, t
  {
    match t
    case Seq(p1, p2) =>
      if nb || MayPass(G, n, p1) {
        if MayPass(G, n, p1) { PassableReported(G, p1, passed, false, n); }
        if VerifyRule(G, p1, passed, false).nb { PassableReported(G, p2, passed, nb, n); }
      }
    case Choice(p1, p2) =>
      if nb || MayPass(G, n, p1) { PassableReported(G, p1, passed, nb, n); }
      PassableReported(G, p2, passed, VerifyRule(G, p1, passed, nb).nb, n);
    case Rep(p) => PassableReported(G, p, passed, true, n);
    case Not(p) => PassableReported(G, p, passed, true, n);
    case And(p) => PassableReported(G, p, passed, true, n);
    case Call(k) => PassableReported(G, G[k], passed + 1, nb, if n > 0 then n - 1 else 0);
    case _ =>
  }

  // Rejected means a long chain of left calls

  lemma ChainPart(G: seq<Tree>, p: Tree, t: Tree, n: nat)
    requires Chain(G, p, n) && n > 0 && forall k: nat | LeftCalls(G, p, k) :: LeftCalls(G, t, k)
    ensures Chain(G, t, n)
  {
    var k: nat :| LeftCalls(G, p, k) && k < |G| && Chain(G, G[k], n - 1);
    assert LeftCalls(G, t, k);
  }

  lemma {:induction false} RejectedChain(G: seq<Tree>, t: Tree, passed: nat, nb: bool)
    requires AllWellFormed(G) && WellFormed(t, |G|)
    requires passed <= MAX_RULES && VerifyRule(G, t, passed, nb).Rejected?
    ensures Chain(G, t, MAX_RULES - passed + 1)
    decreases MAX_RULES - passed, t
  {
    var n := MAX_RULES - passed + 1;
    match t
    case Rep(p) =>
      RejectedChain(G, p, passed, true);
      ChainPart(G, p, t, n);
    case Not(p) =>
      RejectedChain(G, p, passed, true);
      ChainPart(G, p, t, n);
    case And(p) =>
      RejectedChain(G, p, passed, true);
      ChainPart(G, p, t, n);
    case Seq(p1, p2) =>
      if VerifyRule(G, p1, passed, false).Rejected? {
        RejectedChain(G, p1, passed, false);
        ChainPart(G, p1, t, n);
      } else {
        ReportsPassable(G, p1, passed, false);
        RejectedChain(G, p2, passed, nb);
        ChainPart(G, p2, t, n);
      }
    case Choice(p1, p2) =>
      var v1 := VerifyRule(G, p1, passed, nb);
      if v1.Rejected? {
        RejectedChain(G, p1, passed, nb);
        ChainPart(G, p1, t, n);
      } else {
        RejectedChain(G, p2, passed, v1.nb);
        ChainPart(G, p2, t, n);
      }
    case Call(k) =>
      assert LeftCalls(G, t, k);
      if passed < MAX_RULES { RejectedChain(G, G[k], passed + 1, nb); }
  }

  lemma {:induction false} ChainRejected(G: seq<Tree>, t: Tree, passed: nat, nb: bool)
    requires passed <= MAX_RULES && Keeps(G, t, passed, nb) && Chain(G, t, MAX_RULES - passed + 1)
    ensures VerifyRule(G, t, passed, nb).Rejected?
    decreases MAX_RULES - passed, t
  {
    var n := MAX_RULES - passed + 1;
    var k: nat :| LeftCalls(G, t, k) && k < |G| && Chain(G, G[k], n - 1);
    match t
    case Rep(p) =>
      assert Chain(G, p, n);
      ChainRejected(G, p, passed, true);
    case Not(p) =>
      assert Chain(G, p, n);
      ChainRejected(G, p, passed, true);
    case And(p) =>
      assert Chain(G, p, n);
      ChainRejected(G, p, passed, true);
    case Seq(p1, p2) =>
      if LeftCalls(G, p1, k) {
        assert Chain(G, p1, n);
        ChainRejected(G, p1, passed, false);
      } else if VerifyRule(G, p1, passed, false).Accepted? {
        var m: nat :| MayPass(G, m, p1);
        PassableReported(G, p1, passed, false, m);
        assert Chain(G, p2, n);
        ChainRejected(G, p2, passed, nb);
      }
    case Choice(p1, p2) =>
      if LeftCalls(G, p1, k) {
        assert Chain(G, p1, n);
        ChainRejected(G, p1, passed, nb);
      } else if VerifyRule(G, p1, passed, nb).Accepted? {
        assert Chain(G, p2, n);
        ChainRejected(G, p2, passed, VerifyRule(G, p1, passed, nb).nb);
      }
    case Call(j) => if passed < MAX_RULES { ChainRejected(G, G[k], passed + 1, nb); }
  }

  /** What `verifyrule` answers for a pattern, after `passed` rules: an error if and only if a chain of left calls
      goes on beyond the limit, otherwise whether it knew or the pattern may be passed without advancing. */
  lemma VerifyRuleExact(G: seq<Tree>, t: Tree, passed: nat, nb: bool)
    requires AllWellFormed(G) && WellFormed(t, |G|) && passed <= MAX_RULES && Keeps(G, t, passed, nb)
    ensures VerifyRule(G, t, passed, nb)
            == if Chain(G, t, MAX_RULES - passed + 1) then Rejected else Accepted(nb || Passable(G, t))
  {
    if VerifyRule(G, t, passed, nb).Rejected? {
      RejectedChain(G, t, passed, nb);
    } else {
      if Chain(G, t, MAX_RULES - passed + 1) { ChainRejected(G, t, passed, nb); }
      if nb || Passable(G, t) {
        var n: nat :| nb || MayPass(G, n, t);
        PassableReported(G, t, passed, nb, n);
      } else if VerifyRule(G, t, passed, nb).nb {
        ReportsPassable(G, t, passed, nb);
      }
    }
  }

  // A long chain of left calls means left recursion

  /** Each rule of the path calls the next one before it advances. */
  ghost predicate LeftPath(G: seq<Tree>, path: seq<nat>) {
    && (forall i | 0 <= i < |path| :: path[i] < |G|)
    && (forall i, j | 0 <= i < j < |path| && j == i + 1 :: LeftCalls(G, G[path[i]], path[j]))
  }

  /** Rule `k` may come to itself again without advancing. */
  ghost predicate LeftRecursive(G: seq<Tree>, k: nat) {
    exists path: seq<nat> :: LeftPath(G, path) && |path| > 1 && path[0] == k && path[|path| - 1] == k
  }

  lemma {:induction false} ChainPath(G: seq<Tree>, k: nat, n: nat) returns (path: seq<nat>)
    requires k < |G| && Chain(G, G[k], n)
    ensures LeftPath(G, path) && |path| == n + 1 && path[0] == k
    decreases n
  {
    if n == 0 {
      path := [k];
    } else {
      var j: nat :| LeftCalls(G, G[k], j) && j < |G| && Chain(G, G[j], n - 1);
      path := ChainPath(G, j, n - 1);
      path := [k] + path;
    }
  }

  /** Of more than `n` numbers below `n` two are equal. */
  lemma Pigeonhole(path: seq<nat>, n: nat) returns (i: nat, j: nat)
    requires |path| > n && forall i | 0 <= i < |path| :: path[i] < n
    ensures i < j < |path| && path[i] == path[j]
  {
    var all := NumbersBelow(n);
    var seen: set<int> := {};
    j := 0;
    while path[j] !in seen
      invariant j < |path| && |seen| == j && seen <= all && forall x | x in seen :: x in path[..j]
      decreases |path| - j
    {
      seen := seen + {path[j]};
      SubsetSize(seen, all);
      assert path[..j + 1] == path[..j] + [path[j]];
      j := j + 1;
    }
    assert path[j] in path[..j];
    i :| 0 <= i < j && path[i] == path[j];
  }

  lemma PathPart(G: seq<Tree>, path: seq<nat>, i: nat, j: nat)
    requires LeftPath(G, path) && i <= j <= |path|
    ensures LeftPath(G, path[i..j])
  {
  }

  /** Left calls lead from rule `k` to a left-recursive rule. */
  ghost predicate ReachesRecursion(G: seq<Tree>, k: nat) {
    exists path: seq<nat> ::
      LeftPath(G, path) && |path| > 0 && path[0] == k && LeftRecursive(G, path[|path| - 1])
  }

  /** Going round a cycle of left calls takes no end. */
  lemma {:induction false} CycleChain(G: seq<Tree>, path: seq<nat>, at: nat, n: nat)
    requires LeftPath(G, path) && |path| > 1 && path[0] == path[|path| - 1] && at < |path|
    ensures Chain(G, G[path[at]], n)
    decreases n
  {
    if n > 0 {
      var i := if at + 1 < |path| then at else 0;
      CycleChain(G, path, i + 1, n - 1);
      assert LeftCalls(G, G[path[i]], path[i + 1]);
    }
  }

  lemma {:induction false} ReachesChain(G: seq<Tree>, path: seq<nat>, n: nat)
    requires LeftPath(G, path) && |path| > 0 && LeftRecursive(G, path[|path| - 1])
    ensures Chain(G, G[path[0]], n)
    decreases n
  {
    if |path| == 1 {
      var cycle: seq<nat> :|
        LeftPath(G, cycle) && |cycle| > 1 && cycle[0] == path[0] && cycle[|cycle| - 1] == path[0];
      CycleChain(G, cycle, 0, n);
    } else if n > 0 {
      PathPart(G, path, 1, |path|);
      ReachesChain(G, path[1..], n - 1);
      assert LeftCalls(G, G[path[0]], path[1]);
    }
  }

  /** A chain with more rules than there are comes to a left-recursive rule. */
  lemma ChainReaches(G: seq<Tree>, k: nat, n: nat)
    requires k < |G| <= n && Chain(G, G[k], n)
    ensures ReachesRecursion(G, k)
  {
    var path := ChainPath(G, k, n);
    var i, j := Pigeonhole(path, |G|);
    PathPart(G, path, i, j + 1);
    PathPart(G, path, 0, i + 1);
    var cycle, start := path[i..j + 1], path[..i + 1];
    assert LeftPath(G, cycle) && cycle[0] == path[i] && cycle[|cycle| - 1] == path[i];
    assert LeftRecursive(G, path[i]);
    assert LeftPath(G, start) && start[0] == k && start[|start| - 1] == path[i];
  }

  /** `verifyrule` rejects a rule only if it leads to left recursion; if it loses nothing there, exactly then. */
  lemma RejectedIffRecursion(G: seq<Tree>, k: nat)
    requires AllWellFormed(G) && k < |G| <= MAX_RULES
    ensures VerifyRule(G, G[k], 0, false).Rejected? ==> ReachesRecursion(G, k)
    ensures Keeps(G, G[k], 0, false) && ReachesRecursion(G, k) ==> VerifyRule(G, G[k], 0, false).Rejected?
  {
    assert WellFormed(G[k], |G|);
    if VerifyRule(G, G[k], 0, false).Rejected? {
      RejectedChain(G, G[k], 0, false);
      ChainReaches(G, k, MAX_RULES + 1);
    }
    if Keeps(G, G[k], 0, false) && ReachesRecursion(G, k) {
      var path: seq<nat> :|
        LeftPath(G, path) && |path| > 0 && path[0] == k && LeftRecursive(G, path[|path| - 1]);
      ReachesChain(G, path, MAX_RULES + 1);
      ChainRejected(G, G[k], 0, false);
    }
  }

  // Loops

  /** `p` is `t` or a part of it, but not of a grammar inside `t`. */
  predicate Inside(p: Tree, t: Tree)
    decreases t
  {
    p == t ||
    match t
    case Rep(q) => Inside(p, q)
    case Not(q) => Inside(p, q)
    case And(q) => Inside(p, q)
    case Behind(_, q) => Inside(p, q)
    case Seq(q1, q2) => Inside(p, q1) || Inside(p, q2)
    case Choice(q1, q2) => Inside(p, q1) || Inside(p, q2)
    case _ => false
  }

  lemma {:induction false} LoopFound(G: seq<Tree>, t: Tree)
    ensures CheckLoops(G, t) <==> exists p :: Inside(Rep(p), t) && Nullable(G, p)
    decreases t
  {
    match t
    case Rep(p) =>
      LoopFound(G, p);
      if Nullable(G, p) { assert Inside(Rep(p), t); }
    case Not(p) => LoopFound(G, p);
    case And(p) => LoopFound(G, p);
    case Behind(_, p) => LoopFound(G, p);
    case Seq(p1, p2) =>
      LoopFound(G, p1);
      LoopFound(G, p2);
    case Choice(p1, p2) =>
      LoopFound(G, p1);
      LoopFound(G, p2);
    case _ =>
  }

  lemma {:induction false} PassableNullable(G: seq<Tree>, n: nat, calls: nat, t: Tree)
    requires MayPass(G, n, t)
    ensures CheckAux(G, calls, t, Nullability)
    decreases n, t
  {
    match t
    case Seq(p1, p2) =>
      PassableNullable(G, n, calls, p1);
      PassableNullable(G, n, calls, p2);
    case Choice(p1, p2) =>
      if MayPass(G, n, p1) { PassableNullable(G, n, calls, p1); } else { PassableNullable(G, n, calls, p2); }
    case Call(k) => if calls > 0 { PassableNullable(G, n - 1, calls - 1, G[k]); }
    case _ =>
  }

  /** In a position that `verifyrule` accepts the walk of `nullable` does not run out of calls. */
  lemma {:induction false} NullableLeft(G: seq<Tree>, t: Tree, passed: nat, nb: bool, calls: nat)
    requires passed <= MAX_RULES && VerifyRule(G, t, passed, nb).Accepted? && Keeps(G, t, passed, nb)
    requires calls >= MAX_RULES - passed && CheckAux(G, calls, t, Nullability)
    ensures MayPass(G, calls, t)
    decreases MAX_RULES - passed, t
  {
    match t
    case Seq(p1, p2) =>
      NullableLeft(G, p1, passed, false, calls);
      PassableReported(G, p1, passed, false, calls);
      NullableLeft(G, p2, passed, nb, calls);
    case Choice(p1, p2) =>
      if CheckAux(G, calls, p1, Nullability) {
        NullableLeft(G, p1, passed, nb, calls);
      } else {
        NullableLeft(G, p2, passed, VerifyRule(G, p1, passed, nb).nb, calls);
      }
    case Call(k) => NullableLeft(G, G[k], passed + 1, nb, calls - 1);
    case _ =>
  }

  ghost predicate RulesAccepted(G: seq<Tree>) {
    forall k | 0 <= k < |G| && Used(G, k) :: VerifyRule(G, G[k], 0, false).Accepted?
  }

  lemma {:induction false} NullablePasses(G: seq<Tree>, t: Tree)
    requires RulesAccepted(G) && KeepsAll(G) && CallsUsed(G, t) && Nullable(G, t)
    ensures MayPass(G, MAX_CALLS, t)
    decreases t
  {
    match t
    case Seq(p1, p2) =>
      CallsUsedPart(G, p1, t);
      CallsUsedPart(G, p2, t);
      NullablePasses(G, p1);
      NullablePasses(G, p2);
    case Choice(p1, p2) =>
      CallsUsedPart(G, p1, t);
      CallsUsedPart(G, p2, t);
      if Nullable(G, p1) { NullablePasses(G, p1); } else { NullablePasses(G, p2); }
    case Call(k) =>
      assert Mentions(t, k);
      NullableLeft(G, G[k], 0, false, MAX_CALLS - 1);
    case _ =>
  }

  lemma CallsUsedPart(G: seq<Tree>, p: Tree, t: Tree)
    requires CallsUsed(G, t) && PartOf(p, t)
    ensures CallsUsed(G, p)
  {
    forall k: nat | Mentions(p, k) ensures k < |G| && Used(G, k) { assert Mentions(t, k); }
  }

  /** There, `nullable` tells exactly what may be passed without advancing. */
  lemma NullableExact(G: seq<Tree>, t: Tree)
    requires RulesAccepted(G) && KeepsAll(G) && CallsUsed(G, t)
    ensures Nullable(G, t) <==> Passable(G, t)
  {
    if Nullable(G, t) { NullablePasses(G, t); }
    if n: nat :| MayPass(G, n, t) { PassableNullable(G, n, MAX_CALLS, t); }
  }

  lemma {:induction false} MentionsInside(p: Tree, t: Tree, k: nat)
    requires Inside(p, t) && Mentions(p, k)
    ensures Mentions(t, k)
    decreases t
  {
    if p != t {
      match t
      case Rep(q) => MentionsInside(p, q, k);
      case Not(q) => MentionsInside(p, q, k);
      case And(q) => MentionsInside(p, q, k);
      case Behind(_, q) => MentionsInside(p, q, k);
      case Seq(q1, q2) => if Inside(p, q1) { MentionsInside(p, q1, k); } else { MentionsInside(p, q2, k); }
      case Choice(q1, q2) => if Inside(p, q1) { MentionsInside(p, q1, k); } else { MentionsInside(p, q2, k); }
    }
  }

  lemma {:induction false} LeftCallsMentioned(G: seq<Tree>, t: Tree, k: nat)
    requires LeftCalls(G, t, k)
    ensures Mentions(t, k)
    decreases t
  {
    match t
    case Rep(p) => LeftCallsMentioned(G, p, k);
    case Not(p) => LeftCallsMentioned(G, p, k);
    case And(p) => LeftCallsMentioned(G, p, k);
    case Seq(p1, p2) => if LeftCalls(G, p1, k) { LeftCallsMentioned(G, p1, k); } else { LeftCallsMentioned(G, p2, k); }
    case Choice(p1, p2) =>
      if LeftCalls(G, p1, k) { LeftCallsMentioned(G, p1, k); } else { LeftCallsMentioned(G, p2, k); }
    case Call(_) =>
  }

  /** A loop in `t`, outside of the grammars in it, whose body may be passed without advancing. */
  ghost predicate EmptyLoop(G: seq<Tree>, t: Tree) {
    exists p :: Inside(Rep(p), t) && Passable(G, p)
  }

  lemma LoopsExact(G: seq<Tree>, k: nat)
    requires AllWellFormed(G) && k < |G| && Used(G, k) && RulesAccepted(G) && KeepsAll(G)
    ensures CheckLoops(G, G[k]) <==> EmptyLoop(G, G[k])
  {
    var t := G[k];
    assert WellFormed(t, |G|);
    LoopFound(G, t);
    forall p | Inside(Rep(p), t) ensures Nullable(G, p) <==> Passable(G, p) {
      forall j: nat | Mentions(p, j) ensures j < |G| && Used(G, j) {
        assert Mentions(Rep(p), j);
        MentionsInside(Rep(p), t, j);
        MentionsBelow(t, j, |G|);
        assert Mentions(G[k], j);
      }
      NullableExact(G, p);
    }
  }

  ghost predicate NoRecursion(G: seq<Tree>) {
    forall k: nat | k < |G| && Used(G, k) :: !LeftRecursive(G, k)
  }

  lemma {:induction false} PathUsed(G: seq<Tree>, path: seq<nat>)
    requires LeftPath(G, path) && |path| > 0 && Used(G, path[0])
    ensures Used(G, path[|path| - 1])
    decreases |path|
  {
    if |path| > 1 {
      assert LeftCalls(G, G[path[0]], path[1]);
      LeftCallsMentioned(G, G[path[0]], path[1]);
      assert Mentions(G[path[0]], path[1]);
      PathPart(G, path, 1, |path|);
      PathUsed(G, path[1..]);
    }
  }

  lemma AcceptedIffNoRecursion(G: seq<Tree>)
    requires AllWellFormed(G) && |G| <= MAX_RULES
    ensures NoRecursion(G) ==> RulesAccepted(G)
    ensures KeepsAll(G) && RulesAccepted(G) ==> NoRecursion(G)
  {
    forall k: nat | k < |G| && Used(G, k)
      ensures VerifyRule(G, G[k], 0, false).Rejected? ==> exists j: nat :: j < |G| && Used(G, j) && LeftRecursive(G, j)
      ensures KeepsAll(G) && LeftRecursive(G, k) ==> VerifyRule(G, G[k], 0, false).Rejected?
    {
      RejectedIffRecursion(G, k);
      if ReachesRecursion(G, k) {
        var path: seq<nat> :|
          LeftPath(G, path) && |path| > 0 && path[0] == k && LeftRecursive(G, path[|path| - 1]);
        PathUsed(G, path);
      }
      if LeftRecursive(G, k) {
        assert LeftPath(G, [k]) && [k][0] == k && LeftRecursive(G, [k][|[k]| - 1]);
      }
    }
  }

  lemma {:induction false} MentionsCall(t: Tree, k: nat)
    ensures Mentions(t, k) <==> Inside(Call(k), t)
    decreases t
  {
    match t
    case Rep(p) => MentionsCall(p, k);
    case Not(p) => MentionsCall(p, k);
    case And(p) => MentionsCall(p, k);
    case Behind(_, p) => MentionsCall(p, k);
    case Seq(p1, p2) =>
      MentionsCall(p1, k);
      MentionsCall(p2, k);
    case Choice(p1, p2) =>
      MentionsCall(p1, k);
      MentionsCall(p2, k);
    case _ =>
  }

  /** Rule `k` is the initial one, or some rule calls it. */
  predicate Called(G: seq<Tree>, k: nat) {
    k == 0 || exists j {:trigger G[j]} | 0 <= j < |G| :: Inside(Call(k), G[j])
  }

  lemma UsedCalled(G: seq<Tree>, k: nat)
    ensures Used(G, k) <==> Called(G, k)
  {
    forall j | 0 <= j < |G| ensures Mentions(G[j], k) <==> Inside(Call(k), G[j]) { MentionsCall(G[j], k); }
    if j :| 0 <= j < |G| && Inside(Call(k), G[j]) { assert Mentions(G[j], k); }
    if j :| 0 <= j < |G| && Mentions(G[j], k) { assert Inside(Call(k), G[j]); }
  }

  /** `verifygrammar` raises an error only for left recursion or a loop that need not advance, in a rule that is called;
      and where `verifyrule` loses nothing, for each of them. */
  lemma VerifyGrammarExact(G: seq<Tree>)
    requires AllWellFormed(G) && |G| <= MAX_RULES && KeepsAll(G)
    ensures VerifyGrammar(G)
            <==> forall k: nat | k < |G| && Called(G, k) :: !LeftRecursive(G, k) && !EmptyLoop(G, G[k])
  {
    AcceptedIffNoRecursion(G);
    forall k: nat ensures Used(G, k) <==> Called(G, k) { UsedCalled(G, k); }
    if RulesAccepted(G) {
      forall k: nat | k < |G| && Used(G, k) ensures CheckLoops(G, G[k]) <==> EmptyLoop(G, G[k]) { LoopsExact(G, k); }
    }
  }
}
