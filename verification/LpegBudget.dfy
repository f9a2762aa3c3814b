/** The analyses of lpcode.c go from call to rule without a bound. Here each is a walk that gives up when it needs more
    than a given number of nested calls: in a sound grammar no walk gives up, and its answer is that of LpegAnalysis.
    `fixedlen`, which marks the call nodes on its way, has the answer of LpegAnalysis in any grammar. */
module LpegBudget {
  import opened Common
  import opened LpegTree
  import opened LpegAnalysis
  import opened LpegCorrect
  import opened LpegVerify

  // The walks: `n` nested calls are allowed on the way down, `cap` in each walk that starts anew

  function CheckAuxWalk(G: seq<Tree>, cap: nat, n: nat, t: Tree, pred: Property): Option<bool>
    decreases Level(G, t), n, t
  {
    match t
    case Char(_) => Some(false)
    case Set(_) => Some(false)
    case Any => Some(false)
    case False => Some(false)
    case Rep(_) => Some(true)
    case True => Some(true)
    case Not(_) => Some(pred.Nullability?)
    case Behind(_, _) => Some(pred.Nullability?)
    case And(p) => if pred.Nullability? then Some(true) else CheckAuxWalk(G, cap, n, p, pred)
    case Seq(p1, p2) =>
      var b := CheckAuxWalk(G, cap, n, p1, pred);
      if b == Some(true) then CheckAuxWalk(G, cap, n, p2, pred) else b
    case Choice(p1, p2) =>
      var b := CheckAuxWalk(G, cap, n, p2, pred);
      if b == Some(false) then CheckAuxWalk(G, cap, n, p1, pred) else b
    case Grammar(rs) => if |rs| > 0 then CheckAuxWalk(rs, cap, cap, rs[0], pred) else None
    case Call(k) => if k < |G| && n > 0 then CheckAuxWalk(G, cap, n - 1, G[k], pred) else None
  }

  /** The bodies of predicates and look-behinds are visited too, although the set does not depend on them. */
  function GetFirstWalk(G: seq<Tree>, cap: nat, n: nat, t: Tree, follow: CharSet): Option<First>
    decreases Level(G, t), n, t
  {
    match t
    case Char(c) => Some(First(false, {c}))
    case Set(cs) => Some(First(false, cs))
    case Any => Some(First(false, Full()))
    case False => Some(First(false, {}))
    case True => Some(First(true, follow))
    case Choice(p1, p2) =>
      var f1, f2 := GetFirstWalk(G, cap, n, p1, follow), GetFirstWalk(G, cap, n, p2, follow);
      if f1.None? || f2.None? then None else Some(First(f1.value.empty || f2.value.empty, f1.value.cs + f2.value.cs))
    case Seq(p1, p2) =>
      var nullable := CheckAuxWalk(G, cap, cap, p1, Nullability);
      if nullable.None? then None
      else if !nullable.value then GetFirstWalk(G, cap, n, p1, Full())
      else
        var f2 := GetFirstWalk(G, cap, n, p2, follow);
        if f2.None? then None
        else
          var f1 := GetFirstWalk(G, cap, n, p1, f2.value.cs);
          if f1.None? then None else Some(First(f1.value.empty && f2.value.empty, f1.value.cs))
    case Rep(p) =>
      var f := GetFirstWalk(G, cap, n, p, follow);
      if f.None? then None else Some(First(true, f.value.cs + follow))
    case Grammar(rs) => if |rs| > 0 then GetFirstWalk(rs, cap, cap, rs[0], follow) else None
    case Call(k) => if k < |G| && n > 0 then GetFirstWalk(G, cap, n - 1, G[k], follow) else None
    case And(p) =>
      var f := GetFirstWalk(G, cap, n, p, follow);
      if f.None? then None else Some(First(f.value.empty, f.value.cs * follow))
    case Not(p) =>
      if ToCharSet(p).0 then Some(First(true, Full() - ToCharSet(p).1))
      else if GetFirstWalk(G, cap, n, p, follow).None? then None
      else Some(First(true, follow))
    case Behind(_, p) => if GetFirstWalk(G, cap, n, p, follow).None? then None else Some(First(true, follow))
  }

  function HeadFailWalk(G: seq<Tree>, cap: nat, n: nat, t: Tree): Option<bool>
    decreases Level(G, t), n, t
  {
    match t
    case Char(_) => Some(true)
    case Set(_) => Some(true)
    case Any => Some(true)
    case False => Some(true)
    case True => Some(false)
    case Rep(_) => Some(false)
    case Not(_) => Some(false)
    case Behind(_, _) => Some(false)
    case And(p) => HeadFailWalk(G, cap, n, p)
    case Grammar(rs) => if |rs| > 0 then HeadFailWalk(rs, cap, cap, rs[0]) else None
    case Call(k) => if k < |G| && n > 0 then HeadFailWalk(G, cap, n - 1, G[k]) else None
    case Seq(p1, p2) =>
      var b := CheckAuxWalk(G, cap, cap, p2, NeverFails);
      if b == Some(true) then HeadFailWalk(G, cap, n, p1) else b
    case Choice(p1, p2) =>
      var b := HeadFailWalk(G, cap, n, p1);
      if b == Some(true) then HeadFailWalk(G, cap, n, p2) else b
  }

  // A walk that ends has the answer of the analysis, and more calls do not change it

  lemma {:induction false} CheckAuxValue(G: seq<Tree>, n: nat, t: Tree, pred: Property)
    requires CheckAuxWalk(G, MAX_CALLS, n, t, pred).Some?
    ensures CheckAux(G, n, t, pred) == CheckAuxWalk(G, MAX_CALLS, n, t, pred).value
    decreases Level(G, t), n, t
  {
    match t
    case And(p) => if pred.NeverFails? { CheckAuxValue(G, n, p, pred); }
    case Seq(p1, p2) =>
      CheckAuxValue(G, n, p1, pred);
      if CheckAux(G, n, p1, pred) { CheckAuxValue(G, n, p2, pred); }
    case Choice(p1, p2) =>
      CheckAuxValue(G, n, p2, pred);
      if !CheckAux(G, n, p2, pred) { CheckAuxValue(G, n, p1, pred); }
    case Grammar(rs) => CheckAuxValue(rs, MAX_CALLS, rs[0], pred);
    case Call(k) => CheckAuxValue(G, n - 1, G[k], pred);
    case _ =>
  }

  lemma {:induction false} CheckAuxMore(G: seq<Tree>, cap: nat, n: nat, cap': nat, n': nat, t: Tree, pred: Property)
    requires cap <= cap' && n <= n' && CheckAuxWalk(G, cap, n, t, pred).Some?
    ensures CheckAuxWalk(G, cap', n', t, pred) == CheckAuxWalk(G, cap, n, t, pred)
    decreases Level(G, t), n, t
  {
    match t
    case And(p) => if pred.NeverFails? { CheckAuxMore(G, cap, n, cap', n', p, pred); }
    case Seq(p1, p2) =>
      CheckAuxMore(G, cap, n, cap', n', p1, pred);
      if CheckAuxWalk(G, cap, n, p1, pred).value { CheckAuxMore(G, cap, n, cap', n', p2, pred); }
    case Choice(p1, p2) =>
      CheckAuxMore(G, cap, n, cap', n', p2, pred);
      if !CheckAuxWalk(G, cap, n, p2, pred).value { CheckAuxMore(G, cap, n, cap', n', p1, pred); }
    case Grammar(rs) => CheckAuxMore(rs, cap, cap, cap', cap', rs[0], pred);
    case Call(k) => CheckAuxMore(G, cap, n - 1, cap', n' - 1, G[k], pred);
    case _ =>
  }

  lemma {:induction false} GetFirstValue(G: seq<Tree>, n: nat, t: Tree, follow: CharSet)
    requires GetFirstWalk(G, MAX_CALLS, n, t, follow).Some?
    ensures GetFirst(G, n, t, follow) == GetFirstWalk(G, MAX_CALLS, n, t, follow).value
    decreases Level(G, t), n, t
  {
    match t
    case Choice(p1, p2) =>
      GetFirstValue(G, n, p1, follow);
      GetFirstValue(G, n, p2, follow);
    case Seq(p1, p2) =>
      CheckAuxValue(G, MAX_CALLS, p1, Nullability);
      if Nullable(G, p1) {
        GetFirstValue(G, n, p2, follow);
        GetFirstValue(G, n, p1, GetFirst(G, n, p2, follow).cs);
      } else {
        GetFirstValue(G, n, p1, Full());
      }
    case Rep(p) => GetFirstValue(G, n, p, follow);
    case And(p) => GetFirstValue(G, n, p, follow);
    case Grammar(rs) => GetFirstValue(rs, MAX_CALLS, rs[0], follow);
    case Call(k) => GetFirstValue(G, n - 1, G[k], follow);
    case _ =>
  }

  lemma {:induction false} GetFirstMore(G: seq<Tree>, cap: nat, n: nat, cap': nat, n': nat, t: Tree, follow: CharSet)
    requires cap <= cap' && n <= n' && GetFirstWalk(G, cap, n, t, follow).Some?
    ensures GetFirstWalk(G, cap', n', t, follow) == GetFirstWalk(G, cap, n, t, follow)
    decreases Level(G, t), n, t
  {
    match t
    case Choice(p1, p2) =>
      GetFirstMore(G, cap, n, cap', n', p1, follow);
      GetFirstMore(G, cap, n, cap', n', p2, follow);
    case Seq(p1, p2) =>
      CheckAuxMore(G, cap, cap, cap', cap', p1, Nullability);
      if CheckAuxWalk(G, cap, cap, p1, Nullability).value {
        GetFirstMore(G, cap, n, cap', n', p2, follow);
        GetFirstMore(G, cap, n, cap', n', p1, GetFirstWalk(G, cap, n, p2, follow).value.cs);
      } else {
        GetFirstMore(G, cap, n, cap', n', p1, Full());
      }
    case Rep(p) => GetFirstMore(G, cap, n, cap', n', p, follow);
    case And(p) => GetFirstMore(G, cap, n, cap', n', p, follow);
    case Not(p) => if !ToCharSet(p).0 { GetFirstMore(G, cap, n, cap', n', p, follow); }
    case Behind(_, p) => GetFirstMore(G, cap, n, cap', n', p, follow);
    case Grammar(rs) => GetFirstMore(rs, cap, cap, cap', cap', rs[0], follow);
    case Call(k) => GetFirstMore(G, cap, n - 1, cap', n' - 1, G[k], follow);
    case _ =>
  }

  lemma {:induction false} HeadFailValue(G: seq<Tree>, n: nat, t: Tree)
    requires HeadFailWalk(G, MAX_CALLS, n, t).Some?
    ensures HeadFail(G, n, t) == HeadFailWalk(G, MAX_CALLS, n, t).value
    decreases Level(G, t), n, t
  {
    match t
    case And(p) => HeadFailValue(G, n, p);
    case Seq(p1, p2) =>
      CheckAuxValue(G, MAX_CALLS, p2, NeverFails);
      if NoFail(G, p2) { HeadFailValue(G, n, p1); }
    case Choice(p1, p2) =>
      HeadFailValue(G, n, p1);
      if HeadFail(G, n, p1) { HeadFailValue(G, n, p2); }
    case Grammar(rs) => HeadFailValue(rs, MAX_CALLS, rs[0]);
    case Call(k) => HeadFailValue(G, n - 1, G[k]);
    case _ =>
  }

  lemma {:induction false} HeadFailMore(G: seq<Tree>, cap: nat, n: nat, cap': nat, n': nat, t: Tree)
    requires cap <= cap' && n <= n' && HeadFailWalk(G, cap, n, t).Some?
    ensures HeadFailWalk(G, cap', n', t) == HeadFailWalk(G, cap, n, t)
    decreases Level(G, t), n, t
  {
    match t
    case And(p) => HeadFailMore(G, cap, n, cap', n', p);
    case Seq(p1, p2) =>
      CheckAuxMore(G, cap, cap, cap', cap', p2, NeverFails);
      if CheckAuxWalk(G, cap, cap, p2, NeverFails).value { HeadFailMore(G, cap, n, cap', n', p1); }
    case Choice(p1, p2) =>
      HeadFailMore(G, cap, n, cap', n', p1);
      if HeadFailWalk(G, cap, n, p1).value { HeadFailMore(G, cap, n, cap', n', p2); }
    case Grammar(rs) => HeadFailMore(rs, cap, cap, cap', cap', rs[0]);
    case Call(k) => HeadFailMore(G, cap, n - 1, cap', n' - 1, G[k]);
    case _ =>
  }

  // No walk gives up in a sound grammar

  /** A part of a rule: its calls name rules that are in use. */
  ghost predicate Part(G: seq<Tree>, t: Tree) {
    Tame(t) && CallsUsed(G, t)
  }

  lemma PartsOf(G: seq<Tree>, t: Tree)
    requires Part(G, t)
    ensures t.Rep? || t.Not? || t.And? || t.Behind? ==> Part(G, t.p)
    ensures t.Seq? || t.Choice? ==> Part(G, t.p1) && Part(G, t.p2)
    ensures t.Call? ==> t.k < |G| && Used(G, t.k)
  {
    if t.Rep? || t.Not? || t.And? || t.Behind? { SubPart(G, t, t.p); }
    if t.Seq? || t.Choice? { SubPart(G, t, t.p1); SubPart(G, t, t.p2); }
    if t.Call? { assert Mentions(t, t.k); }
  }

  lemma SubPart(G: seq<Tree>, t: Tree, p: Tree)
    requires Part(G, t) && PartOf(p, t)
    ensures Part(G, p)
  {
    forall k: nat | Mentions(p, k) ensures k < |G| && Used(G, k) { assert Mentions(t, k); }
  }

  lemma RuleIsPart(G: seq<Tree>, k: nat)
    requires Sound(G) && k < |G|
    ensures Part(G, G[k])
  {
    assert WellFormed(G[k], |G|);
    forall j: nat | Mentions(G[k], j) ensures j < |G| && Used(G, j) { MentionsBelow(G[k], j, |G|); }
  }

  /** What never fails may match the empty string. */
  lemma {:induction false} NoFailNullable(G: seq<Tree>, calls: nat, t: Tree)
    requires CheckAux(G, calls, t, NeverFails)
    ensures CheckAux(G, calls, t, Nullability)
    decreases Level(G, t), calls, t
  {
    match t
    case Seq(p1, p2) =>
      NoFailNullable(G, calls, p1);
      NoFailNullable(G, calls, p2);
    case Choice(p1, p2) =>
      if CheckAux(G, calls, p2, NeverFails) { NoFailNullable(G, calls, p2); } else { NoFailNullable(G, calls, p1); }
    case Grammar(rs) => if |rs| > 0 { NoFailNullable(rs, MAX_CALLS, rs[0]); }
    case Call(k) => if k < |G| && calls > 0 { NoFailNullable(G, calls - 1, G[k]); }
    case _ =>
  }

  /** The walk of a grammar inside a rule, which `verifyrule` does not enter. */
  lemma CheckAuxInner(G: seq<Tree>, cap: nat, n: nat, rs: seq<Tree>, pred: Property)
    requires Sound(rs) && cap >= MAX_CALLS
    ensures CheckAuxWalk(G, cap, n, Grammar(rs), pred).Some?
    ensures CheckAuxWalk(G, cap, n, Grammar(rs), pred).value ==> Nullable(G, Grammar(rs))
    decreases DepthAll(rs), 2
  {
    RuleIsPart(rs, 0);
    CheckAuxEnds(rs, MAX_CALLS, MAX_CALLS, rs[0], pred);
    CheckAuxMore(rs, MAX_CALLS, MAX_CALLS, cap, cap, rs[0], pred);
    CheckAuxValue(rs, MAX_CALLS, rs[0], pred);
    if CheckAux(rs, MAX_CALLS, rs[0], NeverFails) { NoFailNullable(rs, MAX_CALLS, rs[0]); }
  }

  /** In a position that `verifyrule` reached after `passed` rules. What may be passed without advancing is reported
      so. */
  lemma {:induction false} CheckAuxLeft(G: seq<Tree>, cap: nat, n: nat, t: Tree, passed: nat, nb: bool, pred: Property)
    requires passed <= MAX_RULES && cap >= MAX_CALLS && Tame(t) && (forall k | 0 <= k < |G| :: Tame(G[k]))
    requires VerifyRule(G, t, passed, nb).Accepted? && Keeps(G, t, passed, nb) && n >= MAX_RULES - passed
    ensures CheckAuxWalk(G, cap, n, t, pred).Some?
    ensures nb || CheckAuxWalk(G, cap, n, t, pred).value ==> VerifyRule(G, t, passed, nb).nb
    decreases Level(G, t), 0, MAX_RULES - passed, t
  {
    match t
    case Not(p) => CheckAuxLeft(G, cap, n, p, passed, true, pred);
    case And(p) => CheckAuxLeft(G, cap, n, p, passed, true, pred);
    case Rep(p) => CheckAuxLeft(G, cap, n, p, passed, true, pred);
    case Seq(p1, p2) =>
      CheckAuxLeft(G, cap, n, p1, passed, false, pred);
      if VerifyRule(G, p1, passed, false).nb { CheckAuxLeft(G, cap, n, p2, passed, nb, pred); }
    case Choice(p1, p2) =>
      CheckAuxLeft(G, cap, n, p1, passed, nb, pred);
      CheckAuxLeft(G, cap, n, p2, passed, VerifyRule(G, p1, passed, nb).nb, pred);
    case Call(k) => CheckAuxLeft(G, cap, n - 1, G[k], passed + 1, nb, pred);
    case Grammar(rs) => CheckAuxInner(G, cap, n, rs, pred);
    case _ =>
  }

  lemma {:induction false} CheckAuxEnds(G: seq<Tree>, cap: nat, n: nat, t: Tree, pred: Property)
    requires Sound(G) && Part(G, t) && n >= MAX_CALLS && cap >= MAX_CALLS
    ensures CheckAuxWalk(G, cap, n, t, pred).Some?
    decreases Level(G, t), 1, t
  {
    PartsOf(G, t);
    match t
    case And(p) => CheckAuxEnds(G, cap, n, p, pred);
    case Seq(p1, p2) =>
      CheckAuxEnds(G, cap, n, p1, pred);
      CheckAuxEnds(G, cap, n, p2, pred);
    case Choice(p1, p2) =>
      CheckAuxEnds(G, cap, n, p1, pred);
      CheckAuxEnds(G, cap, n, p2, pred);
    case Call(k) => CheckAuxLeft(G, cap, n - 1, G[k], 0, false, pred);
    case Grammar(rs) => CheckAuxInner(G, cap, n, rs, pred);
    case _ =>
  }

  lemma {:induction false} CheckAuxNoCalls(G: seq<Tree>, cap: nat, n: nat, t: Tree, pred: Property)
    requires Tame(t) && CallFree(t) && cap >= MAX_CALLS
    ensures CheckAuxWalk(G, cap, n, t, pred).Some?
    decreases t
  {
    match t
    case And(p) => CheckAuxNoCalls(G, cap, n, p, pred);
    case Seq(p1, p2) =>
      CheckAuxNoCalls(G, cap, n, p1, pred);
      CheckAuxNoCalls(G, cap, n, p2, pred);
    case Choice(p1, p2) =>
      CheckAuxNoCalls(G, cap, n, p1, pred);
      CheckAuxNoCalls(G, cap, n, p2, pred);
    case Grammar(rs) => CheckAuxInner(G, cap, n, rs, pred);
    case _ =>
  }

  lemma {:induction false} GetFirstNoCalls(G: seq<Tree>, cap: nat, n: nat, t: Tree, follow: CharSet)
    requires Tame(t) && CallFree(t) && cap >= MAX_CALLS
    ensures GetFirstWalk(G, cap, n, t, follow).Some?
    decreases Depth(t), 0, 0, t
  {
    match t
    case Choice(p1, p2) =>
      GetFirstNoCalls(G, cap, n, p1, follow);
      GetFirstNoCalls(G, cap, n, p2, follow);
    case Seq(p1, p2) =>
      CheckAuxNoCalls(G, cap, cap, p1, Nullability);
      GetFirstNoCalls(G, cap, n, p1, Full());
      GetFirstNoCalls(G, cap, n, p2, follow);
      GetFirstNoCalls(G, cap, n, p1, GetFirstWalk(G, cap, n, p2, follow).value.cs);
    case Rep(p) => GetFirstNoCalls(G, cap, n, p, follow);
    case And(p) => GetFirstNoCalls(G, cap, n, p, follow);
    case Not(p) => GetFirstNoCalls(G, cap, n, p, follow);
    case Behind(_, p) => GetFirstNoCalls(G, cap, n, p, follow);
    case Grammar(rs) => GetFirstInner(G, cap, n, rs, follow);
    case _ =>
  }

  lemma GetFirstInner(G: seq<Tree>, cap: nat, n: nat, rs: seq<Tree>, follow: CharSet)
    requires Sound(rs) && cap >= MAX_CALLS
    ensures GetFirstWalk(G, cap, n, Grammar(rs), follow).Some?
    decreases DepthAll(rs), 3
  {
    RuleIsPart(rs, 0);
    GetFirstEnds(rs, cap, cap, rs[0], follow);
  }

  lemma {:induction false} GetFirstLeft(G: seq<Tree>, cap: nat, n: nat, t: Tree, passed: nat, nb: bool, follow: CharSet)
    requires passed <= MAX_RULES && cap >= MAX_CALLS && Tame(t) && (forall k | 0 <= k < |G| :: Tame(G[k]))
    requires VerifyRule(G, t, passed, nb).Accepted? && Keeps(G, t, passed, nb) && n >= MAX_RULES - passed
    ensures GetFirstWalk(G, cap, n, t, follow).Some?
    decreases Level(G, t), 1, MAX_RULES - passed, t
  {
    match t
    case Not(p) => GetFirstLeft(G, cap, n, p, passed, true, follow);
    case And(p) => GetFirstLeft(G, cap, n, p, passed, true, follow);
    case Rep(p) => GetFirstLeft(G, cap, n, p, passed, true, follow);
    case Seq(p1, p2) =>
      CheckAuxLeft(G, cap, cap, p1, passed, false, Nullability);
      GetFirstLeft(G, cap, n, p1, passed, false, Full());
      if VerifyRule(G, p1, passed, false).nb {
        GetFirstLeft(G, cap, n, p2, passed, nb, follow);
        GetFirstLeft(G, cap, n, p1, passed, false, GetFirstWalk(G, cap, n, p2, follow).value.cs);
      }
    case Choice(p1, p2) =>
      GetFirstLeft(G, cap, n, p1, passed, nb, follow);
      GetFirstLeft(G, cap, n, p2, passed, VerifyRule(G, p1, passed, nb).nb, follow);
    case Call(k) => GetFirstLeft(G, cap, n - 1, G[k], passed + 1, nb, follow);
    case Behind(_, p) => GetFirstNoCalls(G, cap, n, p, follow);
    case Grammar(rs) => GetFirstInner(G, cap, n, rs, follow);
    case _ =>
  }

  lemma {:induction false} GetFirstEnds(G: seq<Tree>, cap: nat, n: nat, t: Tree, follow: CharSet)
    requires Sound(G) && Part(G, t) && n >= MAX_CALLS && cap >= MAX_CALLS
    ensures GetFirstWalk(G, cap, n, t, follow).Some?
    decreases Level(G, t), 2, t
  {
    PartsOf(G, t);
    match t
    case Choice(p1, p2) =>
      GetFirstEnds(G, cap, n, p1, follow);
      GetFirstEnds(G, cap, n, p2, follow);
    case Seq(p1, p2) =>
      CheckAuxEnds(G, cap, cap, p1, Nullability);
      GetFirstEnds(G, cap, n, p1, Full());
      GetFirstEnds(G, cap, n, p2, follow);
      GetFirstEnds(G, cap, n, p1, GetFirstWalk(G, cap, n, p2, follow).value.cs);
    case Rep(p) => GetFirstEnds(G, cap, n, p, follow);
    case And(p) => GetFirstEnds(G, cap, n, p, follow);
    case Not(p) => GetFirstEnds(G, cap, n, p, follow);
    case Behind(_, p) => GetFirstEnds(G, cap, n, p, follow);
    case Call(k) => GetFirstLeft(G, cap, n - 1, G[k], 0, false, follow);
    case Grammar(rs) => GetFirstInner(G, cap, n, rs, follow);
    case _ =>
  }

  lemma {:induction false} HeadFailLeft(G: seq<Tree>, cap: nat, n: nat, t: Tree, passed: nat, nb: bool)
    requires Sound(G) && Part(G, t) && passed <= MAX_RULES && cap >= MAX_CALLS
    requires VerifyRule(G, t, passed, nb).Accepted? && n >= MAX_RULES - passed
    ensures HeadFailWalk(G, cap, n, t).Some?
    decreases Level(G, t), 0, MAX_RULES - passed, t
  {
    PartsOf(G, t);
    match t
    case And(p) => HeadFailLeft(G, cap, n, p, passed, true);
    case Seq(p1, p2) =>
      CheckAuxEnds(G, cap, cap, p2, NeverFails);
      HeadFailLeft(G, cap, n, p1, passed, false);
    case Choice(p1, p2) =>
      HeadFailLeft(G, cap, n, p1, passed, nb);
      HeadFailLeft(G, cap, n, p2, passed, VerifyRule(G, p1, passed, nb).nb);
    case Call(k) =>
      RuleIsPart(G, k);
      HeadFailLeft(G, cap, n - 1, G[k], passed + 1, nb);
    case Grammar(rs) =>
      RuleIsPart(rs, 0);
      HeadFailEnds(rs, cap, cap, rs[0]);
    case _ =>
  }

  lemma {:induction false} HeadFailEnds(G: seq<Tree>, cap: nat, n: nat, t: Tree)
    requires Sound(G) && Part(G, t) && n >= MAX_CALLS && cap >= MAX_CALLS
    ensures HeadFailWalk(G, cap, n, t).Some?
    decreases Level(G, t), 1, t
  {
    PartsOf(G, t);
    match t
    case And(p) => HeadFailEnds(G, cap, n, p);
    case Seq(p1, p2) =>
      CheckAuxEnds(G, cap, cap, p2, NeverFails);
      HeadFailEnds(G, cap, n, p1);
    case Choice(p1, p2) =>
      HeadFailEnds(G, cap, n, p1);
      HeadFailEnds(G, cap, n, p2);
    case Call(k) =>
      RuleIsPart(G, k);
      HeadFailLeft(G, cap, n - 1, G[k], 0, false);
    case Grammar(rs) =>
      RuleIsPart(rs, 0);
      HeadFailEnds(rs, cap, cap, rs[0]);
    case _ =>
  }

  /** In every part of every rule of a sound grammar the unbounded walks end, with the answers of the analyses; so
      these are the same for any number of calls from MAX_CALLS on. */
  lemma AnalysesExact(G: seq<Tree>, t: Tree, follow: CharSet, pred: Property, n: nat)
    requires Sound(G) && Part(G, t) && n >= MAX_CALLS
    ensures CheckAuxWalk(G, n, n, t, pred) == Some(CheckAux(G, MAX_CALLS, t, pred))
    ensures GetFirstWalk(G, n, n, t, follow) == Some(GetFirst(G, MAX_CALLS, t, follow))
    ensures HeadFailWalk(G, n, n, t) == Some(HeadFail(G, MAX_CALLS, t))
    ensures CheckAux(G, n, t, pred) == CheckAux(G, MAX_CALLS, t, pred)
    ensures GetFirst(G, n, t, follow) == GetFirst(G, MAX_CALLS, t, follow)
    ensures HeadFail(G, n, t) == HeadFail(G, MAX_CALLS, t)
  {
    var m := MAX_CALLS;
    CheckAuxEnds(G, m, m, t, pred);
    CheckAuxMore(G, m, m, n, n, t, pred);
    CheckAuxMore(G, m, m, m, n, t, pred);
    CheckAuxValue(G, m, t, pred);
    CheckAuxValue(G, n, t, pred);
    GetFirstEnds(G, m, m, t, follow);
    GetFirstMore(G, m, m, n, n, t, follow);
    GetFirstMore(G, m, m, m, n, t, follow);
    GetFirstValue(G, m, t, follow);
    GetFirstValue(G, n, t, follow);
    HeadFailEnds(G, m, m, t);
    HeadFailMore(G, m, m, n, n, t);
    HeadFailMore(G, m, m, m, n, t);
    HeadFailValue(G, m, t);
    HeadFailValue(G, n, t);
  }

  lemma {:induction false} CheckAuxPattern(n: nat, t: Tree, pred: Property)
    requires Verified(t) && n >= MAX_CALLS
    ensures CheckAuxWalk([], n, n, t, pred).Some?
    decreases t
  {
    match t
    case And(p) => CheckAuxPattern(n, p, pred);
    case Seq(p1, p2) =>
      CheckAuxPattern(n, p1, pred);
      CheckAuxPattern(n, p2, pred);
    case Choice(p1, p2) =>
      CheckAuxPattern(n, p1, pred);
      CheckAuxPattern(n, p2, pred);
    case Grammar(rs) =>
      RuleIsPart(rs, 0);
      CheckAuxEnds(rs, n, n, rs[0], pred);
    case _ =>
  }

  lemma {:induction false} GetFirstPattern(n: nat, t: Tree, follow: CharSet)
    requires Verified(t) && n >= MAX_CALLS
    ensures GetFirstWalk([], n, n, t, follow).Some?
    decreases t
  {
    match t
    case Choice(p1, p2) =>
      GetFirstPattern(n, p1, follow);
      GetFirstPattern(n, p2, follow);
    case Seq(p1, p2) =>
      CheckAuxPattern(n, p1, Nullability);
      GetFirstPattern(n, p1, Full());
      GetFirstPattern(n, p2, follow);
      GetFirstPattern(n, p1, GetFirstWalk([], n, n, p2, follow).value.cs);
    case Rep(p) => GetFirstPattern(n, p, follow);
    case And(p) => GetFirstPattern(n, p, follow);
    case Not(p) => GetFirstPattern(n, p, follow);
    case Behind(_, p) => GetFirstPattern(n, p, follow);
    case Grammar(rs) =>
      RuleIsPart(rs, 0);
      GetFirstEnds(rs, n, n, rs[0], follow);
    case _ =>
  }

  lemma {:induction false} HeadFailPattern(n: nat, t: Tree)
    requires Verified(t) && n >= MAX_CALLS
    ensures HeadFailWalk([], n, n, t).Some?
    decreases t
  {
    match t
    case And(p) => HeadFailPattern(n, p);
    case Seq(p1, p2) =>
      CheckAuxPattern(n, p2, NeverFails);
      HeadFailPattern(n, p1);
    case Choice(p1, p2) =>
      HeadFailPattern(n, p1);
      HeadFailPattern(n, p2);
    case Grammar(rs) =>
      RuleIsPart(rs, 0);
      HeadFailEnds(rs, n, n, rs[0]);
    case _ =>
  }

  /** The same for a whole pattern and its parts outside of grammars. */
  lemma PatternExact(t: Tree, follow: CharSet, pred: Property, n: nat)
    requires Verified(t) && n >= MAX_CALLS
    ensures CheckAuxWalk([], n, n, t, pred) == Some(CheckAux([], MAX_CALLS, t, pred))
    ensures GetFirstWalk([], n, n, t, follow) == Some(GetFirst([], MAX_CALLS, t, follow))
    ensures HeadFailWalk([], n, n, t) == Some(HeadFail([], MAX_CALLS, t))
  {
    var m := MAX_CALLS;
    CheckAuxPattern(m, t, pred);
    CheckAuxMore([], m, m, n, n, t, pred);
    CheckAuxValue([], m, t, pred);
    GetFirstPattern(m, t, follow);
    GetFirstMore([], m, m, n, n, t, follow);
    GetFirstValue([], m, t, follow);
    HeadFailPattern(m, t);
    HeadFailMore([], m, m, n, n, t);
    HeadFailValue([], m, t);
  }

  /** No predicate or look-behind in `t`, nor in the grammars inside it. */
  predicate NoLooks(t: Tree)
    decreases t
  {
    match t
    case Not(_) => false
    case And(_) => false
    case Behind(_, _) => false
    case Rep(p) => NoLooks(p)
    case Seq(p1, p2) => NoLooks(p1) && NoLooks(p2)
    case Choice(p1, p2) => NoLooks(p1) && NoLooks(p2)
    case Grammar(rs) => forall k | 0 <= k < |rs| :: NoLooks(rs[k])
    case _ => true
  }

  lemma {:induction false} WalksAgree(G: seq<Tree>, cap: nat, n: nat, t: Tree)
    requires NoLooks(t) && forall k | 0 <= k < |G| :: NoLooks(G[k])
    ensures CheckAuxWalk(G, cap, n, t, NeverFails) == CheckAuxWalk(G, cap, n, t, Nullability)
    decreases Level(G, t), n, t
  {
    match t
    case Seq(p1, p2) =>
      WalksAgree(G, cap, n, p1);
      WalksAgree(G, cap, n, p2);
    case Choice(p1, p2) =>
      WalksAgree(G, cap, n, p1);
      WalksAgree(G, cap, n, p2);
    case Grammar(rs) => if |rs| > 0 { WalksAgree(rs, cap, cap, rs[0]); }
    case Call(k) => if k < |G| && n > 0 { WalksAgree(G, cap, n - 1, G[k]); }
    case _ =>
  }

  /** Without predicates a pattern is nullable if and only if it never fails, and then it does never fail. */
  lemma NullableNeverFails(G: seq<Tree>, t: Tree, s: Subject, i: nat, fuel: nat)
    requires Sound(G) && Part(G, t) && NoLooks(t) && (forall k | 0 <= k < |G| :: NoLooks(G[k])) && i <= |s|
    ensures Nullable(G, t) == NoFail(G, t)
    ensures Nullable(G, t) ==> !Match(G, t, s, i, fuel).Fail?
  {
    WalksAgree(G, MAX_CALLS, MAX_CALLS, t);
    AnalysesExact(G, t, {}, Nullability, MAX_CALLS);
    AnalysesExact(G, t, {}, NeverFails, MAX_CALLS);
    CheckAuxSound(G, MAX_CALLS, t, s, i, fuel);
  }

  lemma NestedStep(cap: nat, n: nat)
    ensures CheckAuxWalk(NestedGrammar, cap, n, NestedGrammar[0], Nullability)
            == CheckAuxWalk(NestedGrammar, cap, n, Call(0), Nullability)
  {
    var G := NestedGrammar;
    var inner: seq<Tree> := [Char(98)];
    assert CheckAuxWalk(inner, cap, cap, inner[0], Nullability) == Some(false);
    assert CheckAuxWalk(G, cap, n, Grammar(inner), Nullability) == Some(false);
    assert CheckAuxWalk(G, cap, n, Choice(And(Char(97)), Grammar(inner)), Nullability) == Some(true);
  }

  lemma CallStep(G: seq<Tree>, cap: nat, n: nat, pred: Property)
    requires |G| > 0
    ensures CheckAuxWalk(G, cap, n, Call(0), pred) == if n > 0 then CheckAuxWalk(G, cap, n - 1, G[0], pred) else None
  {
  }

  /** Where `verifyrule` drops what it knows the walk may go on for ever, although the grammar is accepted. */
  lemma {:induction false} NestedWalkDiverges(cap: nat, n: nat)
    ensures VerifyGrammar(NestedGrammar) && WellFormed(Grammar(NestedGrammar), 0)
    ensures CheckAuxWalk(NestedGrammar, cap, n, NestedGrammar[0], Nullability) == None
    decreases n
  {
    hide CheckAuxWalk, VerifyGrammar, WellFormed, Keeps;
    NestedGrammarAccepted();
    NestedStep(cap, n);
    CallStep(NestedGrammar, cap, n, Nullability);
    if n > 0 { NestedWalkDiverges(cap, n - 1); }
  }

  // `fixedlen` follows calls to any position, and stops at a call node that it is already in

  /** A node of a grammar: the rule, and the way down to it. */
  datatype Site = Site(rule: nat, path: seq<nat>)

  function Down(s: Site, child: nat): Site {
    s.(path := s.path + [child])
  }

  /** The call nodes that `fixedlen` can come to in the tree at `s`. */
  function CallSites(t: Tree, s: Site): set<Site>
    decreases t
  {
    match t
    case Call(_) => {s}
    case Seq(p1, p2) => CallSites(p1, Down(s, 0)) + CallSites(p2, Down(s, 1))
    case Choice(p1, p2) => CallSites(p1, Down(s, 0)) + CallSites(p2, Down(s, 1))
    case _ => {}
  }

  function Root(k: nat): Site {
    Site(k, [])
  }

  function AllSites(G: seq<Tree>, t: Tree, s: Site): set<Site> {
    CallSites(t, s) + set k, x | 0 <= k < |G| && x in CallSites(G[k], Root(k)) :: x
  }

  /** `fixedlen` with `callrecursive`: `marked` are the call nodes on the way. `sites` are all the call nodes. */
  function FixedLenMarked(G: seq<Tree>, sites: set<Site>, marked: set<Site>, s: Site, t: Tree): (n: int)
    ensures -1 <= n
    requires CallSites(t, s) <= sites
    requires forall k | 0 <= k < |G| :: CallSites(G[k], Root(k)) <= sites
    decreases sites - marked, t
  {
    match t
    case Char(_) => 1
    case Set(_) => 1
    case Any => 1
    case False => 0
    case True => 0
    case Not(_) => 0
    case And(_) => 0
    case Behind(_, _) => 0
    case Rep(_) => -1
    case Grammar(_) => FixedLen(G, 0, t)
    case Call(k) =>
      if k >= |G| || s in marked then -1 else FixedLenMarked(G, sites, marked + {s}, Root(k), G[k])
    case Seq(p1, p2) =>
      var n1, n2 := FixedLenMarked(G, sites, marked, Down(s, 0), p1), FixedLenMarked(G, sites, marked, Down(s, 1), p2);
      if n1 < 0 || n2 < 0 then -1 else n1 + n2
    case Choice(p1, p2) =>
      var n1, n2 := FixedLenMarked(G, sites, marked, Down(s, 0), p1), FixedLenMarked(G, sites, marked, Down(s, 1), p2);
      if n1 != n2 || n1 < 0 then -1 else n1
  }

  lemma {:induction false} FixedLenMore(G: seq<Tree>, n: nat, m: nat, t: Tree)
    requires n <= m && FixedLen(G, n, t) >= 0
    ensures FixedLen(G, m, t) == FixedLen(G, n, t)
    decreases n, t
  {
    match t
    case Seq(p1, p2) =>
      FixedLenMore(G, n, m, p1);
      FixedLenMore(G, n, m, p2);
    case Choice(p1, p2) =>
      FixedLenMore(G, n, m, p1);
      FixedLenMore(G, n, m, p2);
    case Call(k) => FixedLenMore(G, n - 1, m - 1, G[k]);
    case _ =>
  }

  // The answer for rules settles after as many rounds as there are rules

  predicate Settled(G: seq<Tree>, n: nat) {
    forall k | 0 <= k < |G| :: FixedLen(G, n, G[k]) == FixedLen(G, n + 1, G[k])
  }

  lemma {:induction false} SettledTree(G: seq<Tree>, n: nat, t: Tree)
    requires Settled(G, n)
    ensures FixedLen(G, n + 1, t) == FixedLen(G, n + 2, t)
    decreases t
  {
    match t
    case Seq(p1, p2) =>
      SettledTree(G, n, p1);
      SettledTree(G, n, p2);
    case Choice(p1, p2) =>
      SettledTree(G, n, p1);
      SettledTree(G, n, p2);
    case _ =>
  }

  lemma SettledNext(G: seq<Tree>, n: nat)
    requires Settled(G, n)
    ensures Settled(G, n + 1)
  {
    forall k | 0 <= k < |G| ensures FixedLen(G, n + 1, G[k]) == FixedLen(G, n + 2, G[k]) { SettledTree(G, n, G[k]); }
  }

  /** The rules that have a fixed length, as far as `n` calls show. */
  function Fixed(G: seq<Tree>, n: nat): set<int> {
    set k | 0 <= k < |G| && FixedLen(G, n, G[k]) >= 0
  }

  lemma FixedGrows(G: seq<Tree>, n: nat)
    ensures Fixed(G, n) <= Fixed(G, n + 1)
    ensures Fixed(G, n) == Fixed(G, n + 1) ==> Settled(G, n)
  {
    forall k | 0 <= k < |G| && FixedLen(G, n, G[k]) >= 0 ensures FixedLen(G, n + 1, G[k]) == FixedLen(G, n, G[k]) {
      FixedLenMore(G, n, n + 1, G[k]);
    }
    if Fixed(G, n) == Fixed(G, n + 1) {
      forall k | 0 <= k < |G| ensures FixedLen(G, n, G[k]) == FixedLen(G, n + 1, G[k]) {
        assert k in Fixed(G, n) <==> k in Fixed(G, n + 1);
      }
    }
  }

  lemma {:induction false} SettledOrGrown(G: seq<Tree>, n: nat)
    ensures Settled(G, n) || |Fixed(G, n)| >= n
  {
    if n > 0 {
      SettledOrGrown(G, n - 1);
      if Settled(G, n - 1) {
        SettledNext(G, n - 1);
      } else {
        FixedGrows(G, n - 1);
        SubsetSize(Fixed(G, n - 1), Fixed(G, n));
      }
    }
  }

  lemma SettledAtRules(G: seq<Tree>)
    ensures Settled(G, |G|)
  {
    SettledOrGrown(G, |G|);
    FixedGrows(G, |G|);
    var all := NumbersBelow(|G|);
    SubsetSize(Fixed(G, |G|), Fixed(G, |G| + 1));
    SubsetSize(Fixed(G, |G| + 1), all);
  }

  lemma {:induction false} SettledFrom(G: seq<Tree>, n: nat)
    requires n >= |G|
    ensures Settled(G, n)
  {
    if n == |G| { SettledAtRules(G); } else {
      SettledFrom(G, n - 1);
      SettledNext(G, n - 1);
    }
  }

  /** No more calls than there are rules, and one to come to a rule, make a difference. */
  lemma {:induction false} FixedLenStays(G: seq<Tree>, n: nat, t: Tree)
    requires n > |G|
    ensures FixedLen(G, n, t) == FixedLen(G, |G| + 1, t)
    decreases n
  {
    if n > |G| + 1 {
      SettledFrom(G, n - 2);
      SettledTree(G, n - 2, t);
      FixedLenStays(G, n - 1, t);
    }
  }

  // The marks

  function Child(t: Tree, i: nat): Option<Tree> {
    match t
    case Seq(p1, p2) => if i == 0 then Some(p1) else if i == 1 then Some(p2) else None
    case Choice(p1, p2) => if i == 0 then Some(p1) else if i == 1 then Some(p2) else None
    case Rep(p) => if i == 0 then Some(p) else None
    case Not(p) => if i == 0 then Some(p) else None
    case And(p) => if i == 0 then Some(p) else None
    case Behind(_, p) => if i == 0 then Some(p) else None
    case _ => None
  }

  function NodeIn(t: Tree, path: seq<nat>): Option<Tree> {
    if path == [] then Some(t)
    else
      var p := NodeIn(t, path[..|path| - 1]);
      if p.None? then None else Child(p.value, path[|path| - 1])
  }

  /** The node at `s`. */
  function Node(G: seq<Tree>, s: Site): Option<Tree> {
    if s.rule < |G| then NodeIn(G[s.rule], s.path) else None
  }

  lemma NodeDown(G: seq<Tree>, s: Site, i: nat)
    requires Node(G, s).Some?
    ensures Node(G, Down(s, i)) == Child(Node(G, s).value, i)
  {
    assert Down(s, i).path[..|s.path|] == s.path;
  }

  /** The call at `s` leads to nothing of fixed length within `n` calls. */
  predicate Dead(G: seq<Tree>, n: nat, s: Site) {
    Node(G, s).Some? && FixedLen(G, n, Node(G, s).value) < 0
  }

  lemma DeadBefore(G: seq<Tree>, n: nat, m: nat, s: Site)
    requires Dead(G, n, s) && m <= n
    ensures Dead(G, m, s)
  {
    var t := Node(G, s).value;
    if FixedLen(G, m, t) >= 0 { FixedLenMore(G, m, n, t); }
  }

  /** The fewest calls that show the fixed length of `t`. */
  lemma {:induction false} Fewest(G: seq<Tree>, n: nat, t: Tree) returns (m: nat)
    requires FixedLen(G, n, t) >= 0
    ensures m <= n && FixedLen(G, m, t) == FixedLen(G, n, t) && (m > 0 ==> FixedLen(G, m - 1, t) < 0)
  {
    if n > 0 && FixedLen(G, n - 1, t) >= 0 {
      FixedLenMore(G, n - 1, n, t);
      m := Fewest(G, n - 1, t);
    } else {
      m := n;
    }
  }

  /** What has a fixed length never comes back to a call node it is in. */
  lemma {:induction false} MarkedFinds(G: seq<Tree>, sites: set<Site>, marked: set<Site>, s: Site, t: Tree, n: nat)
    requires CallSites(t, s) <= sites
    requires forall k | 0 <= k < |G| :: CallSites(G[k], Root(k)) <= sites
    requires Node(G, s) == Some(t) && (forall x | x in marked :: Dead(G, n, x)) && FixedLen(G, n, t) >= 0
    ensures FixedLenMarked(G, sites, marked, s, t) == FixedLen(G, n, t)
    decreases n, t
  {
    match t
    case Seq(p1, p2) =>
      NodeDown(G, s, 0);
      NodeDown(G, s, 1);
      MarkedFinds(G, sites, marked, Down(s, 0), p1, n);
      MarkedFinds(G, sites, marked, Down(s, 1), p2, n);
    case Choice(p1, p2) =>
      NodeDown(G, s, 0);
      NodeDown(G, s, 1);
      MarkedFinds(G, sites, marked, Down(s, 0), p1, n);
      MarkedFinds(G, sites, marked, Down(s, 1), p2, n);
    case Call(k) =>
      var m := Fewest(G, n - 1, G[k]);
      forall x | x in marked + {s} ensures Dead(G, m, x) {
        if x in marked { DeadBefore(G, n, m, x); }
      }
      MarkedFinds(G, sites, marked + {s}, Root(k), G[k], m);
    case _ =>
  }

  /** What the marked walk finds to be of fixed length is, with enough calls. */
  lemma {:induction false} MarkedRight(G: seq<Tree>, sites: set<Site>, marked: set<Site>, s: Site,
        t: Tree) returns (n: nat)
    requires CallSites(t, s) <= sites
    requires forall k | 0 <= k < |G| :: CallSites(G[k], Root(k)) <= sites
    requires FixedLenMarked(G, sites, marked, s, t) >= 0
    ensures FixedLen(G, n, t) == FixedLenMarked(G, sites, marked, s, t)
    decreases sites - marked, t
  {
    n := 0;
    match t
    case Seq(p1, p2) =>
      var n1 := MarkedRight(G, sites, marked, Down(s, 0), p1);
      var n2 := MarkedRight(G, sites, marked, Down(s, 1), p2);
      n := n1 + n2;
      FixedLenMore(G, n1, n, p1);
      FixedLenMore(G, n2, n, p2);
    case Choice(p1, p2) =>
      var n1 := MarkedRight(G, sites, marked, Down(s, 0), p1);
      var n2 := MarkedRight(G, sites, marked, Down(s, 1), p2);
      n := n1 + n2;
      FixedLenMore(G, n1, n, p1);
      FixedLenMore(G, n2, n, p2);
    case Call(k) =>
      n := MarkedRight(G, sites, marked + {s}, Root(k), G[k]);
      n := n + 1;
    case _ =>
  }

  /** At every node of a grammar of at most MAX_RULES rules, accepted or not, `fixedlen` with its marks gives the
      answer of the analysis; so that is the same for any number of calls from MAX_CALLS on. */
  lemma FixedLenExact(G: seq<Tree>, s: Site, t: Tree, n: nat)
    requires Node(G, s) == Some(t) && |G| <= MAX_RULES && n >= MAX_CALLS
    ensures FixedLenMarked(G, AllSites(G, t, s), {}, s, t) == FixedLen(G, n, t) == FixedLen(G, MAX_CALLS, t)
  {
    var sites := AllSites(G, t, s);
    forall k | 0 <= k < |G| ensures CallSites(G[k], Root(k)) <= sites { }
    FixedLenStays(G, n, t);
    FixedLenStays(G, MAX_CALLS, t);
    if FixedLen(G, n, t) >= 0 {
      MarkedFinds(G, sites, {}, s, t, n);
    } else if FixedLenMarked(G, sites, {}, s, t) >= 0 {
      var m := MarkedRight(G, sites, {}, s, t);
      FixedLenMore(G, m, m + n, t);
      FixedLenStays(G, m + n, t);
    }
  }
}
