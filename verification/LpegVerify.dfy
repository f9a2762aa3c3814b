/** Grammar checks of lptree.c (`verifyrule`, `checkloops`, `verifygrammar`) and what they guarantee: direct
    matching, and so the compiled pattern, comes to an end on every subject. */
module LpegVerify {
  import opened LpegTree
  import opened LpegAnalysis
  import opened LpegCorrect
  import LpegVm
  import LpegPeephole

  datatype Verdict = Rejected | Accepted(nb: bool)

  /** `verifyrule`: follow every path through `t` that need not advance. `passed` counts the rules entered on the
      way. Rejects when it reaches MAX_RULES; otherwise tells whether `t` may be passed without advancing. */
  function VerifyRule(G: seq<Tree>, t: Tree, passed: nat, nb: bool): Verdict
    requires passed <= MAX_RULES
    decreases MAX_RULES - passed, t
  {
    match t
    case Char(_) => Accepted(nb)
    case Set(_) => Accepted(nb)
    case Any => Accepted(nb)
    case False => Accepted(nb)
    case True => Accepted(true)
    case Behind(_, _) => Accepted(true)
    case Not(p) => VerifyRule(G, p, passed, true)
    case And(p) => VerifyRule(G, p, passed, true)
    case Rep(p) => VerifyRule(G, p, passed, true)
    case Call(k) =>
      if k >= |G| || passed >= MAX_RULES then Rejected else VerifyRule(G, G[k], passed + 1, nb)
    case Seq(p1, p2) =>
      (match VerifyRule(G, p1, passed, false)
       case Rejected => Rejected
       case Accepted(nb1) => if nb1 then VerifyRule(G, p2, passed, nb) else Accepted(nb))
    case Choice(p1, p2) =>
      (match VerifyRule(G, p1, passed, nb)
       case Rejected => Rejected
       case Accepted(nb1) => VerifyRule(G, p2, passed, nb1))
    case Grammar(_) => Accepted(Nullable(G, t))
  }

  /** `checkloops`: is there a repetition whose body may match the empty string? */
  function CheckLoops(G: seq<Tree>, t: Tree): bool
    decreases t
  {
    match t
    case Rep(p) => Nullable(G, p) || CheckLoops(G, p)
    case Not(p) => CheckLoops(G, p)
    case And(p) => CheckLoops(G, p)
    case Behind(_, p) => CheckLoops(G, p)
    case Seq(p1, p2) => CheckLoops(G, p1) || CheckLoops(G, p2)
    case Choice(p1, p2) => CheckLoops(G, p1) || CheckLoops(G, p2)
    case _ => false
  }

  /** Does `t` itself call rule `k`? (Grammars inside `t` have rules of their own.) */
  predicate Mentions(t: Tree, k: nat)
    decreases t
  {
    match t
    case Call(j) => j == k
    case Rep(p) => Mentions(p, k)
    case Not(p) => Mentions(p, k)
    case And(p) => Mentions(p, k)
    case Behind(_, p) => Mentions(p, k)
    case Seq(p1, p2) => Mentions(p1, k) || Mentions(p2, k)
    case Choice(p1, p2) => Mentions(p1, k) || Mentions(p2, k)
    case _ => false
  }

  /** Rules with a key: the initial one and those some rule calls. */
  predicate Used(G: seq<Tree>, k: nat) {
    k == 0 || exists j {:trigger Mentions(G[j], k)} | 0 <= j < |G| :: Mentions(G[j], k)
  }

  /** `verifygrammar` raises no error. */
  predicate VerifyGrammar(G: seq<Tree>) {
    forall k {:trigger Used(G, k)} | 0 <= k < |G| && Used(G, k) ::
      VerifyRule(G, G[k], 0, false).Accepted? && !CheckLoops(G, G[k])
  }

  /** For a grammar inside a rule `verifyrule` answers whether that is nullable, also where it already knows that the
      rule may have been passed. Does it keep what it knows on its way through `t`? */
  predicate Keeps(G: seq<Tree>, t: Tree, passed: nat, nb: bool)
    requires passed <= MAX_RULES
    decreases MAX_RULES - passed, t
  {
    match t
    case Not(p) => Keeps(G, p, passed, true)
    case And(p) => Keeps(G, p, passed, true)
    case Rep(p) => Keeps(G, p, passed, true)
    case Call(k) => k < |G| && passed < MAX_RULES ==> Keeps(G, G[k], passed + 1, nb)
    case Seq(p1, p2) =>
      Keeps(G, p1, passed, false) && (VerifyRule(G, p1, passed, false) == Accepted(true) ==> Keeps(G, p2, passed, nb))
    case Choice(p1, p2) =>
      && Keeps(G, p1, passed, nb)
      && (VerifyRule(G, p1, passed, nb).Accepted? ==> Keeps(G, p2, passed, VerifyRule(G, p1, passed, nb).nb))
    case Grammar(_) => nb ==> Nullable(G, t)
    case _ => true
  }

  predicate KeepsAll(G: seq<Tree>) {
    forall k {:trigger Used(G, k)} | 0 <= k < |G| && Used(G, k) :: Keeps(G, G[k], 0, false)
  }

  /** A grammar that passes the checks, on which they lose nothing, with no call inside a look-behind. */
  predicate Sound(G: seq<Tree>)
    decreases G
  {
    |G| > 0 && VerifyGrammar(G) && AllWellFormed(G) && KeepsAll(G) && forall k | 0 <= k < |G| :: Tame(G[k])
  }

  /** No call inside a look-behind of `t`, and only sound grammars inside it. */
  predicate Tame(t: Tree)
    decreases t
  {
    match t
    case Rep(p) => Tame(p)
    case Not(p) => Tame(p)
    case And(p) => Tame(p)
    case Seq(p1, p2) => Tame(p1) && Tame(p2)
    case Choice(p1, p2) => Tame(p1) && Tame(p2)
    case Behind(_, p) => Tame(p) && CallFree(p)
    case Grammar(rs) => Sound(rs)
    case _ => true
  }

  predicate CallFree(t: Tree)
    decreases t
  {
    match t
    case Call(_) => false
    case Rep(p) => CallFree(p)
    case Not(p) => CallFree(p)
    case And(p) => CallFree(p)
    case Behind(_, p) => CallFree(p)
    case Seq(p1, p2) => CallFree(p1) && CallFree(p2)
    case Choice(p1, p2) => CallFree(p1) && CallFree(p2)
    case _ => true
  }

  /** Direct matching of `t` at `i` comes to an end. */
  ghost predicate Settles(G: seq<Tree>, t: Tree, s: Subject, i: nat)
    requires i <= |s|
  {
    exists fuel: nat :: Match(G, t, s, i, fuel) != OutOfFuel
  }

  /** Fuel that settles `t`, and the outcome. */
  lemma Outcome(G: seq<Tree>, t: Tree, s: Subject, i: nat) returns (fuel: nat, r: Result)
    requires i <= |s| && Settles(G, t, s, i)
    ensures r == Match(G, t, s, i, fuel) && r != OutOfFuel
  {
    fuel :| Match(G, t, s, i, fuel) != OutOfFuel;
    r := Match(G, t, s, i, fuel);
  }

  // How settling follows from the parts

  lemma SettlesOne(G: seq<Tree>, t: Tree, p: Tree, s: Subject, i: nat, at: nat)
    requires i <= |s| && at <= |s| && Settles(G, p, s, at)
    requires (t == Not(p) && at == i) || (t == And(p) && at == i)
             || (t.Behind? && t.p == p && at + t.n == i)
             || (t.Call? && t.k < |G| && p == G[t.k] && at == i)
    ensures Settles(G, t, s, i)
  {
    var fuel, r := Outcome(G, p, s, at);
    assert Match(G, t, s, i, fuel + 1) != OutOfFuel;
  }

  lemma SettlesGrammar(G: seq<Tree>, rs: seq<Tree>, s: Subject, i: nat)
    requires i <= |s| && |rs| > 0 && Settles(rs, rs[0], s, i)
    ensures Settles(G, Grammar(rs), s, i)
  {
    var fuel, r := Outcome(rs, rs[0], s, i);
    assert Match(G, Grammar(rs), s, i, fuel + 1) != OutOfFuel;
  }

  lemma SettlesTwo(G: seq<Tree>, t: Tree, p1: Tree, p2: Tree, s: Subject, i: nat, f1: nat, r1: Result)
    requires i <= |s| && (t == Seq(p1, p2) || t == Choice(p1, p2) || (t == Rep(p1) && p2 == t))
    requires r1 == Match(G, p1, s, i, f1) && r1 != OutOfFuel
    requires r1.Ok? && !t.Choice? ==> Settles(G, p2, s, r1.pos)
    requires r1.Fail? && t.Choice? ==> Settles(G, p2, s, i)
    ensures Settles(G, t, s, i)
  {
    if (r1.Ok? && !t.Choice?) || (r1.Fail? && t.Choice?) {
      var j := if r1.Ok? then r1.pos else i;
      var f2, r2 := Outcome(G, p2, s, j);
      MatchMonotone(G, p1, s, i, f1, f1 + f2);
      MatchMonotone(G, p2, s, j, f2, f1 + f2);
      assert Match(G, t, s, i, f1 + f2 + 1) == r2;
    } else {
      assert Match(G, t, s, i, f1 + 1) != OutOfFuel;
    }
  }

  /** From position `from` on, every used rule settles. */
  ghost predicate RulesSettle(G: seq<Tree>, s: Subject, from: nat) {
    forall k, i {:trigger Settles(G, G[k], s, i)} | 0 <= k < |G| && Used(G, k) && from <= i <= |s| ::
      Settles(G, G[k], s, i)
  }

  ghost predicate CallsUsed(G: seq<Tree>, t: Tree) {
    forall k: nat | Mentions(t, k) :: k < |G| && Used(G, k)
  }

  /** What is known of every part of a rule of a verified grammar. */
  ghost predicate Checked(G: seq<Tree>, t: Tree) {
    Tame(t) && !CheckLoops(G, t) && CallsUsed(G, t)
  }

  predicate PartOf(p: Tree, t: Tree) {
    match t
    case Rep(q) => p == q
    case Not(q) => p == q
    case And(q) => p == q
    case Behind(_, q) => p == q
    case Seq(q1, q2) => p == q1 || p == q2
    case Choice(q1, q2) => p == q1 || p == q2
    case _ => false
  }

  lemma CheckedPart(G: seq<Tree>, t: Tree, p: Tree)
    requires Checked(G, t) && PartOf(p, t)
    ensures Checked(G, p)
  {
    forall k: nat | Mentions(p, k) ensures k < |G| && Used(G, k) {
      assert Mentions(t, k);
    }
  }

  lemma CheckedParts(G: seq<Tree>, t: Tree)
    requires Checked(G, t)
    ensures t.Rep? || t.Not? || t.And? || t.Behind? ==> Checked(G, t.p)
    ensures t.Seq? || t.Choice? ==> Checked(G, t.p1) && Checked(G, t.p2)
  {
    if t.Rep? || t.Not? || t.And? || t.Behind? { CheckedPart(G, t, t.p); }
    if t.Seq? || t.Choice? { CheckedPart(G, t, t.p1); CheckedPart(G, t, t.p2); }
  }

  /** A pattern without parts takes one unit of fuel. */
  lemma LeafSettles(G: seq<Tree>, t: Tree, s: Subject, i: nat)
    requires i <= |s| && (t.Char? || t.Set? || t.Any? || t.True? || t.False?)
    ensures Settles(G, t, s, i)
  {
    assert Match(G, t, s, i, 1) != OutOfFuel;
  }

  /** A pattern settles once the rules it may call do. */
  lemma {:induction false} SettlesAfterRules(G: seq<Tree>, t: Tree, s: Subject, i: nat)
    requires i <= |s| && Checked(G, t) && (CallFree(t) || RulesSettle(G, s, i))
    ensures Settles(G, t, s, i)
    decreases Level(G, t), 0, t, |s| - i
  {
    CheckedParts(G, t);
    match t
    case Rep(p) =>
      SettlesAfterRules(G, p, s, i);
      var f, r := Outcome(G, p, s, i);
      CheckAuxSound(G, MAX_CALLS, p, s, i, f);
      if r.Ok? { SettlesAfterRules(G, t, s, r.pos); }
      SettlesTwo(G, t, p, t, s, i, f, r);
    case Seq(p1, p2) =>
      SettlesAfterRules(G, p1, s, i);
      var f, r := Outcome(G, p1, s, i);
      if r.Ok? { SettlesAfterRules(G, p2, s, r.pos); }
      SettlesTwo(G, t, p1, p2, s, i, f, r);
    case Choice(p1, p2) =>
      SettlesAfterRules(G, p1, s, i);
      SettlesAfterRules(G, p2, s, i);
      var f, r := Outcome(G, p1, s, i);
      SettlesTwo(G, t, p1, p2, s, i, f, r);
    case Not(p) =>
      SettlesAfterRules(G, p, s, i);
      SettlesOne(G, t, p, s, i, i);
    case And(p) =>
      SettlesAfterRules(G, p, s, i);
      SettlesOne(G, t, p, s, i, i);
    case Behind(n, p) =>
      if n <= i {
        SettlesAfterRules(G, p, s, i - n);
        SettlesOne(G, t, p, s, i, i - n);
      } else {
        assert Match(G, t, s, i, 1) == Fail;
      }
    case Call(k) =>
      assert Mentions(t, k);
      SettlesOne(G, t, G[k], s, i, i);
    case Grammar(rs) =>
      RulesSettleFrom(rs, s, i);
      assert Used(rs, 0);
      SettlesGrammar(G, rs, s, i);
    case _ => LeafSettles(G, t, s, i);
  }

  /** What may match without advancing is reported so. */
  lemma {:induction false} VerifyRuleSound(G: seq<Tree>, t: Tree, passed: nat, nb: bool, s: Subject, i: nat, fuel: nat)
    requires i <= |s| && passed <= MAX_RULES
    requires VerifyRule(G, t, passed, nb).Accepted? && Keeps(G, t, passed, nb)
    ensures nb || Match(G, t, s, i, fuel) == Ok(i) ==> VerifyRule(G, t, passed, nb).nb
    decreases MAX_RULES - passed, t, fuel
  {
    match t
    case Seq(p1, p2) =>
      VerifyRuleSound(G, p1, passed, false, s, i, if fuel > 0 then fuel - 1 else 0);
      if VerifyRule(G, p1, passed, false).nb {
        VerifyRuleSound(G, p2, passed, nb, s, i, if fuel > 0 then fuel - 1 else 0);
      }
    case Choice(p1, p2) =>
      var nb1 := VerifyRule(G, p1, passed, nb).nb;
      VerifyRuleSound(G, p1, passed, nb, s, i, if fuel > 0 then fuel - 1 else 0);
      VerifyRuleSound(G, p2, passed, nb1, s, i, if fuel > 0 then fuel - 1 else 0);
    case Rep(p) => VerifyRuleSound(G, p, passed, true, s, i, fuel);
    case Not(p) => VerifyRuleSound(G, p, passed, true, s, i, fuel);
    case And(p) => VerifyRuleSound(G, p, passed, true, s, i, fuel);
    case Call(k) => VerifyRuleSound(G, G[k], passed + 1, nb, s, i, if fuel > 0 then fuel - 1 else 0);
    case Grammar(_) => CheckAuxSound(G, MAX_CALLS, t, s, i, fuel);
    case _ =>
  }

  /** A pattern in a position reached without advancing: calls in its own such positions are bounded by the
      rules passed, all others happen further on. */
  lemma {:induction false} SettlesLeft(G: seq<Tree>, t: Tree, passed: nat, nb: bool, s: Subject, i: nat)
    requires i <= |s| && passed <= MAX_RULES
    requires Checked(G, t) && (forall k | 0 <= k < |G| && Used(G, k) :: Checked(G, G[k]))
    requires VerifyRule(G, t, passed, nb).Accepted? && Keeps(G, t, passed, nb)
    requires RulesSettle(G, s, i + 1)
    ensures Settles(G, t, s, i)
    decreases Level(G, t), 1, MAX_RULES - passed, t
  {
    CheckedParts(G, t);
    match t
    case Rep(p) =>
      SettlesLeft(G, p, passed, true, s, i);
      var f, r := Outcome(G, p, s, i);
      CheckAuxSound(G, MAX_CALLS, p, s, i, f);
      if r.Ok? { SettlesAfterRules(G, t, s, r.pos); }
      SettlesTwo(G, t, p, t, s, i, f, r);
    case Seq(p1, p2) =>
      SettlesLeft(G, p1, passed, false, s, i);
      var f, r := Outcome(G, p1, s, i);
      VerifyRuleSound(G, p1, passed, false, s, i, f);
      if r.Ok? {
        if r.pos == i { SettlesLeft(G, p2, passed, nb, s, i); }
        else { SettlesAfterRules(G, p2, s, r.pos); }
      }
      SettlesTwo(G, t, p1, p2, s, i, f, r);
    case Choice(p1, p2) =>
      SettlesLeft(G, p1, passed, nb, s, i);
      var f, r := Outcome(G, p1, s, i);
      SettlesLeft(G, p2, passed, VerifyRule(G, p1, passed, nb).nb, s, i);
      SettlesTwo(G, t, p1, p2, s, i, f, r);
    case Not(p) =>
      SettlesLeft(G, p, passed, true, s, i);
      SettlesOne(G, t, p, s, i, i);
    case And(p) =>
      SettlesLeft(G, p, passed, true, s, i);
      SettlesOne(G, t, p, s, i, i);
    case Call(k) =>
      assert Mentions(t, k);
      SettlesLeft(G, G[k], passed + 1, nb, s, i);
      SettlesOne(G, t, G[k], s, i, i);
    case _ => SettlesAfterRules(G, t, s, i);
  }

  lemma {:induction false} RulesSettleFrom(G: seq<Tree>, s: Subject, i: nat)
    requires Sound(G) && i <= |s| + 1
    ensures RulesSettle(G, s, i)
    decreases DepthAll(G), 2, |s| + 1 - i
  {
    if i <= |s| {
      RulesSettleFrom(G, s, i + 1);
      forall k | 0 <= k < |G| && Used(G, k) ensures Checked(G, G[k]) { RuleChecked(G, k); }
      forall k | 0 <= k < |G| && Used(G, k) ensures Settles(G, G[k], s, i) {
        SettlesLeft(G, G[k], 0, false, s, i);
      }
    }
  }

  lemma RuleChecked(G: seq<Tree>, k: nat)
    requires k < |G| && Used(G, k) && VerifyGrammar(G) && AllWellFormed(G) && Tame(G[k])
    ensures Checked(G, G[k])
  {
    assert WellFormed(G[k], |G|);
    forall j: nat | Mentions(G[k], j) ensures j < |G| && Used(G, j) { MentionsBelow(G[k], j, |G|); }
  }

  lemma {:induction false} MentionsBelow(t: Tree, k: nat, n: nat)
    requires WellFormed(t, n) && Mentions(t, k)
    ensures k < n
    decreases t
  {
    match t
    case Rep(p) => MentionsBelow(p, k, n);
    case Not(p) => MentionsBelow(p, k, n);
    case And(p) => MentionsBelow(p, k, n);
    case Behind(_, p) => MentionsBelow(p, k, n);
    case Seq(p1, p2) => if Mentions(p1, k) { MentionsBelow(p1, k, n); } else { MentionsBelow(p2, k, n); }
    case Choice(p1, p2) => if Mentions(p1, k) { MentionsBelow(p1, k, n); } else { MentionsBelow(p2, k, n); }
    case Call(_) =>
  }

  /** A grammar that passes the checks settles every match from every used rule, when the checks lose nothing on it. */
  lemma VerifiedRuleSettles(G: seq<Tree>, k: nat, s: Subject, i: nat)
    requires Sound(G) && k < |G| && Used(G, k) && i <= |s|
    ensures Settles(G, G[k], s, i)
  {
    RulesSettleFrom(G, s, i);
  }

  /** Patterns accepted by the constructors: loop bodies consume, and grammars are sound. */
  predicate Verified(t: Tree)
    decreases t
  {
    match t
    case Rep(p) => Verified(p) && !Nullable([], p)
    case Not(p) => Verified(p)
    case And(p) => Verified(p)
    case Behind(_, p) => Verified(p)
    case Seq(p1, p2) => Verified(p1) && Verified(p2)
    case Choice(p1, p2) => Verified(p1) && Verified(p2)
    case Call(_) => false
    case Grammar(rs) => Sound(rs)
    case _ => true
  }

  /** Matching of a whole pattern always ends. */
  lemma {:induction false} VerifiedSettles(t: Tree, s: Subject, i: nat)
    requires Verified(t) && i <= |s|
    ensures Settles([], t, s, i)
    decreases t, |s| - i
  {
    match t
    case Rep(p) =>
      VerifiedSettles(p, s, i);
      var f, r := Outcome([], p, s, i);
      CheckAuxSound([], MAX_CALLS, p, s, i, f);
      if r.Ok? { VerifiedSettles(t, s, r.pos); }
      SettlesTwo([], t, p, t, s, i, f, r);
    case Seq(p1, p2) =>
      VerifiedSettles(p1, s, i);
      var f, r := Outcome([], p1, s, i);
      if r.Ok? { VerifiedSettles(p2, s, r.pos); }
      SettlesTwo([], t, p1, p2, s, i, f, r);
    case Choice(p1, p2) =>
      VerifiedSettles(p1, s, i);
      VerifiedSettles(p2, s, i);
      var f, r := Outcome([], p1, s, i);
      SettlesTwo([], t, p1, p2, s, i, f, r);
    case Not(p) =>
      VerifiedSettles(p, s, i);
      SettlesOne([], t, p, s, i, i);
    case And(p) =>
      VerifiedSettles(p, s, i);
      SettlesOne([], t, p, s, i, i);
    case Behind(n, p) =>
      if n <= i {
        VerifiedSettles(p, s, i - n);
        SettlesOne([], t, p, s, i, i - n);
      } else {
        assert Match([], t, s, i, 1) == Fail;
      }
    case Grammar(rs) =>
      VerifiedRuleSettles(rs, 0, s, i);
      var f, r := Outcome(rs, rs[0], s, i);
      assert Match([], t, s, i, f + 1) == r;
    case Call(_) => assert false;
    case _ => LeafSettles([], t, s, i);
  }

  /** So the compiled code of such a pattern always stops, with the outcome of direct matching. */
  lemma VerifiedCompiles(t: Tree, s: Subject, i: nat) returns (r: Result)
    requires Verified(t) && WellFormed(t, 0) && i <= |s|
    ensures r != OutOfFuel
    ensures exists fuel: nat :: Match([], t, s, i, fuel) == r
    ensures forall fuel: nat :: Match([], t, s, i, fuel) == r || Match([], t, s, i, fuel) == OutOfFuel
    ensures forall R :: LpegVm.Halts(LpegPeephole.Compile(t), s, LpegVm.Init(i), R) <==> R == r
  {
    VerifiedSettles(t, s, i);
    var fuel, r1 := Outcome([], t, s, i);
    r := r1;
    forall R ensures LpegVm.Halts(LpegPeephole.Compile(t), s, LpegVm.Init(i), R) <==> R == r {
      LpegPeephole.CompileCorrect(t, s, i, fuel, R);
    }
    forall f: nat | Match([], t, s, i, f) != OutOfFuel ensures Match([], t, s, i, f) == r {
      MatchDeterministic([], t, s, i, f, fuel);
    }
  }

  // Where the checks do not suffice

  /** A <- behind(!A): `fixedlen` does not look inside a predicate, so this look-behind is accepted although it
      holds a call, and `verifyrule` does not look inside a look-behind. That is so where asserts are compiled out
      (3rd/lpeg/makefile:4). Where they are not, as in the program's own build (Makefile:118-119), a look-behind of an
      open call stops in `hascaptures` (lpcode.c:80) before any of this. */
  const CallBehind: seq<Tree> := [Behind(0, Not(Call(0)))]

  lemma {:induction false} CallBehindDiverges(s: Subject, i: nat, fuel: nat)
    requires i <= |s|
    ensures VerifyGrammar(CallBehind) && WellFormed(Grammar(CallBehind), 0)
    ensures Match(CallBehind, CallBehind[0], s, i, fuel) == OutOfFuel
    decreases fuel
  {
    var t := CallBehind[0];
    assert WellFormed(t, 1);
    if fuel >= 3 {
      assert Match(CallBehind, Call(0), s, i, fuel - 2) == Match(CallBehind, t, s, i, fuel - 3);
      CallBehindDiverges(s, i, fuel - 3);
    }
  }

  /** A <- (&'a' / { 'b' }) A, with a grammar as second alternative: for a grammar `verifyrule` reports whether it
      is nullable and drops what it knew of the first alternative, so the left recursion goes unnoticed. */
  const NestedGrammar: seq<Tree> := [Seq(Choice(And(Char(97)), Grammar([Char(98)])), Call(0))]

  lemma NestedGrammarAccepted()
    ensures VerifyGrammar(NestedGrammar) && WellFormed(Grammar(NestedGrammar), 0)
    ensures !Keeps(NestedGrammar, NestedGrammar[0], 0, false)
  {
    var G := NestedGrammar;
    var alt := Choice(And(Char(97)), Grammar([Char(98)]));
    assert G[0] == Seq(alt, Call(0));
    assert WellFormed(G[0], 1) by { assert WellFormed(Char(98), 1); assert WellFormed(alt, 1); }
    assert VerifyRule(G, alt, 0, false) == Accepted(false) by {
      assert VerifyRule(G, And(Char(97)), 0, false) == Accepted(true);
      assert !CheckAux([Char(98)], MAX_CALLS, Char(98), Nullability);
    }
    assert VerifyRule(G, G[0], 0, false) == Accepted(false);
  }

  lemma {:induction false} NestedGrammarDiverges(fuel: nat)
    ensures VerifyGrammar(NestedGrammar) && WellFormed(Grammar(NestedGrammar), 0)
    ensures !Keeps(NestedGrammar, NestedGrammar[0], 0, false)
    ensures Match(NestedGrammar, NestedGrammar[0], [97], 0, fuel) == OutOfFuel
    decreases fuel
  {
    NestedGrammarAccepted();
    hide VerifyGrammar, WellFormed, Keeps;
    var G := NestedGrammar;
    var s: Subject := [97];
    var look := And(Char(97));
    var alt := Choice(look, Grammar([Char(98)]));
    assert G[0] == Seq(alt, Call(0));
    if fuel >= 4 {
      assert Match(G, Char(97), s, 0, fuel - 3) == Ok(1);
      assert Match(G, look, s, 0, fuel - 2) == Ok(0);
      assert Match(G, alt, s, 0, fuel - 1) == Ok(0);
      NestedGrammarDiverges(fuel - 2);
      assert Match(G, Call(0), s, 0, fuel - 1) == OutOfFuel;
    } else if fuel == 3 {
      assert Match(G, look, s, 0, 1) == OutOfFuel;
    }
  }
}
