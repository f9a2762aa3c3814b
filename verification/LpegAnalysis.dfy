/** The static analyses of LPeg's compiler (`checkaux`, `fixedlen`, `getfirst`, `headfail`) and their
    soundness against direct matching.
    An analysis that meets `Call(k)` goes on in rule `k`. Here `calls` counts the calls still allowed, and the result
    once none is left is the conservative one; LpegBudget shows that MAX_CALLS is never used up. */
module LpegAnalysis {
  import opened LpegTree

  /** Largest number of rules in a grammar, and of rules `verifyrule` passes without advancing. */
  const MAX_RULES: nat := 1000

  /** More nested calls than an analysis makes in a grammar that `verifygrammar` accepts. */
  const MAX_CALLS: nat := MAX_RULES + 1

  /** Largest distance a look-behind may walk back. */
  const MAX_BEHIND: nat := 255

  datatype Property = Nullability | NeverFails

  /** `checkaux`: can `t` match without consuming (`Nullability`), or never fail (`NeverFails`)? */
  function CheckAux(G: seq<Tree>, calls: nat, t: Tree, pred: Property): bool
    decreases Level(G, t), calls, t
  {
    match t
    case Char(_) => false
    case Set(_) => false
    case Any => false
    case False => false
    case Rep(_) => true
    case True => true
    case Not(_) => pred.Nullability?
    case Behind(_, _) => pred.Nullability?
    case And(p) => pred.Nullability? || CheckAux(G, calls, p, pred)
    case Seq(p1, p2) => CheckAux(G, calls, p1, pred) && CheckAux(G, calls, p2, pred)
    case Choice(p1, p2) => CheckAux(G, calls, p2, pred) || CheckAux(G, calls, p1, pred)
    case Grammar(rs) => if |rs| > 0 then CheckAux(rs, MAX_CALLS, rs[0], pred) else pred.Nullability?
    case Call(k) =>
      if k < |G| && calls > 0 then CheckAux(G, calls - 1, G[k], pred) else pred.Nullability?
  }

  function Nullable(G: seq<Tree>, t: Tree): bool {
    CheckAux(G, MAX_CALLS, t, Nullability)
  }

  function NoFail(G: seq<Tree>, t: Tree): bool {
    CheckAux(G, MAX_CALLS, t, NeverFails)
  }

  /** `fixedlen`: number of characters every match of `t` consumes, or -1 when it may vary. */
  function FixedLen(G: seq<Tree>, calls: nat, t: Tree): (n: int)
    ensures -1 <= n
    decreases Level(G, t), calls, t
  {
    match t
    case Char(_) => 1
    case Set(_) => 1
    case Any => 1
    case False => 0
    case True => 0
    case Not(_) => 0
    case And(_) => 0
    case Behind(_, _) => 0
    case Rep(_) => -1
    case Grammar(rs) => if |rs| > 0 then FixedLen(rs, MAX_CALLS, rs[0]) else -1
    case Call(k) => if k < |G| && calls > 0 then FixedLen(G, calls - 1, G[k]) else -1
    case Seq(p1, p2) =>
      var n1, n2 := FixedLen(G, calls, p1), FixedLen(G, calls, p2);
      if n1 < 0 || n2 < 0 then -1 else n1 + n2
    case Choice(p1, p2) =>
      var n1, n2 := FixedLen(G, calls, p1), FixedLen(G, calls, p2);
      if n1 != n2 || n1 < 0 then -1 else n1
  }

  /** `tocharset`: the set of a pattern that matches exactly one character of a set. */
  function ToCharSet(t: Tree): (r: (bool, CharSet)) {
    match t
    case Char(c) => (true, {c})
    case Any => (true, Full())
    case False => (true, {})
    case Set(cs) => (true, cs)
    case _ => (false, {})
  }

  /** Result of `getfirst`: the set, and whether the pattern may accept the empty string. */
  datatype First = First(empty: bool, cs: CharSet)

  /** `getfirst`: the characters a match of `t` followed by something in `follow` can start with. */
  function GetFirst(G: seq<Tree>, calls: nat, t: Tree, follow: CharSet): First
    decreases Level(G, t), calls, t
  {
    match t
    case Char(c) => First(false, {c})
    case Set(cs) => First(false, cs)
    case Any => First(false, Full())
    case False => First(false, {})
    case True => First(true, follow)
    case Choice(p1, p2) =>
      var f1, f2 := GetFirst(G, calls, p1, follow), GetFirst(G, calls, p2, follow);
      First(f1.empty || f2.empty, f1.cs + f2.cs)
    case Seq(p1, p2) =>
      if !Nullable(G, p1) then GetFirst(G, calls, p1, Full())
      else
        var f2 := GetFirst(G, calls, p2, follow);
        var f1 := GetFirst(G, calls, p1, f2.cs);
        First(f1.empty && f2.empty, f1.cs)
    case Rep(p) => First(true, GetFirst(G, calls, p, follow).cs + follow)
    case Grammar(rs) => if |rs| > 0 then GetFirst(rs, MAX_CALLS, rs[0], follow) else First(true, Full())
    case Call(k) =>
      if k < |G| && calls > 0 then GetFirst(G, calls - 1, G[k], follow) else First(true, Full())
    case And(p) =>
      var f := GetFirst(G, calls, p, follow);
      First(f.empty, f.cs * follow)
    case Not(p) =>
      if ToCharSet(p).0 then First(true, Full() - ToCharSet(p).1) else First(true, follow)
    case Behind(_, _) => First(true, follow)
  }

  /** `headfail`: can `t` fail only on account of the next character? */
  function HeadFail(G: seq<Tree>, calls: nat, t: Tree): bool
    decreases Level(G, t), calls, t
  {
    match t
    case Char(_) => true
    case Set(_) => true
    case Any => true
    case False => true
    case True => false
    case Rep(_) => false
    case Not(_) => false
    case Behind(_, _) => false
    case And(p) => HeadFail(G, calls, p)
    case Grammar(rs) => |rs| > 0 && HeadFail(rs, MAX_CALLS, rs[0])
    case Call(k) => k < |G| && calls > 0 && HeadFail(G, calls - 1, G[k])
    case Seq(p1, p2) => NoFail(G, p2) && HeadFail(G, calls, p1)
    case Choice(p1, p2) => HeadFail(G, calls, p1) && HeadFail(G, calls, p2)
  }

  /** A pattern that matches the empty string is nullable, and a pattern that cannot fail never fails. */
  lemma {:induction false} CheckAuxSound(G: seq<Tree>, calls: nat, t: Tree, s: Subject, i: nat, fuel: nat)
    requires i <= |s|
    ensures Match(G, t, s, i, fuel) == Ok(i) ==> CheckAux(G, calls, t, Nullability)
    ensures CheckAux(G, calls, t, NeverFails) ==> !Match(G, t, s, i, fuel).Fail?
    decreases fuel
  {
    if fuel == 0 { return; }
    match t
    case Seq(p1, p2) =>
      CheckAuxSound(G, calls, p1, s, i, fuel - 1);
      var r := Match(G, p1, s, i, fuel - 1);
      if r.Ok? { CheckAuxSound(G, calls, p2, s, r.pos, fuel - 1); }
    case Choice(p1, p2) =>
      CheckAuxSound(G, calls, p1, s, i, fuel - 1);
      CheckAuxSound(G, calls, p2, s, i, fuel - 1);
    case Rep(p) =>
      var r := Match(G, p, s, i, fuel - 1);
      if r.Ok? { CheckAuxSound(G, calls, t, s, r.pos, fuel - 1); }
    case And(p) => CheckAuxSound(G, calls, p, s, i, fuel - 1);
    case Call(k) => if k < |G| && calls > 0 { CheckAuxSound(G, calls - 1, G[k], s, i, fuel - 1); }
    case Grammar(rs) => if |rs| > 0 { CheckAuxSound(rs, MAX_CALLS, rs[0], s, i, fuel - 1); }
    case _ =>
  }

  /** A pattern of fixed length consumes exactly that many characters. With no calls allowed the answer
      does not depend on the grammar, so it also holds for matches in another one. */
  lemma {:induction false} FixedLenSound(H: seq<Tree>, calls: nat, G: seq<Tree>, t: Tree, s: Subject, i: nat, fuel: nat)
    requires i <= |s|
    requires H == G || calls == 0
    requires FixedLen(H, calls, t) >= 0
    ensures var r := Match(G, t, s, i, fuel); r.Ok? ==> r.pos == i + FixedLen(H, calls, t)
    decreases fuel
  {
    if fuel == 0 { return; }
    match t
    case Seq(p1, p2) =>
      FixedLenSound(H, calls, G, p1, s, i, fuel - 1);
      var r := Match(G, p1, s, i, fuel - 1);
      if r.Ok? { FixedLenSound(H, calls, G, p2, s, r.pos, fuel - 1); }
    case Choice(p1, p2) =>
      FixedLenSound(H, calls, G, p1, s, i, fuel - 1);
      FixedLenSound(H, calls, G, p2, s, i, fuel - 1);
    case Call(k) => FixedLenSound(G, calls - 1, G, G[k], s, i, fuel - 1);
    case Grammar(rs) => FixedLenSound(rs, MAX_CALLS, rs, rs[0], s, i, fuel - 1);
    case _ =>
  }

  /** `getfirst` is sound: a match that consumes, or is followed by a character of `follow`, starts with a
      character of the set; and without the "accepts empty" mark there is no match at the end of the subject. */
  lemma {:induction false} GetFirstSound(G: seq<Tree>, calls: nat, t: Tree, follow: CharSet, s: Subject, i: nat,
        fuel: nat)
    requires i <= |s|
    requires Match(G, t, s, i, fuel).Ok?
    ensures var j, f := Match(G, t, s, i, fuel).pos, GetFirst(G, calls, t, follow);
            && (i < |s| && (i < j || s[i] in follow) ==> s[i] in f.cs)
            && (i == |s| ==> f.empty)
    decreases fuel
  {
    match t
    case Seq(p1, p2) =>
      var k := Match(G, p1, s, i, fuel - 1).pos;
      CheckAuxSound(G, MAX_CALLS, p1, s, i, fuel - 1);
      if !Nullable(G, p1) {
        GetFirstSound(G, calls, p1, Full(), s, i, fuel - 1);
      } else {
        var f2 := GetFirst(G, calls, p2, follow);
        GetFirstSound(G, calls, p2, follow, s, k, fuel - 1);
        GetFirstSound(G, calls, p1, f2.cs, s, i, fuel - 1);
      }
    case Choice(p1, p2) =>
      if Match(G, p1, s, i, fuel - 1).Ok? {
        GetFirstSound(G, calls, p1, follow, s, i, fuel - 1);
      } else {
        GetFirstSound(G, calls, p2, follow, s, i, fuel - 1);
      }
    case Rep(p) =>
      var r := Match(G, p, s, i, fuel - 1);
      if r.Ok? {
        GetFirstSound(G, calls, p, follow, s, i, fuel - 1);
        GetFirstSound(G, calls, t, follow, s, r.pos, fuel - 1);
      }
    case And(p) => GetFirstSound(G, calls, p, follow, s, i, fuel - 1);
    case Call(k) => if calls > 0 { GetFirstSound(G, calls - 1, G[k], follow, s, i, fuel - 1); }
    case Grammar(rs) => GetFirstSound(rs, MAX_CALLS, rs[0], follow, s, i, fuel - 1);
    case Not(p) => assert Match(G, p, s, i, fuel - 1).Fail?;
      if i < |s| { NotFirst(G, p, s, i, fuel); }
    case _ =>
  }

  lemma NotFirst(G: seq<Tree>, p: Tree, s: Subject, i: nat, fuel: nat)
    requires i < |s| && Match(G, Not(p), s, i, fuel).Ok?
    ensures ToCharSet(p).0 ==> s[i] !in ToCharSet(p).1
  {
    assert Match(G, p, s, i, fuel - 1).Fail?;
  }

  /** What never fails can start with anything. */
  lemma {:induction false} NoFailFirst(G: seq<Tree>, c1: nat, c2: nat, t: Tree)
    requires CheckAux(G, c1, t, NeverFails)
    ensures GetFirst(G, c2, t, Full()).cs == Full()
    decreases Level(G, t), c1, t
  {
    match t
    case Seq(p1, p2) =>
      NoFailFirst(G, c1, c2, p1);
      NoFailFirst(G, c1, c2, p2);
    case Choice(p1, p2) =>
      if CheckAux(G, c1, p2, NeverFails) { NoFailFirst(G, c1, c2, p2); } else { NoFailFirst(G, c1, c2, p1); }
    case And(p) => NoFailFirst(G, c1, c2, p);
    case Call(k) => if c2 > 0 { NoFailFirst(G, c1 - 1, c2 - 1, G[k]); }
    case Grammar(rs) => NoFailFirst(rs, MAX_CALLS, MAX_CALLS, rs[0]);
    case _ =>
  }

  /** `headfail` is sound: the pattern does not accept the end of the subject, and elsewhere membership of the
      next character in the first set decides success. */
  lemma {:induction false} HeadFailSound(G: seq<Tree>, calls: nat, t: Tree, s: Subject, i: nat, fuel: nat)
    requires i <= |s|
    requires HeadFail(G, calls, t)
    requires Match(G, t, s, i, fuel) != OutOfFuel
    ensures var f := GetFirst(G, calls, t, Full());
            && !f.empty
            && (Match(G, t, s, i, fuel).Ok? <==> i < |s| && s[i] in f.cs)
    decreases fuel
  {
    match t
    case Seq(p1, p2) =>
      HeadFailSound(G, calls, p1, s, i, fuel - 1);
      NoFailFirst(G, MAX_CALLS, calls, p2);
      var r := Match(G, p1, s, i, fuel - 1);
      if r.Ok? { CheckAuxSound(G, MAX_CALLS, p2, s, r.pos, fuel - 1); }
    case Choice(p1, p2) =>
      HeadFailSound(G, calls, p1, s, i, fuel - 1);
      HeadFailEmpty(G, calls, p2);
      if Match(G, p1, s, i, fuel - 1).Fail? { HeadFailSound(G, calls, p2, s, i, fuel - 1); }
      else { assert Match(G, p1, s, i, fuel - 1).Ok?; }
    case And(p) => HeadFailSound(G, calls, p, s, i, fuel - 1);
    case Call(k) => HeadFailSound(G, calls - 1, G[k], s, i, fuel - 1);
    case Grammar(rs) => HeadFailSound(rs, MAX_CALLS, rs[0], s, i, fuel - 1);
    case _ =>
  }

  lemma {:induction false} HeadFailEmpty(G: seq<Tree>, calls: nat, t: Tree)
    requires HeadFail(G, calls, t)
    ensures forall follow :: !GetFirst(G, calls, t, follow).empty
    decreases Level(G, t), calls, t
  {
    match t
    case Seq(p1, p2) => HeadFailEmpty(G, calls, p1);
    case Choice(p1, p2) => HeadFailEmpty(G, calls, p1); HeadFailEmpty(G, calls, p2);
    case And(p) => HeadFailEmpty(G, calls, p);
    case Call(k) => HeadFailEmpty(G, calls - 1, G[k]);
    case Grammar(rs) => HeadFailEmpty(rs, MAX_CALLS, rs[0]);
    case _ =>
  }
}
