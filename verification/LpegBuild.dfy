/** Building patterns (lptree.c): the simplifications of the operators and the final rotation of sequences and choices
    keep what a pattern matches, and a repetition matches as often as its number says. */
module LpegBuild {
  import opened LpegTree
  import opened LpegAnalysis
  import opened LpegVerify
  import Common

  // What a pattern yields, whatever fuel it takes

  ghost predicate Yields(G: seq<Tree>, t: Tree, s: Subject, i: nat, r: Result)
    requires i <= |s|
  {
    r != OutOfFuel && exists fuel: nat :: Match(G, t, s, i, fuel) == r
  }

  lemma YieldsBy(G: seq<Tree>, t: Tree, s: Subject, i: nat, fuel: nat)
    requires i <= |s| && Match(G, t, s, i, fuel) != OutOfFuel
    ensures Yields(G, t, s, i, Match(G, t, s, i, fuel))
  {
  }

  lemma Fuel(G: seq<Tree>, t: Tree, s: Subject, i: nat, r: Result) returns (fuel: nat)
    requires i <= |s| && Yields(G, t, s, i, r)
    ensures Match(G, t, s, i, fuel) == r && r != OutOfFuel && (r.Ok? ==> i <= r.pos <= |s|)
  {
    fuel :| Match(G, t, s, i, fuel) == r;
  }

  lemma YieldsOne(G: seq<Tree>, t: Tree, s: Subject, i: nat, r1: Result, r2: Result)
    requires i <= |s| && Yields(G, t, s, i, r1) && Yields(G, t, s, i, r2)
    ensures r1 == r2
  {
    var f1 := Fuel(G, t, s, i, r1);
    var f2 := Fuel(G, t, s, i, r2);
    MatchDeterministic(G, t, s, i, f1, f2);
  }

  ghost predicate SeqYields(G: seq<Tree>, p1: Tree, p2: Tree, s: Subject, i: nat, r: Result)
    requires i <= |s|
  {
    || (r.Fail? && Yields(G, p1, s, i, Fail))
    || exists j :: i <= j <= |s| && Yields(G, p1, s, i, Ok(j)) && Yields(G, p2, s, j, r)
  }

  ghost predicate ChoiceYields(G: seq<Tree>, p1: Tree, p2: Tree, s: Subject, i: nat, r: Result)
    requires i <= |s|
  {
    (r.Ok? && Yields(G, p1, s, i, r)) || (Yields(G, p1, s, i, Fail) && Yields(G, p2, s, i, r))
  }

  ghost predicate RepYields(G: seq<Tree>, p: Tree, s: Subject, i: nat, r: Result)
    requires i <= |s|
  {
    || (r == Ok(i) && Yields(G, p, s, i, Fail))
    || exists j :: i <= j <= |s| && Yields(G, p, s, i, Ok(j)) && Yields(G, Rep(p), s, j, r)
  }

  lemma SeqGives(G: seq<Tree>, p1: Tree, p2: Tree, s: Subject, i: nat, j: nat, r: Result)
    requires i <= j <= |s| && Yields(G, p1, s, i, Ok(j)) && Yields(G, p2, s, j, r)
    ensures Yields(G, Seq(p1, p2), s, i, r)
  {
    var f1 := Fuel(G, p1, s, i, Ok(j));
    var f2 := Fuel(G, p2, s, j, r);
    MatchMonotone(G, p1, s, i, f1, f1 + f2);
    MatchMonotone(G, p2, s, j, f2, f1 + f2);
    assert Match(G, Seq(p1, p2), s, i, f1 + f2 + 1) == r;
  }

  lemma SeqFails(G: seq<Tree>, p1: Tree, p2: Tree, s: Subject, i: nat)
    requires i <= |s| && Yields(G, p1, s, i, Fail)
    ensures Yields(G, Seq(p1, p2), s, i, Fail)
  {
    var f := Fuel(G, p1, s, i, Fail);
    assert Match(G, Seq(p1, p2), s, i, f + 1) == Fail;
  }

  lemma SeqIff(G: seq<Tree>, p1: Tree, p2: Tree, s: Subject, i: nat, r: Result)
    requires i <= |s|
    ensures Yields(G, Seq(p1, p2), s, i, r) <==> SeqYields(G, p1, p2, s, i, r)
  {
    hide Match, Yields;
    var t := Seq(p1, p2);
    if Yields(G, t, s, i, r) {
      var f := Fuel(G, t, s, i, r);
      MatchSeq(G, p1, p2, s, i, f);
      YieldsBy(G, p1, s, i, f - 1);
      var r1 := Match(G, p1, s, i, f - 1);
      if r1.Ok? { YieldsBy(G, p2, s, r1.pos, f - 1); }
    }
    if r.Fail? && Yields(G, p1, s, i, Fail) { SeqFails(G, p1, p2, s, i); }
    if j :| i <= j <= |s| && Yields(G, p1, s, i, Ok(j)) && Yields(G, p2, s, j, r) { SeqGives(G, p1, p2, s, i, j, r); }
  }

  lemma ChoiceGives(G: seq<Tree>, p1: Tree, p2: Tree, s: Subject, i: nat, r: Result)
    requires i <= |s| && ChoiceYields(G, p1, p2, s, i, r)
    ensures Yields(G, Choice(p1, p2), s, i, r)
  {
    var t := Choice(p1, p2);
    if r.Ok? && Yields(G, p1, s, i, r) {
      var f := Fuel(G, p1, s, i, r);
      assert Match(G, t, s, i, f + 1) == r;
    } else {
      var f1 := Fuel(G, p1, s, i, Fail);
      var f2 := Fuel(G, p2, s, i, r);
      MatchMonotone(G, p1, s, i, f1, f1 + f2);
      MatchMonotone(G, p2, s, i, f2, f1 + f2);
      assert Match(G, t, s, i, f1 + f2 + 1) == r;
    }
  }

  lemma ChoiceIff(G: seq<Tree>, p1: Tree, p2: Tree, s: Subject, i: nat, r: Result)
    requires i <= |s|
    ensures Yields(G, Choice(p1, p2), s, i, r) <==> ChoiceYields(G, p1, p2, s, i, r)
  {
    hide Match, Yields;
    if Yields(G, Choice(p1, p2), s, i, r) {
      var f := Fuel(G, Choice(p1, p2), s, i, r);
      MatchChoice(G, p1, p2, s, i, f);
      YieldsBy(G, p1, s, i, f - 1);
      if Match(G, p1, s, i, f - 1).Fail? { YieldsBy(G, p2, s, i, f - 1); }
    }
    if ChoiceYields(G, p1, p2, s, i, r) { ChoiceGives(G, p1, p2, s, i, r); }
  }

  lemma RepGives(G: seq<Tree>, p: Tree, s: Subject, i: nat, j: nat, r: Result)
    requires i <= j <= |s| && Yields(G, p, s, i, Ok(j)) && Yields(G, Rep(p), s, j, r)
    ensures Yields(G, Rep(p), s, i, r)
  {
    var f1 := Fuel(G, p, s, i, Ok(j));
    var f2 := Fuel(G, Rep(p), s, j, r);
    MatchMonotone(G, p, s, i, f1, f1 + f2);
    MatchMonotone(G, Rep(p), s, j, f2, f1 + f2);
    assert Match(G, Rep(p), s, i, f1 + f2 + 1) == r;
  }

  lemma RepEnds(G: seq<Tree>, p: Tree, s: Subject, i: nat)
    requires i <= |s| && Yields(G, p, s, i, Fail)
    ensures Yields(G, Rep(p), s, i, Ok(i))
  {
    var f := Fuel(G, p, s, i, Fail);
    assert Match(G, Rep(p), s, i, f + 1) == Ok(i);
  }

  lemma RepIff(G: seq<Tree>, p: Tree, s: Subject, i: nat, r: Result)
    requires i <= |s|
    ensures Yields(G, Rep(p), s, i, r) <==> RepYields(G, p, s, i, r)
  {
    hide Match, Yields;
    var t := Rep(p);
    if Yields(G, t, s, i, r) {
      var f := Fuel(G, t, s, i, r);
      MatchRep(G, p, s, i, f);
      YieldsBy(G, p, s, i, f - 1);
      var r1 := Match(G, p, s, i, f - 1);
      if r1.Ok? { YieldsBy(G, t, s, r1.pos, f - 1); }
    }
    if r == Ok(i) && Yields(G, p, s, i, Fail) { RepEnds(G, p, s, i); }
    if j :| i <= j <= |s| && Yields(G, p, s, i, Ok(j)) && Yields(G, t, s, j, r) { RepGives(G, p, s, i, j, r); }
  }

  /** A predicate that succeeds if `p` fails (`Not`) or if it does not (`And`). */
  lemma LookIff(G: seq<Tree>, t: Tree, s: Subject, i: nat, r: Result)
    requires i <= |s| && (t.Not? || t.And?)
    ensures Yields(G, t, s, i, r) <==>
            || (Yields(G, t.p, s, i, Fail) && r == if t.Not? then Ok(i) else Fail)
            || exists j :: i <= j <= |s| && Yields(G, t.p, s, i, Ok(j)) && r == if t.Not? then Fail else Ok(i)
  {
    if Yields(G, t, s, i, r) {
      var f := Fuel(G, t, s, i, r);
      MatchLook(G, t, s, i, f);
      YieldsBy(G, t.p, s, i, f - 1);
    }
    if Yields(G, t.p, s, i, Fail) {
      var f := Fuel(G, t.p, s, i, Fail);
      YieldsBy(G, t, s, i, f + 1);
    }
    if j :| i <= j <= |s| && Yields(G, t.p, s, i, Ok(j)) {
      var f := Fuel(G, t.p, s, i, Ok(j));
      YieldsBy(G, t, s, i, f + 1);
    }
  }

  predicate Leaf(t: Tree) {
    t.Char? || t.Set? || t.Any? || t.True? || t.False?
  }

  lemma LeafIff(G: seq<Tree>, t: Tree, s: Subject, i: nat, r: Result)
    requires i <= |s| && Leaf(t)
    ensures Yields(G, t, s, i, r) <==> r == Match(G, t, s, i, 1)
  {
    YieldsBy(G, t, s, i, 1);
    if Yields(G, t, s, i, r) { YieldsOne(G, t, s, i, r, Match(G, t, s, i, 1)); }
  }

  /** Two patterns match the same, in any grammar. */
  ghost predicate Same(t: Tree, u: Tree) {
    forall G: seq<Tree>, s: Subject, i: nat, r: Result | i <= |s| :: Yields(G, t, s, i, r) <==> Yields(G, u, s, i, r)
  }

  // The operators

  /** `newcharset`, which LpegCharset describes on bitmaps. */
  function CharTree(cs: CharSet): Tree {
    if cs == {} then False
    else if exists c: Byte :: cs == {c} then
      var c: Byte :| cs == {c}; Char(c)
    else if cs == Full() then Any
    else Set(cs)
  }

  lemma CharTreeMeans(cs: CharSet, G: seq<Tree>, s: Subject, i: nat, r: Result)
    requires i <= |s|
    ensures Yields(G, CharTree(cs), s, i, r) <==> r == if i < |s| && s[i] in cs then Ok(i + 1) else Fail
  {
    LeafIff(G, CharTree(cs), s, i, r);
  }

  lemma CharSetMeans(t: Tree, G: seq<Tree>, s: Subject, i: nat, r: Result)
    requires i <= |s| && ToCharSet(t).0
    ensures Yields(G, t, s, i, r) <==> r == if i < |s| && s[i] in ToCharSet(t).1 then Ok(i + 1) else Fail
  {
    LeafIff(G, t, s, i, r);
  }

  /** `lp_seq`. */
  function SeqOf(t1: Tree, t2: Tree): Tree {
    if t1.False? || t2.True? then t1
    else if t1.True? then t2
    else Seq(t1, t2)
  }

  lemma SeqOfMeans(t1: Tree, t2: Tree)
    ensures Same(SeqOf(t1, t2), Seq(t1, t2))
  {
    forall G: seq<Tree>, s: Subject, i: nat, r: Result | i <= |s|
      ensures Yields(G, SeqOf(t1, t2), s, i, r) <==> Yields(G, Seq(t1, t2), s, i, r)
    {
      SeqIff(G, t1, t2, s, i, r);
      SeqSimple(G, t1, t2, s, i, r);
    }
  }

  lemma SeqSimple(G: seq<Tree>, t1: Tree, t2: Tree, s: Subject, i: nat, r: Result)
    requires i <= |s|
    ensures t1.False? || t2.True? ==> (SeqYields(G, t1, t2, s, i, r) <==> Yields(G, t1, s, i, r))
    ensures t1.True? ==> (SeqYields(G, t1, t2, s, i, r) <==> Yields(G, t2, s, i, r))
  {
    if t1.False? || t1.True? {
      forall q ensures Yields(G, t1, s, i, q) <==> q == Match(G, t1, s, i, 1) { LeafIff(G, t1, s, i, q); }
    }
    if t2.True? {
      forall j: nat, q | i <= j <= |s| ensures Yields(G, t2, s, j, q) <==> q == Ok(j) { LeafIff(G, t2, s, j, q); }
      if Yields(G, t1, s, i, r) { var f := Fuel(G, t1, s, i, r); }
    }
  }

  /** `lp_choice`; calls are still open and count as patterns that may fail. */
  function ChoiceOf(t1: Tree, t2: Tree): Tree {
    if ToCharSet(t1).0 && ToCharSet(t2).0 then CharTree(ToCharSet(t1).1 + ToCharSet(t2).1)
    else if CheckAux([], 0, t1, NeverFails) || t2.False? then t1
    else if t1.False? then t2
    else Choice(t1, t2)
  }

  lemma ChoiceOfMeans(t1: Tree, t2: Tree)
    ensures Same(ChoiceOf(t1, t2), Choice(t1, t2))
  {
    forall G: seq<Tree>, s: Subject, i: nat, r: Result | i <= |s|
      ensures Yields(G, ChoiceOf(t1, t2), s, i, r) <==> Yields(G, Choice(t1, t2), s, i, r)
    {
      ChoiceIff(G, t1, t2, s, i, r);
      if ToCharSet(t1).0 && ToCharSet(t2).0 {
        ChoiceOfSets(G, t1, t2, s, i, r);
      } else {
        ChoiceSimple(G, t1, t2, s, i, r);
      }
    }
  }

  lemma ChoiceOfSets(G: seq<Tree>, t1: Tree, t2: Tree, s: Subject, i: nat, r: Result)
    requires i <= |s| && ToCharSet(t1).0 && ToCharSet(t2).0
    ensures ChoiceYields(G, t1, t2, s, i, r) <==> Yields(G, CharTree(ToCharSet(t1).1 + ToCharSet(t2).1), s, i, r)
  {
    hide Yields, ToCharSet, CharTree;
    CharSetMeans(t1, G, s, i, r);
    CharSetMeans(t1, G, s, i, Fail);
    CharSetMeans(t2, G, s, i, r);
    CharTreeMeans(ToCharSet(t1).1 + ToCharSet(t2).1, G, s, i, r);
  }

  lemma ChoiceSimple(G: seq<Tree>, t1: Tree, t2: Tree, s: Subject, i: nat, r: Result)
    requires i <= |s|
    ensures CheckAux([], 0, t1, NeverFails) || t2.False? ==>
              (ChoiceYields(G, t1, t2, s, i, r) <==> Yields(G, t1, s, i, r))
    ensures t1.False? ==> (ChoiceYields(G, t1, t2, s, i, r) <==> Yields(G, t2, s, i, r))
  {
    if CheckAux([], 0, t1, NeverFails) { NeverYieldsFail(G, t1, s, i); }
    if t2.False? { LeafIff(G, t2, s, i, r); }
    if t1.False? {
      LeafIff(G, t1, s, i, r);
      LeafIff(G, t1, s, i, Fail);
    }
    if Yields(G, t1, s, i, r) { var f := Fuel(G, t1, s, i, r); }
    if Yields(G, t2, s, i, r) { var f := Fuel(G, t2, s, i, r); }
  }

  /** With the calls open the answer holds for any rules they may come to name. */
  lemma NeverYieldsFail(G: seq<Tree>, t: Tree, s: Subject, i: nat)
    requires i <= |s| && CheckAux([], 0, t, NeverFails)
    ensures !Yields(G, t, s, i, Fail)
  {
    OpenCalls(G, t, NeverFails);
    if Yields(G, t, s, i, Fail) {
      var f := Fuel(G, t, s, i, Fail);
      CheckAuxSound(G, 0, t, s, i, f);
    }
  }

  lemma {:induction false} OpenCalls(G: seq<Tree>, t: Tree, pred: Property)
    ensures CheckAux(G, 0, t, pred) == CheckAux([], 0, t, pred)
    decreases t
  {
    match t
    case And(p) => OpenCalls(G, p, pred);
    case Seq(p1, p2) =>
      OpenCalls(G, p1, pred);
      OpenCalls(G, p2, pred);
    case Choice(p1, p2) =>
      OpenCalls(G, p1, pred);
      OpenCalls(G, p2, pred);
    case _ =>
  }

  /** `lp_sub`. */
  function SubOf(t1: Tree, t2: Tree): Tree {
    if ToCharSet(t1).0 && ToCharSet(t2).0 then CharTree(ToCharSet(t1).1 - ToCharSet(t2).1)
    else Seq(Not(t2), t1)
  }

  /** A difference matches `t1` where `t2` does not match. */
  lemma SubOfMeans(t1: Tree, t2: Tree, G: seq<Tree>, s: Subject, i: nat, r: Result)
    requires i <= |s|
    ensures Yields(G, SubOf(t1, t2), s, i, r) <==>
            || (Yields(G, t2, s, i, Fail) && Yields(G, t1, s, i, r))
            || (r.Fail? && exists j :: i <= j <= |s| && Yields(G, t2, s, i, Ok(j)))
  {
    hide Yields;
    SeqIff(G, Not(t2), t1, s, i, r);
    LookIff(G, Not(t2), s, i, Fail);
    LookIff(G, Not(t2), s, i, Ok(i));
    forall j | i <= j <= |s| && Yields(G, Not(t2), s, i, Ok(j)) ensures j == i { LookIff(G, Not(t2), s, i, Ok(j)); }
    if ToCharSet(t1).0 && ToCharSet(t2).0 { SubOfSets(t1, t2, G, s, i, r); }
  }

  lemma SubOfSets(t1: Tree, t2: Tree, G: seq<Tree>, s: Subject, i: nat, r: Result)
    requires i <= |s| && ToCharSet(t1).0 && ToCharSet(t2).0
    ensures Yields(G, SubOf(t1, t2), s, i, r) <==>
            || (Yields(G, t2, s, i, Fail) && Yields(G, t1, s, i, r))
            || (r.Fail? && exists j :: i <= j <= |s| && Yields(G, t2, s, i, Ok(j)))
  {
    hide Yields, ToCharSet, CharTree;
    CharSetMeans(t1, G, s, i, r);
    CharSetMeans(t2, G, s, i, Fail);
    forall j ensures Yields(G, t2, s, i, Ok(j)) <==> i < |s| && s[i] in ToCharSet(t2).1 && j == i + 1 {
      CharSetMeans(t2, G, s, i, Ok(j));
    }
    CharTreeMeans(ToCharSet(t1).1 - ToCharSet(t2).1, G, s, i, r);
  }

  // Repetitions

  /** `k` matches of `p` in a row lead from `i` to `j`. */
  ghost predicate Times(G: seq<Tree>, p: Tree, s: Subject, i: nat, k: nat, j: nat)
    requires i <= |s|
    decreases k
  {
    if k == 0 then i == j
    else exists m :: i <= m <= |s| && Yields(G, p, s, i, Ok(m)) && Times(G, p, s, m, k - 1, j)
  }

  /** ... and there are no more. */
  ghost predicate TimesOnly(G: seq<Tree>, p: Tree, s: Subject, i: nat, k: nat, j: nat)
    requires i <= |s|
  {
    Times(G, p, s, i, k, j) && j <= |s| && Yields(G, p, s, j, Fail)
  }

  /** `p` `n` times, then as often as possible. */
  function AtLeast(p: Tree, n: nat): Tree {
    if n == 0 then Rep(p) else Seq(p, AtLeast(p, n - 1))
  }

  /** `p` as often as possible, but no more than `n` times. */
  function AtMost(p: Tree, n: nat): Tree
    requires n > 0
  {
    if n == 1 then Choice(p, True) else Choice(Seq(p, AtMost(p, n - 1)), True)
  }

  /** Is a pattern nullable while its calls are open? Open calls are taken for not nullable. */
  predicate OpenNullable(t: Tree)
    decreases t
  {
    match t
    case Call(_) => false
    case Seq(p1, p2) => OpenNullable(p1) && OpenNullable(p2)
    case Choice(p1, p2) => OpenNullable(p2) || OpenNullable(p1)
    case _ => CheckAux([], 0, t, Nullability)
  }

  /** What is nullable then is nullable in any grammar. Without calls the two are the same. */
  lemma {:induction false} OpenNullableClosed(G: seq<Tree>, calls: nat, t: Tree)
    ensures OpenNullable(t) ==> CheckAux(G, calls, t, Nullability)
    ensures CallFree(t) ==> OpenNullable(t) == CheckAux(G, calls, t, Nullability)
    decreases t
  {
    match t
    case Seq(p1, p2) =>
      OpenNullableClosed(G, calls, p1);
      OpenNullableClosed(G, calls, p2);
    case Choice(p1, p2) =>
      OpenNullableClosed(G, calls, p1);
      OpenNullableClosed(G, calls, p2);
    case _ =>
  }

  /** A pattern taken for not nullable matches the empty string only by way of a rule that it calls. */
  lemma {:induction false} EmptyByCall(G: seq<Tree>, t: Tree, s: Subject, i: nat, fuel: nat) returns (k: nat, f: nat)
    requires i <= |s| && !OpenNullable(t) && Match(G, t, s, i, fuel) == Ok(i)
    ensures Mentions(t, k) && k < |G| && f < fuel && Match(G, G[k], s, i, f) == Ok(i)
    decreases t
  {
    match t
    case Seq(p1, p2) => k, f := EmptyByCall(G, if OpenNullable(p1) then p2 else p1, s, i, fuel - 1);
    case Choice(p1, p2) => k, f := EmptyByCall(G, if Match(G, p1, s, i, fuel - 1).Ok? then p1 else p2, s, i, fuel - 1);
    case Call(j) => k, f := j, fuel - 1;
    case Grammar(_) =>
      CheckAuxSound(G, 0, t, s, i, fuel);
      assert false;
    case _ => assert false;
  }

  /** A loop that is accepted, its body settling and without calls, comes to an end in any grammar. */
  lemma {:induction false} AcceptedLoopEnds(G: seq<Tree>, p: Tree, s: Subject, i: nat)
    requires i <= |s| && CallFree(p) && !OpenNullable(p)
    requires forall j | i <= j <= |s| :: Settles(G, p, s, j)
    ensures Settles(G, Rep(p), s, i)
    decreases |s| - i
  {
    var f, r := Outcome(G, p, s, i);
    OpenNullableClosed(G, 0, p);
    CheckAuxSound(G, 0, p, s, i, f);
    if r.Ok? { AcceptedLoopEnds(G, p, s, r.pos); }
    SettlesTwo(G, Rep(p), p, Rep(p), s, i, f, r);
  }

  /** Patterns of characters, sequences, choices and loops alone. */
  predicate Simple(t: Tree)
    decreases t
  {
    match t
    case Seq(p1, p2) => Simple(p1) && Simple(p2)
    case Choice(p1, p2) => Simple(p1) && Simple(p2)
    case Rep(p) => Simple(p)
    case _ => t.Char? || t.Set? || t.Any? || t.True? || t.False?
  }

  /** For these nullable is the same as never failing... */
  lemma {:induction false} NullableNeverFails(G: seq<Tree>, t: Tree)
    requires Simple(t)
    ensures OpenNullable(t) == CheckAux(G, 0, t, NeverFails)
    decreases t
  {
    match t
    case Seq(p1, p2) =>
      NullableNeverFails(G, p1);
      NullableNeverFails(G, p2);
    case Choice(p1, p2) =>
      NullableNeverFails(G, p1);
      NullableNeverFails(G, p2);
    case _ =>
  }

  /** ... so that a loop that is refused would not end on any subject. */
  lemma {:induction false} RefusedLoopDiverges(G: seq<Tree>, p: Tree, s: Subject, i: nat, fuel: nat)
    requires i <= |s| && Simple(p) && OpenNullable(p)
    ensures Match(G, Rep(p), s, i, fuel) == OutOfFuel
    decreases fuel
  {
    if fuel > 0 {
      NullableNeverFails(G, p);
      CheckAuxSound(G, 0, p, s, i, fuel - 1);
      var r := Match(G, p, s, i, fuel - 1);
      if r.Ok? { RefusedLoopDiverges(G, p, s, r.pos, fuel - 1); }
    }
  }

  /** `lp_star`: p^n for a number that may be negative; none when a loop body may accept the empty string. */
  method Star(p: Tree, n: int) returns (ok: bool, t: Tree)
    ensures ok == (n < 0 || !OpenNullable(p))
    ensures ok ==> t == if n >= 0 then AtLeast(p, n) else AtMost(p, -n)
  {
    if n >= 0 {
      t := Rep(p);
      if OpenNullable(p) {
        return false, t;
      }
      for k := 0 to n
        invariant t == AtLeast(p, k)
      {
        t := Seq(p, t);
      }
    } else {
      t := Choice(p, True);
      for k := 1 to -n
        invariant t == AtMost(p, k)
      {
        t := Choice(Seq(p, t), True);
      }
    }
    ok := true;
  }

  lemma {:induction false} RepStops(G: seq<Tree>, p: Tree, s: Subject, i: nat, fuel: nat) returns (k: nat)
    requires i <= |s| && Match(G, Rep(p), s, i, fuel) != OutOfFuel
    ensures Match(G, Rep(p), s, i, fuel).Ok? && TimesOnly(G, p, s, i, k, Match(G, Rep(p), s, i, fuel).pos)
    decreases fuel
  {
    MatchRep(G, p, s, i, fuel);
    YieldsBy(G, p, s, i, fuel - 1);
    var r := Match(G, p, s, i, fuel - 1);
    if r.Ok? {
      k := RepStops(G, p, s, r.pos, fuel - 1);
      k := k + 1;
    } else {
      k := 0;
    }
  }

  lemma {:induction false} RepYieldsTimes(G: seq<Tree>, p: Tree, s: Subject, i: nat, k: nat, j: nat)
    requires i <= |s| && TimesOnly(G, p, s, i, k, j)
    ensures Yields(G, Rep(p), s, i, Ok(j))
    decreases k
  {
    hide Yields;
    RepIff(G, p, s, i, Ok(j));
    if k > 0 {
      var m :| i <= m <= |s| && Yields(G, p, s, i, Ok(m)) && Times(G, p, s, m, k - 1, j);
      RepYieldsTimes(G, p, s, m, k - 1, j);
    }
  }

  ghost predicate AtLeastYields(G: seq<Tree>, p: Tree, n: nat, s: Subject, i: nat, r: Result)
    requires i <= |s|
  {
    exists k: nat, j: nat :: TimesOnly(G, p, s, i, k, j) && r == if k >= n then Ok(j) else Fail
  }

  /** p^n with n not negative matches all repetitions that there are, if they are `n` at least, and otherwise fails. */
  lemma {:induction false} AtLeastMeans(G: seq<Tree>, p: Tree, n: nat, s: Subject, i: nat, r: Result)
    requires i <= |s|
    ensures Yields(G, AtLeast(p, n), s, i, r) <==> AtLeastYields(G, p, n, s, i, r)
    decreases n
  {
    hide Yields;
    if n == 0 {
      if Yields(G, Rep(p), s, i, r) {
        var f := Fuel(G, Rep(p), s, i, r);
        var k := RepStops(G, p, s, i, f);
      }
      if k: nat, j: nat :| TimesOnly(G, p, s, i, k, j) && r == Ok(j) { RepYieldsTimes(G, p, s, i, k, j); }
    } else {
      var q := AtLeast(p, n - 1);
      SeqIff(G, p, q, s, i, r);
      forall j: nat | i <= j <= |s| ensures Yields(G, q, s, j, r) <==> AtLeastYields(G, p, n - 1, s, j, r) {
        AtLeastMeans(G, p, n - 1, s, j, r);
      }
      if Yields(G, AtLeast(p, n), s, i, r) {
        if r.Fail? && Yields(G, p, s, i, Fail) {
          assert TimesOnly(G, p, s, i, 0, i);
        } else {
          var m :| i <= m <= |s| && Yields(G, p, s, i, Ok(m)) && Yields(G, q, s, m, r);
          var k: nat, j: nat :| TimesOnly(G, p, s, m, k, j) && r == if k >= n - 1 then Ok(j) else Fail;
          assert TimesOnly(G, p, s, i, k + 1, j);
        }
      }
      if k: nat, j: nat :| TimesOnly(G, p, s, i, k, j) && r == if k >= n then Ok(j) else Fail {
        if k > 0 {
          var m :| i <= m <= |s| && Yields(G, p, s, i, Ok(m)) && Times(G, p, s, m, k - 1, j);
          assert TimesOnly(G, p, s, m, k - 1, j);
        }
      }
    }
  }

  ghost predicate AtMostYields(G: seq<Tree>, p: Tree, n: nat, s: Subject, i: nat, r: Result)
    requires i <= |s|
  {
    exists k: nat, j: nat :: k <= n && r == Ok(j) && if k == n then Times(G, p, s, i, k, j) && j <= |s|
                                                    else TimesOnly(G, p, s, i, k, j)
  }

  /** p^-n matches all repetitions that there are, but only the first `n` of them, and never fails. */
  lemma {:induction false} AtMostMeans(G: seq<Tree>, p: Tree, n: nat, s: Subject, i: nat, r: Result)
    requires i <= |s| && n > 0
    ensures Yields(G, AtMost(p, n), s, i, r) <==> AtMostYields(G, p, n, s, i, r)
    decreases n
  {
    hide Yields;
    LeafIff(G, True, s, i, r);
    if n == 1 {
      ChoiceIff(G, p, True, s, i, r);
      if r.Ok? && Yields(G, p, s, i, r) {
        var f := Fuel(G, p, s, i, r);
        assert Times(G, p, s, r.pos, 0, r.pos);
        assert Times(G, p, s, i, 1, r.pos);
      }
      if Yields(G, p, s, i, Fail) { assert TimesOnly(G, p, s, i, 0, i); }
      if AtMostYields(G, p, 1, s, i, r) { OneMore(G, p, 1, s, i, r); }
    } else {
      var q := AtMost(p, n - 1);
      ChoiceIff(G, Seq(p, q), True, s, i, r);
      SeqIff(G, p, q, s, i, r);
      SeqIff(G, p, q, s, i, Fail);
      forall j: nat, x | i <= j <= |s| ensures Yields(G, q, s, j, x) <==> AtMostYields(G, p, n - 1, s, j, x) {
        AtMostMeans(G, p, n - 1, s, j, x);
      }
      if Yields(G, p, s, i, Fail) { assert TimesOnly(G, p, s, i, 0, i); }
      if m: nat :| i <= m <= |s| && Yields(G, p, s, i, Ok(m)) && AtMostYields(G, p, n - 1, s, m, r) {
        var k: nat, j: nat :| k <= n - 1 && r == Ok(j) && if k == n - 1 then Times(G, p, s, m, k, j) && j <= |s|
                                                    else TimesOnly(G, p, s, m, k, j);
        assert Times(G, p, s, i, k + 1, j);
        assert k + 1 < n ==> TimesOnly(G, p, s, i, k + 1, j);
      }
      if AtMostYields(G, p, n, s, i, r) { OneMore(G, p, n, s, i, r); }
    }
  }

  /** The first repetition, if there is one, and the others. */
  lemma OneMore(G: seq<Tree>, p: Tree, n: nat, s: Subject, i: nat, r: Result)
    requires i <= |s| && n > 0 && AtMostYields(G, p, n, s, i, r)
    ensures || (Yields(G, p, s, i, Fail) && r == Ok(i))
            || exists m: nat :: i <= m <= |s| && Yields(G, p, s, i, Ok(m))
                                && if n == 1 then r == Ok(m) else AtMostYields(G, p, n - 1, s, m, r)
  {
    hide Yields;
    var k: nat, j: nat :| k <= n && r == Ok(j) && if k == n then Times(G, p, s, i, k, j) && j <= |s|
                                                    else TimesOnly(G, p, s, i, k, j);
    if k > 0 {
      var m :| i <= m <= |s| && Yields(G, p, s, i, Ok(m)) && Times(G, p, s, m, k - 1, j);
      assert k < n ==> TimesOnly(G, p, s, m, k - 1, j);
      assert n > 1 ==> AtMostYields(G, p, n - 1, s, m, r);
    }
  }

  // Look-behind

  /** `n` is a length that a match of `t` can have as far as the form of `t` tells. A repetition and an open call can
      have any; for a grammar that is what `fixedlen` says. */
  ghost predicate HasLength(t: Tree, n: nat)
    decreases t
  {
    match t
    case Char(_) => n == 1
    case Set(_) => n == 1
    case Any => n == 1
    case Seq(p1, p2) => exists a: nat, b: nat :: HasLength(p1, a) && HasLength(p2, b) && a + b == n
    case Choice(p1, p2) => HasLength(p1, n) || HasLength(p2, n)
    case Rep(_) => true
    case Call(_) => true
    case Grammar(_) => FixedLen([], 0, t) < 0 || n == FixedLen([], 0, t)
    case _ => n == 0
  }

  ghost predicate OnlyLength(t: Tree, n: nat) {
    forall m: nat :: HasLength(t, m) <==> m == n
  }

  /** `fixedlen` finds the length if there is only one. */
  lemma {:induction false} FixedLenOnly(t: Tree, n: nat)
    requires FixedLen([], 0, t) >= 0
    ensures HasLength(t, n) <==> n == FixedLen([], 0, t)
    decreases t
  {
    match t
    case Seq(p1, p2) =>
      FixedLenOnly(p1, FixedLen([], 0, p1));
      FixedLenOnly(p2, FixedLen([], 0, p2));
      forall a: nat, b: nat | HasLength(p1, a) && HasLength(p2, b) ensures a + b == FixedLen([], 0, t) {
        FixedLenOnly(p1, a);
        FixedLenOnly(p2, b);
      }
    case Choice(p1, p2) =>
      FixedLenOnly(p1, n);
      FixedLenOnly(p2, n);
    case _ =>
  }

  lemma {:induction false} LengthsDiffer(t: Tree) returns (a: nat, b: nat)
    ensures HasLength(t, a) && HasLength(t, b)
    ensures FixedLen([], 0, t) < 0 ==> a != b
    decreases t
  {
    match t
    case Seq(p1, p2) =>
      var a1, b1 := LengthsDiffer(p1);
      var a2, b2 := LengthsDiffer(p2);
      a, b := a1 + a2, if a1 != b1 then b1 + a2 else a1 + b2;
    case Choice(p1, p2) =>
      a, b := LengthsDiffer(p1);
      var a2, b2 := LengthsDiffer(p2);
      if FixedLen([], 0, p1) >= 0 {
        FixedLenOnly(p1, a);
        b := a2;
        if FixedLen([], 0, p2) < 0 { a, b := a2, b2; } else { FixedLenOnly(p2, a2); }
      }
    case Rep(_) => a, b := 0, 1;
    case Call(_) => a, b := 0, 1;
    case Grammar(_) =>
      var n := FixedLen([], 0, t);
      a, b := if n < 0 then 0 else n, if n < 0 then 1 else n;
    case Char(_) => a, b := 1, 1;
    case Set(_) => a, b := 1, 1;
    case Any => a, b := 1, 1;
    case _ => a, b := 0, 0;
  }

  /** `lp_behind`; none for "pattern may not have fixed length" and "pattern too long to look behind". */
  function LookBehind(p: Tree): (r: Common.Option<Tree>) {
    var n := FixedLen([], 0, p);
    if n < 0 || n > MAX_BEHIND then Common.None else Common.Some(Behind(n, p))
  }

  /** A pattern can be looked behind for if and only if it has one length, which is not too long. The look-behind
      matches, without consuming, where a match of the pattern ends. */
  lemma LookBehindMeans(p: Tree, n: nat)
    ensures LookBehind(p) == Common.Some(Behind(n, p)) <==> OnlyLength(p, n) && n <= MAX_BEHIND
    ensures LookBehind(p).Some? ==> LookBehind(p).value.Behind? && LookBehind(p).value.p == p
  {
    var a, b := LengthsDiffer(p);
    var m := FixedLen([], 0, p);
    if m >= 0 {
      forall k: nat ensures HasLength(p, k) <==> k == m { FixedLenOnly(p, k); }
    }
  }

  lemma LookBehindMatches(G: seq<Tree>, p: Tree, n: nat, s: Subject, i: nat, j: nat)
    requires i <= |s| && LookBehind(p) == Common.Some(Behind(n, p))
    ensures Yields(G, Behind(n, p), s, i, Ok(j)) <==> j == i && exists k :: 0 <= k <= i && Yields(G, p, s, k, Ok(i))
  {
    if Yields(G, Behind(n, p), s, i, Ok(j)) {
      var f := Fuel(G, Behind(n, p), s, i, Ok(j));
      MatchBehind(G, n, p, s, i, f);
      FixedLenSound([], 0, G, p, s, i - n, f - 1);
      YieldsBy(G, p, s, i - n, f - 1);
      assert Yields(G, p, s, i - n, Ok(i));
    }
    if j == i {
      forall k | 0 <= k <= i && Yields(G, p, s, k, Ok(i)) ensures Yields(G, Behind(n, p), s, i, Ok(i)) {
        var f := Fuel(G, p, s, k, Ok(i));
        FixedLenSound([], 0, G, p, s, k, f);
        BehindGives(G, n, p, s, i, Ok(i));
      }
    }
  }

  // Strings and numbers

  /** The pattern of the characters `cs`, which are to follow one another. */
  function Literal(cs: seq<Byte>): Tree {
    if cs == [] then True else if |cs| == 1 then Char(cs[0]) else Seq(Char(cs[0]), Literal(cs[1..]))
  }

  /** `n` times any character. */
  function Anys(n: nat): Tree {
    if n == 0 then True else if n == 1 then Any else Seq(Any, Anys(n - 1))
  }

  /** `fillseq` for the characters of a string: from the last to the first. */
  method FillString(cs: seq<Byte>) returns (t: Tree)
    ensures t == Literal(cs)
  {
    if cs == [] {
      return True;
    }
    var k := |cs| - 1;
    t := Char(cs[k]);
    assert cs[k..] == [cs[k]];
    while k > 0
      invariant 0 <= k < |cs| && t == Literal(cs[k..])
    {
      k := k - 1;
      t := Seq(Char(cs[k]), t);
      assert cs[k..][1..] == cs[k + 1..];
    }
    assert cs[0..] == cs;
  }

  /** `numtree`. */
  method NumTree(n: int) returns (t: Tree)
    ensures t == if n >= 0 then Anys(n) else Not(Anys(-n))
  {
    if n == 0 {
      return True;
    }
    var m := if n > 0 then n else -n;
    t := Any;
    for k := 1 to m
      invariant t == Anys(k)
    {
      t := Seq(Any, t);
    }
    if n < 0 {
      t := Not(t);
    }
  }

  /** A string matches exactly itself. */
  lemma {:induction false} LiteralMeans(G: seq<Tree>, cs: seq<Byte>, s: Subject, i: nat, r: Result)
    requires i <= |s|
    ensures Yields(G, Literal(cs), s, i, r) <==> r == if cs <= s[i..] then Ok(i + |cs|) else Fail
    decreases |cs|
  {
    hide Yields;
    if |cs| <= 1 {
      LeafIff(G, Literal(cs), s, i, r);
    } else {
      SeqIff(G, Char(cs[0]), Literal(cs[1..]), s, i, r);
      forall q ensures Yields(G, Char(cs[0]), s, i, q) <==> q == Match(G, Char(cs[0]), s, i, 1) {
        LeafIff(G, Char(cs[0]), s, i, q);
      }
      if i < |s| {
        LiteralMeans(G, cs[1..], s, i + 1, r);
        assert s[i..] == [s[i]] + s[i + 1..] && cs == [cs[0]] + cs[1..];
        assert cs <= s[i..] <==> cs[0] == s[i] && cs[1..] <= s[i + 1..] by { PrefixNext(cs, s[i..]); }
      }
    }
  }

  lemma PrefixNext(a: seq<Byte>, b: seq<Byte>)
    requires a != [] && b != []
    ensures a <= b <==> a[0] == b[0] && a[1..] <= b[1..]
  {
    if a[0] == b[0] && a[1..] <= b[1..] {
      forall k | 0 <= k < |a| ensures a[k] == b[k] {
        if k > 0 { assert a[1..][k - 1] == b[1..][k - 1]; }
      }
    }
  }

  /** A number matches as many characters; a negative one, where there are fewer. */
  lemma {:induction false} AnysMeans(G: seq<Tree>, n: nat, s: Subject, i: nat, r: Result)
    requires i <= |s|
    ensures Yields(G, Anys(n), s, i, r) <==> r == if i + n <= |s| then Ok(i + n) else Fail
    decreases n
  {
    hide Yields;
    if n <= 1 {
      LeafIff(G, Anys(n), s, i, r);
    } else {
      SeqIff(G, Any, Anys(n - 1), s, i, r);
      forall q ensures Yields(G, Any, s, i, q) <==> q == Match(G, Any, s, i, 1) { LeafIff(G, Any, s, i, q); }
      if i < |s| { AnysMeans(G, n - 1, s, i + 1, r); }
    }
  }

  lemma NumberMeans(G: seq<Tree>, n: nat, s: Subject, i: nat, r: Result)
    requires i <= |s| && n > 0
    ensures Yields(G, Not(Anys(n)), s, i, r) <==> r == if i + n > |s| then Ok(i) else Fail
  {
    hide Yields;
    LookIff(G, Not(Anys(n)), s, i, r);
    AnysMeans(G, n, s, i, Fail);
    forall j: nat ensures Yields(G, Anys(n), s, i, Ok(j)) <==> i + n == j <= |s| { AnysMeans(G, n, s, i, Ok(j)); }
    assert i + n <= |s| ==> Yields(G, Anys(n), s, i, Ok(i + n));
  }

  // Final adjustments

  /** The sequence of the parts of `u` and then `v`, to the right. */
  function SeqAppend(u: Tree, v: Tree): Tree {
    match u
    case Seq(a, b) => Seq(a, SeqAppend(b, v))
    case _ => Seq(u, v)
  }

  function ChoiceAppend(u: Tree, v: Tree): Tree {
    match u
    case Choice(a, b) => Choice(a, ChoiceAppend(b, v))
    case _ => Choice(u, v)
  }

  /** All sequences and choices of a pattern associated to the right; the grammars inside were adjusted before. */
  function Fixed(t: Tree): (u: Tree)
    ensures u.Seq? == t.Seq? && u.Choice? == t.Choice?
    decreases t
  {
    match t
    case Seq(p1, p2) => SeqAppend(Fixed(p1), Fixed(p2))
    case Choice(p1, p2) => ChoiceAppend(Fixed(p1), Fixed(p2))
    case Rep(p) => Rep(Fixed(p))
    case Not(p) => Not(Fixed(p))
    case And(p) => And(Fixed(p))
    case Behind(n, p) => Behind(n, Fixed(p))
    case _ => t
  }

  function FixedAll(G: seq<Tree>): (H: seq<Tree>)
    ensures |H| == |G| && forall k | 0 <= k < |G| :: H[k] == Fixed(G[k])
  {
    seq(|G|, k requires 0 <= k < |G| => Fixed(G[k]))
  }

  /** No sequence starts with a sequence, no choice with a choice. */
  predicate RightAssociated(t: Tree)
    decreases t
  {
    match t
    case Seq(p1, p2) => !p1.Seq? && RightAssociated(p1) && RightAssociated(p2)
    case Choice(p1, p2) => !p1.Choice? && RightAssociated(p1) && RightAssociated(p2)
    case Rep(p) => RightAssociated(p)
    case Not(p) => RightAssociated(p)
    case And(p) => RightAssociated(p)
    case Behind(_, p) => RightAssociated(p)
    case _ => true
  }

  lemma {:induction false} AppendRight(u: Tree, v: Tree)
    requires RightAssociated(u) && RightAssociated(v)
    ensures RightAssociated(SeqAppend(u, v)) && RightAssociated(ChoiceAppend(u, v))
    decreases u
  {
    match u
    case Seq(a, b) => AppendRight(b, v);
    case Choice(a, b) => AppendRight(b, v);
    case _ =>
  }

  lemma {:induction false} FixedRight(t: Tree)
    ensures RightAssociated(Fixed(t))
    decreases t
  {
    match t
    case Seq(p1, p2) =>
      FixedRight(p1);
      FixedRight(p2);
      AppendRight(Fixed(p1), Fixed(p2));
    case Choice(p1, p2) =>
      FixedRight(p1);
      FixedRight(p2);
      AppendRight(Fixed(p1), Fixed(p2));
    case Rep(p) => FixedRight(p);
    case Not(p) => FixedRight(p);
    case And(p) => FixedRight(p);
    case Behind(_, p) => FixedRight(p);
    case _ =>
  }

  lemma {:induction false} SeqAssoc(u: Tree, v: Tree, w: Tree)
    ensures SeqAppend(SeqAppend(u, v), w) == SeqAppend(u, SeqAppend(v, w))
    decreases u
  {
    match u
    case Seq(a, b) =>
      SeqAssoc(b, v, w);
      assert SeqAppend(u, v) == Seq(a, SeqAppend(b, v));
    case _ =>
      assert SeqAppend(u, v) == Seq(u, v);
  }

  lemma {:induction false} ChoiceAssoc(u: Tree, v: Tree, w: Tree)
    ensures ChoiceAppend(ChoiceAppend(u, v), w) == ChoiceAppend(u, ChoiceAppend(v, w))
    decreases u
  {
    match u
    case Choice(a, b) =>
      ChoiceAssoc(b, v, w);
      assert ChoiceAppend(u, v) == Choice(a, ChoiceAppend(b, v));
    case _ =>
      assert ChoiceAppend(u, v) == Choice(u, v);
  }

  function Nodes(t: Tree): nat
    decreases t
  {
    match t
    case Seq(p1, p2) => 1 + Nodes(p1) + Nodes(p2)
    case Choice(p1, p2) => 1 + Nodes(p1) + Nodes(p2)
    case Rep(p) => 1 + Nodes(p)
    case Not(p) => 1 + Nodes(p)
    case And(p) => 1 + Nodes(p)
    case Behind(_, p) => 1 + Nodes(p)
    case _ => 1
  }

  /** `correctassociativity`: rotate until the first part is of another kind. */
  method CorrectAssociativity(t: Tree) returns (u: Tree)
    requires t.Seq? || t.Choice?
    ensures if t.Seq? then u.Seq? && !u.p1.Seq? else u.Choice? && !u.p1.Choice?
    ensures Fixed(u) == Fixed(t) && Nodes(u) == Nodes(t)
  {
    u := t;
    if t.Seq? {
      while u.p1.Seq?
        invariant u.Seq? && Fixed(u) == Fixed(t) && Nodes(u) == Nodes(t)
        decreases Nodes(u.p1)
      {
        var Seq(Seq(a, b), c) := u;
        SeqAssoc(Fixed(a), Fixed(b), Fixed(c));
        u := Seq(a, Seq(b, c));
      }
    } else {
      while u.p1.Choice?
        invariant u.Choice? && Fixed(u) == Fixed(t) && Nodes(u) == Nodes(t)
        decreases Nodes(u.p1)
      {
        var Choice(Choice(a, b), c) := u;
        ChoiceAssoc(Fixed(a), Fixed(b), Fixed(c));
        u := Choice(a, Choice(b, c));
      }
    }
  }

  /** `finalfix`, once the names of the calls are resolved. */
  method FinalFix(t: Tree) returns (u: Tree)
    ensures u == Fixed(t)
    decreases Nodes(t)
  {
    match t {
      case Seq(_, _) =>
        var v := CorrectAssociativity(t);
        var p1 := FinalFix(v.p1);
        var p2 := FinalFix(v.p2);
        u := Seq(p1, p2);
      case Choice(_, _) =>
        var v := CorrectAssociativity(t);
        var p1 := FinalFix(v.p1);
        var p2 := FinalFix(v.p2);
        u := Choice(p1, p2);
      case Rep(p) =>
        u := FinalFix(p);
        u := Rep(u);
      case Not(p) =>
        u := FinalFix(p);
        u := Not(u);
      case And(p) =>
        u := FinalFix(p);
        u := And(u);
      case Behind(n, p) =>
        u := FinalFix(p);
        u := Behind(n, u);
      case _ =>
        u := t;
    }
  }

  lemma {:induction false} SeqAppendGives(G: seq<Tree>, u: Tree, v: Tree, s: Subject, i: nat, r: Result)
    requires i <= |s| && SeqYields(G, u, v, s, i, r)
    ensures Yields(G, SeqAppend(u, v), s, i, r)
    decreases u
  {
    hide Yields;
    match u
    case Seq(a, b) =>
      var w := SeqAppend(b, v);
      SeqIff(G, a, w, s, i, r);
      if r.Fail? && Yields(G, u, s, i, Fail) {
        SeqIff(G, a, b, s, i, Fail);
        if j :| i <= j <= |s| && Yields(G, a, s, i, Ok(j)) && Yields(G, b, s, j, Fail) {
          SeqAppendGives(G, b, v, s, j, r);
        }
      } else {
        var m :| i <= m <= |s| && Yields(G, u, s, i, Ok(m)) && Yields(G, v, s, m, r);
        SeqIff(G, a, b, s, i, Ok(m));
        var j :| i <= j <= |s| && Yields(G, a, s, i, Ok(j)) && Yields(G, b, s, j, Ok(m));
        Later(G, b, s, j, m);
        SeqAppendGives(G, b, v, s, j, r);
      }
    case _ => SeqIff(G, u, v, s, i, r);
  }

  lemma Later(G: seq<Tree>, t: Tree, s: Subject, i: nat, j: nat)
    requires i <= |s| && Yields(G, t, s, i, Ok(j))
    ensures i <= j <= |s|
  {
    var f := Fuel(G, t, s, i, Ok(j));
  }

  lemma {:induction false} ChoiceAppendGives(G: seq<Tree>, u: Tree, v: Tree, s: Subject, i: nat, r: Result)
    requires i <= |s| && ChoiceYields(G, u, v, s, i, r)
    ensures Yields(G, ChoiceAppend(u, v), s, i, r)
    decreases u
  {
    hide Yields;
    match u
    case Choice(a, b) =>
      ChoiceIff(G, a, ChoiceAppend(b, v), s, i, r);
      ChoiceIff(G, a, b, s, i, r);
      ChoiceIff(G, a, b, s, i, Fail);
      if !(r.Ok? && Yields(G, a, s, i, r)) { ChoiceAppendGives(G, b, v, s, i, r); }
    case _ => ChoiceIff(G, u, v, s, i, r);
  }

  lemma SeqSettled(G: seq<Tree>, a: Tree, b: Tree, s: Subject, i: nat, fuel: nat)
    requires i <= |s| && fuel > 0 && Match(G, a, s, i, fuel - 1) != OutOfFuel
    requires var r := Match(G, a, s, i, fuel - 1); r.Ok? ==> Match(G, b, s, r.pos, fuel - 1) != OutOfFuel
    ensures Match(G, Seq(a, b), s, i, fuel) != OutOfFuel
  {
  }

  lemma ChoiceSettled(G: seq<Tree>, a: Tree, b: Tree, s: Subject, i: nat, fuel: nat)
    requires i <= |s| && fuel > 0 && Match(G, a, s, i, fuel - 1) != OutOfFuel
    requires Match(G, a, s, i, fuel - 1).Fail? ==> Match(G, b, s, i, fuel - 1) != OutOfFuel
    ensures Match(G, Choice(a, b), s, i, fuel) != OutOfFuel
  {
  }

  /** In the rotated sequence the parts take no more fuel. */
  lemma {:induction false} SeqAppendParts(G: seq<Tree>, u: Tree, v: Tree, s: Subject, i: nat, fuel: nat)
    requires i <= |s| && Match(G, SeqAppend(u, v), s, i, fuel) != OutOfFuel
    ensures var r1 := Match(G, u, s, i, fuel);
            && r1 != OutOfFuel
            && Match(G, SeqAppend(u, v), s, i, fuel) == if r1.Ok? then Match(G, v, s, r1.pos, fuel) else Fail
    decreases u
  {
    hide Match;
    match u
    case Seq(a, b) =>
      MatchSeq(G, a, SeqAppend(b, v), s, i, fuel);
      var r1 := Match(G, a, s, i, fuel - 1);
      if r1.Ok? {
        SeqAppendParts(G, b, v, s, r1.pos, fuel - 1);
        var r2 := Match(G, b, s, r1.pos, fuel - 1);
        if r2.Ok? { MatchMonotone(G, v, s, r2.pos, fuel - 1, fuel); }
      }
      SeqSettled(G, a, b, s, i, fuel);
      MatchSeq(G, a, b, s, i, fuel);
    case _ =>
      MatchSeq(G, u, v, s, i, fuel);
      MatchMonotone(G, u, s, i, fuel - 1, fuel);
      var r1 := Match(G, u, s, i, fuel);
      if r1.Ok? { MatchMonotone(G, v, s, r1.pos, fuel - 1, fuel); }
  }

  lemma {:induction false} ChoiceAppendParts(G: seq<Tree>, u: Tree, v: Tree, s: Subject, i: nat, fuel: nat)
    requires i <= |s| && Match(G, ChoiceAppend(u, v), s, i, fuel) != OutOfFuel
    ensures var r1 := Match(G, u, s, i, fuel);
            && r1 != OutOfFuel
            && Match(G, ChoiceAppend(u, v), s, i, fuel) == if r1.Ok? then r1 else Match(G, v, s, i, fuel)
    decreases u
  {
    hide Match;
    match u
    case Choice(a, b) =>
      MatchChoice(G, a, ChoiceAppend(b, v), s, i, fuel);
      if Match(G, a, s, i, fuel - 1).Fail? {
        ChoiceAppendParts(G, b, v, s, i, fuel - 1);
        if Match(G, b, s, i, fuel - 1).Fail? { MatchMonotone(G, v, s, i, fuel - 1, fuel); }
      }
      ChoiceSettled(G, a, b, s, i, fuel);
      MatchChoice(G, a, b, s, i, fuel);
    case _ =>
      MatchChoice(G, u, v, s, i, fuel);
      MatchMonotone(G, u, s, i, fuel - 1, fuel);
      if Match(G, u, s, i, fuel).Fail? { MatchMonotone(G, v, s, i, fuel - 1, fuel); }
  }

  lemma {:induction false} FixedGives(G: seq<Tree>, t: Tree, s: Subject, i: nat, fuel: nat)
    requires i <= |s| && Match(G, t, s, i, fuel) != OutOfFuel
    ensures Yields(FixedAll(G), Fixed(t), s, i, Match(G, t, s, i, fuel))
    decreases fuel
  {
    hide Yields;
    var H, r := FixedAll(G), Match(G, t, s, i, fuel);
    match t
    case Seq(p1, p2) =>
      MatchSeq(G, p1, p2, s, i, fuel);
      FixedGives(G, p1, s, i, fuel - 1);
      var r1 := Match(G, p1, s, i, fuel - 1);
      if r1.Ok? { FixedGives(G, p2, s, r1.pos, fuel - 1); }
      SeqAppendGives(H, Fixed(p1), Fixed(p2), s, i, r);
    case Choice(p1, p2) =>
      MatchChoice(G, p1, p2, s, i, fuel);
      FixedGives(G, p1, s, i, fuel - 1);
      if Match(G, p1, s, i, fuel - 1).Fail? { FixedGives(G, p2, s, i, fuel - 1); }
      ChoiceAppendGives(H, Fixed(p1), Fixed(p2), s, i, r);
    case Rep(p) =>
      MatchRep(G, p, s, i, fuel);
      FixedGives(G, p, s, i, fuel - 1);
      var r1 := Match(G, p, s, i, fuel - 1);
      if r1.Ok? { FixedGives(G, t, s, r1.pos, fuel - 1); }
      RepIff(H, Fixed(p), s, i, r);
    case Behind(n, p) =>
      MatchBehind(G, n, p, s, i, fuel);
      if n <= i {
        FixedGives(G, p, s, i - n, fuel - 1);
        BehindGives(H, n, Fixed(p), s, i, Match(G, p, s, i - n, fuel - 1));
      } else {
        YieldsBy(H, Fixed(t), s, i, 1);
      }
    case Call(k) =>
      if k < |G| {
        MatchCall(G, k, s, i, fuel);
        FixedGives(G, G[k], s, i, fuel - 1);
        CallGives(H, k, s, i, r);
      } else {
        YieldsBy(H, t, s, i, 1);
      }
    case Grammar(rs) =>
      SameGrammar(G, H, t, s, i, fuel);
      YieldsBy(H, t, s, i, fuel);
    case Not(p) =>
      MatchLook(G, t, s, i, fuel);
      FixedGives(G, p, s, i, fuel - 1);
      LookIff(H, Fixed(t), s, i, r);
    case And(p) =>
      MatchLook(G, t, s, i, fuel);
      FixedGives(G, p, s, i, fuel - 1);
      LookIff(H, Fixed(t), s, i, r);
    case _ =>
      LeafIff(H, t, s, i, r);
  }

  lemma BehindGives(G: seq<Tree>, n: nat, p: Tree, s: Subject, i: nat, r: Result)
    requires n <= i <= |s| && Yields(G, p, s, i - n, r)
    ensures Yields(G, Behind(n, p), s, i, if r.Ok? then Ok(i) else Fail)
  {
    var f := Fuel(G, p, s, i - n, r);
    YieldsBy(G, Behind(n, p), s, i, f + 1);
  }

  lemma CallGives(G: seq<Tree>, k: nat, s: Subject, i: nat, r: Result)
    requires i <= |s| && k < |G| && Yields(G, G[k], s, i, r)
    ensures Yields(G, Call(k), s, i, r)
  {
    var f := Fuel(G, G[k], s, i, r);
    YieldsBy(G, Call(k), s, i, f + 1);
  }

  /** A grammar brings its own rules. */
  lemma SameGrammar(G: seq<Tree>, H: seq<Tree>, t: Tree, s: Subject, i: nat, fuel: nat)
    requires i <= |s| && (t.Grammar? || Leaf(t))
    ensures Match(G, t, s, i, fuel) == Match(H, t, s, i, fuel)
  {
  }

  lemma {:induction false} FixedTakes(G: seq<Tree>, t: Tree, s: Subject, i: nat, fuel: nat)
    requires i <= |s| && Match(FixedAll(G), Fixed(t), s, i, fuel) != OutOfFuel
    ensures Yields(G, t, s, i, Match(FixedAll(G), Fixed(t), s, i, fuel))
    decreases fuel, t
  {
    hide Yields;
    var H, r := FixedAll(G), Match(FixedAll(G), Fixed(t), s, i, fuel);
    match t
    case Seq(p1, p2) =>
      SeqAppendParts(H, Fixed(p1), Fixed(p2), s, i, fuel);
      FixedTakes(G, p1, s, i, fuel);
      var r1 := Match(H, Fixed(p1), s, i, fuel);
      if r1.Ok? { FixedTakes(G, p2, s, r1.pos, fuel); }
      SeqIff(G, p1, p2, s, i, r);
    case Choice(p1, p2) =>
      ChoiceAppendParts(H, Fixed(p1), Fixed(p2), s, i, fuel);
      FixedTakes(G, p1, s, i, fuel);
      if Match(H, Fixed(p1), s, i, fuel).Fail? { FixedTakes(G, p2, s, i, fuel); }
      ChoiceIff(G, p1, p2, s, i, r);
    case Rep(p) =>
      MatchRep(H, Fixed(p), s, i, fuel);
      FixedTakes(G, p, s, i, fuel - 1);
      var r1 := Match(H, Fixed(p), s, i, fuel - 1);
      if r1.Ok? { FixedTakes(G, t, s, r1.pos, fuel - 1); }
      RepIff(G, p, s, i, r);
    case Behind(n, p) =>
      MatchBehind(H, n, Fixed(p), s, i, fuel);
      if n <= i {
        FixedTakes(G, p, s, i - n, fuel - 1);
        BehindGives(G, n, p, s, i, Match(H, Fixed(p), s, i - n, fuel - 1));
      } else {
        YieldsBy(G, t, s, i, 1);
      }
    case Call(k) =>
      if k < |G| {
        MatchCall(H, k, s, i, fuel);
        FixedTakes(G, G[k], s, i, fuel - 1);
        CallGives(G, k, s, i, r);
      } else {
        YieldsBy(G, t, s, i, 1);
      }
    case Grammar(rs) =>
      SameGrammar(G, H, t, s, i, fuel);
      YieldsBy(G, t, s, i, fuel);
    case Not(p) =>
      MatchLook(H, Fixed(t), s, i, fuel);
      FixedTakes(G, p, s, i, fuel - 1);
      LookIff(G, t, s, i, r);
    case And(p) =>
      MatchLook(H, Fixed(t), s, i, fuel);
      FixedTakes(G, p, s, i, fuel - 1);
      LookIff(G, t, s, i, r);
    case _ =>
      LeafIff(G, t, s, i, r);
      LeafIff(H, t, s, i, r);
      YieldsBy(H, t, s, i, fuel);
  }

  /** The final adjustment of a pattern, and of all the rules it is used with, changes no match. */
  lemma FixedMeans(G: seq<Tree>, t: Tree, s: Subject, i: nat, r: Result)
    requires i <= |s|
    ensures Yields(FixedAll(G), Fixed(t), s, i, r) <==> Yields(G, t, s, i, r)
  {
    if Yields(FixedAll(G), Fixed(t), s, i, r) {
      var f := Fuel(FixedAll(G), Fixed(t), s, i, r);
      FixedTakes(G, t, s, i, f);
    }
    if Yields(G, t, s, i, r) {
      var f := Fuel(G, t, s, i, r);
      FixedGives(G, t, s, i, f);
    }
  }
}
