/** Pattern trees of LPeg and their direct PEG meaning.
    A tree stands for a pattern after `finalfix`: open calls have become `Call(k)`, where `k` is the
    number of a rule of the innermost enclosing grammar. */
module LpegTree {

  type Byte = b: int | 0 <= b < 256

  type CharSet = set<Byte>

  type Subject = seq<Byte>

  /** The set of all characters (`fullset`). */
  function Full(): (cs: CharSet)
    ensures forall c: Byte :: c in cs
  {
    set c: Byte | 0 <= c < 256 && IsByte(c)
  }

  predicate IsByte(c: int) {
    0 <= c < 256
  }

  datatype Tree =
    | Char(c: Byte)
    | Set(cs: CharSet)
    | Any
    | True
    | False
    | Rep(p: Tree)
    | Seq(p1: Tree, p2: Tree)
    | Choice(p1: Tree, p2: Tree)
    | Not(p: Tree)
    | And(p: Tree)
    | Behind(n: nat, p: Tree)
    | Call(k: nat)
    | Grammar(rules: seq<Tree>)

  datatype Result = OutOfFuel | Fail | Ok(pos: nat)

  /** Direct PEG matching of `t` at position `i`, with `G` the rules of the enclosing grammar.
      `OutOfFuel` says only that this much fuel does not settle the match. */
  function Match(G: seq<Tree>, t: Tree, s: Subject, i: nat, fuel: nat): (r: Result)
    requires i <= |s|
    ensures r.Ok? ==> i <= r.pos <= |s|
    decreases fuel
  {
    if fuel == 0 then OutOfFuel else
    match t
    case Char(c) => if i < |s| && s[i] == c then Ok(i + 1) else Fail
    case Set(cs) => if i < |s| && s[i] in cs then Ok(i + 1) else Fail
    case Any => if i < |s| then Ok(i + 1) else Fail
    case True => Ok(i)
    case False => Fail
    case Rep(p) =>
      (match Match(G, p, s, i, fuel - 1)
       case OutOfFuel => OutOfFuel
       case Fail => Ok(i)
       case Ok(j) => Match(G, t, s, j, fuel - 1))
    case Seq(p1, p2) =>
      (match Match(G, p1, s, i, fuel - 1)
       case OutOfFuel => OutOfFuel
       case Fail => Fail
       case Ok(j) => Match(G, p2, s, j, fuel - 1))
    case Choice(p1, p2) =>
      (match Match(G, p1, s, i, fuel - 1)
       case OutOfFuel => OutOfFuel
       case Fail => Match(G, p2, s, i, fuel - 1)
       case Ok(j) => Ok(j))
    case Not(p) =>
      (match Match(G, p, s, i, fuel - 1)
       case OutOfFuel => OutOfFuel
       case Fail => Ok(i)
       case Ok(j) => Fail)
    case And(p) =>
      (match Match(G, p, s, i, fuel - 1)
       case OutOfFuel => OutOfFuel
       case Fail => Fail
       case Ok(j) => Ok(i))
    case Behind(n, p) =>
      if i < n then Fail else
      (match Match(G, p, s, i - n, fuel - 1)
       case OutOfFuel => OutOfFuel
       case Fail => Fail
       case Ok(j) => Ok(i))
    case Call(k) => if k < |G| then Match(G, G[k], s, i, fuel - 1) else Fail
    case Grammar(rs) => if |rs| > 0 then Match(rs, rs[0], s, i, fuel - 1) else Fail
  }

  /** Once a match is settled, more fuel does not change it. */
  lemma {:induction false} MatchMonotone(G: seq<Tree>, t: Tree, s: Subject, i: nat, fuel: nat, more: nat)
    requires i <= |s| && fuel <= more
    requires Match(G, t, s, i, fuel) != OutOfFuel
    ensures Match(G, t, s, i, more) == Match(G, t, s, i, fuel)
    decreases fuel
  {
    match t
    case Rep(p) =>
      MatchMonotone(G, p, s, i, fuel - 1, more - 1);
      var r := Match(G, p, s, i, fuel - 1);
      if r.Ok? { MatchMonotone(G, t, s, r.pos, fuel - 1, more - 1); }
    case Seq(p1, p2) =>
      MatchMonotone(G, p1, s, i, fuel - 1, more - 1);
      var r := Match(G, p1, s, i, fuel - 1);
      if r.Ok? { MatchMonotone(G, p2, s, r.pos, fuel - 1, more - 1); }
    case Choice(p1, p2) =>
      MatchMonotone(G, p1, s, i, fuel - 1, more - 1);
      if Match(G, p1, s, i, fuel - 1).Fail? { MatchMonotone(G, p2, s, i, fuel - 1, more - 1); }
    case Not(p) => MatchMonotone(G, p, s, i, fuel - 1, more - 1);
    case And(p) => MatchMonotone(G, p, s, i, fuel - 1, more - 1);
    case Behind(n, p) => if n <= i { MatchMonotone(G, p, s, i - n, fuel - 1, more - 1); }
    case Call(k) => if k < |G| { MatchMonotone(G, G[k], s, i, fuel - 1, more - 1); }
    case Grammar(rs) => if |rs| > 0 { MatchMonotone(rs, rs[0], s, i, fuel - 1, more - 1); }
    case _ =>
  }

  // A settled match and the matches of its parts

  lemma MatchSeq(G: seq<Tree>, p1: Tree, p2: Tree, s: Subject, i: nat, fuel: nat)
    requires i <= |s| && Match(G, Seq(p1, p2), s, i, fuel) != OutOfFuel
    ensures fuel > 0 && Match(G, p1, s, i, fuel - 1) != OutOfFuel
    ensures var r1 := Match(G, p1, s, i, fuel - 1);
            Match(G, Seq(p1, p2), s, i, fuel) == if r1.Ok? then Match(G, p2, s, r1.pos, fuel - 1) else Fail
  {
  }

  lemma MatchChoice(G: seq<Tree>, p1: Tree, p2: Tree, s: Subject, i: nat, fuel: nat)
    requires i <= |s| && Match(G, Choice(p1, p2), s, i, fuel) != OutOfFuel
    ensures fuel > 0 && Match(G, p1, s, i, fuel - 1) != OutOfFuel
    ensures var r1 := Match(G, p1, s, i, fuel - 1);
            Match(G, Choice(p1, p2), s, i, fuel) == if r1.Ok? then r1 else Match(G, p2, s, i, fuel - 1)
    ensures p2.True? && Match(G, p1, s, i, fuel - 1).Fail? ==> Match(G, Choice(p1, p2), s, i, fuel) == Ok(i)
  {
  }

  lemma MatchRep(G: seq<Tree>, p: Tree, s: Subject, i: nat, fuel: nat)
    requires i <= |s| && Match(G, Rep(p), s, i, fuel) != OutOfFuel
    ensures fuel > 0 && Match(G, p, s, i, fuel - 1) != OutOfFuel
    ensures var r1 := Match(G, p, s, i, fuel - 1);
            Match(G, Rep(p), s, i, fuel) == if r1.Ok? then Match(G, Rep(p), s, r1.pos, fuel - 1) else Ok(i)
  {
  }

  lemma MatchLook(G: seq<Tree>, t: Tree, s: Subject, i: nat, fuel: nat)
    requires t.Not? || t.And?
    requires i <= |s| && Match(G, t, s, i, fuel) != OutOfFuel
    ensures fuel > 0 && Match(G, t.p, s, i, fuel - 1) != OutOfFuel
    ensures Match(G, t, s, i, fuel) == if Match(G, t.p, s, i, fuel - 1).Ok? == t.And? then Ok(i) else Fail
  {
  }

  lemma MatchBehind(G: seq<Tree>, n: nat, p: Tree, s: Subject, i: nat, fuel: nat)
    requires i <= |s| && Match(G, Behind(n, p), s, i, fuel) != OutOfFuel
    ensures n > i ==> Match(G, Behind(n, p), s, i, fuel) == Fail
    ensures n <= i ==>
              && fuel > 0
              && var r1 := Match(G, p, s, i - n, fuel - 1);
                 r1 != OutOfFuel && Match(G, Behind(n, p), s, i, fuel) == if r1.Ok? then Ok(i) else Fail
  {
  }

  lemma MatchCall(G: seq<Tree>, k: nat, s: Subject, i: nat, fuel: nat)
    requires i <= |s| && Match(G, Call(k), s, i, fuel) != OutOfFuel && k < |G|
    ensures fuel > 0 && Match(G, Call(k), s, i, fuel) == Match(G, G[k], s, i, fuel - 1)
  {
  }

  lemma MatchGrammar(G: seq<Tree>, rs: seq<Tree>, s: Subject, i: nat, fuel: nat)
    requires i <= |s| && Match(G, Grammar(rs), s, i, fuel) != OutOfFuel && |rs| > 0
    ensures fuel > 0 && Match(G, Grammar(rs), s, i, fuel) == Match(rs, rs[0], s, i, fuel - 1)
  {
  }

  /** A match has at most one settled outcome. */
  lemma MatchDeterministic(G: seq<Tree>, t: Tree, s: Subject, i: nat, f1: nat, f2: nat)
    requires i <= |s|
    requires Match(G, t, s, i, f1) != OutOfFuel && Match(G, t, s, i, f2) != OutOfFuel
    ensures Match(G, t, s, i, f1) == Match(G, t, s, i, f2)
  {
    MatchMonotone(G, t, s, i, f1, f1 + f2);
    MatchMonotone(G, t, s, i, f2, f1 + f2);
  }

  /** Nesting depth of grammars; matching in a rule of `Grammar(rs)` never sees a deeper tree than `rs`. */
  function Depth(t: Tree): nat
    decreases t
  {
    match t
    case Rep(p) => Depth(p)
    case Seq(p1, p2) => Max(Depth(p1), Depth(p2))
    case Choice(p1, p2) => Max(Depth(p1), Depth(p2))
    case Not(p) => Depth(p)
    case And(p) => Depth(p)
    case Behind(_, p) => Depth(p)
    case Grammar(rs) => 1 + DepthAll(rs)
    case _ => 0
  }

  function DepthAll(rs: seq<Tree>): (d: nat)
    ensures forall k | 0 <= k < |rs| :: Depth(rs[k]) <= d
    decreases rs
  {
    if rs == [] then 0 else
    var d := Max(Depth(rs[0]), DepthAll(rs[1..]));
    assert forall k | 0 < k < |rs| :: rs[k] == rs[1..][k - 1];
    d
  }

  function Max(a: nat, b: nat): nat {
    if a < b then b else a
  }

  /** Bound used by the termination measures of the analyses. */
  function Level(G: seq<Tree>, t: Tree): nat {
    Max(Depth(t), DepthAll(G))
  }
}
