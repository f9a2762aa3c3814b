/** The reader/writer spin lock (rwlock.h): any number of threads, one atomic operation at a time, in any order. */
module RwLock {

  /** Where a thread stands. A reader that is `Counted` has raised `read` and not yet looked at `write` again; one that
      `BacksOff` saw a writer and has to lower `read`. A writer that `Drains` has set `write` and waits for readers. */
  datatype Place = Outside
    | SpinsOnWrite | Counts | Counted | BacksOff | Reading
    | Claims | Drains | Writing

  datatype Lock = Lock(write: int, read: int, places: seq<Place>)

  /** Thread `t` takes its next atomic operation. Outside, `writes` says which lock it wants; `fails` is a
      compare-and-swap that fails without reason. */
  datatype Action = Act(t: nat, writes: bool, fails: bool)

  /** `rwlock_init`, with all threads outside. */
  predicate Initial(s: Lock) {
    s.write == 0 && s.read == 0 && forall t | 0 <= t < |s.places| :: s.places[t] == Outside
  }

  function At(s: Lock, t: nat, p: Place): Lock
    requires t < |s.places|
  {
    s.(places := s.places[t := p])
  }

  function Apply(s: Lock, a: Action): Lock
    requires a.t < |s.places|
  {
    match s.places[a.t]
    case Outside => At(s, a.t, if a.writes then Claims else SpinsOnWrite)
    case SpinsOnWrite => At(s, a.t, if s.write != 0 then SpinsOnWrite else Counts)
    case Counts => At(s, a.t, Counted).(read := s.read + 1)
    case Counted => At(s, a.t, if s.write != 0 then BacksOff else Reading)
    case BacksOff => At(s, a.t, SpinsOnWrite).(read := s.read - 1)
    case Reading => At(s, a.t, Outside).(read := s.read - 1)
    case Claims => if s.write != 0 || a.fails then s else At(s, a.t, Drains).(write := 1)
    case Drains => At(s, a.t, if s.read != 0 then Drains else Writing)
    case Writing => At(s, a.t, Outside).(write := 0)
  }

  predicate Leads(s: Lock, run: seq<Action>, u: Lock)
    decreases |run|
  {
    if run == [] then u == s else run[0].t < |s.places| && Leads(Apply(s, run[0]), run[1..], u)
  }

  // The invariant

  function Count(places: seq<Place>, f: Place -> bool): nat {
    if places == [] then 0 else (if f(places[0]) then 1 else 0) + Count(places[1..], f)
  }

  /** The thread has raised `read` and not lowered it since. */
  const RAISED: Place -> bool := p => p == Counted || p == BacksOff || p == Reading

  /** The thread has set `write` and not cleared it since. */
  const CLAIMED: Place -> bool := p => p == Drains || p == Writing

  predicate Apart(places: seq<Place>) {
    Writing in places ==> Reading !in places
  }

  predicate Inv(s: Lock) {
    s.read == Count(s.places, RAISED) && s.write == Count(s.places, CLAIMED) <= 1 && Apart(s.places)
  }

  lemma {:induction false} CountMove(places: seq<Place>, f: Place -> bool, t: nat, p: Place)
    requires t < |places|
    ensures Count(places[t := p], f) == Count(places, f) - (if f(places[t]) then 1 else 0) + if f(p) then 1 else 0
  {
    if t > 0 {
      CountMove(places[1..], f, t - 1, p);
      assert places[t := p][1..] == places[1..][t - 1 := p];
    } else {
      assert places[t := p][1..] == places[1..];
    }
  }

  lemma {:induction false} CountNone(places: seq<Place>, f: Place -> bool)
    ensures Count(places, f) == 0 <==> forall t | 0 <= t < |places| :: !f(places[t])
  {
    if places != [] {
      CountNone(places[1..], f);
      assert forall t | 1 <= t < |places| :: places[t] == places[1..][t - 1];
    }
  }

  lemma CountTwo(places: seq<Place>, f: Place -> bool, t: nat, u: nat)
    requires t < u < |places| && f(places[t]) && f(places[u])
    ensures Count(places, f) >= 2
  {
    CountRest(places, f, t);
    CountNone(places[t + 1..], f);
    assert places[t + 1..][u - t - 1] == places[u];
  }

  lemma {:induction false} CountRest(places: seq<Place>, f: Place -> bool, t: nat)
    requires t < |places| && f(places[t])
    ensures Count(places, f) >= 1 + Count(places[t + 1..], f)
  {
    if t > 0 {
      CountRest(places[1..], f, t - 1);
      assert places[1..][t..] == places[t + 1..];
    }
  }

  lemma KeepInv(s: Lock, a: Action)
    requires Inv(s) && a.t < |s.places|
    ensures Inv(Apply(s, a))
  {
    hide Count;
    var p := Apply(s, a).places[a.t];
    CountMove(s.places, RAISED, a.t, p);
    CountMove(s.places, CLAIMED, a.t, p);
    CountNone(s.places, RAISED);
    CountNone(s.places, CLAIMED);
  }

  lemma {:induction false} RunKeepsInv(s: Lock, run: seq<Action>, u: Lock)
    requires Inv(s) && Leads(s, run, u)
    ensures Inv(u)
    decreases |run|
  {
    if run != [] {
      KeepInv(s, run[0]);
      RunKeepsInv(Apply(s, run[0]), run[1..], u);
    }
  }

  lemma Reachable(s: Lock, run: seq<Action>, u: Lock)
    requires Initial(s) && Leads(s, run, u)
    ensures Inv(u)
  {
    CountNone(s.places, RAISED);
    CountNone(s.places, CLAIMED);
    RunKeepsInv(s, run, u);
  }

  /** While a thread is in its writing section, no other thread reads or writes. */
  lemma Exclusion(s: Lock, run: seq<Action>, u: Lock, t: nat, r: nat)
    requires Initial(s) && Leads(s, run, u)
    requires t < |u.places| && r < |u.places| && t != r && u.places[t] == Writing
    ensures u.places[r] != Writing && u.places[r] != Reading
  {
    Reachable(s, run, u);
    if u.places[r] == Writing {
      CountTwo(u.places, CLAIMED, if t < r then t else r, if t < r then r else t);
    }
  }

  /** `read` is the number of readers that have raised it and not lowered it since; it is never negative. `write` is up
      exactly while a writer waits for the readers or is in its section. */
  lemma Counters(s: Lock, run: seq<Action>, u: Lock)
    requires Initial(s) && Leads(s, run, u)
    ensures u.read == Count(u.places, RAISED)
    ensures u.write == 0 || u.write == 1
    ensures u.write == 1 <==> exists t :: 0 <= t < |u.places| && CLAIMED(u.places[t])
  {
    Reachable(s, run, u);
    CountNone(u.places, CLAIMED);
  }

  // No deadlock

  predicate Empty(s: Lock) {
    Reading !in s.places && Writing !in s.places
  }

  /** A writer that has set `write` gets in once the readers have backed off, and they do. */
  lemma {:induction false} DrainsEnd(s: Lock, w: nat) returns (run: seq<Action>, u: Lock)
    requires Inv(s) && Empty(s) && w < |s.places| && s.places[w] == Drains
    ensures Leads(s, run, u) && !Empty(u)
    decreases s.read + Count(s.places, p => p == Counted)
  {
    var counted := p => p == Counted;
    CountNone(s.places, CLAIMED);
    CountNone(s.places, RAISED);
    var t := w;
    if s.read != 0 {
      t :| 0 <= t < |s.places| && RAISED(s.places[t]);
    }
    var a := Act(t, true, false);
    var next := Apply(s, a);
    if s.read == 0 {
      run, u := [a], next;
      assert u.places[w] == Writing;
    } else {
      KeepInv(s, a);
      CountMove(s.places, counted, t, next.places[t]);
      assert next.places[w] == Drains;
      run, u := DrainsEnd(next, w);
      run := [a] + run;
    }
  }

  /** Steps that a reader still needs when no writer is about. */
  function Needs(p: Place): nat {
    match p
    case BacksOff => 4
    case SpinsOnWrite => 3
    case Counts => 2
    case Counted => 1
    case _ => 0
  }

  lemma {:induction false} ReaderEnters(s: Lock, t: nat) returns (run: seq<Action>, u: Lock)
    requires s.write == 0 && t < |s.places| && Needs(s.places[t]) > 0
    ensures Leads(s, run, u) && !Empty(u)
    decreases Needs(s.places[t])
  {
    var a := Act(t, false, false);
    var next := Apply(s, a);
    if s.places[t] == Counted {
      run, u := [a], next;
      assert u.places[t] == Reading;
    } else {
      run, u := ReaderEnters(next, t);
      run := [a] + run;
    }
  }

  /** There is no deadlock: when nobody is inside and a thread wants to get in, the waiting threads can let one in. */
  lemma NoDeadlock(s: Lock, run: seq<Action>, u: Lock, t: nat) returns (more: seq<Action>, v: Lock)
    requires Initial(s) && Leads(s, run, u) && Empty(u)
    requires t < |u.places| && u.places[t] != Outside
    ensures Leads(u, more, v) && !Empty(v)
  {
    Reachable(s, run, u);
    CountNone(u.places, CLAIMED);
    if u.write != 0 {
      var w :| 0 <= w < |u.places| && CLAIMED(u.places[w]);
      more, v := DrainsEnd(u, w);
    } else if u.places[t] == Claims {
      var a := Act(t, true, false);
      KeepInv(u, a);
      more, v := DrainsEnd(Apply(u, a), t);
      more := [a] + more;
    } else {
      more, v := ReaderEnters(u, t);
    }
  }

  lemma OneStep(s: Lock, run: seq<Action>, u: Lock, a: Action) returns (longer: seq<Action>)
    requires Leads(s, run, u) && a.t < |u.places|
    ensures Leads(s, longer, Apply(u, a))
  {
    LeadsOn(s, run, u, a);
    longer := run + [a];
  }

  lemma {:induction false} LeadsOn(s: Lock, run: seq<Action>, u: Lock, a: Action)
    requires Leads(s, run, u) && a.t < |u.places|
    ensures Leads(s, run + [a], Apply(u, a))
    decreases |run|
  {
    hide Apply;
    if run == [] {
      assert [a][1..] == [] && Leads(Apply(u, a), [], Apply(u, a));
    } else {
      LeadsOn(Apply(s, run[0]), run[1..], u, a);
      assert (run + [a])[1..] == run[1..] + [a];
    }
  }

  /** When no writer is about, a thread that wants to read gets to its reading section, whoever else reads; one that
      wants to write gets to its writing section if nobody reads. What it leaves behind is the lock as it was. */
  lemma InAndOut(s: Lock, t: nat, writes: bool) returns (enter: seq<Action>, inside: Lock, leave: Action)
    requires t < |s.places| && s.places[t] == Outside && s.write == 0 && (writes ==> s.read == 0)
    ensures Leads(s, enter, inside) && t < |inside.places|
    ensures inside.places == s.places[t := if writes then Writing else Reading]
    ensures leave.t == t && Apply(inside, leave) == s
  {
    var a := Act(t, writes, false);
    enter, inside, leave := [], s, a;
    var n := if writes then 3 else 4;
    for k := 0 to n
      invariant Leads(s, enter, inside) && |inside.places| == |s.places|
      invariant inside.places == s.places[t := OnTheWay(writes, k)]
      invariant inside.write == if writes && k >= 2 then 1 else 0
      invariant inside.read == if !writes && k >= 3 then s.read + 1 else s.read
    {
      enter := OneStep(s, enter, inside, a);
      inside := Apply(inside, a);
    }
    assert Apply(inside, a).places == s.places;
  }

  function OnTheWay(writes: bool, k: nat): Place {
    if k == 0 then Outside
    else if writes then (if k == 1 then Claims else if k == 2 then Drains else Writing)
    else if k == 1 then SpinsOnWrite else if k == 2 then Counts else if k == 3 then Counted else Reading
  }

  /** While a writer has the lock or waits for readers to leave, no reader gets in. */
  lemma WriterFirst(s: Lock, run: seq<Action>, u: Lock, a: Action)
    requires Initial(s) && Leads(s, run, u) && a.t < |u.places|
    requires exists w :: 0 <= w < |u.places| && CLAIMED(u.places[w])
    ensures Apply(u, a).places[a.t] == Reading ==> u.places[a.t] == Reading
  {
    Counters(s, run, u);
  }
}
