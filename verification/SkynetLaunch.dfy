/** How services come and go: one whose init fails is withdrawn and never runs, and queues that wait in the global list
    are served in turn. */
module SkynetLaunch {
  import opened SkynetScheduler
  import opened SkynetSchedulerRuns

  // A service whose init failed

  /** A creator of `c` that may yet let it live. */
  predicate Starts(t: Thread, c: Id) {
    || ((t.Starting? || t.Launching? || t.Publishing? || t.Logging?) && t.c == c)
    || ((t.Releasing? || t.Deleting? || t.Freeing?) && t.next.Publish? && t.next.q == c)
  }

  /** `c` has not started and nobody is about to start it. */
  predicate Failed(s: State, c: Id) {
    c in s.services && !s.services[c].init && forall t | 0 <= t < |s.threads| :: !Starts(s.threads[t], c)
  }

  /** The creator of `c` lets go of its reference, retires the handle, lets go of the reference of the handle table and
      releases the queue. */
  predicate OnWayOut(t: Thread, c: Id) {
    || ((t.Releasing? || t.Deleting? || t.Freeing?) && t.c == c
        && (t.next == RetireOwn(c) || t.next == ReleaseQueue(c)))
    || t == Withdrawing(c) || t == Orphan(c) || t == Dropping(c)
  }

  /** What is left of that way. */
  function StepsLeft(t: Thread, c: Id, queued: nat): nat
    requires OnWayOut(t, c)
  {
    queued + match t
    case Releasing(_, next) => if next.RetireOwn? then 9 else 5
    case Deleting(_, next) => if next.RetireOwn? then 8 else 4
    case Freeing(_, next) => if next.RetireOwn? then 7 else 3
    case Withdrawing(_) => 6
    case Orphan(_) => 2
    case Dropping(_) => 1
  }

  lemma StarterHolds(t: Thread, c: Id)
    requires Starts(t, c)
    ensures HoldsOf(t, c) > 0 || t == Logging(c)
  {
  }

  lemma OneStarter(s: State, t: nat, u: nat, c: Id)
    requires Inv(s) && t < |s.threads| && u < |s.threads| && t != u && s.threads[t] == Starting(c)
    ensures c in s.services && !s.services[c].init && !Starts(s.threads[u], c)
  {
    hide Starts, Total;
    assert ThreadOk(s, s.threads[t]) && ThreadOk(s, s.threads[u]);
    NotStarted(s, t, c);
    HeldOnce(s, t, u, c);
    if Starts(s.threads[u], c) { StarterHolds(s.threads[u], c); }
  }

  lemma NotStarted(s: State, t: nat, c: Id)
    requires Inv(s) && t < |s.threads| && s.threads[t] == Starting(c)
    ensures c in s.services && !s.services[c].init
  {
    hide Total;
    assert ThreadOk(s, s.threads[t]);
    assert Consistent(s, c);
    TotalWithin(s.threads, t, c);
  }

  lemma InitFails(s: State, a: Action)
    requires Inv(s) && Enabled(s, a) && a.InitFail?
    ensures var c := s.threads[a.t].c; Failed(Apply(s, a), c) && OnWayOut(Apply(s, a).threads[a.t], c)
  {
    hide Inv;
    var c, u := s.threads[a.t].c, Apply(s, a);
    NotStarted(s, a.t, c);
    forall t | 0 <= t < |u.threads| ensures !Starts(u.threads[t], c) {
      if t != a.t { OneStarter(s, a.t, t, c); }
    }
  }

  lemma FailedStays(s: State, a: Action, c: Id)
    requires Enabled(s, a) && ThreadOk(s, s.threads[a.t]) && Failed(s, c)
    ensures Failed(Apply(s, a), c)
    ensures Called(s, a, c) == []
  {
    var u := Apply(s, a);
    Steady(s, a);
    FailedThread(s, a, c);
    forall t | 0 <= t < |u.threads| ensures !Starts(u.threads[t], c) {
      assert t != a.t ==> u.threads[t] == s.threads[t];
    }
  }

  lemma FailedThread(s: State, a: Action, c: Id)
    requires Enabled(s, a) && ThreadOk(s, s.threads[a.t]) && Failed(s, c)
    ensures c in Apply(s, a).services && !Apply(s, a).services[c].init && !Starts(Apply(s, a).threads[a.t], c)
    ensures Called(s, a, c) == []
  {
    hide WorkerStep, ReferenceStep, CreatorStep, ThreadOk;
    assert !Starts(s.threads[a.t], c);
    if ByWorker(a) {
      FailedWorker(s, a, c);
    } else if ByReference(a) {
      FailedReference(s, a, c);
    } else {
      FailedCreator(s, a, c);
    }
  }

  lemma FailedWorker(s: State, a: Action, c: Id)
    requires Enabled(s, a) && ByWorker(a) && ThreadOk(s, s.threads[a.t]) && c in s.services && !s.services[c].init
    ensures var u := WorkerStep(s, a); c in u.services && !u.services[c].init && !Starts(u.threads[a.t], c)
    ensures var th := WorkerStep(s, a).threads[a.t]; a.PopMessage? && th.Running? ==> th.q != c
  {
  }

  lemma FailedReference(s: State, a: Action, c: Id)
    requires Enabled(s, a) && ByReference(a) && c in s.services && !s.services[c].init && !Starts(s.threads[a.t], c)
    ensures var u := ReferenceStep(s, a); c in u.services && !u.services[c].init && !Starts(u.threads[a.t], c)
  {
  }

  lemma FailedCreator(s: State, a: Action, c: Id)
    requires Enabled(s, a) && !ByWorker(a) && !ByReference(a)
    requires c in s.services && !s.services[c].init && !Starts(s.threads[a.t], c)
    ensures var u := CreatorStep(s, a); c in u.services && !u.services[c].init && !Starts(u.threads[a.t], c)
  {
  }

  /** The step makes `c` a living service: `init` is set, the queue is pushed to the list, the launch is logged. */
  predicate Launches(s: State, a: Action, c: Id)
    requires Enabled(s, a)
  {
    (a.SetInit? || a.PublishQueue? || a.WriteLog?) && s.threads[a.t].c == c
  }

  function LaunchSteps(s: State, run: seq<Action>, u: State, c: Id): nat
    requires Leads(s, run, u)
    decreases |run|
  {
    if run == [] then 0
    else (if Launches(s, run[0], c) then 1 else 0) + LaunchSteps(Apply(s, run[0]), run[1..], u, c)
  }

  lemma {:induction false} FailedRun(s: State, run: seq<Action>, u: State, c: Id)
    requires Inv(s) && Leads(s, run, u) && Failed(s, c)
    ensures Failed(u, c) && Calls(s, run, u, c) == [] && LaunchSteps(s, run, u, c) == 0
    decreases |run|
  {
    hide Apply, Enabled;
    if run != [] {
      var a := run[0];
      assert ThreadOk(s, s.threads[a.t]) by { Acts(s, a); }
      NotLaunched(s, a, c);
      FailedStays(s, a, c);
      KeepInv(s, a);
      FailedRun(Apply(s, a), run[1..], u, c);
    }
  }

  lemma Acts(s: State, a: Action)
    requires Enabled(s, a)
    ensures a.t < |s.threads|
  {
  }

  lemma NotLaunched(s: State, a: Action, c: Id)
    requires Enabled(s, a) && Failed(s, c)
    ensures !Launches(s, a, c)
  {
    assert !Starts(s.threads[a.t], c);
  }

  /** A service whose init failed never starts, is never launched and its callback gets no message: what is pushed to it
      is dropped in order or still queued. */
  lemma FailedNeverRuns(s: State, run: seq<Action>, v: State, a: Action, later: seq<Action>, u: State)
    requires Initial(s) && Leads(s, run, v) && Enabled(v, a) && a.InitFail? && Leads(Apply(v, a), later, u)
    ensures var c, w := v.threads[a.t].c, Apply(v, a);
            && c in u.services && !u.services[c].init
            && (forall t | 0 <= t < |u.threads| :: !Starts(u.threads[t], c))
            && LaunchSteps(w, later, u, c) == 0
            && Calls(w, later, u, c) == []
            && QueueOf(v, c) + Pushes(w, later, u, c) == Drops(w, later, u, c) + QueueOf(u, c)
  {
    var c, w := v.threads[a.t].c, Apply(v, a);
    Reachable(s, run, v);
    InitFails(v, a);
    KeepInv(v, a);
    FailedRun(w, later, u, c);
    MessagesInOrder(w, later, u, c);
    assert [] + Drops(w, later, u, c) == Drops(w, later, u, c);
    QueueKept(v, a, c);
  }

  /** From `th` and `v`, the service `c`, to `th'` and `v'`: nearer to the end of the way, or at its end. Then the
      handle is retired, and the queue is freed or `listed`. */
  predicate Nearer(c: Id, th: Thread, v: Service, th': Thread, v': Service, listed: bool)
    requires OnWayOut(th, c)
  {
    if OnWayOut(th', c) then StepsLeft(th', c, |v'.queue|) < StepsLeft(th, c, |v.queue|)
    else th' == Idle && !v'.registered && (listed || v'.freed)
  }

  lemma OutByReference(s: State, a: Action, c: Id)
    requires Enabled(s, a) && ByReference(a) && c in s.services && OnWayOut(s.threads[a.t], c)
    ensures c in ReferenceStep(s, a).services
    ensures var u := ReferenceStep(s, a);
            Nearer(c, s.threads[a.t], s.services[c], u.threads[a.t], u.services[c], c in u.list)
  {
  }

  lemma OutByCreator(s: State, a: Action, c: Id)
    requires Enabled(s, a) && a.RetireNew? && c in s.services && OnWayOut(s.threads[a.t], c)
    ensures c in CreatorStep(s, a).services
    ensures var u := CreatorStep(s, a);
            Nearer(c, s.threads[a.t], s.services[c], u.threads[a.t], u.services[c], c in u.list)
  {
  }

  lemma OutByWorker(s: State, a: Action, c: Id)
    requires Enabled(s, a) && (a.ReleaseOrphan? || a.DropOne?) && c in s.services && OnWayOut(s.threads[a.t], c)
    requires !s.services[c].registered
    ensures c in WorkerStep(s, a).services
    ensures var u := WorkerStep(s, a);
            Nearer(c, s.threads[a.t], s.services[c], u.threads[a.t], u.services[c], c in u.list)
  {
  }

  /** Whoever releases the queue of a service that failed finds its handle retired. */
  lemma OrphanRetired(s: State, t: nat, c: Id)
    requires Inv(s) && t < |s.threads| && Failed(s, c) && (s.threads[t] == Orphan(c) || s.threads[t] == Dropping(c))
    ensures !s.services[c].registered
  {
    hide Total;
    assert Consistent(s, c);
    TotalWithin(s.threads, t, c);
  }

  lemma WayOutAction(s: State, a: Action, c: Id)
    requires Enabled(s, a) && OnWayOut(s.threads[a.t], c)
    ensures ByReference(a) || a.RetireNew? || a.ReleaseOrphan? || a.DropOne?
    ensures a.ReleaseOrphan? || a.DropOne? ==> s.threads[a.t] == Orphan(c) || s.threads[a.t] == Dropping(c)
  {
  }

  /** Each step of the creator brings it nearer to the end of its way: there the handle is retired, and the queue is
      freed or in the list, from where a worker releases it again. */
  lemma WayOutStep(s: State, a: Action, c: Id)
    requires Inv(s) && Enabled(s, a) && Failed(s, c) && OnWayOut(s.threads[a.t], c)
    ensures a.t < |Apply(s, a).threads| && c in Apply(s, a).services
    ensures var u := Apply(s, a);
            Nearer(c, s.threads[a.t], s.services[c], u.threads[a.t], u.services[c], c in u.list)
  {
    hide WorkerStep, ReferenceStep, CreatorStep, Enabled, OnWayOut, StepsLeft, Nearer, Inv;
    Acts(s, a);
    Steady(s, a);
    WayOutAction(s, a, c);
    if ByReference(a) {
      OutByReference(s, a, c);
    } else if a.RetireNew? {
      OutByCreator(s, a, c);
    } else {
      OrphanRetired(s, a.t, c);
      OutByWorker(s, a, c);
    }
  }

  function NextStep(th: Thread, t: nat): Action {
    match th
    case Releasing(_, _) => Release(t)
    case Deleting(_, _) => MarkRelease(t)
    case Freeing(_, _) => FreeContext(t)
    case Withdrawing(_) => RetireNew(t)
    case Orphan(_) => ReleaseOrphan(t)
    case _ => DropOne(t)
  }

  /** The creator can always go its way to the end. */
  lemma {:induction false} WayOutEnds(s: State, t: nat, c: Id) returns (run: seq<Action>, u: State)
    requires Inv(s) && t < |s.threads| && Failed(s, c) && OnWayOut(s.threads[t], c)
    ensures Leads(s, run, u) && |run| <= StepsLeft(s.threads[t], c, |s.services[c].queue|)
    ensures forall a | a in run :: a.t == t
    ensures t < |u.threads| && u.threads[t] == Idle && c in u.services && !u.services[c].registered
    ensures c in u.list || u.services[c].freed
    decreases StepsLeft(s.threads[t], c, |s.services[c].queue|)
  {
    var a := NextStep(s.threads[t], t);
    assert Enabled(s, a);
    var v := Apply(s, a);
    assert ThreadOk(s, s.threads[t]);
    WayOutStep(s, a, c);
    FailedStays(s, a, c);
    KeepInv(s, a);
    Steady(s, a);
    if OnWayOut(v.threads[t], c) {
      run, u := WayOutEnds(v, t, c);
      run := [a] + run;
    } else {
      run, u := [a], v;
      assert Leads(v, run[1..], u);
    }
  }

  // A service whose init succeeded

  /** The creator lets go of its reference, and sets `init` unless that was the last one, and publishes the queue. */
  predicate OnWayIn(t: Thread, v: Service, c: Id) {
    || ((t.Releasing? || t.Deleting? || t.Freeing?) && t.c == c && t.next == Publish(c))
    || t == Launching(c)
    || (t.Publishing? && t.c == c && if t.alive then v.init else v.ctxFreed)
  }

  function WayIn(th: Thread, t: nat): (r: (Action, nat))
    ensures r.0.t == t
  {
    match th
    case Releasing(_, _) => (Release(t), 5)
    case Deleting(_, _) => (MarkRelease(t), 4)
    case Freeing(_, _) => (FreeContext(t), 3)
    case Launching(_) => (SetInit(t), 2)
    case _ => (PublishQueue(t), 1)
  }

  lemma WayInStep(s: State, t: nat, c: Id)
    requires t < |s.threads| && c in s.services && OnWayIn(s.threads[t], s.services[c], c)
    ensures var r := WayIn(s.threads[t], t);
            && Enabled(s, r.0)
            && var u := Apply(s, r.0);
               && t < |u.threads| && c in u.services
               && (if s.threads[t].Publishing? then c in u.list && (u.services[c].init || u.services[c].ctxFreed)
                   else OnWayIn(u.threads[t], u.services[c], c) && WayIn(u.threads[t], t).1 < r.1)
  {
  }

  /** A service whose init succeeded can always be launched by its creator: its queue gets into the list, with `init`
      set unless its context is gone already. */
  lemma {:induction false} WayInEnds(s: State, t: nat, c: Id) returns (run: seq<Action>, u: State)
    requires t < |s.threads| && c in s.services && OnWayIn(s.threads[t], s.services[c], c)
    ensures Leads(s, run, u) && |run| <= 5 && forall a | a in run :: a.t == t
    ensures c in u.list && c in u.services && (u.services[c].init || u.services[c].ctxFreed)
    ensures |run| <= WayIn(s.threads[t], t).1
    decreases WayIn(s.threads[t], t).1
  {
    hide Apply, Enabled;
    WayInStep(s, t, c);
    var a := WayIn(s.threads[t], t).0;
    var v := Apply(s, a);
    if s.threads[t].Publishing? {
      run, u := [a], v;
      assert Leads(v, run[1..], u);
    } else {
      run, u := WayInEnds(v, t, c);
      run := [a] + run;
    }
  }

  /** The two ways part at the result of init. */
  lemma InitDecides(s: State, a: Action)
    requires Inv(s) && Enabled(s, a) && (a.InitOk? || a.InitFail?)
    ensures var c, u := s.threads[a.t].c, Apply(s, a);
            && c in u.services
            && (OnWayIn(u.threads[a.t], u.services[c], c) <==> a.InitOk?)
            && (OnWayOut(u.threads[a.t], c) <==> a.InitFail?)
  {
    NotStarted(s, a.t, s.threads[a.t].c);
  }

  // The global list is served in turn

  /** The queue that the step takes from the list. */
  function Taken(s: State, a: Action): seq<Id>
    requires Enabled(s, a)
  {
    if (a.Take? || a.PopNext?) && s.list != [] then [s.list[0]] else []
  }

  /** The queue that the step pushes to the list. */
  function Listed(s: State, a: Action): seq<Id>
    requires Enabled(s, a)
  {
    var th := s.threads[a.t];
    match a
    case PushBack(_) => [th.q]
    case PublishQueue(_) => [th.c]
    case MarkRelease(_) => if s.services[th.c].inGlobal then [] else [th.c]
    case PushMessage(_) => if s.services[th.c].inGlobal then [] else [th.c]
    case ReleaseOrphan(_) => if s.services[th.q].release then [] else [th.q]
    case _ => []
  }

  /** A worker that is done with its queue takes the next one whenever there is one, and then has it in hand. */
  lemma ListStep(s: State, a: Action)
    requires Enabled(s, a)
    ensures s.list + Listed(s, a) == Taken(s, a) + Apply(s, a).list
    ensures Taken(s, a) != [] ==> HoldsOf(Apply(s, a).threads[a.t], Taken(s, a)[0]) > 0
  {
    hide CreatorStep, WorkerStep, ReferenceStep;
    if ByWorker(a) {
      WorkerList(s, a);
    } else if ByReference(a) {
      ReferenceList(s, a);
    } else {
      CreatorList(s, a);
    }
  }

  lemma WorkerList(s: State, a: Action)
    requires Enabled(s, a) && ByWorker(a)
    ensures s.list + Listed(s, a) == Taken(s, a) + WorkerStep(s, a).list
    ensures Taken(s, a) != [] ==> HoldsOf(WorkerStep(s, a).threads[a.t], Taken(s, a)[0]) > 0
  {
    if (a.Take? || a.PopNext?) && s.list != [] { assert s.list == [s.list[0]] + s.list[1..]; }
  }

  lemma ReferenceList(s: State, a: Action)
    requires Enabled(s, a) && ByReference(a)
    ensures s.list + Listed(s, a) == ReferenceStep(s, a).list
  {
  }

  lemma CreatorList(s: State, a: Action)
    requires Enabled(s, a) && !ByWorker(a) && !ByReference(a)
    ensures s.list + Listed(s, a) == CreatorStep(s, a).list
  {
  }

  function Takes(s: State, run: seq<Action>, u: State): seq<Id>
    requires Leads(s, run, u)
    decreases |run|
  {
    if run == [] then [] else Taken(s, run[0]) + Takes(Apply(s, run[0]), run[1..], u)
  }

  function Listings(s: State, run: seq<Action>, u: State): seq<Id>
    requires Leads(s, run, u)
    decreases |run|
  {
    if run == [] then [] else Listed(s, run[0]) + Listings(Apply(s, run[0]), run[1..], u)
  }

  /** Queues are taken from the list in the order in which they were pushed. */
  lemma {:induction false} ListInOrder(s: State, run: seq<Action>, u: State)
    requires Leads(s, run, u)
    ensures s.list + Listings(s, run, u) == Takes(s, run, u) + u.list
    decreases |run|
  {
    hide Apply, Enabled, Listed, Taken;
    if run != [] {
      var a, v, rest := run[0], Apply(s, run[0]), run[1..];
      ListStep(s, a);
      ListInOrder(v, rest, u);
      var l, t, ls, ts := Listed(s, a), Taken(s, a), Listings(v, rest, u), Takes(v, rest, u);
      assert s.list + (l + ls) == (s.list + l) + ls == t + (v.list + ls) == (t + ts) + u.list;
    }
  }

  /** A queue that waits behind `i` others is taken once workers have taken that many, whatever else is pushed. */
  lemma TurnComes(s: State, run: seq<Action>, u: State, i: nat)
    requires Leads(s, run, u) && i < |s.list| && i < |Takes(s, run, u)|
    ensures Takes(s, run, u)[i] == s.list[i]
  {
    ListInOrder(s, run, u);
    assert (s.list + Listings(s, run, u))[i] == (Takes(s, run, u) + u.list)[i];
  }
}
