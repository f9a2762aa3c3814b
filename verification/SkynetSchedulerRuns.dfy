/** What the scheduler guarantees along every run of the steps in SkynetScheduler. */
module SkynetSchedulerRuns {
  import opened SkynetScheduler

  predicate Initial(s: State) {
    s.list == [] && s.services == map[] && forall t | 0 <= t < |s.threads| :: s.threads[t] == Idle
  }

  /** The steps `run` lead from `s` to `u`. */
  predicate Leads(s: State, run: seq<Action>, u: State)
    decreases |run|
  {
    if run == [] then u == s else Enabled(s, run[0]) && Leads(Apply(s, run[0]), run[1..], u)
  }

  lemma {:induction false} RunKeepsInv(s: State, run: seq<Action>, u: State)
    requires Inv(s) && Leads(s, run, u)
    ensures Inv(u)
    decreases |run|
  {
    if run != [] {
      KeepInv(s, run[0]);
      RunKeepsInv(Apply(s, run[0]), run[1..], u);
    }
  }

  /** Every state that threads can reach keeps the invariant. */
  lemma Reachable(s: State, run: seq<Action>, u: State)
    requires Initial(s) && Leads(s, run, u)
    ensures Inv(u)
  {
    RunKeepsInv(s, run, u);
  }

  /** In every reachable state a queue is once in the global list, or in the hands of one thread, or in neither with
      its flag down (or freed); a queue with messages is never left aside. */
  lemma OneOwner(s: State, run: seq<Action>, u: State, c: Id)
    requires Initial(s) && Leads(s, run, u) && c in u.services
    ensures multiset(u.list)[c] <= 1
    ensures forall t | 0 <= t < |u.threads| && HoldsOf(u.threads[t], c) > 0 ::
              HoldsOf(u.threads[t], c) == 1 && c !in u.list
              && forall r | 0 <= r < |u.threads| && r != t :: HoldsOf(u.threads[r], c) == 0
    ensures (c in u.list || exists t :: 0 <= t < |u.threads| && HoldsOf(u.threads[t], c) > 0)
            <==> !u.services[c].freed && (u.services[c].inGlobal || u.services[c].release)
    ensures u.services[c].queue != [] ==> !u.services[c].freed && u.services[c].inGlobal
  {
    Reachable(s, run, u);
    assert Consistent(u, c);
    forall t | 0 <= t < |u.threads| && HoldsOf(u.threads[t], c) > 0
      ensures HoldsOf(u.threads[t], c) == 1 && c !in u.list && Total(u.threads, c).hold >= 1
      ensures forall r | 0 <= r < |u.threads| && r != t :: HoldsOf(u.threads[r], c) == 0
    {
      TotalWithin(u.threads, t, c);
      forall r | 0 <= r < |u.threads| && r != t ensures HoldsOf(u.threads[r], c) == 0 { HeldOnce(u, t, r, c); }
    }
    if Total(u.threads, c).hold > 0 { var _ := Holder(u.threads, c); }
  }

  lemma {:induction false} Holder(ts: seq<Thread>, c: Id) returns (t: nat)
    requires Total(ts, c).hold > 0
    ensures t < |ts| && HoldsOf(ts[t], c) > 0
  {
    hide HoldsOf, HasRef, RefOf;
    if HoldsOf(ts[0], c) > 0 {
      t := 0;
    } else {
      t := Holder(ts[1..], c);
      t := t + 1;
    }
  }

  /** Two workers never run the same service at once, and a service runs only after it started. */
  lemma OneCallback(s: State, run: seq<Action>, u: State, t: nat, r: nat)
    requires Initial(s) && Leads(s, run, u) && t < |u.threads| && r < |u.threads|
    requires u.threads[t].Running? && u.threads[r].Running? && u.threads[t].q == u.threads[r].q
    ensures t == r
    ensures u.threads[t].q in u.services && u.services[u.threads[t].q].init
  {
    Reachable(s, run, u);
    assert ThreadOk(u, u.threads[t]);
    if t != r { HeldOnce(u, t, r, u.threads[t].q); }
  }

  /** A thread with a reference finds the context, and its queue, not freed; a thread with a queue in hand finds the
      queue not freed; a registered service has both. */
  lemma HoldersSafe(s: State, run: seq<Action>, u: State, t: nat, c: Id)
    requires Initial(s) && Leads(s, run, u) && t < |u.threads| && c in u.services
    ensures (HasRef(u.threads[t]) && RefOf(u.threads[t]) == c) || u.services[c].registered ==>
              u.services[c].ref > 0 && !u.services[c].ctxFreed && !u.services[c].release && !u.services[c].freed
    ensures HoldsOf(u.threads[t], c) > 0 || c in u.list ==> !u.services[c].freed
    ensures u.threads[t].Deleting? && u.threads[t].c == c ==>
              u.services[c].ref == 0 && !u.services[c].release && !u.services[c].freed && !u.services[c].ctxFreed
  {
    Reachable(s, run, u);
    assert Consistent(u, c);
    TotalWithin(u.threads, t, c);
  }

  /** The thread uses the context without holding a reference: the creator of a service that it has let go. */
  predicate UsesUnheld(t: Thread, c: Id) {
    (t.Launching? || t.Logging?) && t.c == c
  }

  /** The thread has a reference, or is about to free the context. */
  predicate KeepsAlive(t: Thread, c: Id) {
    (HasRef(t) && RefOf(t) == c) || ((t.Deleting? || t.Freeing?) && t.c == c)
  }

  /** Exactly when the creator finds the context not freed, as it sets `init` and as it logs the launch: the handle is
      still registered, or some thread still has a reference or has not yet freed what nobody refers to. */
  lemma LaunchAccess(s: State, run: seq<Action>, u: State, t: nat, c: Id)
    requires Initial(s) && Leads(s, run, u) && t < |u.threads| && UsesUnheld(u.threads[t], c)
    ensures c in u.services
    ensures !u.services[c].ctxFreed <==>
              u.services[c].registered || exists r :: 0 <= r < |u.threads| && KeepsAlive(u.threads[r], c)
  {
    Reachable(s, run, u);
    assert ThreadOk(u, u.threads[t]);
    assert Consistent(u, c);
    hide Leads, Initial, Inv, ThreadOk, Accounted;
    var k := Total(u.threads, c);
    if k.ref + k.delete + k.free > 0 { var _ := Keeper(u.threads, c); }
    forall r | 0 <= r < |u.threads| && KeepsAlive(u.threads[r], c) ensures k.ref + k.delete + k.free > 0 {
      TotalWithin(u.threads, r, c);
    }
  }

  lemma {:induction false} Keeper(ts: seq<Thread>, c: Id) returns (t: nat)
    requires var k := Total(ts, c); k.ref + k.delete + k.free > 0
    ensures t < |ts| && KeepsAlive(ts[t], c)
  {
    hide HoldsOf;
    if KeepsAlive(ts[0], c) {
      t := 0;
    } else {
      t := Keeper(ts[1..], c);
      t := t + 1;
    }
  }

  lemma {:induction false} LeadsOn(s: State, run: seq<Action>, u: State, a: Action)
    requires Leads(s, run, u) && Enabled(u, a)
    ensures Leads(s, run + [a], Apply(u, a))
    decreases |run|
  {
    hide Enabled, Apply;
    if run == [] {
      assert [a][1..] == [] && Leads(Apply(u, a), [], Apply(u, a));
    } else {
      LeadsOn(Apply(s, run[0]), run[1..], u, a);
      assert (run + [a])[1..] == run[1..] + [a];
    }
  }

  function TwoThreads(): State {
    State([Idle, Idle], [], map[])
  }

  /** The service of `TwoThreads` once thread 1 has retired its handle and freed its context. */
  function Gone(init: bool): Service {
    Fresh().(registered := false, init := init, ref := 0, ctxFreed := true, release := true)
  }

  /** Thread 0 has created a service and let go of its reference. */
  lemma Launches() returns (run: seq<Action>, u: State)
    ensures Leads(TwoThreads(), run, u) && u == State([Launching(7), Idle], [], map[7 := Fresh().(ref := 1)])
  {
    hide Leads;
    var s := TwoThreads();
    NoStep(s);
    var s1 := State([Starting(7), Idle], [], map[7 := Fresh()]);
    run := OneStep(s, [], s, Create(0, 7), s1);
    var s2 := State([Releasing(7, Publish(7)), Idle], [], map[7 := Fresh()]);
    run := OneStep(s, run, s1, InitOk(0), s2);
    u := State([Launching(7), Idle], [], map[7 := Fresh().(ref := 1)]);
    run := OneStep(s, run, s2, Release(0), u);
  }

  /** Thread 1 retires the handle of the new service, and thread 0 sets `init` of a context that is freed. */
  lemma InitAfterFree() returns (run: seq<Action>, u: State)
    ensures Initial(TwoThreads()) && Leads(TwoThreads(), run, u)
    ensures u == State([Launching(7), Idle], [], map[7 := Gone(false)])
  {
    hide Leads;
    var s, s3 := TwoThreads(), TwoThreads();
    run, s3 := Launches();
    var one := Fresh().(registered := false, ref := 1);
    var s4 := State([Launching(7), Releasing(7, ToIdle)], [], map[7 := one]);
    run := OneStep(s, run, s3, Retire(1, 7), s4);
    var s5 := State([Launching(7), Deleting(7, ToIdle)], [], map[7 := one.(ref := 0)]);
    run := OneStep(s, run, s4, Release(1), s5);
    var s6 := State([Launching(7), Freeing(7, ToIdle)], [], map[7 := one.(ref := 0, release := true)]);
    run := OneStep(s, run, s5, MarkRelease(1), s6);
    u := State([Launching(7), Idle], [], map[7 := Gone(false)]);
    run := OneStep(s, run, s6, FreeContext(1), u);
  }

  /** It goes on to log the launch for the freed context. */
  lemma LogAfterFree() returns (run: seq<Action>, u: State)
    ensures Initial(TwoThreads()) && Leads(TwoThreads(), run, u)
    ensures u == State([Logging(7), Idle], [7], map[7 := Gone(true)])
  {
    hide Leads;
    var s, v := TwoThreads(), TwoThreads();
    run, v := InitAfterFree();
    var w := State([Publishing(7, true), Idle], [], map[7 := Gone(true)]);
    run := OneStep(s, run, v, SetInit(0), w);
    u := State([Logging(7), Idle], [7], map[7 := Gone(true)]);
    run := OneStep(s, run, w, PublishQueue(0), u);
  }

  lemma NoStep(s: State)
    ensures Leads(s, [], s)
  {
  }

  lemma OneStep(s: State, run: seq<Action>, u: State, a: Action, v: State) returns (longer: seq<Action>)
    requires Leads(s, run, u) && Enabled(u, a) && Apply(u, a) == v
    ensures Leads(s, longer, v)
  {
    LeadsOn(s, run, u, a);
    longer := run + [a];
  }

  /** The assertions of the code: a queue is marked for release once, and pushed to the global list only when it is not
      there. */
  lemma AssertionsHold(s: State, run: seq<Action>, u: State, a: Action)
    requires Initial(s) && Leads(s, run, u) && Enabled(u, a)
    ensures a.MarkRelease? ==> !u.services[u.threads[a.t].c].release
    ensures forall c :: multiset(Apply(u, a).list)[c] <= 1
  {
    Reachable(s, run, u);
    KeepInv(u, a);
    var w := Apply(u, a);
    forall c ensures multiset(w.list)[c] <= 1 {
      if c in w.services { assert Consistent(w, c); } else { Unknown(w, c); }
    }
    if a.MarkRelease? {
      assert Consistent(u, u.threads[a.t].c);
      TotalWithin(u.threads, a.t, u.threads[a.t].c);
    }
  }

  // The life of one service along a run

  predicate QueueFreed(s: State, c: Id) {
    c in s.services && s.services[c].freed
  }

  predicate ContextFreed(s: State, c: Id) {
    c in s.services && s.services[c].ctxFreed
  }

  /** The step frees the queue of `c`. */
  predicate FreesQueue(s: State, a: Action, c: Id)
    requires Enabled(s, a)
  {
    a.DropOne? && s.threads[a.t].q == c && s.services[c].queue == []
  }

  predicate FreesContext(s: State, a: Action, c: Id)
    requires Enabled(s, a)
  {
    a.FreeContext? && s.threads[a.t].c == c
  }

  function QueueFrees(s: State, run: seq<Action>, u: State, c: Id): nat
    requires Leads(s, run, u)
    decreases |run|
  {
    if run == [] then 0
    else (if FreesQueue(s, run[0], c) then 1 else 0) + QueueFrees(Apply(s, run[0]), run[1..], u, c)
  }

  function ContextFrees(s: State, run: seq<Action>, u: State, c: Id): nat
    requires Leads(s, run, u)
    decreases |run|
  {
    if run == [] then 0
    else (if FreesContext(s, run[0], c) then 1 else 0) + ContextFrees(Apply(s, run[0]), run[1..], u, c)
  }

  lemma FreeFlags(s: State, a: Action, c: Id)
    requires Enabled(s, a)
    ensures QueueFreed(Apply(s, a), c) <==> QueueFreed(s, c) || FreesQueue(s, a, c)
    ensures ContextFreed(Apply(s, a), c) <==> ContextFreed(s, c) || FreesContext(s, a, c)
  {
    hide WorkerStep, ReferenceStep, CreatorStep;
    if ByWorker(a) {
      WorkerFrees(s, a, c);
    } else if ByReference(a) {
      ReferenceFrees(s, a, c);
    } else {
      CreatorFrees(s, a, c);
    }
  }

  lemma WorkerFrees(s: State, a: Action, c: Id)
    requires Enabled(s, a) && ByWorker(a)
    ensures QueueFreed(WorkerStep(s, a), c) <==> QueueFreed(s, c) || FreesQueue(s, a, c)
    ensures ContextFreed(WorkerStep(s, a), c) <==> ContextFreed(s, c)
  {
  }

  lemma ReferenceFrees(s: State, a: Action, c: Id)
    requires Enabled(s, a) && ByReference(a)
    ensures QueueFreed(ReferenceStep(s, a), c) <==> QueueFreed(s, c)
    ensures ContextFreed(ReferenceStep(s, a), c) <==> ContextFreed(s, c) || FreesContext(s, a, c)
  {
  }

  lemma CreatorFrees(s: State, a: Action, c: Id)
    requires Enabled(s, a) && !ByWorker(a) && !ByReference(a)
    ensures QueueFreed(CreatorStep(s, a), c) <==> QueueFreed(s, c)
    ensures ContextFreed(CreatorStep(s, a), c) <==> ContextFreed(s, c)
  {
  }

  /** What is freed is not in use and was not freed before. */
  lemma FreeStep(s: State, a: Action, c: Id)
    requires Enabled(s, a) && ThreadOk(s, s.threads[a.t]) && (c in s.services ==> Consistent(s, c))
    ensures FreesQueue(s, a, c) ==> !QueueFreed(s, c) && s.services[c].ref == 0 && s.services[c].release
    ensures FreesContext(s, a, c) ==> !ContextFreed(s, c) && s.services[c].ref == 0
  {
    hide Accounted, Mentioned, Total;
    TotalWithin(s.threads, a.t, c);
  }

  /** A queue and a context are freed at most once in any run, and exactly once if they are freed in the end. */
  lemma {:induction false} FreedOnce(s: State, run: seq<Action>, u: State, c: Id)
    requires Inv(s) && Leads(s, run, u)
    ensures QueueFrees(s, run, u, c) + (if QueueFreed(s, c) then 1 else 0) == (if QueueFreed(u, c) then 1 else 0)
    ensures ContextFrees(s, run, u, c) + (if ContextFreed(s, c) then 1 else 0) == (if ContextFreed(u, c) then 1 else 0)
    decreases |run|
  {
    if run != [] {
      assert ThreadOk(s, s.threads[run[0].t]);
      FreeFlags(s, run[0], c);
      FreeStep(s, run[0], c);
      KeepInv(s, run[0]);
      FreedOnce(Apply(s, run[0]), run[1..], u, c);
    }
  }

  function QueueOf(s: State, c: Id): seq<Message> {
    if c in s.services then s.services[c].queue else []
  }

  /** What one step pushes to `c`, hands to its callback, hands to the drop function. */
  function Pushed(s: State, a: Action, c: Id): seq<Message>
    requires Enabled(s, a)
  {
    if a.PushMessage? && s.threads[a.t].c == c then [s.threads[a.t].m] else []
  }

  function Called(s: State, a: Action, c: Id): seq<Message>
    requires Enabled(s, a)
  {
    var th := Apply(s, a).threads[a.t];
    if a.PopMessage? && th.Running? && th.q == c then [th.m] else []
  }

  function DroppedBy(s: State, a: Action, c: Id): seq<Message>
    requires Enabled(s, a)
  {
    if a.DropOne? && s.threads[a.t].q == c && QueueOf(s, c) != [] then [QueueOf(s, c)[0]] else []
  }

  /** Messages pushed to `c` along a run. */
  function Pushes(s: State, run: seq<Action>, u: State, c: Id): seq<Message>
    requires Leads(s, run, u)
    decreases |run|
  {
    if run == [] then [] else Pushed(s, run[0], c) + Pushes(Apply(s, run[0]), run[1..], u, c)
  }

  /** Messages of `c` handed to its callback along a run. */
  function Calls(s: State, run: seq<Action>, u: State, c: Id): seq<Message>
    requires Leads(s, run, u)
    decreases |run|
  {
    if run == [] then [] else Called(s, run[0], c) + Calls(Apply(s, run[0]), run[1..], u, c)
  }

  /** Messages of `c` handed to the drop function along a run. */
  function Drops(s: State, run: seq<Action>, u: State, c: Id): seq<Message>
    requires Leads(s, run, u)
    decreases |run|
  {
    if run == [] then [] else DroppedBy(s, run[0], c) + Drops(Apply(s, run[0]), run[1..], u, c)
  }

  predicate Released(s: State, c: Id) {
    c in s.services && s.services[c].release
  }

  lemma ReleasedStays(s: State, a: Action, c: Id)
    requires Inv(s) && Enabled(s, a)
    ensures Released(s, c) ==> Released(Apply(s, a), c)
    ensures Released(s, c) ==> !(a.PopMessage? && s.threads[a.t].q == c)
    ensures a.DropOne? && s.threads[a.t].q == c ==> Released(s, c)
  {
    if c in s.services { Grows(s, a, c); }
    if a.PopMessage? || a.DropOne? { TargetReleased(s, a.t); }
  }

  lemma TargetReleased(s: State, t: nat)
    requires Inv(s) && t < |s.threads|
    ensures s.threads[t].Serving? ==> !Released(s, s.threads[t].q)
    ensures s.threads[t].Dropping? ==> Released(s, s.threads[t].q)
  {
    assert ThreadOk(s, s.threads[t]);
    if s.threads[t].Serving? {
      assert Consistent(s, s.threads[t].q);
      TotalWithin(s.threads, t, s.threads[t].q);
    }
  }

  /** Once a queue is marked for release its callback gets no message. */
  lemma {:induction false} NoCallAfterRelease(s: State, run: seq<Action>, u: State, c: Id)
    requires Inv(s) && Leads(s, run, u) && Released(s, c)
    ensures Calls(s, run, u, c) == []
    decreases |run|
  {
    if run != [] {
      ReleasedStays(s, run[0], c);
      KeepInv(s, run[0]);
      NoCallAfterRelease(Apply(s, run[0]), run[1..], u, c);
    }
  }

  lemma QueueKept(s: State, a: Action, c: Id)
    requires Enabled(s, a) && !a.PushMessage? && !a.PopMessage? && !a.DropOne?
    ensures QueueOf(Apply(s, a), c) == QueueOf(s, c)
  {
  }

  lemma QueuePushed(s: State, a: Action, c: Id)
    requires Enabled(s, a) && a.PushMessage?
    ensures QueueOf(Apply(s, a), c) == QueueOf(s, c) + Pushed(s, a, c)
  {
  }

  lemma QueuePopped(s: State, a: Action, c: Id)
    requires Enabled(s, a) && (a.PopMessage? || a.DropOne?)
    ensures QueueOf(s, c) == (if a.PopMessage? then Called(s, a, c) else DroppedBy(s, a, c)) + QueueOf(Apply(s, a), c)
  {
    var q := QueueOf(s, c);
    if q != [] { assert q == [q[0]] + q[1..]; }
  }

  lemma QueueStep(s: State, a: Action, c: Id)
    requires Enabled(s, a)
    ensures QueueOf(s, c) + Pushed(s, a, c) == Called(s, a, c) + DroppedBy(s, a, c) + QueueOf(Apply(s, a), c)
    ensures Called(s, a, c) != [] ==> DroppedBy(s, a, c) == []
  {
    if a.PushMessage? {
      QueuePushed(s, a, c);
    } else if a.PopMessage? || a.DropOne? {
      QueuePopped(s, a, c);
    } else {
      QueueKept(s, a, c);
    }
  }

  /** No message is lost, doubled or overtaken: what was queued and pushed is what the callback got, then what was
      dropped, then what is still queued. */
  lemma {:induction false} MessagesInOrder(s: State, run: seq<Action>, u: State, c: Id)
    requires Inv(s) && Leads(s, run, u)
    ensures QueueOf(s, c) + Pushes(s, run, u, c) == Calls(s, run, u, c) + Drops(s, run, u, c) + QueueOf(u, c)
    decreases |run|
  {
    if run != [] {
      var a, v, rest := run[0], Apply(s, run[0]), run[1..];
      QueueStep(s, a, c);
      ReleasedStays(s, a, c);
      KeepInv(s, a);
      MessagesInOrder(v, rest, u, c);
      if DroppedBy(s, a, c) != [] { NoCallAfterRelease(v, rest, u, c); }
      Splice(QueueOf(s, c), Pushed(s, a, c), Called(s, a, c), DroppedBy(s, a, c), QueueOf(v, c),
             Pushes(v, rest, u, c), Calls(v, rest, u, c), Drops(v, rest, u, c), QueueOf(u, c));
    }
  }

  lemma Splice<T>(q: seq<T>, p: seq<T>, c: seq<T>, d: seq<T>, r: seq<T>, ps: seq<T>, cs: seq<T>, ds: seq<T>, l: seq<T>)
    requires q + p == c + d + r && r + ps == cs + ds + l && (d == [] || cs == [])
    ensures q + (p + ps) == (c + cs) + (d + ds) + l
  {
    assert q + (p + ps) == (q + p) + ps == c + d + (r + ps) == c + d + (cs + ds + l);
    assert d + cs == cs + d;
    assert c + d + (cs + ds + l) == c + (d + cs) + ds + l == (c + cs) + (d + ds) + l;
  }

  /** From the start: every message pushed to a service went to its callback, in order, or to the drop function after
      those, or is still queued in order. */
  lemma EveryMessageOnce(s: State, run: seq<Action>, u: State, c: Id)
    requires Initial(s) && Leads(s, run, u)
    ensures Pushes(s, run, u, c) == Calls(s, run, u, c) + Drops(s, run, u, c) + QueueOf(u, c)
    ensures Drops(s, run, u, c) != [] ==> Released(u, c)
    ensures QueueFreed(u, c) ==> Pushes(s, run, u, c) == Calls(s, run, u, c) + Drops(s, run, u, c)
  {
    MessagesInOrder(s, run, u, c);
    DropsReleased(s, run, u, c);
    Reachable(s, run, u);
    if c in u.services { assert Consistent(u, c); }
    assert [] + Pushes(s, run, u, c) == Pushes(s, run, u, c);
    var all := Calls(s, run, u, c) + Drops(s, run, u, c);
    assert all + [] == all;
  }

  lemma {:induction false} DropsReleased(s: State, run: seq<Action>, u: State, c: Id)
    requires Inv(s) && Leads(s, run, u)
    ensures Drops(s, run, u, c) != [] || Released(s, c) ==> Released(u, c)
    decreases |run|
  {
    if run != [] {
      ReleasedStays(s, run[0], c);
      KeepInv(s, run[0]);
      DropsReleased(Apply(s, run[0]), run[1..], u, c);
    }
  }
}
