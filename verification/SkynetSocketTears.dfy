/** When a package can be torn on the wire. `force_close` frees the two lists before it takes the socket's lock; this
    module says exactly in which states that lets a sending thread write behind a package that is cut short. */
module SkynetSocketTears {
  import opened Common
  import opened SkynetSocket

  /** Whole packages and then `cut`: what is written of the package that is next on the wire, or a proper part of a
      package that was freed. */
  ghost predicate Whole(s: State) {
    && s.wire == Flat(s.sent) + s.cut
    && if s.lost then CutDropped(s) else s.cut == Part(s)
  }

  ghost predicate CutDropped(s: State) {
    exists p, k :: p in s.dropped && CutAt(s.cut, p, k)
  }

  predicate CutAt(cut: seq<Byte>, p: Package, k: nat) {
    0 < k < |p.bytes| && cut == p.bytes[..k]
  }

  /** `force_close` is about to free a package that is half written, without the lock, while nothing that a thread looks
      at forbids it to write directly, and some thread is not yet bound to use the pipe. */
  ghost predicate Danger(s: State) {
    && s.socket == Freeing(false) && s.high != [] && s.high[0].off > 0
    && s.phase.Connected? && s.sending == 0 && exists t :: 0 <= t < |s.workers| && !s.workers[t].Counting?
  }

  /** The lists are never freed in such a state. */
  ghost predicate SafeRun(s: State, run: seq<Action>)
    decreases |run|
  {
    run == [] || (Enabled(s, run[0]) && !(run[0].FreeLists? && Danger(s)) && SafeRun(Apply(s, run[0]), run[1..]))
  }

  // Without danger nothing is torn

  /** What keeps a thread from writing while the lists are freed and the socket is not closed yet. */
  predicate Quiet(s: State, w: Worker) {
    if !s.phase.Connected? then !w.Ready?
    else if s.sending > 0 then !w.Ready? && !(w.Second? && w.field.Type?)
    else w.Counting?
  }

  ghost predicate AllQuiet(s: State) {
    s.lock.BySocket? || forall t {:trigger s.workers[t]} | 0 <= t < |s.workers| :: Quiet(s, s.workers[t])
  }

  ghost predicate Untorn(s: State) {
    !s.torn && (s.lost && !s.phase.Invalid? ==> AllQuiet(s))
  }

  ghost predicate LostOk(s: State) {
    s.lost ==> CutDropped(s)
  }

  /** A thread in its own step. */
  lemma QuietStep(s: State, a: Action)
    requires Enabled(s, a) && ByThread(a) && Quiet(s, s.workers[a.t])
    ensures var u := ThreadStep(s, a); u.phase == s.phase && u.sending >= s.sending && Quiet(u, u.workers[a.t])
    ensures ThreadStep(s, a).torn == s.torn
  {
    hide LookStep;
    if a.Look? {
      LookFrame(s, a.t);
      QuietLook(s, a.t);
    }
  }

  lemma QuietLook(s: State, t: nat)
    requires t < |s.workers| && (s.workers[t].First? || s.workers[t].Second?) && Quiet(s, s.workers[t])
    ensures Quiet(s, LookStep(s, t).workers[t])
  {
  }

  /** While the socket thread has the lock, threads keep to the pipe. */
  lemma LockStays(s: State, a: Action)
    requires Enabled(s, a) && ByThread(a) && LockOk(s) && s.lock.BySocket?
    ensures ThreadStep(s, a).lock.BySocket? && ThreadStep(s, a).torn == s.torn
  {
    assert Locked(s.workers[a.t]) <==> s.lock == ByWorker(a.t);
  }

  lemma KeepQuiet(s: State, a: Action)
    requires Enabled(s, a) && ByThread(a) && LockOk(s) && AllQuiet(s)
    ensures AllQuiet(Apply(s, a)) && Apply(s, a).torn == s.torn
  {
    hide ThreadStep, LockOk;
    var u := Apply(s, a);
    if s.lock.BySocket? {
      LockStays(s, a);
    } else {
      assert Quiet(s, s.workers[a.t]);
      QuietStep(s, a);
      WorkersAfter(s, a);
      forall t {:trigger u.workers[t]} | 0 <= t < |u.workers| ensures Quiet(u, u.workers[t]) {
        if t != a.t { assert Quiet(s, s.workers[t]); }
      }
    }
  }

  /** Freed, the socket is closed next; until then nothing but threads moves. */
  lemma FreedThen(s: State, a: Action)
    requires Enabled(s, a) && s.socket.Freed? && !ByThread(a) && WireOk(s)
    ensures a.AskClose? || a.Invalidate?
    ensures var u := Apply(s, a); u.phase.Invalid? || (u.workers == s.workers && u.lock == s.lock && u.phase == s.phase
                                                      && u.sending == s.sending)
    ensures Apply(s, a).torn == s.torn
  {
    hide Flat, Packages;
  }

  lemma HalfHigh(s: State)
    requires BytesOk(s) && s.socket.Freeing? && exists b :: b in s.high + s.low && b.off > 0
    ensures s.high != [] && s.high[0].off > 0 && s.direct == []
  {
    hide Flat, Size;
    var b :| b in s.high + s.low && b.off > 0;
    assert forall i | 0 < i < |s.high| :: s.high[i] == s.high[1..][i - 1];
  }

  /** Freeing the lists without danger. */
  lemma FreesQuietly(s: State)
    requires Inv(s) && s.socket.Freeing? && !Danger(s)
    ensures FreeStep(s).lost ==> AllQuiet(FreeStep(s))
    ensures FreeStep(s).torn == s.torn && !s.lost
  {
    hide PartialOk, WbOk, SendingOk, AllOnce, OrderOk, Flat, Packages;
    if FreeStep(s).lost && !s.socket.locked {
      HalfHigh(s);
      forall t {:trigger s.workers[t]} | 0 <= t < |s.workers| ensures Quiet(FreeStep(s), s.workers[t]) {
        assert Knows(s, t);
        assert s.high[0] in s.high;
      }
    }
  }

  /** Only a direct write after a loss tears. */
  lemma TornBy(s: State, a: Action)
    requires Enabled(s, a) && !s.lost && WireOk(s)
    ensures !Apply(s, a).torn
    ensures Apply(s, a).lost ==> a.FreeLists? || a.Invalidate?
  {
    hide Flat, Packages, Part;
    if !MovesBytes(a) { Aside(s, a); }
  }

  lemma LosesOnce(s: State, a: Action)
    requires Enabled(s, a) && s.lost && WireOk(s)
    ensures Apply(s, a).lost
  {
    hide Flat, Packages, Part;
    if !MovesBytes(a) { Aside(s, a); }
  }

  /** Once closed nothing is written any more. */
  lemma InvalidStays(s: State, a: Action)
    requires Inv(s) && Enabled(s, a) && s.phase.Invalid?
    ensures Apply(s, a).phase.Invalid? && Apply(s, a).torn == s.torn
  {
    hide PartialOk, WbOk, SendingOk, AllOnce, OrderOk, Flat, Packages, LockOk;
    if ByThread(a) { assert Knows(s, a.t); }
  }

  lemma KeepUntorn(s: State, a: Action)
    requires Inv(s) && Untorn(s) && Enabled(s, a) && !(a.FreeLists? && Danger(s))
    ensures Untorn(Apply(s, a))
  {
    hide Apply, Danger, AllQuiet, PartialOk, WbOk, SendingOk, AllOnce, OrderOk, AllKnow, Flat;
    if s.phase.Invalid? {
      InvalidStays(s, a);
    } else if s.lost {
      if ByThread(a) {
        KeepQuiet(s, a);
        PhaseStays(s, a);
      } else {
        FreedThen(s, a);
        QuietSame(s, Apply(s, a));
      }
    } else {
      TornBy(s, a);
      if a.FreeLists? { FreesQuietly(s); ThenFreed(s); }
      if a.Invalidate? { ThenInvalid(s); }
    }
  }

  lemma PhaseStays(s: State, a: Action)
    requires Enabled(s, a) && ByThread(a)
    ensures Apply(s, a).phase == s.phase && Apply(s, a).socket == s.socket
  {
    hide ThreadStep;
    SendsMore(s, a);
  }

  lemma SendsMore(s: State, a: Action)
    requires Enabled(s, a) && ByThread(a)
    ensures var u := ThreadStep(s, a); u.sending >= s.sending && u.high == s.high && u.socket == s.socket
    ensures ThreadStep(s, a).phase == s.phase
    ensures s.workers[a.t].Counting? ==> ThreadStep(s, a).sending > 0
  {
    hide LookStep;
    if a.Look? { LookFrame(s, a.t); }
  }

  lemma QuietSame(s: State, u: State)
    ensures u.workers == s.workers && u.lock == s.lock && u.phase == s.phase && u.sending == s.sending ==>
              (AllQuiet(s) <==> AllQuiet(u))
  {
  }

  lemma ThenFreed(s: State)
    requires Enabled(s, FreeLists)
    ensures Apply(s, FreeLists) == FreeStep(s)
  {
  }

  lemma ThenInvalid(s: State)
    requires Enabled(s, Invalidate)
    ensures Apply(s, Invalidate).phase.Invalid?
  {
  }

  // What was cut short was dropped

  lemma DropsGrow(s: State, a: Action)
    requires Enabled(s, a) && s.lost && WireOk(s)
    ensures Apply(s, a).cut == s.cut && forall p | p in s.dropped :: p in Apply(s, a).dropped
  {
    hide Flat, Packages, Part, Fresh, OffsetsOk;
    if ByThread(a) { DropsGrowThread(s, a); }
  }

  lemma DropsGrowThread(s: State, a: Action)
    requires Enabled(s, a) && s.lost && ByThread(a)
    ensures ThreadStep(s, a).cut == s.cut && forall p | p in s.dropped :: p in ThreadStep(s, a).dropped
  {
    hide LookStep;
    if a.Look? { LookFrame(s, a.t); }
  }

  lemma FreesCut(s: State)
    requires BytesOk(s) && s.socket.Freeing? && !s.lost && FreeStep(s).lost
    ensures CutDropped(FreeStep(s))
  {
    hide Flat, Size, LockOk;
    HalfHigh(s);
    var b := s.high[0];
    assert b in s.high;
    assert Packages(s.high + s.low)[0] == b.p;
    assert b.p in FreeStep(s).dropped && CutAt(s.cut, b.p, b.off);
  }

  lemma ClosesCut(s: State)
    requires BytesOk(s) && s.socket.Freed? && !s.lost && InvalidateStep(s).lost
    ensures CutDropped(InvalidateStep(s))
  {
    hide Flat, Size;
    assert |s.direct| <= 1;
    var b := s.direct[0];
    assert b in s.direct && Packages(s.direct)[0] == b.p;
    assert b.p in InvalidateStep(s).dropped && CutAt(s.cut, b.p, b.off);
  }

  lemma KeepLost(s: State, a: Action)
    requires Inv(s) && LostOk(s) && Enabled(s, a)
    ensures LostOk(Apply(s, a))
  {
    hide Apply, LockOk, PartialOk, WbOk, SendingOk, AllOnce, OrderOk, AllKnow, Flat, Packages;
    if s.lost {
      DropsGrow(s, a);
      LosesOnce(s, a);
    } else {
      TornBy(s, a);
      if a.FreeLists? {
        ThenFreed(s);
        if FreeStep(s).lost { FreesCut(s); }
      }
      if a.Invalidate? {
        ThenClosed(s);
        if InvalidateStep(s).lost { ClosesCut(s); }
      }
    }
  }

  lemma ThenClosed(s: State)
    requires Enabled(s, Invalidate)
    ensures Apply(s, Invalidate) == InvalidateStep(s)
  {
  }

  // The socket does not open again

  predicate ClosingOk(s: State) {
    s.closing ==> !s.phase.Connected?
  }

  lemma KeepClosing(s: State, a: Action)
    requires Enabled(s, a) && ClosingOk(s)
    ensures ClosingOk(Apply(s, a))
  {
    hide Size, Packages;
    if ByThread(a) { ClosingThread(s, a); }
  }

  lemma ClosingThread(s: State, a: Action)
    requires Enabled(s, a) && ByThread(a)
    ensures ThreadStep(s, a).closing == s.closing && ThreadStep(s, a).phase == s.phase
  {
    hide LookStep;
    if a.Look? { LookFrame(s, a.t); }
  }

  // From the call of `force_close` on

  /** In `force_close` without danger, or after it. */
  ghost predicate Over(s: State) {
    s.phase.Invalid? || s.socket.Freed? || (s.socket.Freeing? && !Danger(s))
  }

  lemma DangerStep(s: State, a: Action)
    requires Enabled(s, a) && ByThread(a) && Danger(ThreadStep(s, a))
    ensures Danger(s)
  {
    hide ThreadStep;
    var u := ThreadStep(s, a);
    SendsMore(s, a);
    ThreadWorkers(s, a);
    var t :| 0 <= t < |u.workers| && !u.workers[t].Counting?;
    assert t != a.t ==> u.workers[t] == s.workers[t];
  }

  lemma StaysOver(s: State, a: Action)
    requires Inv(s) && Enabled(s, a) && Over(s)
    ensures Over(Apply(s, a))
  {
    hide Apply, PartialOk, WbOk, SendingOk, AllOnce, OrderOk, AllKnow, LockOk, Flat, Danger;
    if s.phase.Invalid? {
      InvalidStays(s, a);
    } else if ByThread(a) {
      PhaseStays(s, a);
      ThreadApplies(s, a);
      if Danger(ThreadStep(s, a)) { DangerStep(s, a); }
    } else {
      OverThen(s, a);
    }
  }

  lemma ThreadApplies(s: State, a: Action)
    requires Enabled(s, a) && ByThread(a)
    ensures Apply(s, a) == ThreadStep(s, a)
  {
  }

  lemma OverThen(s: State, a: Action)
    requires Enabled(s, a) && (s.socket.Freed? || (s.socket.Freeing? && !Danger(s))) && !ByThread(a)
    ensures Over(Apply(s, a))
  {
    hide Flat, Packages;
  }

  lemma {:induction false} OverSafe(s: State, run: seq<Action>, u: State)
    requires Inv(s) && Over(s) && Leads(s, run, u)
    ensures SafeRun(s, run)
    decreases |run|
  {
    hide Apply, Inv;
    if run != [] {
      KeepInv(s, run[0]);
      StaysOver(s, run[0]);
      NoDanger(s, run[0]);
      OverSafe(Apply(s, run[0]), run[1..], u);
    }
  }

  lemma NoDanger(s: State, a: Action)
    requires Inv(s) && Over(s) && Enabled(s, a)
    ensures !(a.FreeLists? && Danger(s))
  {
    hide LockOk, PartialOk, WbOk, SendingOk, AllOnce, OrderOk, AllKnow, Flat;
  }

  // Whole runs

  ghost predicate Inv1(s: State) {
    Inv(s) && LostOk(s) && ClosingOk(s)
  }

  lemma KeepInv1(s: State, a: Action)
    requires Inv1(s) && Enabled(s, a)
    ensures Inv1(Apply(s, a))
  {
    hide Inv, Apply, LostOk, ClosingOk;
    KeepInv(s, a);
    KeepLost(s, a);
    KeepClosing(s, a);
  }

  lemma {:induction false} RunKeeps(s: State, run: seq<Action>, u: State)
    requires Inv1(s) && Leads(s, run, u)
    ensures Inv1(u)
    ensures SafeRun(s, run) && Untorn(s) ==> Untorn(u)
    decreases |run|
  {
    hide Inv1, Untorn, Apply, Danger;
    if run != [] {
      KeepInv1(s, run[0]);
      UntornOn(s, run[0]);
      RunKeeps(Apply(s, run[0]), run[1..], u);
    }
  }

  lemma UntornOn(s: State, a: Action)
    requires Inv1(s) && Enabled(s, a)
    ensures Untorn(s) && !(a.FreeLists? && Danger(s)) ==> Untorn(Apply(s, a))
  {
    hide Inv, LostOk, ClosingOk, Untorn, Apply, Danger;
    if Untorn(s) && !(a.FreeLists? && Danger(s)) { KeepUntorn(s, a); }
  }

  lemma InitialInv1(s: State)
    requires Initial(s)
    ensures Inv1(s) && Untorn(s)
  {
    hide Inv;
    InitialInv(s);
  }

  lemma UntornWhole(s: State)
    requires Inv1(s) && !s.torn
    ensures Whole(s)
  {
    hide Flat, Part, LockOk, PartialOk, WbOk, SendingOk, AllOnce, OrderOk, AllKnow;
  }

  /** Whatever the threads do, in whatever portions the descriptor takes bytes: unless `force_close` frees the lists in
      a dangerous state, the wire holds whole packages and one prefix; and so it does as long as no package was freed
      half written. */
  lemma WholePackages(s: State, run: seq<Action>, u: State)
    requires Initial(s) && Leads(s, run, u)
    ensures SafeRun(s, run) || !u.lost ==> Whole(u)
  {
    hide Leads, Initial, SafeRun, Whole;
    InitialInv1(s);
    RunKeeps(s, run, u);
    if SafeRun(s, run) || !u.lost { UntornWhole(u); }
  }

  // Without shutdown and hang-up there is no danger

  /** The lists are only freed without the lock when they are empty, or nobody may write any more. */
  predicate Gentle(s: State) {
    && Close(true) !in s.pipe
    && (s.socket == Freeing(false) ==> (s.high == [] && s.low == []) || s.phase.HalfWrite?)
  }

  predicate Calm(a: Action) {
    a != AskClose(true) && !a.HangUp?
  }

  lemma KeepGentle(s: State, a: Action)
    requires Enabled(s, a) && Gentle(s) && Calm(a)
    ensures Gentle(Apply(s, a))
  {
    hide ThreadStep, ControlStep, DataStep, Gentle, Calm;
    if ByThread(a) {
      GentleThread(s, a);
    } else if ByControl(a) {
      GentleControl(s, a);
    } else {
      GentleData(s, a);
    }
  }

  lemma GentleThread(s: State, a: Action)
    requires Enabled(s, a) && Gentle(s) && ByThread(a)
    ensures Gentle(ThreadStep(s, a))
  {
    hide ThreadStep;
    SendsMore(s, a);
    PipeGrows(s, a);
  }

  lemma PipeGrows(s: State, a: Action)
    requires Enabled(s, a) && ByThread(a)
    ensures Close(true) !in s.pipe ==> Close(true) !in ThreadStep(s, a).pipe
    ensures ThreadStep(s, a).low == s.low
  {
    hide LookStep;
    if a.Look? { LookFrame(s, a.t); }
  }

  lemma GentleControl(s: State, a: Action)
    requires Enabled(s, a) && Gentle(s) && ByControl(a) && Calm(a)
    ensures Gentle(ControlStep(s, a))
  {
    hide BlockedStep, ErrorStep, ListDoneStep;
    NotFreeing(s);
  }

  /** What ends a list frees it with the lock. */
  lemma NotFreeing(s: State)
    ensures BlockedStep(s).pipe == ErrorStep(s).pipe == ListDoneStep(s).pipe == s.pipe
    ensures BlockedStep(s).socket != Freeing(false)
    ensures ErrorStep(s).socket != Freeing(false)
    ensures ListDoneStep(s).socket != Freeing(false)
  {
  }

  lemma GentleData(s: State, a: Action)
    requires Enabled(s, a) && Gentle(s) && ByData(a)
    ensures Gentle(DataStep(s, a))
  {
    hide Size, Packages;
    if a.Serve? { GentleServe(s); }
  }

  lemma GentleServe(s: State)
    requires Gentle(s) && s.socket.Waiting? && s.pipe != []
    ensures Gentle(ServeStep(s))
  {
    assert s.pipe == [s.pipe[0]] + s.pipe[1..];
  }

  lemma GentleSafe(s: State)
    requires Gentle(s)
    ensures !Danger(s)
  {
  }

  lemma {:induction false} CalmSafe(s: State, run: seq<Action>, u: State)
    requires Gentle(s) && Leads(s, run, u) && forall a | a in run :: Calm(a)
    ensures SafeRun(s, run)
    decreases |run|
  {
    hide Gentle, Danger, Apply, Calm, Enabled;
    if run != [] {
      GentleSafe(s);
      KeepGentle(s, run[0]);
      CalmSafe(Apply(s, run[0]), run[1..], u);
    }
  }

  /** As long as nobody shuts the socket down and it does not hang up, the wire holds whole packages and one prefix:
      through partial writes, write errors, a close that waits, and the end of the other side. */
  lemma NoShutdownWhole(s: State, run: seq<Action>, u: State)
    requires Initial(s) && Leads(s, run, u) && forall a | a in run :: Calm(a)
    ensures Whole(u)
  {
    hide Leads, Whole, SafeRun, Calm;
    CalmSafe(s, run, u);
    WholePackages(s, run, u);
  }

  // A run that tears the wire

  lemma {:induction false} LeadsOn(s: State, run: seq<Action>, u: State, more: seq<Action>, v: State)
    requires Leads(s, run, u) && Leads(u, more, v)
    ensures Leads(s, run + more, v)
    decreases |run|
  {
    hide Apply, Enabled;
    if run == [] {
      assert run + more == more;
    } else {
      LeadsOn(Apply(s, run[0]), run[1..], u, more, v);
      assert (run + more)[0] == run[0] && (run + more)[1..] == run[1..] + more;
    }
  }

  lemma OneStep(s: State, a: Action)
    requires Enabled(s, a)
    ensures Leads(s, [a], Apply(s, a))
  {
    hide Apply, Enabled;
    assert [a][1..] == [];
    assert Leads(Apply(s, a), [], Apply(s, a));
  }

  /** Nothing keeps a thread from writing directly. */
  predicate AllClear(s: State) {
    s.high == [] && s.low == [] && s.direct == [] && s.sending == 0 && s.phase.Connected? && s.lock.Unlocked?
      && !s.closing
  }

  function Holding(s: State, t: nat, p: Package): State
    requires t < |s.workers| == |s.nums|
  {
    s.(workers := s.workers[t := Ready(p)], nums := s.nums[t := s.nums[t] + 1], lock := ByWorker(t))
  }

  /** The steps of a thread that finds everything clear twice. */
  lemma GetsReady(s: State, t: nat, bytes: seq<Byte>) returns (run: seq<Action>)
    requires AllClear(s) && t < |s.workers| == |s.nums| && s.workers[t].Idle?
    ensures Leads(s, run, Holding(s, t, Package(t, s.nums[t], true, bytes)))
  {
    hide Leads;
    var p := Package(t, s.nums[t], true, bytes);
    var s1 := s.(workers := s.workers[t := First(p, HighHead)], nums := s.nums[t := s.nums[t] + 1]);
    var s2 := s1.(workers := s.workers[t := Trying(p)]);
    var s3 := s1.(workers := s.workers[t := Second(p, HighHead)], lock := ByWorker(t));
    OneStep(s, Begin(t, true, bytes));
    assert Apply(s, Begin(t, true, bytes)) == s1;
    var looks := LooksFirst(s1, t, p, HighHead);
    OneStep(s2, TryLock(t));
    assert Apply(s2, TryLock(t)) == s3;
    var again := LooksSecond(s3, t, p, HighHead);
    assert s1.workers[t := Trying(p)] == s2.workers && s3.workers[t := Ready(p)] == s.workers[t := Ready(p)];
    LeadsOn(s, [Begin(t, true, bytes)], s1, looks, s2);
    LeadsOn(s, [Begin(t, true, bytes)] + looks, s2, [TryLock(t)], s3);
    LeadsOn(s, [Begin(t, true, bytes)] + looks + [TryLock(t)], s3, again, Holding(s, t, p));
    run := [Begin(t, true, bytes)] + looks + [TryLock(t)] + again;
  }

  /** How many fields are still to be read. */
  function ToRead(field: Field): nat {
    match field
    case HighHead => 5
    case LowHead => 4
    case DirectBuffer => 3
    case SendingRef => 2
    case Type => 1
  }

  lemma {:induction false} LooksFirst(s: State, t: nat, p: Package, field: Field) returns (run: seq<Action>)
    requires AllClear(s) && t < |s.workers| && s.workers[t] == First(p, field) && |s.workers| == |s.nums|
    ensures Leads(s, run, Go(s, t, Trying(p)))
    decreases ToRead(field)
  {
    hide Leads;
    OneStep(s, Look(t));
    run := [Look(t)];
    if field.Type? {
      assert Apply(s, Look(t)) == Go(s, t, Trying(p));
    } else {
      var s1 := Go(s, t, First(p, Next(field)));
      assert Apply(s, Look(t)) == s1;
      var more := LooksFirst(s1, t, p, Next(field));
      assert Go(s1, t, Trying(p)) == Go(s, t, Trying(p));
      LeadsOn(s, run, s1, more, Go(s, t, Trying(p)));
      run := run + more;
    }
  }

  lemma {:induction false} LooksSecond(s: State, t: nat, p: Package, field: Field) returns (run: seq<Action>)
    requires AllClear(s.(lock := Unlocked)) && t < |s.workers| && s.workers[t] == Second(p, field)
    requires |s.workers| == |s.nums|
    ensures Leads(s, run, Go(s, t, Ready(p)))
    decreases ToRead(field)
  {
    hide Leads;
    OneStep(s, Look(t));
    run := [Look(t)];
    if field.Type? {
      assert Apply(s, Look(t)) == Go(s, t, Ready(p));
    } else {
      var s1 := Go(s, t, Second(p, Next(field)));
      assert Apply(s, Look(t)) == s1;
      var more := LooksSecond(s1, t, p, Next(field));
      assert Go(s1, t, Ready(p)) == Go(s, t, Ready(p));
      LeadsOn(s, run, s1, more, Go(s, t, Ready(p)));
      run := run + more;
    }
  }

  // In danger some continuation tears

  /** The lists are freed and the socket is not closed yet; what is on the wire does not end with a whole package. */
  predicate Gap(s: State) {
    && s.socket == Freed(false) && s.high == [] && s.low == [] && s.direct == [] && s.sending == 0
    && s.phase.Connected? && !s.closing && s.lost && |s.workers| == |s.nums| && |s.wire| > |Flat(s.sent)|
  }

  /** A thread that has the lock and has not looked yet writes its package and is done. */
  lemma HolderWrites(s: State, t: nat) returns (run: seq<Action>, u: State)
    requires Gap(s) && t < |s.workers| && s.workers[t].Second? && s.workers[t].field.HighHead?
    ensures Leads(s, run, u) && Gap(u) && t < |u.workers| && u.workers[t].Idle? && u.lock.Unlocked?
  {
    hide Leads, Flat;
    var p := s.workers[t].p;
    run := LooksSecond(s, t, p, HighHead);
    var s1 := Go(s, t, Ready(p));
    var a := DirectWrite(t, |p.bytes|);
    OneStep(s1, a);
    u := Apply(s1, a);
    FlatAppend(s.sent, p);
    LeadsOn(s, run, s1, [a], u);
    run := run + [a];
  }

  lemma TriesAndWrites(s: State, t: nat) returns (run: seq<Action>, u: State)
    requires Gap(s) && t < |s.workers| && s.workers[t].Trying? && s.lock.Unlocked?
    ensures Leads(s, run, u) && Gap(u) && t < |u.workers| && u.workers[t].Idle? && u.lock.Unlocked?
  {
    hide Leads, Flat;
    OneStep(s, TryLock(t));
    var s1 := Apply(s, TryLock(t));
    var more: seq<Action>;
    more, u := HolderWrites(s1, t);
    LeadsOn(s, [TryLock(t)], s1, more, u);
    run := [TryLock(t)] + more;
  }

  /** Any thread that does not wait for the pipe gets idle with the lock free. */
  lemma GetsIdle(s: State, t: nat) returns (run: seq<Action>, u: State)
    requires Gap(s) && t < |s.workers|
    requires (s.lock.Unlocked? && !Locked(s.workers[t]) && !s.workers[t].Counting? && !s.workers[t].Queueing?)
             || (s.workers[t].Second? && s.workers[t].field.HighHead?)
    ensures Leads(s, run, u) && Gap(u) && t < |u.workers| && u.workers[t].Idle? && u.lock.Unlocked?
  {
    hide Leads, Flat;
    match s.workers[t]
    case Second(_, _) =>
      run, u := HolderWrites(s, t);
    case Trying(_) =>
      run, u := TriesAndWrites(s, t);
    case First(p, field) =>
      var looks := LooksFirst(s, t, p, field);
      var s1 := Go(s, t, Trying(p));
      var more: seq<Action>;
      more, u := TriesAndWrites(s1, t);
      LeadsOn(s, looks, s1, more, u);
      run := looks + more;
    case Waking =>
      OneStep(s, Wake(t));
      run, u := [Wake(t)], Apply(s, Wake(t));
    case Idle =>
      LeadsNowhere(s);
      run, u := [], s;
  }

  lemma LeadsNowhere(s: State)
    ensures Leads(s, [], s)
  {
  }

  /** An idle thread writes a byte that does not go on what was cut short. */
  lemma WritesOver(s: State, t: nat) returns (run: seq<Action>, u: State)
    requires Gap(s) && t < |s.workers| && s.workers[t].Idle? && s.lock.Unlocked?
    ensures Leads(s, run, u) && !(Flat(u.sent) <= u.wire)
  {
    hide Leads, Flat;
    var b: Byte := if s.wire[|Flat(s.sent)|] == 0 then 1 else 0;
    var p := Package(t, s.nums[t], true, [b]);
    run := GetsReady(s, t, [b]);
    var s1 := Holding(s, t, p);
    var a := DirectWrite(t, 1);
    OneStep(s1, a);
    u := Apply(s1, a);
    LeadsOn(s, run, s1, [a], u);
    run := run + [a];
    FlatAppend(s.sent, p);
    assert p.bytes[..1] == [b];
    assert u.wire[|Flat(s.sent)|] != b && Flat(u.sent)[|Flat(s.sent)|] == b;
  }

  lemma GapOpens(s: State)
    requires Inv1(s) && Danger(s)
    ensures Gap(FreeStep(s)) && FreeStep(s).workers == s.workers && FreeStep(s).lock == s.lock
  {
    hide Flat, Packages, LockOk, WbOk, SendingOk, AllOnce, OrderOk;
    assert s.high[0] in s.high + s.low;
    HalfHigh(s);
  }

  /** The thread that will tear: the one with the lock, or any that does not wait for the pipe. */
  lemma SomeThread(s: State) returns (t: nat)
    requires Inv1(s) && Danger(s)
    ensures t < |s.workers|
    ensures (s.lock.Unlocked? && !Locked(s.workers[t]) && !s.workers[t].Counting? && !s.workers[t].Queueing?)
            || (s.workers[t].Second? && s.workers[t].field.HighHead?)
  {
    hide Flat, PartialOk, WireOk, WbOk, AllOnce, OrderOk, Sends, LostOk;
    if s.lock.ByWorker? {
      t := s.lock.t;
      assert Locked(s.workers[t]) <==> s.lock == ByWorker(t);
      assert Knows(s, t) && s.high[0] in s.high;
    } else {
      t :| 0 <= t < |s.workers| && !s.workers[t].Counting?;
      assert Locked(s.workers[t]) <==> s.lock == ByWorker(t);
      if s.workers[t].Queueing? { CountedOne(s.workers, t); }
    }
  }

  lemma {:induction false} CountedOne(ws: seq<Worker>, t: nat)
    requires t < |ws| && ws[t].Queueing?
    ensures Counted(ws) > 0
    decreases t
  {
    if t > 0 { CountedOne(ws[1..], t - 1); }
  }

  lemma DangerTears(s: State) returns (run: seq<Action>, u: State)
    requires Inv1(s) && Danger(s)
    ensures Leads(s, run, u) && !(Flat(u.sent) <= u.wire)
  {
    hide Leads, Flat, Inv1, Gap;
    var t := SomeThread(s);
    GapOpens(s);
    var s1 := FreeStep(s);
    OneStep(s, FreeLists);
    ThenFreed(s);
    var more, s2 := GetsIdle(s1, t);
    var last, v := WritesOver(s2, t);
    LeadsOn(s, [FreeLists], s1, more, s2);
    LeadsOn(s, [FreeLists] + more, s2, last, v);
    run, u := [FreeLists] + more + last, v;
  }

  /** Exactly when a call of `force_close` without the lock can tear: from there some continuation spoils the wire if
      and only if the state is dangerous. Then the wire does not even start with the packages that count as written. */
  lemma ForceCloseTears(s0: State, before: seq<Action>, s: State)
    requires Initial(s0) && Leads(s0, before, s) && s.socket == Freeing(false)
    ensures Danger(s) <==> exists run, u :: Leads(s, run, u) && !Whole(u)
    ensures Danger(s) ==> exists run, u :: Leads(s, run, u) && !(Flat(u.sent) <= u.wire)
  {
    hide Leads, Inv, LostOk, ClosingOk, Danger, AllQuiet, Part;
    InitialInv1(s0);
    RunKeeps(s0, before, s);
    if Danger(s) {
      var run, u := DangerTears(s);
      WholePrefix(u);
    } else {
      forall run, u | Leads(s, run, u) ensures Whole(u) {
        OverSafe(s, run, u);
        NotYetTorn(s);
        RunKeeps(s, run, u);
        UntornWhole(u);
      }
    }
  }

  lemma WholePrefix(s: State)
    ensures Whole(s) ==> Flat(s.sent) <= s.wire
  {
    hide Flat, Part;
  }

  lemma NotYetTorn(s: State)
    requires Inv(s) && s.socket.Freeing?
    ensures Untorn(s)
  {
    hide LockOk, PartialOk, WbOk, SendingOk, AllOnce, OrderOk, AllKnow, Flat;
  }

  function Start(n: nat): State {
    State(seq(n, _ => Idle), seq(n, _ => 0), [], 0, [], [], [], 0, Unlocked, Waiting, Connected, false, [], [], [],
      [], false, false)
  }

  lemma WritesHalf(s: State, p: Package)
    requires |s.workers| == |s.nums| == 2 && s.workers[0] == Ready(p) && p.bytes == [1, 2] && !s.lost
    ensures Enabled(s, DirectWrite(0, 1))
    ensures Apply(s, DirectWrite(0, 1)) ==
            s.(workers := [Waking, s.workers[1]], lock := Unlocked, wire := s.wire + [1], direct := [Buf(p, 1)],
              cut := [1])
  {
    assert p.bytes[..1] == [1];
  }

  lemma FlushesOne(s: State, b: Buf)
    requires s.socket.Waiting? && s.lock.Unlocked? && !s.phase.Invalid? && s.direct == [b] && s.high == []
    ensures Enabled(s, Flush)
    ensures Apply(s, Flush) ==
            s.(lock := BySocket, socket := SendHigh, high := [b], direct := [],
              wbSize := s.wbSize + |b.p.bytes| - b.off)
  {
    assert Size([b]) == |b.p.bytes| - b.off + Size([]);
  }

  /** Thread 0 has written half of [1, 2] and the socket thread has taken over the rest. */
  lemma HalfWritten() returns (run: seq<Action>, u: State)
    ensures Leads(Start(2), run, u)
    ensures u == Start(2).(workers := [Waking, Idle], nums := [1, 0],
              high := [Buf(Package(0, 0, true, [1, 2]), 1)], wbSize := 1, wire := [1], cut := [1])
  {
    hide Leads, ThreadStep, DataStep;
    var s, p := Start(2), Package(0, 0, true, [1, 2]);
    run := GetsReady(s, 0, [1, 2]);
    var s1 := Holding(s, 0, p);
    var s2 := s.(workers := [Waking, Idle], nums := [1, 0], direct := [Buf(p, 1)], wire := [1], cut := [1]);
    WritesHalf(s1, p);
    OneStep(s1, DirectWrite(0, 1));
    assert Apply(s1, DirectWrite(0, 1)) == s2;
    LeadsOn(s, run, s1, [DirectWrite(0, 1)], s2);
    run := run + [DirectWrite(0, 1)];
    var s3 := s2.(lock := BySocket, socket := SendHigh, high := [Buf(p, 1)], direct := [], wbSize := 1);
    FlushesOne(s2, Buf(p, 1));
    OneStep(s2, Flush);
    LeadsOn(s, run, s2, [Flush], s3);
    run := run + [Flush];
    u := s3.(lock := Unlocked, socket := Waiting);
    OneStep(s3, Blocked);
    LeadsOn(s, run, s3, [Blocked], u);
    run := run + [Blocked];
  }

  lemma ServesShutdown(s: State)
    requires s.socket.Waiting? && s.pipe == [Close(true)] && !s.phase.Invalid?
    ensures Enabled(s, Serve) && Apply(s, Serve) == s.(pipe := [], socket := Freeing(false))
  {
  }

  lemma FreesOne(s: State, b: Buf)
    requires s.socket == Freeing(false) && s.high == [b] && s.low == [] && b.off > 0
    ensures Enabled(s, FreeLists)
    ensures Apply(s, FreeLists) == s.(socket := Freed(false), high := [], dropped := s.dropped + [b.p], lost := true)
  {
    assert b in s.high + s.low;
    assert Packages(s.high + s.low) == [b.p];
  }

  /** Then the socket is shut down: the socket thread has freed the lists and not yet taken the lock. */
  lemma HalfFreed() returns (run: seq<Action>, u: State)
    ensures Leads(Start(2), run, u)
    ensures u == Start(2).(workers := [Waking, Idle], nums := [1, 0],
              socket := Freed(false), wbSize := 1, wire := [1], cut := [1], dropped := [Package(0, 0, true, [1, 2])],
              lost := true)
  {
    hide Leads, ThreadStep, DataStep, Packages;
    var s, p := Start(2), Package(0, 0, true, [1, 2]);
    var s1: State;
    run, s1 := HalfWritten();
    var s2 := s1.(pipe := [Close(true)]);
    OneStep(s1, AskClose(true));
    assert Apply(s1, AskClose(true)) == s2;
    LeadsOn(s, run, s1, [AskClose(true)], s2);
    run := run + [AskClose(true)];
    var s3 := s1.(socket := Freeing(false));
    ServesShutdown(s2);
    OneStep(s2, Serve);
    LeadsOn(s, run, s2, [Serve], s3);
    run := run + [Serve];
    u := s1.(socket := Freed(false), high := [], dropped := [p], lost := true);
    FreesOne(s3, Buf(p, 1));
    OneStep(s3, FreeLists);
    assert Apply(s3, FreeLists) == u;
    LeadsOn(s, run, s3, [FreeLists], u);
    run := run + [FreeLists];
  }

  /** A shutdown frees the lists before it takes the lock: a thread that looks just then finds them empty and writes its
      package after one that is cut short. */
  lemma ShutdownTears() returns (run: seq<Action>, u: State)
    ensures Initial(Start(2)) && Leads(Start(2), run, u)
    ensures u.torn && u.sent == [Package(1, 0, true, [9])] && u.wire == [1, 9]
    ensures forall rest :: u.wire != Flat(u.sent) + rest
  {
    hide Leads;
    var s, q := Start(2), Package(1, 0, true, [9]);
    var s4: State;
    run, s4 := HalfFreed();
    var more := GetsReady(s4, 1, [9]);
    var s5 := Holding(s4, 1, q);
    LeadsOn(s, run, s4, more, s5);
    run := run + more;
    OneStep(s5, DirectWrite(1, 1));
    u := Apply(s5, DirectWrite(1, 1));
    LeadsOn(s, run, s5, [DirectWrite(1, 1)], u);
    run := run + [DirectWrite(1, 1)];
    assert q.bytes[..1] == [9];
    FlatAppend([], q);
    assert [] + [q] == [q];
    forall rest ensures u.wire != Flat(u.sent) + rest {
      assert (Flat(u.sent) + rest)[0] == 9;
    }
  }
}
