/** What the sending code of skynet's socket server loses, and what not: packages are dropped only once the socket is
    closed or about to be; packages of low priority keep their order; and the socket thread can always write all that
    is buffered, and close then. */
module SkynetSocketDrops {
  import opened Common
  import opened SkynetSocket
  import Tears = SkynetSocketTears

  // When packages are dropped

  /** The socket is closed, or was asked to, or cannot be written any more. */
  predicate Closed(s: State) {
    s.phase.Invalid? || s.phase.HalfWrite? || s.closing || s.socket.Freed?
  }

  predicate DropsWhenClosed(s: State, u: State) {
    (Closed(s) ==> Closed(u)) && (Closed(u) || u.dropped == s.dropped)
  }

  lemma DropStep(s: State, a: Action)
    requires Enabled(s, a)
    ensures DropsWhenClosed(s, Apply(s, a))
  {
    hide ThreadStep, ControlStep, DataStep, DropsWhenClosed;
    if ByThread(a) {
      DropThread(s, a);
    } else if ByControl(a) {
      DropControl(s, a);
    } else {
      DropData(s, a);
    }
  }

  lemma DropThread(s: State, a: Action)
    requires Enabled(s, a) && ByThread(a)
    ensures DropsWhenClosed(s, ThreadStep(s, a))
  {
    hide LookStep;
    if a.Look? { LookFrame(s, a.t); }
  }

  lemma DropControl(s: State, a: Action)
    requires Enabled(s, a) && ByControl(a)
    ensures DropsWhenClosed(s, ControlStep(s, a))
  {
  }

  lemma DropData(s: State, a: Action)
    requires Enabled(s, a) && ByData(a)
    ensures DropsWhenClosed(s, DataStep(s, a))
  {
    hide Size, Packages, WriteStep;
    if a.WriteOut? { DropWrite(s, a.n); }
  }

  lemma DropWrite(s: State, n: nat)
    requires Enabled(s, WriteOut(n))
    ensures DropsWhenClosed(s, WriteStep(s, n))
  {
  }

  lemma {:induction false} DropRun(s: State, run: seq<Action>, u: State)
    requires Leads(s, run, u)
    ensures DropsWhenClosed(s, u)
    decreases |run|
  {
    hide Apply, Enabled;
    if run != [] {
      DropStep(s, run[0]);
      DropRun(Apply(s, run[0]), run[1..], u);
    }
  }

  /** As long as a socket is open and nobody closes it nothing is dropped: what a thread sent is written, or on its
      way. */
  lemma OpenKeepsAll(s: State, run: seq<Action>, u: State, t: nat, k: nat)
    requires Initial(s) && Leads(s, run, u) && !Closed(u)
    ensures u.dropped == []
    ensures t < |u.nums| && k < u.nums[t] ==>
              Times(u.sent, t, k) + Times(Packages(u.direct + u.high + u.low), t, k) + Times(Piped(u.pipe), t, k)
              + Flying(u, t, k) == 1
  {
    hide Packages, Piped, Flying;
    DropRun(s, run, u);
    if t < |u.nums| && k < u.nums[t] { EachPackageOnce(s, run, u, t, k); }
  }

  // Low priority

  /** The packages of low priority. */
  function Lows(ps: seq<Package>): seq<Package> {
    if ps == [] then [] else (if ps[0].high then [] else [ps[0]]) + Lows(ps[1..])
  }

  lemma {:induction false} LowsConcat(a: seq<Package>, b: seq<Package>)
    ensures Lows(a + b) == Lows(a) + Lows(b)
  {
    if a == [] {
      NoMore(b);
      NoMore(Lows(b));
    } else {
      LowsConcat(a[1..], b);
      assert (a + b)[1..] == a[1..] + b;
      Assoc(if a[0].high then [] else [a[0]], Lows(a[1..]), Lows(b));
    }
  }

  lemma LowsThree(a: seq<Package>, b: seq<Package>, c: seq<Package>)
    ensures Lows(a + b + c) == Lows(a) + Lows(b) + Lows(c)
  {
    LowsConcat(a + b, c);
    LowsConcat(a, b);
  }

  lemma LowsOne(p: Package)
    ensures Lows([p]) == if p.high then [] else [p]
  {
    assert [p][1..] == [];
  }

  /** `a` is what is left of `b` when some elements are taken out. */
  predicate Left<T(==)>(a: seq<T>, b: seq<T>)
    decreases |b|
  {
    || a == []
    || (b != [] && ((a[0] == b[0] && Left(a[1..], b[1..])) || Left(a, b[1..])))
  }

  lemma {:induction false} LeftAll<T>(a: seq<T>)
    ensures Left(a, a)
  {
    if a != [] { LeftAll(a[1..]); }
  }

  lemma {:induction false} LeftJoin<T>(a: seq<T>, b: seq<T>, c: seq<T>, d: seq<T>)
    requires Left(a, b) && Left(c, d)
    ensures Left(a + c, b + d)
    decreases |b|
  {
    if b == [] {
      assert a + c == c && b + d == d;
    } else {
      assert (b + d)[1..] == b[1..] + d;
      if a != [] && a[0] == b[0] && Left(a[1..], b[1..]) {
        LeftJoin(a[1..], b[1..], c, d);
        assert (a + c)[1..] == a[1..] + c;
      } else {
        LeftJoin(a, b[1..], c, d);
        assert a == [] && c == [] ==> a + c == [];
      }
    }
  }

  lemma {:induction false} LeftTwice<T>(a: seq<T>, b: seq<T>, c: seq<T>)
    requires Left(a, b) && Left(b, c)
    ensures Left(a, c)
    decreases |c|
  {
    if a != [] {
      if b[0] == c[0] && Left(b[1..], c[1..]) {
        if a[0] == b[0] && Left(a[1..], b[1..]) {
          LeftTwice(a[1..], b[1..], c[1..]);
        } else {
          LeftTwice(a, b[1..], c[1..]);
        }
      } else {
        LeftTwice(a, b, c[1..]);
      }
    }
  }

  lemma LeftOut<T>(a: seq<T>, b: seq<T>, c: seq<T>)
    ensures Left(a + c, a + b + c)
  {
    LeftAll(a);
    LeftAll(c);
    assert Left([], b);
    LeftJoin(a, a, [], b);
    assert a + [] == a;
    LeftJoin(a, a + b, c, c);
  }

  /** What the step puts into the pipe with low priority. */
  function LowQueued(s: State, a: Action): seq<Package>
    requires Enabled(s, a)
  {
    if a.Enqueue? && !s.workers[a.t].p.high then [s.workers[a.t].p] else []
  }

  /** Low packages stay in order; they get lost only when packages are dropped. */
  predicate LowsKept(s: State, more: seq<Package>, u: State) {
    && Left(Lows(Track(u)), Lows(Track(s)) + more)
    && (u.dropped == s.dropped ==> Lows(Track(u)) == Lows(Track(s)) + more)
  }

  lemma SameKept(s: State, u: State)
    requires Lows(Track(u)) == Lows(Track(s))
    ensures LowsKept(s, [], u)
  {
    hide Track;
    NoMore(Lows(Track(s)));
    LeftAll(Lows(Track(s)));
  }

  lemma RemoveKept(s: State, u: State, a: seq<Package>, b: seq<Package>, c: seq<Package>)
    requires Track(s) == a + b + c && Track(u) == a + c && u.dropped == s.dropped + b
    ensures LowsKept(s, [], u)
  {
    hide Track;
    LowsThree(a, b, c);
    LowsConcat(a, c);
    LeftOut(Lows(a), Lows(b), Lows(c));
    NoMore(Lows(Track(s)));
    if u.dropped == s.dropped {
      assert |b| == 0;
      assert a + b + c == a + c;
    }
  }

  lemma DirectLows(s: State, t: nat, n: nat)
    requires t < |s.workers| && s.workers[t].Ready? && n <= |s.workers[t].p.bytes| && Knows(s, t)
    ensures Lows(Track(DirectStep(s, t, n))) == Lows(Track(s))
  {
    hide Track, Packages, Piped;
    var p, rest := s.workers[t].p, Packages(s.high) + Packages(s.low) + Piped(s.pipe);
    DirectTrack(s, t, n);
    LowsThree(s.sent, [p], rest);
    LowsConcat(s.sent, rest);
    LowsOne(p);
    NoMore(Lows(s.sent));
  }

  lemma ServeLows(s: State)
    requires s.pipe != []
    ensures LowsKept(s, [], ServeStep(s))
  {
    hide Track, Packages, Piped, LowsKept;
    var u := ServeStep(s);
    if s.pipe[0].Send? {
      var p := s.pipe[0].p;
      var a, l, r := ServeTrack(s);
      if u.dropped == s.dropped + [p] && Track(u) == a + l + r {
        RemoveKept(s, u, a + l, [p], r);
      } else if Track(u) == Track(s) {
        SameKept(s, u);
      } else {
        MoveLows(a, l, p, r);
        SameKept(s, u);
      }
    } else {
      ServeOther(s);
      SameKept(s, u);
    }
  }

  lemma MoveLows(a: seq<Package>, l: seq<Package>, p: Package, r: seq<Package>)
    requires p.high || l == []
    ensures Lows(a + [p] + l + r) == Lows(a + l + [p] + r)
  {
    if l == [] {
      NoMore(a);
      NoMore(a + [p]);
    } else {
      LowsThree(a + [p], l, r);
      LowsConcat(a, [p]);
      LowsThree(a + l, [p], r);
      LowsConcat(a, l);
      LowsOne(p);
      NoMore(Lows(a));
      NoMore(Lows(a) + Lows(l));
    }
  }

  lemma EnqueueLows(s: State, t: nat)
    requires Enabled(s, Enqueue(t))
    ensures LowsKept(s, LowQueued(s, Enqueue(t)), Apply(s, Enqueue(t)))
  {
    hide Track;
    var p := s.workers[t].p;
    EnqueueTrack(Go(s, t, Idle), p);
    GoTrack(s, t);
    LowsConcat(Track(s), [p]);
    LowsOne(p);
    LeftAll(Lows(Track(s) + [p]));
  }

  lemma LowStep(s: State, a: Action)
    requires Enabled(s, a) && Inv(s)
    ensures LowsKept(s, LowQueued(s, a), Apply(s, a))
  {
    hide Track, Packages, Piped, LowsKept, LockOk, BytesOk, AllOnce, SendingOk, OrderOk, DirectStep, ServeStep,
         FreeStep, InvalidateStep, FlushStep, WriteStep, EndLowStep, BeginStep, LookStep, BlockedStep, ErrorStep,
         ListDoneStep,
         RemoteClosedStep, Knows;
    match a
    case DirectWrite(t, n) =>
      assert Knows(s, t);
      DirectLows(s, t, n);
      SameKept(s, DirectStep(s, t, n));
    case Enqueue(t) => EnqueueLows(s, t);
    case Serve => ServeLows(s);
    case FreeLists =>
      FreeTrack(s);
      RemoveKept(s, FreeStep(s), s.sent + Packages(s.direct), Packages(s.high) + Packages(s.low), Piped(s.pipe));
    case Invalidate =>
      InvalidateTrack(s);
      RemoveKept(s, InvalidateStep(s), s.sent, Packages(s.direct),
                 Packages(s.high) + Packages(s.low) + Piped(s.pipe));
    case _ =>
      LockKnown(s);
      TrackSame(s, a);
      SameKept(s, Apply(s, a));
  }

  lemma LockKnown(s: State)
    requires BytesOk(s)
    ensures LockOk(s)
  {
  }

  function LowsQueued(s: State, run: seq<Action>, u: State): seq<Package>
    requires Leads(s, run, u)
    decreases |run|
  {
    if run == [] then [] else LowQueued(s, run[0]) + LowsQueued(Apply(s, run[0]), run[1..], u)
  }

  lemma {:induction false} LowRun(s: State, run: seq<Action>, u: State)
    requires Inv(s) && Leads(s, run, u)
    ensures Left(Lows(Track(u)), Lows(Track(s)) + LowsQueued(s, run, u))
    ensures !Closed(u) ==> Lows(Track(u)) == Lows(Track(s)) + LowsQueued(s, run, u)
    decreases |run|
  {
    hide Apply, Enabled, Inv, Track, LowQueued, Closed;
    var before := Lows(Track(s));
    if run == [] {
      NoMore(before);
      LeftAll(before);
    } else {
      var v, q, qs := Apply(s, run[0]), LowQueued(s, run[0]), LowsQueued(Apply(s, run[0]), run[1..], u);
      LowStep(s, run[0]);
      KeepInv(s, run[0]);
      LowRun(v, run[1..], u);
      Assoc(before, q, qs);
      LeftAll(qs);
      LeftJoin(Lows(Track(v)), before + q, qs, qs);
      LeftTwice(Lows(Track(u)), Lows(Track(v)) + qs, before + q + qs);
      DropStep(s, run[0]);
      DropRun(v, run[1..], u);
    }
  }

  /** Packages of low priority are written in the order in which they came into the pipe. While the socket is open all
      of them are written, or buffered or in the pipe, in that order; later some may be missing. */
  lemma LowInOrder(s: State, run: seq<Action>, u: State)
    requires Initial(s) && Leads(s, run, u)
    ensures Left(Lows(u.sent), LowsQueued(s, run, u))
    ensures !Closed(u) ==>
              Lows(u.sent) + Lows(Packages(u.direct + u.high + u.low)) + Lows(Piped(u.pipe)) == LowsQueued(s, run, u)
  {
    hide Apply, Inv, Lows, Packages, Piped, Closed;
    InitialInv(s);
    assert Lows(Track(s)) == [] by { NoTrack(s); }
    LowRun(s, run, u);
    var b, queued := Packages(u.direct + u.high + u.low), LowsQueued(s, run, u);
    NoMore(queued);
    TrackSplit(u);
    LowsThree(u.sent, b, Piped(u.pipe));
    var rest := Lows(b) + Lows(Piped(u.pipe));
    Assoc(Lows(u.sent), Lows(b), Lows(Piped(u.pipe)));
    LeftOut(Lows(u.sent), rest, []);
    NoMore(Lows(u.sent));
    NoMore(Lows(u.sent) + rest);
    LeftTwice(Lows(u.sent), Lows(u.sent) + rest, queued);
  }

  lemma NoTrack(s: State)
    requires Initial(s)
    ensures Lows(Track(s)) == []
  {
  }

  lemma TrackSplit(s: State)
    ensures Track(s) == s.sent + Packages(s.direct + s.high + s.low) + Piped(s.pipe)
  {
    hide Packages, Piped;
    PackagesConcat(s.direct, s.high);
    PackagesConcat(s.direct + s.high, s.low);
    Assoc(s.sent, Packages(s.direct), Packages(s.high));
    Assoc(s.sent, Packages(s.direct) + Packages(s.high), Packages(s.low));
  }

  // Closing waits for the lists

  /** No shutdown, no hang-up, no write error. */
  predicate Graceful(a: Action) {
    a != AskClose(true) && !a.HangUp? && !a.WriteError?
  }

  /** `force_close` is called only when nothing is left in the lists. */
  predicate Drained(s: State) {
    && Close(true) !in s.pipe && !s.phase.HalfWrite?
    && (s.socket.Freeing? || s.socket.Freed? ==> s.high == [] && s.low == [])
  }

  lemma KeepDrained(s: State, a: Action)
    requires Enabled(s, a) && Drained(s) && LockOk(s) && Graceful(a)
    ensures Drained(Apply(s, a))
  {
    hide ThreadStep, ControlStep, DataStep, Drained, LockOk;
    if ByThread(a) {
      DrainedThread(s, a);
    } else if ByControl(a) {
      SocketParts(s);
      DrainedControl(s, a);
    } else {
      DrainedData(s, a);
    }
  }

  lemma DrainedThread(s: State, a: Action)
    requires Enabled(s, a) && ByThread(a) && Drained(s)
    ensures Drained(ThreadStep(s, a))
  {
    hide LookStep;
    if a.Look? { LookFrame(s, a.t); }
  }

  lemma DrainedControl(s: State, a: Action)
    requires Enabled(s, a) && ByControl(a) && Drained(s) && Graceful(a) && (s.socket.SendLow? ==> s.high == [])
    ensures Drained(ControlStep(s, a))
  {
    hide BlockedStep;
    DrainedBlocked(s);
  }

  lemma DrainedBlocked(s: State)
    requires Drained(s)
    ensures Drained(BlockedStep(s))
  {
  }

  lemma DrainedData(s: State, a: Action)
    requires Enabled(s, a) && ByData(a) && Drained(s)
    ensures Drained(DataStep(s, a))
  {
    hide Size, Packages, WriteStep;
    if a.Serve? { assert s.pipe == [s.pipe[0]] + s.pipe[1..]; }
    if a.WriteOut? { DrainedWrite(s, a.n); }
  }

  lemma DrainedWrite(s: State, n: nat)
    requires Enabled(s, WriteOut(n)) && Drained(s)
    ensures Drained(WriteStep(s, n))
  {
  }

  lemma {:induction false} DrainedRun(s: State, run: seq<Action>, u: State)
    requires Inv(s) && Drained(s) && Leads(s, run, u) && forall a | a in run :: Graceful(a)
    ensures Drained(u)
    decreases |run|
  {
    hide Apply, Enabled, Inv, Drained, Graceful;
    if run != [] {
      LockKnown(s) by { InvBytes(s); }
      KeepDrained(s, run[0]);
      KeepInv(s, run[0]);
      DrainedRun(Apply(s, run[0]), run[1..], u);
    }
  }

  lemma InvBytes(s: State)
    requires Inv(s)
    ensures BytesOk(s) && PartialOk(s) && LockOk(s)
  {
  }

  /** Unless it is shut down, hangs up or fails, a socket is closed only once all that the socket thread accepted is
      written. */
  lemma ClosesDrained(s: State, run: seq<Action>, u: State)
    requires Initial(s) && Leads(s, run, u) && forall a | a in run :: Graceful(a)
    ensures u.socket.Freeing? ==> u.high == [] && u.low == [] && FreeStep(u).dropped == u.dropped
  {
    hide Apply, Enabled, Inv, Graceful;
    InitialInv(s);
    DrainedRun(s, run, u);
    NoMore(u.dropped);
  }

  // ... and it can always get there

  /** `u` is `s` with the list it works on shortened to `rest`, after `done` was written. */
  predicate Wrote(s: State, done: seq<Package>, rest: seq<Buf>, u: State) {
    u == s.(high := if s.socket.SendHigh? then rest else s.high, low := if s.socket.SendHigh? then s.low else rest,
            sent := s.sent + done, wire := u.wire, wbSize := u.wbSize, cut := u.cut)
  }

  lemma WritesFirst(s: State)
    requires (s.socket.SendHigh? || s.socket.SendLow?) && OffsetsOk(Head(s)) && Head(s) != []
    ensures var b := Head(s)[0];
            && b.off <= |b.p.bytes|
            && Enabled(s, WriteOut(|b.p.bytes| - b.off))
            && var v := WriteStep(s, |b.p.bytes| - b.off);
               && v.socket == s.socket && Head(v) == Head(s)[1..] && OffsetsOk(Head(v))
               && Wrote(s, [b.p], Head(s)[1..], v)
  {
    assert Head(s)[0] in Head(s) && forall c | c in Head(s)[1..] :: c in Head(s);
  }

  lemma WroteMore(s: State, done: seq<Package>, v: State, more: seq<Package>, u: State, rest: seq<Buf>)
    requires Wrote(s, done, Head(v), v) && Wrote(v, more, rest, u)
    ensures Wrote(s, done + more, rest, u)
  {
    Assoc(s.sent, done, more);
  }

  lemma WroteNothing(s: State)
    requires s.socket.SendHigh? || s.socket.SendLow?
    ensures Wrote(s, [], Head(s), s) && Packages([]) == []
  {
    NoMore(s.sent);
  }

  /** The descriptor takes all of a list. */
  lemma {:induction false} WritesAll(s: State) returns (run: seq<Action>, u: State)
    requires (s.socket.SendHigh? || s.socket.SendLow?) && OffsetsOk(Head(s))
    ensures Leads(s, run, u) && Wrote(s, Packages(Head(s)), [], u)
    decreases |Head(s)|
  {
    hide Packages, WriteStep, Wrote, Enabled, Apply;
    if Head(s) == [] {
      run, u := [], s;
      WroteNothing(s);
    } else {
      var b, rest := Head(s)[0], Head(s)[1..];
      WritesFirst(s);
      var a := WriteOut(|b.p.bytes| - b.off);
      var v := WriteStep(s, a.n);
      WriteApplies(s, a.n);
      run, u := WritesAll(v);
      run := [a] + run;
      PackagesFirst(Head(s));
      WroteMore(s, [b.p], v, Packages(rest), u, []);
    }
  }

  lemma WriteApplies(s: State, n: nat)
    requires Enabled(s, WriteOut(n))
    ensures Apply(s, WriteOut(n)) == WriteStep(s, n)
  {
    hide WriteStep;
  }

  lemma PackagesFirst(bs: seq<Buf>)
    requires bs != []
    ensures Packages(bs) == [bs[0].p] + Packages(bs[1..])
  {
  }

  /** `v` follows on `u`, which the steps lead to. */
  lemma Then(s: State, run: seq<Action>, u: State, a: Action, v: State) returns (longer: seq<Action>)
    requires Leads(s, run, u) && Enabled(u, a) && Apply(u, a) == v
    ensures Leads(s, longer, v)
  {
    hide Apply, Enabled;
    Tears.OneStep(u, a);
    Tears.LeadsOn(s, run, u, [a], v);
    longer := run + [a];
  }

  /** All that was buffered. */
  function Buffered(s: State): seq<Package> {
    Packages(s.direct) + Packages(s.high) + Packages(s.low)
  }

  /** Everything buffered is written, and the socket thread has the lock and no list left. */
  predicate AllWritten(s: State, u: State) {
    && (u.socket.SendHigh? || u.socket.SendLow?)
    && u == s.(lock := BySocket, socket := u.socket, direct := [], high := [], low := [],
               sent := s.sent + Buffered(s), wire := u.wire, wbSize := u.wbSize, cut := u.cut)
  }

  lemma FlushGives(s: State)
    requires s.socket.Waiting? && s.lock.Unlocked? && !s.phase.Invalid?
    requires OffsetsOk(s.direct) && OffsetsOk(s.high)
    ensures Enabled(s, Flush) && Apply(s, Flush) == FlushStep(s)
    ensures var u := FlushStep(s);
            && u == s.(lock := BySocket, socket := SendHigh, high := s.direct + s.high, direct := [],
                       wbSize := u.wbSize)
            && OffsetsOk(Head(u)) && Packages(Head(u)) == Packages(s.direct) + Packages(s.high)
  {
    hide Size, Packages;
    PackagesConcat(s.direct, s.high);
  }

  /** The socket thread writes all that is buffered. */
  lemma WritesBuffered(s: State) returns (run: seq<Action>, u: State)
    requires s.socket.Waiting? && s.lock.Unlocked? && !s.phase.Invalid? && PartialOk(s)
    ensures Leads(s, run, u) && AllWritten(s, u)
  {
    hide Leads, Packages, FlushStep, PartialOk, Enabled, Apply;
    assert OffsetsOk(s.direct) && OffsetsOk(s.high) && OffsetsOk(s.low) by { Offsets(s); }
    FlushGives(s);
    Tears.OneStep(s, Flush);
    var v := FlushStep(s);
    var more, w := WritesAll(v);
    Tears.LeadsOn(s, [Flush], v, more, w);
    run, u := [Flush] + more, w;
    Assoc(s.sent, Packages(s.direct) + Packages(s.high), Packages(s.low));
    if s.low == [] {
      assert Packages(s.low) == [] by { WroteNothing(v); }
      NoMore(Packages(s.direct) + Packages(s.high));
    } else {
      GoesLow(w);
      var w1 := w.(socket := SendLow);
      run := Then(s, run, w, ListDone, w1);
      var last, w2 := WritesAll(w1);
      Tears.LeadsOn(s, run, w1, last, w2);
      run, u := run + last, w2;
    }
  }

  lemma Offsets(s: State)
    requires PartialOk(s)
    ensures OffsetsOk(s.direct) && OffsetsOk(s.high) && OffsetsOk(s.low)
  {
  }

  lemma GoesLow(s: State)
    requires s.socket.SendHigh? && s.high == [] && s.low != []
    ensures Enabled(s, ListDone) && Apply(s, ListDone) == s.(socket := SendLow)
  {
  }

  /** The end of a round with nothing left, and of `force_close`. */
  lemma RoundEnds(s: State)
    requires (s.socket.SendHigh? || s.socket.SendLow?) && s.high == [] && s.low == []
    ensures Enabled(s, ListDone)
    ensures Apply(s, ListDone)
            == if s.closing then s.(socket := Freeing(true)) else s.(lock := Unlocked, socket := Waiting)
  {
  }

  lemma ForceCloses(s: State) returns (run: seq<Action>, u: State)
    requires s.socket.Freeing? && (s.socket.locked || s.lock.Unlocked?)
    ensures Leads(s, run, u) && u.phase.Invalid? && u.sent == s.sent && u.pipe == s.pipe
    ensures u.dropped == s.dropped + Packages(s.high + s.low) + Packages(s.direct)
    ensures s.direct == s.high == s.low == [] ==> u.dropped == s.dropped
  {
    hide Leads, Packages;
    Tears.OneStep(s, FreeLists);
    var v := FreeStep(s);
    u := InvalidateStep(v);
    run := Then(s, [FreeLists], v, Invalidate, u);
    if s.direct == s.high == s.low == [] {
      NoMore<Buf>([]);
      NoPackages();
      NoMore(s.dropped);
    }
  }

  lemma NoPackages()
    ensures Packages([]) == []
  {
  }

  /** Whenever the lock is free the socket thread alone can write all that is buffered and drop nothing; if the socket
      was asked to close, it is closed then. */
  lemma CanDrain(s: State, run: seq<Action>, u: State) returns (more: seq<Action>, v: State)
    requires Initial(s) && Leads(s, run, u) && u.socket.Waiting? && u.lock.Unlocked? && !u.phase.Invalid?
    ensures Leads(u, more, v)
    ensures v.sent == u.sent + Buffered(u) && v.dropped == u.dropped && v.pipe == u.pipe
    ensures if u.closing then v.phase.Invalid? else v == u.(direct := [], high := [], low := [], sent := v.sent,
                                                           wire := v.wire, wbSize := v.wbSize, cut := v.cut)
  {
    hide Leads, Initial, Packages, Enabled, Apply;
    Reachable(s, run, u);
    InvBytes(u);
    more, v := Drains(u);
  }

  lemma Drains(s: State) returns (run: seq<Action>, u: State)
    requires s.socket.Waiting? && s.lock.Unlocked? && !s.phase.Invalid? && PartialOk(s)
    ensures Leads(s, run, u)
    ensures u.sent == s.sent + Buffered(s) && u.dropped == s.dropped && u.pipe == s.pipe
    ensures if s.closing then u.phase.Invalid? else u == s.(direct := [], high := [], low := [], sent := u.sent,
                                                           wire := u.wire, wbSize := u.wbSize, cut := u.cut)
  {
    hide Leads, Packages, Enabled, Apply;
    var w: State;
    run, w := WritesBuffered(s);
    RoundEnds(w);
    if s.closing {
      var w1 := w.(socket := Freeing(true));
      run := Then(s, run, w, ListDone, w1);
      var last: seq<Action>;
      last, u := ForceCloses(w1);
      Tears.LeadsOn(s, run, w1, last, u);
      run := run + last;
    } else {
      u := w.(lock := Unlocked, socket := Waiting);
      run := Then(s, run, w, ListDone, u);
    }
  }

  /** A request to close that comes to be served ends with the socket closed. Unless it is a shutdown or writing has
      failed, all that was buffered is written first. */
  lemma CloseEnds(s: State, run: seq<Action>, u: State) returns (more: seq<Action>, v: State)
    requires Initial(s) && Leads(s, run, u) && u.socket.Waiting? && u.lock.Unlocked? && !u.phase.Invalid?
    requires u.pipe != [] && u.pipe[0].Close?
    ensures Leads(u, more, v) && v.phase.Invalid?
    ensures !u.pipe[0].shutdown && !u.phase.HalfWrite? ==> v.sent == u.sent + Buffered(u) && v.dropped == u.dropped
  {
    hide Leads, Initial, Packages, Enabled, Apply, NoMoreSending;
    Reachable(s, run, u);
    InvBytes(u);
    var w := ServeStep(u);
    Serves(u);
    Tears.OneStep(u, Serve);
    var last: seq<Action>;
    if w.socket.Freeing? {
      last, v := ForceCloses(w);
      if !u.pipe[0].shutdown && !u.phase.HalfWrite? { NothingLeft(u); }
    } else {
      ServedClose(u);
      last, v := Drains(w);
    }
    Tears.LeadsOn(u, [Serve], w, last, v);
    more := [Serve] + last;
  }

  lemma Serves(s: State)
    requires s.socket.Waiting? && s.pipe != []
    ensures Enabled(s, Serve) && Apply(s, Serve) == ServeStep(s)
  {
    hide ServeStep;
  }

  lemma NothingLeft(s: State)
    requires s.socket.Waiting? && s.pipe != [] && s.pipe[0] == Close(false) && ServeStep(s).socket.Freeing?
    requires !s.phase.HalfWrite?
    ensures s.direct == s.high == s.low == [] && s.sent + Buffered(s) == s.sent
    ensures ServeStep(s) == s.(pipe := s.pipe[1..], socket := Freeing(false))
  {
    assert Packages([]) == [];
  }

  lemma ServedClose(s: State)
    requires s.socket.Waiting? && s.pipe != [] && s.pipe[0].Close? && !ServeStep(s).socket.Freeing?
    requires PartialOk(s) && !s.phase.Invalid?
    ensures var w := ServeStep(s);
            && w.closing && w.socket.Waiting? && w.lock == s.lock && !w.phase.Invalid? && PartialOk(w)
            && w.sent == s.sent && w.dropped == s.dropped && Buffered(w) == Buffered(s)
  {
    hide Packages;
  }
}
