/** The sending model of SkynetSocket runs through the states that SkynetSocketClose gives a socket id: its steps are
    events there, so that what is proved there of SOCKET_CLOSE holds for every run of the senders. */
module SkynetSocketStates {
  import opened Common
  import opened SkynetSocket
  import Life = SkynetSocketClose

  /** A socket in `force_close` counts as invalid. */
  function SlotOf(s: State): Life.Slot {
    var kind :=
      if s.socket.Freeing? || s.socket.Freed? then Life.Invalid else
      match s.phase
      case Connected => Life.Connected
      case HalfRead => Life.HalfRead
      case HalfWrite => Life.HalfWrite
      case Invalid => Life.Invalid;
    Life.Slot(kind, s.closing)
  }

  /** Nothing is left to send. */
  predicate Idling(s: State) {
    s.high == [] && s.low == [] && s.direct == [] && s.sending == 0
  }

  /** The event that a step is for the life of the id, if it is one. */
  function EventOf(s: State, a: Action): Option<Life.Event>
    requires Enabled(s, a)
  {
    match a
    case Serve =>
      (match s.pipe[0]
       case Close(shutdown) => Some(Life.CloseRequest(shutdown, Idling(s)))
       case _ => None)
    case RemoteClosed => Some(Life.Readable(Life.GotEnd, Idling(s)))
    case HangUp => Some(Life.HangUp)
    case WriteError => Some(Life.Writable(Life.SendFailed))
    case ListDone => if s.high == [] && s.low == [] then Some(Life.Writable(Life.SentAll(false, true))) else None
    case _ => None
  }

  /** Each step does to the slot what its event does, and nothing if it is none. */
  predicate Follows(s: State, a: Action, u: State)
    requires Enabled(s, a)
  {
    match EventOf(s, a)
    case None => SlotOf(u) == SlotOf(s)
    case Some(e) => Life.Fits(SlotOf(s), e) && SlotOf(u) == Life.Serve(SlotOf(s), e).0
  }

  /** While the socket thread works on the lists the socket is not invalid. */
  predicate Working(s: State) {
    s.socket.SendHigh? || s.socket.SendLow? || s.socket.LowEnd? ==> !s.phase.Invalid?
  }

  lemma StepFollows(s: State, a: Action)
    requires Enabled(s, a) && LockOk(s) && Working(s)
    ensures Follows(s, a, Apply(s, a)) && Working(Apply(s, a))
  {
    hide ThreadStep, ControlStep, DataStep, Follows, Working, LockOk;
    if ByThread(a) {
      ThreadFollows(s, a);
    } else if ByControl(a) {
      SocketParts(s);
      ControlFollows(s, a);
    } else {
      DataFollows(s, a);
    }
  }

  lemma ThreadFollows(s: State, a: Action)
    requires Enabled(s, a) && ByThread(a) && Working(s)
    ensures Follows(s, a, ThreadStep(s, a)) && Working(ThreadStep(s, a))
  {
    hide ThreadStep;
    ThreadKeeps(s, a);
  }

  lemma ThreadKeeps(s: State, a: Action)
    requires Enabled(s, a) && ByThread(a)
    ensures var u := ThreadStep(s, a); u.phase == s.phase && u.socket == s.socket && u.closing == s.closing
  {
    hide LookStep;
    if a.Look? { LookFrame(s, a.t); }
  }

  lemma ControlFollows(s: State, a: Action)
    requires Enabled(s, a) && ByControl(a) && Working(s) && (s.socket.SendLow? ==> s.high == [])
    ensures Follows(s, a, ControlStep(s, a)) && Working(ControlStep(s, a))
  {
    hide BlockedStep, ErrorStep, EndLowStep;
    SendingFollows(s, a);
  }

  lemma SendingFollows(s: State, a: Action)
    requires Enabled(s, a) && Working(s)
    ensures a.Blocked? ==> Follows(s, a, BlockedStep(s)) && Working(BlockedStep(s))
    ensures a.WriteError? ==> Follows(s, a, ErrorStep(s)) && Working(ErrorStep(s))
    ensures a.EndLow? ==> Follows(s, a, EndLowStep(s)) && Working(EndLowStep(s))
  {
  }

  lemma DataFollows(s: State, a: Action)
    requires Enabled(s, a) && ByData(a) && Working(s)
    ensures Follows(s, a, DataStep(s, a)) && Working(DataStep(s, a))
  {
    hide Size, Packages, WriteStep, ServeStep;
    if a.Serve? { ServeFollows(s); }
    if a.WriteOut? { WriteFollows(s, a.n); }
  }

  lemma WriteFollows(s: State, n: nat)
    requires Enabled(s, WriteOut(n)) && Working(s)
    ensures Follows(s, WriteOut(n), WriteStep(s, n)) && Working(WriteStep(s, n))
  {
  }

  lemma ServeFollows(s: State)
    requires Enabled(s, Serve) && Working(s)
    ensures Follows(s, Serve, ServeStep(s)) && Working(ServeStep(s))
  {
  }

  function Events(s: State, run: seq<Action>, u: State): seq<Life.Event>
    requires Leads(s, run, u)
    decreases |run|
  {
    if run == [] then []
    else
      var rest := Events(Apply(s, run[0]), run[1..], u);
      match EventOf(s, run[0])
      case None => rest
      case Some(e) => [e] + rest
  }

  lemma {:induction false} RunFollows(s: State, run: seq<Action>, u: State)
    requires LockOk(s) && Working(s) && Leads(s, run, u)
    ensures Life.Possible(SlotOf(s), Events(s, run, u))
    ensures Life.After(SlotOf(s), Events(s, run, u)) == SlotOf(u)
    decreases |run|
  {
    hide Apply, Enabled, LockOk, Working, SlotOf, EventOf;
    if run != [] {
      StepFollows(s, run[0]);
      KeepLock(s, run[0]);
      RunFollows(Apply(s, run[0]), run[1..], u);
      var rest := Events(Apply(s, run[0]), run[1..], u);
      if EventOf(s, run[0]).Some? { assert ([EventOf(s, run[0]).value] + rest)[1..] == rest; }
    }
  }

  /** Along every run of senders, closes, errors and hang-ups SOCKET_CLOSE is raised at most once, and has been raised
      exactly if the socket cannot be read any more. */
  lemma ClosedOnce(s: State, run: seq<Action>, u: State)
    requires Initial(s) && Leads(s, run, u)
    ensures Life.Possible(SlotOf(s), Events(s, run, u))
    ensures Life.Closes(SlotOf(s), Events(s, run, u))
            == if u.phase.HalfRead? || u.phase.Invalid? || u.socket.Freeing? || u.socket.Freed? then 1 else 0
  {
    hide Apply, Enabled, Leads;
    InitialInv(s);
    RunFollows(s, run, u);
    Life.CloseOnce(SlotOf(s), Events(s, run, u));
  }
}
