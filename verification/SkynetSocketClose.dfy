/** The life of one socket id in skynet's socket server, from its reservation until the slot is invalid: which messages
    the socket thread raises, and in particular that SOCKET_CLOSE is raised at most once. */
module SkynetSocketClose {

  datatype Kind =
    | Reserved | PreListen | Listening | Connecting | Connected | HalfRead | HalfWrite | PreAccept | Bound | Invalid

  datatype Message = Nothing | Opened | Closed | Error | Data | Warning | Accepted

  datatype Slot = Slot(kind: Kind, closing: bool)

  /** Commands and events the socket thread serves, with what the environment answers: whether data is still to be sent
      (`idle`: there is none, apart from the half-closed case), and whether system calls succeed. */
  datatype Event =
    | Open(ok: bool, now: bool)             // open_socket: connected now, or later
    | ListenOn(ok: bool)                    // listen_socket
    | BindTo(ok: bool)                      // bind_socket
    | Adopt(ok: bool)                       // the slot of an accepted connection
    | Resume(ok: bool)                      // resume_socket
    | Pause(ok: bool)                       // pause_socket
    | CloseRequest(shutdown: bool, idle: bool)
    | Writable(outcome: Sent)               // send_buffer
    | Readable(n: Got, idle: bool)          // forward_message_tcp
    | ErrorEvent
    | HangUp
    | Connection(ok: bool)                  // report_connect
    | Incoming(result: int)                 // report_accept

  datatype Sent = SentSome | SentAll(warned: bool, disabled: bool) | SendFailed

  datatype Got = GotNothing | GotError | GotEnd | GotData

  /** `nomore_sending_data`. */
  predicate NoMore(s: Slot, idle: bool) {
    idle || s.kind.HalfWrite?
  }

  /** `close_write`. */
  function CloseWrite(s: Slot): (Slot, Message) {
    if s.closing || s.kind.HalfRead? then (s.(kind := Invalid), Nothing)
    else if s.kind.HalfWrite? then (s, Nothing)
    else (s.(kind := HalfWrite), Error)
  }

  /** `close_socket` on a valid slot. */
  function Closing(s: Slot, shutdown: bool, idle: bool): (Slot, Message) {
    if shutdown || NoMore(s, idle) then (s.(kind := Invalid), if s.kind.HalfRead? then Nothing else Closed)
    else if s.kind.HalfRead? then (s.(closing := true), Nothing)
    else (Slot(HalfRead, true), Closed)
  }

  function Reading(s: Slot, n: Got, idle: bool): (Slot, Message) {
    match n
    case GotNothing => (s, Nothing)
    case GotError => (s, Error)
    case GotData => (s, if s.kind.HalfRead? then Nothing else Data)
    case GotEnd =>
      if s.closing then (if NoMore(s, idle) then s.(kind := Invalid) else s, Nothing)
      else if s.kind.HalfRead? then (s, Nothing)
      else if s.kind.HalfWrite? then (s.(kind := Invalid), Closed)
      else (s.(kind := HalfRead), Closed)
  }

  function Writing(s: Slot, outcome: Sent): (Slot, Message) {
    match outcome
    case SentSome => (s, Nothing)
    case SendFailed => CloseWrite(s)
    case SentAll(warned, disabled) =>
      if s.closing then (s.(kind := Invalid), Nothing)
      else (s, if !disabled then Error else if warned then Warning else Nothing)
  }

  function Resuming(s: Slot, ok: bool): (Slot, Message) {
    if s.kind.HalfRead? || !ok then (s, Error)
    else if s.kind.PreAccept? then (s.(kind := Connected), Opened)
    else if s.kind.PreListen? then (s.(kind := Listening), Opened)
    else if s.kind.Connected? then (s, Opened)
    else (s, Nothing)
  }

  /** Events that find a slot in the state they need; the event loop serves a connecting or listening socket apart. */
  predicate Fits(s: Slot, e: Event) {
    match e
    case Open(_, _) => s.kind.Reserved?
    case ListenOn(_) => s.kind.Reserved?
    case BindTo(_) => s.kind.Reserved?
    case Adopt(_) => s.kind.Reserved?
    case Connection(_) => s.kind.Connecting?
    case Incoming(_) => s.kind.Listening?
    case Resume(_) => !s.kind.Reserved?
    case Pause(_) => !s.kind.Reserved?
    case CloseRequest(_, _) => !s.kind.Reserved?
    case _ => !s.kind.Reserved? && !s.kind.Invalid? && !s.kind.Connecting? && !s.kind.Listening?
  }

  function Serve(s: Slot, e: Event): (Slot, Message)
    requires Fits(s, e)
  {
    match e
    case Open(ok, now) =>
      if !ok then (s.(kind := Invalid), Error) else if now then (s.(kind := Connected), Opened)
        else (s.(kind := Connecting), Nothing)
    case ListenOn(ok) => if ok then (s.(kind := PreListen), Opened) else (s.(kind := Invalid), Error)
    case BindTo(ok) => if ok then (s.(kind := Bound), Opened) else (s.(kind := Invalid), Error)
    case Adopt(ok) => if ok then (s.(kind := PreAccept), Nothing) else (s.(kind := Invalid), Nothing)
    case Resume(ok) => if s.kind.Invalid? then (s, Error) else Resuming(s, ok)
    case Pause(ok) => (s, if s.kind.Invalid? || ok then Nothing else Error)
    case CloseRequest(shutdown, idle) => if s.kind.Invalid? then (s, Nothing) else Closing(s, shutdown, idle)
    case Writable(outcome) => Writing(s, outcome)
    case Readable(n, idle) => Reading(s, n, idle)
    case ErrorEvent => (s, Error)
    case HangUp => (s.(kind := Invalid), if s.kind.HalfRead? then Nothing else Closed)
    case Connection(ok) => if ok then (s.(kind := Connected), Opened) else (s.(kind := Invalid), Error)
    case Incoming(result) => (s, if result > 0 then Accepted else if result < 0 then Error else Nothing)
  }

  // Runs

  predicate Possible(s: Slot, events: seq<Event>)
    decreases |events|
  {
    events == [] || (Fits(s, events[0]) && Possible(Serve(s, events[0]).0, events[1..]))
  }

  function After(s: Slot, events: seq<Event>): Slot
    requires Possible(s, events)
    decreases |events|
  {
    if events == [] then s else After(Serve(s, events[0]).0, events[1..])
  }

  function Closes(s: Slot, events: seq<Event>): nat
    requires Possible(s, events)
    decreases |events|
  {
    if events == [] then 0
    else (if Serve(s, events[0]).1.Closed? then 1 else 0) + Closes(Serve(s, events[0]).0, events[1..])
  }

  /** While a slot is valid: it was closed exactly if it is half closed for reading; a slot told to close is that. */
  predicate Sound(s: Slot) {
    s.closing ==> s.kind.HalfRead? || s.kind.Invalid?
  }

  /** How many closes may still come. */
  function Left(s: Slot): nat {
    if s.kind.HalfRead? || s.kind.Invalid? then 0 else 1
  }

  /** The id is past its reservation and past connecting, where failures are reported as errors alone. */
  predicate Established(s: Slot) {
    !s.kind.Reserved? && !s.kind.Connecting?
  }

  lemma ServeSound(s: Slot, e: Event)
    requires Fits(s, e) && Sound(s)
    ensures var (u, m) := Serve(s, e);
            && Sound(u)
            && Left(u) + (if m.Closed? then 1 else 0) <= Left(s)
            && (Established(s) ==> Established(u) && Left(u) + (if m.Closed? then 1 else 0) == Left(s))
            && (u.kind.HalfRead? && !s.kind.HalfRead? ==> m.Closed?)
            && (s.kind.HalfRead? ==> u.kind.HalfRead? || u.kind.Invalid?)
            && (s.kind.Invalid? ==> u.kind.Invalid?)
  {
  }

  /** SOCKET_CLOSE is raised at most once for an id, whatever commands, reads, writes, errors and hang-ups come in what
      order; and exactly once if the id was established and can be read no more. A socket that is half closed for
      reading has raised it, and only becomes invalid. */
  lemma {:induction false} CloseOnce(s: Slot, events: seq<Event>)
    requires Sound(s) && Possible(s, events)
    ensures Sound(After(s, events))
    ensures Established(s) ==> Closes(s, events) + Left(After(s, events)) == Left(s)
    ensures Closes(s, events) + Left(After(s, events)) <= Left(s)
    ensures After(s, events).kind.HalfRead? && !s.kind.HalfRead? ==> Closes(s, events) == 1
    ensures s.kind.HalfRead? ==> After(s, events).kind.HalfRead? || After(s, events).kind.Invalid?
    decreases |events|
  {
    if events != [] {
      ServeSound(s, events[0]);
      CloseOnce(Serve(s, events[0]).0, events[1..]);
    }
  }

  lemma FromReservation(events: seq<Event>)
    requires Possible(Slot(Reserved, false), events)
    ensures Closes(Slot(Reserved, false), events) <= 1
  {
    CloseOnce(Slot(Reserved, false), events);
  }

  /** Why a slot becomes invalid: the id could not be opened; the other side hung up; a request to close when nothing is
      left to send, or it is a shutdown, or nothing can be sent; everything is sent after such a request; reading ends
      when writing has, or writing when reading has. */
  predicate Ends(s: Slot, e: Event) {
    match e
    case Open(ok, _) => !ok
    case ListenOn(ok) => !ok
    case BindTo(ok) => !ok
    case Adopt(ok) => !ok
    case Connection(ok) => !ok
    case HangUp => true
    case CloseRequest(shutdown, idle) => shutdown || idle || s.kind.HalfWrite?
    case Writable(outcome) => (outcome.SentAll? && s.closing) || (outcome.SendFailed? && s.kind.HalfRead?)
    case Readable(n, idle) => n.GotEnd? && (s.kind.HalfWrite? || (s.closing && idle))
    case _ => false
  }

  /** ... and for no other reason. What does not end the slot closes one of its directions. */
  lemma EndsExactly(s: Slot, e: Event)
    requires Fits(s, e) && Sound(s) && !s.kind.Invalid?
    ensures Serve(s, e).0.kind.Invalid? <==> Ends(s, e)
    ensures e.CloseRequest? && !Ends(s, e) ==> Serve(s, e).0 == Slot(HalfRead, true)
    ensures e.Readable? && e.n.GotEnd? && !Ends(s, e) ==> Serve(s, e).0 == Slot(HalfRead, s.closing)
    ensures e.Writable? && e.outcome.SendFailed? && !Ends(s, e) ==> Serve(s, e).0 == Slot(HalfWrite, s.closing)
    ensures e.Writable? && e.outcome.SendFailed? ==>
              (Serve(s, e).1.Error? <==> !s.kind.HalfRead? && !s.kind.HalfWrite?)
  {
  }

  /** A request to close a socket that can still be read raises SOCKET_CLOSE at once, whether or not data is still to be
      sent. */
  lemma CloseRaises(s: Slot, shutdown: bool, idle: bool)
    requires Fits(s, CloseRequest(shutdown, idle)) && Sound(s) && !s.kind.Invalid?
    ensures Serve(s, CloseRequest(shutdown, idle)).1.Closed? <==> !s.kind.HalfRead?
  {
    if Established(s) { ServeSound(s, CloseRequest(shutdown, idle)); }
  }

  /** Each message, and exactly the events that raise it. */
  lemma MessagesExactly(s: Slot, e: Event)
    requires Fits(s, e) && Sound(s)
    ensures var m := Serve(s, e).1;
            && (m.Opened? <==>
                  || (e.Open? && e.ok && e.now) || ((e.ListenOn? || e.BindTo? || e.Connection?) && e.ok)
                  || (e.Resume? && e.ok && (s.kind.PreAccept? || s.kind.PreListen? || s.kind.Connected?)))
            && (m.Accepted? <==> e.Incoming? && e.result > 0)
            && (m.Data? <==> e.Readable? && e.n.GotData? && Left(s) == 1)
            && (m.Closed? <==> (e.HangUp? || e.CloseRequest? || (e.Readable? && e.n.GotEnd?)) && Left(s) == 1)
            && (m.Warning? <==> e == Writable(SentAll(true, true)) && !s.closing)
            && (m.Error? <==>
                  || ((e.Open? || e.ListenOn? || e.BindTo? || e.Connection?) && !e.ok)
                  || (e.Resume? && (!e.ok || Left(s) == 0)) || (e.Pause? && !e.ok && !s.kind.Invalid?)
                  || e.ErrorEvent? || (e.Incoming? && e.result < 0) || (e.Readable? && e.n.GotError?)
                  || (e.Writable? && e.outcome.SendFailed? && Left(s) == 1 && !s.kind.HalfWrite?)
                  || (e.Writable? && e.outcome.SentAll? && !e.outcome.disabled && !s.closing))
  {
  }

  /** How a slot comes to be open: what it was and the event give what it is. */
  lemma OpensExactly(s: Slot, e: Event)
    requires Fits(s, e) && Sound(s) && !Ends(s, e)
    ensures var u := Serve(s, e).0;
            && (e.Open? ==> u.kind == if e.now then Connected else Connecting)
            && (e.Connection? ==> u.kind.Connected?)
            && (e.ListenOn? ==> u.kind.PreListen?) && (e.BindTo? ==> u.kind.Bound?) && (e.Adopt? ==> u.kind.PreAccept?)
            && (s.kind.PreListen? && e.Resume? && e.ok <==> s.kind.PreListen? && u.kind.Listening?)
            && (s.kind.PreAccept? && e.Resume? && e.ok <==> s.kind.PreAccept? && u.kind.Connected?)
            && (e.Pause? || e.ErrorEvent? || e.Incoming? ==> u == s)
            && (e.Resume? && !s.kind.PreAccept? && !s.kind.PreListen? ==> u == s)
            && (e.Writable? && !e.outcome.SendFailed? ==> u == s)
            && (e.Readable? && !e.n.GotEnd? ==> u == s)
            && (!e.CloseRequest? ==> u.closing == s.closing)
  {
  }

  function DataRaised(s: Slot, events: seq<Event>): nat
    requires Possible(s, events)
    decreases |events|
  {
    if events == [] then 0
    else (if Serve(s, events[0]).1.Data? then 1 else 0) + DataRaised(Serve(s, events[0]).0, events[1..])
  }

  /** Once SOCKET_CLOSE was raised nothing that is read is passed on. */
  lemma {:induction false} NoDataAfterClose(s: Slot, events: seq<Event>)
    requires Sound(s) && Possible(s, events) && Left(s) == 0
    ensures DataRaised(s, events) == 0
    decreases |events|
  {
    if events != [] {
      ServeSound(s, events[0]);
      NoDataAfterClose(Serve(s, events[0]).0, events[1..]);
    }
  }

  // The socket thread's routines, which update the slot in place

  class Socket {
    var kind: Kind
    var closing: bool

    function State(): Slot
      reads this
    {
      Slot(kind, closing)
    }

    method ForceClose()
      modifies this`kind
      ensures kind.Invalid?
    {
      if kind.Invalid? {
        return;
      }
      kind := Invalid;
    }

    method CloseRead()
      modifies this`kind
      ensures kind.HalfRead?
    {
      kind := HalfRead;
    }

    method CloseWriting() returns (m: Message)
      modifies this`kind
      ensures (State(), m) == CloseWrite(old(State()))
    {
      if closing {
        ForceClose();
        return Nothing;
      }
      if kind.HalfRead? {
        ForceClose();
        return Nothing;
      }
      if kind.HalfWrite? {
        return Nothing;
      }
      kind := HalfWrite;
      return Error;
    }

    method CloseSocket(shutdown: bool, idle: bool) returns (m: Message)
      requires !kind.Invalid?
      modifies this
      ensures (State(), m) == Closing(old(State()), shutdown, idle)
    {
      var shutdownRead := kind.HalfRead?;
      if shutdown || NoMore(State(), idle) {
        ForceClose();
        return if shutdownRead then Nothing else Closed;
      }
      closing := true;
      if !shutdownRead {
        CloseRead();
        return Closed;
      }
      return Nothing;
    }

    method ForwardMessage(n: Got, idle: bool) returns (m: Message)
      modifies this
      ensures (State(), m) == Reading(old(State()), n, idle)
    {
      match n {
        case GotNothing => return Nothing;
        case GotError => return Error;
        case GotEnd =>
          if closing {
            if NoMore(State(), idle) {
              ForceClose();
            }
            return Nothing;
          }
          if kind.HalfRead? {
            return Nothing;
          }
          if kind.HalfWrite? {
            ForceClose();
          } else {
            CloseRead();
          }
          return Closed;
        case GotData =>
          if kind.HalfRead? {
            return Nothing;
          }
          return Data;
      }
    }

    method ResumeSocket(ok: bool) returns (m: Message)
      requires !kind.Invalid?
      modifies this`kind
      ensures (State(), m) == Resuming(old(State()), ok)
    {
      if kind.HalfRead? {
        return Error;
      }
      if !ok {
        return Error;
      }
      if kind.PreAccept? || kind.PreListen? {
        kind := if kind.PreAccept? then Connected else Listening;
        return Opened;
      } else if kind.Connected? {
        return Opened;
      }
      return Nothing;
    }

    method SendBuffer(outcome: Sent) returns (m: Message)
      modifies this`kind
      ensures (State(), m) == Writing(old(State()), outcome)
    {
      match outcome {
        case SentSome => return Nothing;
        case SendFailed => m := CloseWriting();
        case SentAll(warned, disabled) =>
          if closing {
            ForceClose();
            return Nothing;
          }
          if !disabled {
            return Error;
          }
          return if warned then Warning else Nothing;
      }
    }
  }
}
