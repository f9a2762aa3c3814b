/** Sending on one open TCP socket of skynet's socket server: any number of worker threads that write directly or
    queue a command, and the socket thread that serves the commands and the two lists. Every read of a shared field,
    every write to the file descriptor and every pipe operation is a step; steps of the threads interleave freely. */
module SkynetSocket {
  import opened Common

  /** A package of thread `owner`, its `num`-th. */
  datatype Package = Package(owner: nat, num: nat, high: bool, bytes: seq<Byte>)

  /** An element of a list: `off` bytes are already written. */
  datatype Buf = Buf(p: Package, off: nat)

  datatype Command = Send(p: Package) | Trigger | Close(shutdown: bool)

  /** Fields a worker reads in `can_direct_write`, in order. */
  datatype Field = HighHead | LowHead | DirectBuffer | SendingRef | Type

  datatype Worker =
    | Idle
    | First(p: Package, field: Field)     // first can_direct_write, about to read `field`
    | Trying(p: Package)                  // about to try the lock
    | Second(p: Package, field: Field)    // second can_direct_write, with the lock
    | Ready(p: Package)                   // both passed, with the lock
    | Waking                              // wrote a part, about to ask for write events
    | Counting(p: Package)                // about to count the package in `sending`
    | Queueing(p: Package)                // about to put the command into the pipe

  /** What the socket thread is doing. */
  datatype Socket =
    | Waiting
    | Uncounting                          // served a send command, about to decrement `sending`
    | SendHigh | SendLow | LowEnd         // in send_buffer, with the lock
    | Freeing(locked: bool)               // in force_close
    | Freed(locked: bool)

  datatype Lock = Unlocked | ByWorker(t: nat) | BySocket

  datatype Phase = Connected | HalfRead | HalfWrite | Invalid

  /** `wire`: the bytes the descriptor took. History: `sent`, the packages written completely, in order; `dropped`,
      those freed unsent; `cut`, the bytes written of the package under way; `lost`: that package was freed half
      written; `torn`: more was written after that. */
  datatype State = State(
    workers: seq<Worker>, nums: seq<nat>, pipe: seq<Command>, sending: nat,
    high: seq<Buf>, low: seq<Buf>, direct: seq<Buf>, wbSize: int, lock: Lock, socket: Socket, phase: Phase,
      closing: bool,
    wire: seq<Byte>, sent: seq<Package>, dropped: seq<Package>, cut: seq<Byte>, lost: bool, torn: bool)

  datatype Action =
    | Begin(t: nat, high: bool, bytes: seq<Byte>)   // socket_server_send, socket_server_send_lowpriority
    | Look(t: nat)                                  // read one field
    | TryLock(t: nat)
    | DirectWrite(t: nat, n: nat)
    | Count(t: nat)                                 // inc_sending_ref
    | Enqueue(t: nat)                               // send_request of the package
    | Wake(t: nat)                                  // send_request 'W'
    | AskClose(shutdown: bool)                      // send_request 'K'
    | Serve                                         // ctrl_cmd
    | Uncount                                       // dec_sending_ref
    | Flush                                         // send_buffer takes the lock and the direct buffer
    | WriteOut(n: nat)                              // one write of send_list_tcp
    | Blocked                                       // it would block
    | WriteError                                    // it fails: close_write
    | ListDone                                      // the list is empty
    | EndLow                                        // raise_uncomplete, if need be
    | RemoteClosed                                  // recv 0: forward_message_tcp
    | HangUp                                        // eof event
    | FreeLists                                     // force_close frees the lists, without the lock
    | Invalidate                                    // and the rest, with it

  // The steps

  const MAX_SENDING: nat := 0xffff

  function Next(field: Field): Field {
    match field
    case HighHead => LowHead
    case LowHead => DirectBuffer
    case DirectBuffer => SendingRef
    case _ => Type
  }

  /** What the reader wants to see in `field`. */
  predicate Clear(s: State, field: Field) {
    match field
    case HighHead => s.high == []
    case LowHead => s.low == []
    case DirectBuffer => s.direct == []
    case SendingRef => s.sending == 0
    case Type => s.phase.Connected?
  }

  predicate NoMoreSending(s: State) {
    (s.high == [] && s.low == [] && s.direct == [] && s.sending == 0) || s.phase.HalfWrite?
  }

  predicate ByThread(a: Action) {
    a.Begin? || a.Look? || a.TryLock? || a.DirectWrite? || a.Count? || a.Enqueue? || a.Wake?
  }

  predicate ByControl(a: Action) {
    a.AskClose? || a.Uncount? || a.Blocked? || a.WriteError? || a.ListDone? || a.EndLow? || a.RemoteClosed? || a.HangUp?
  }

  predicate ByData(a: Action) {
    a.Serve? || a.Flush? || a.WriteOut? || a.FreeLists? || a.Invalidate?
  }

  predicate Enabled(s: State, a: Action) {
    && (ByThread(a) ==> a.t < |s.workers| == |s.nums|)
    && match a
       case Begin(t, _, _) => s.workers[t].Idle?
       case Look(t) => s.workers[t].First? || s.workers[t].Second?
       case TryLock(t) => s.workers[t].Trying?
       case DirectWrite(t, n) => s.workers[t].Ready? && n <= |s.workers[t].p.bytes|
       case Count(t) => s.workers[t].Counting? && s.sending < MAX_SENDING
       case Enqueue(t) => s.workers[t].Queueing?
       case Wake(t) => s.workers[t].Waking?
       case AskClose(_) => true
       case Serve => s.socket.Waiting? && s.pipe != []
       case Uncount => s.socket.Uncounting?
       case Flush => s.socket.Waiting? && s.lock.Unlocked? && !s.phase.Invalid?
       case WriteOut(n) => Head(s) != [] && Head(s)[0].off + n <= |Head(s)[0].p.bytes|
       case Blocked => Head(s) != []
       case WriteError => Head(s) != []
       case ListDone => (s.socket.SendHigh? && s.high == []) || (s.socket.SendLow? && s.low == [])
       case EndLow => s.socket.LowEnd?
       case RemoteClosed => s.socket.Waiting? && !s.phase.Invalid?
       case HangUp => s.socket.Waiting? && !s.phase.Invalid?
       case FreeLists => s.socket.Freeing?
       case Invalidate => s.socket.Freed? && (s.socket.locked || s.lock.Unlocked?)
  }

  /** The list that `send_list_tcp` works on. */
  function Head(s: State): seq<Buf> {
    if s.socket.SendHigh? then s.high else if s.socket.SendLow? then s.low else []
  }

  function Go(s: State, t: nat, w: Worker): State
    requires t < |s.workers|
  {
    s.(workers := s.workers[t := w])
  }

  predicate InFlight(w: Worker) {
    w.First? || w.Trying? || w.Second? || w.Ready? || w.Counting? || w.Queueing?
  }

  /** Where a look leads a thread, if the field is clear and if it is not. */
  function Looked(w: Worker, clear: bool): (v: Worker)
    requires w.First? || w.Second?
    ensures InFlight(v) && !v.Queueing? && v.p == w.p
  {
    if !clear then Counting(w.p)
    else if w.First? then (if w.field.Type? then Trying(w.p) else First(w.p, Next(w.field)))
    else if w.field.Type? then Ready(w.p) else Second(w.p, Next(w.field))
  }

  /** A thread that has the lock and does not find what it wants gives it back. */
  function LookStep(s: State, t: nat): State
    requires t < |s.workers| && (s.workers[t].First? || s.workers[t].Second?)
  {
    var w := s.workers[t];
    var clear := Clear(s, w.field);
    s.(workers := s.workers[t := Looked(w, clear)], lock := if w.Second? && !clear then Unlocked else s.lock)
  }

  function BeginStep(s: State, t: nat, high: bool, bytes: seq<Byte>): State
    requires t < |s.workers| == |s.nums|
  {
    var p := Package(t, s.nums[t], high, bytes);
    var s1 := s.(nums := s.nums[t := s.nums[t] + 1]);
    if s.phase.Invalid? || (high && s.closing) then s1.(dropped := s.dropped + [p])
    else Go(s1, t, if high then First(p, HighHead) else Counting(p))
  }

  function DirectStep(s: State, t: nat, n: nat): State
    requires t < |s.workers| && s.workers[t].Ready? && n <= |s.workers[t].p.bytes|
  {
    var p := s.workers[t].p;
    var s1 := s.(lock := Unlocked, wire := s.wire + p.bytes[..n], torn := s.torn || (s.lost && n > 0));
    if n == |p.bytes| then Go(s1, t, Idle).(sent := s.sent + [p])
    else Go(s1, t, Waking).(direct := [Buf(p, n)], cut := if s.lost then s.cut else p.bytes[..n])
  }

  /** `send_socket` for a package. */
  function AppendStep(s: State, p: Package): State {
    if s.phase.Invalid? || s.phase.HalfWrite? || s.closing then s.(dropped := s.dropped + [p])
    else if (s.high == [] && s.low == []) || p.high then
      s.(high := s.high + [Buf(p, 0)], wbSize := s.wbSize + |p.bytes|)
    else s.(low := s.low + [Buf(p, 0)], wbSize := s.wbSize + |p.bytes|)
  }

  /** `close_socket`. */
  function CloseStep(s: State, shutdown: bool): State {
    if s.phase.Invalid? then s
    else if shutdown || NoMoreSending(s) then s.(socket := Freeing(false))
    else s.(closing := true, phase := HalfRead)
  }

  function ServeStep(s: State): State
    requires s.pipe != []
  {
    var s1 := s.(pipe := s.pipe[1..]);
    match s.pipe[0]
    case Send(p) => AppendStep(s1, p).(socket := Uncounting)
    case Trigger => s1
    case Close(shutdown) => CloseStep(s1, shutdown)
  }

  function FlushStep(s: State): State {
    s.(lock := BySocket, socket := SendHigh, high := s.direct + s.high, direct := [],
       wbSize := s.wbSize + Size(s.direct))
  }

  function Size(bs: seq<Buf>): int {
    if bs == [] then 0 else |bs[0].p.bytes| - bs[0].off + Size(bs[1..])
  }

  /** One write to the descriptor took `n` bytes. */
  function WriteStep(s: State, n: nat): State
    requires Head(s) != [] && Head(s)[0].off + n <= |Head(s)[0].p.bytes|
  {
    var b := Head(s)[0];
    var s1 := s.(wire := s.wire + b.p.bytes[b.off..b.off + n], wbSize := s.wbSize - n);
    if b.off + n == |b.p.bytes| then
      var s2 := s1.(sent := s.sent + [b.p], cut := []);
      if s.socket.SendHigh? then s2.(high := s.high[1..]) else s2.(low := s.low[1..])
    else
      var c := b.(off := b.off + n);
      var s2 := s1.(cut := b.p.bytes[..b.off + n]);
      if s.socket.SendHigh? then s2.(high := [c] + s.high[1..], lock := Unlocked, socket := Waiting)
      else s2.(low := [c] + s.low[1..], socket := LowEnd)
  }

  function BlockedStep(s: State): State {
    if s.socket.SendHigh? then s.(lock := Unlocked, socket := Waiting) else s.(socket := LowEnd)
  }

  /** `close_write`. */
  function ErrorStep(s: State): State {
    if s.closing || s.phase.HalfRead? then s.(socket := Freeing(true))
    else s.(phase := HalfWrite, lock := Unlocked, socket := Waiting)
  }

  function ListDoneStep(s: State): State {
    if s.socket.SendHigh? && s.low != [] then s.(socket := SendLow)
    else if s.closing then s.(socket := Freeing(true))
    else s.(lock := Unlocked, socket := Waiting)
  }

  /** The low list could not be sent completely: a package written in part goes to the high list. */
  function EndLowStep(s: State): State {
    var s1 := s.(lock := Unlocked, socket := Waiting);
    if s.low != [] && s.low[0].off > 0 then s1.(high := [s.low[0]], low := s.low[1..]) else s1
  }

  function RemoteClosedStep(s: State): State {
    if s.closing then (if NoMoreSending(s) then s.(socket := Freeing(false)) else s)
    else if s.phase.HalfRead? then s
    else if s.phase.HalfWrite? then s.(socket := Freeing(false))
    else s.(phase := HalfRead)
  }

  function FreeStep(s: State): State
    requires s.socket.Freeing?
  {
    s.(high := [], low := [], dropped := s.dropped + Packages(s.high + s.low), socket := Freed(s.socket.locked),
       lost := s.lost || exists b :: b in s.high + s.low && b.off > 0)
  }

  function InvalidateStep(s: State): State {
    s.(phase := Invalid, direct := [], dropped := s.dropped + Packages(s.direct), lock := Unlocked, socket := Waiting,
       lost := s.lost || exists b :: b in s.direct && b.off > 0)
  }

  function Packages(bs: seq<Buf>): (ps: seq<Package>)
    ensures |ps| == |bs| && forall i | 0 <= i < |bs| :: ps[i] == bs[i].p
  {
    seq(|bs|, i requires 0 <= i < |bs| => bs[i].p)
  }

  function ThreadStep(s: State, a: Action): State
    requires Enabled(s, a) && ByThread(a)
  {
    match a
    case Begin(t, high, bytes) => BeginStep(s, t, high, bytes)
    case Look(t) => LookStep(s, t)
    case TryLock(t) =>
      var p := s.workers[t].p;
      if s.lock.Unlocked? then Go(s, t, Second(p, HighHead)).(lock := ByWorker(t)) else Go(s, t, Counting(p))
    case DirectWrite(t, n) => DirectStep(s, t, n)
    case Count(t) => Go(s, t, Queueing(s.workers[t].p)).(sending := s.sending + 1)
    case Enqueue(t) => Go(s, t, Idle).(pipe := s.pipe + [Send(s.workers[t].p)])
    case Wake(t) => Go(s, t, Idle).(pipe := s.pipe + [Trigger])
  }

  function ControlStep(s: State, a: Action): State
    requires Enabled(s, a) && ByControl(a)
  {
    match a
    case AskClose(shutdown) => s.(pipe := s.pipe + [Close(shutdown)])
    case Uncount => s.(sending := if s.sending > 0 then s.sending - 1 else 0, socket := Waiting)
    case Blocked => BlockedStep(s)
    case WriteError => ErrorStep(s)
    case ListDone => ListDoneStep(s)
    case EndLow => EndLowStep(s)
    case RemoteClosed => RemoteClosedStep(s)
    case HangUp => s.(socket := Freeing(false))
  }

  function DataStep(s: State, a: Action): State
    requires Enabled(s, a) && ByData(a)
  {
    match a
    case Serve => ServeStep(s)
    case Flush => FlushStep(s)
    case WriteOut(n) => WriteStep(s, n)
    case FreeLists => FreeStep(s)
    case Invalidate => InvalidateStep(s)
  }

  function Apply(s: State, a: Action): State
    requires Enabled(s, a)
  {
    if ByThread(a) then ThreadStep(s, a) else if ByControl(a) then ControlStep(s, a) else DataStep(s, a)
  }

  // What holds of the lock and the counters

  predicate Locked(w: Worker) {
    w.Second? || w.Ready?
  }

  predicate HasLock(k: Socket) {
    k.SendHigh? || k.SendLow? || k.LowEnd? || (k.Freeing? && k.locked) || (k.Freed? && k.locked)
  }

  /** The lock has one holder; while the socket thread has it there is no direct buffer. */
  ghost predicate LockOk(s: State) {
    && |s.direct| <= 1
    && (forall t {:trigger s.workers[t]} | 0 <= t < |s.workers| :: Locked(s.workers[t]) <==> s.lock == ByWorker(t))
    && (s.lock.ByWorker? ==> s.lock.t < |s.workers|)
    && (s.lock.BySocket? <==> HasLock(s.socket))
    && (HasLock(s.socket) ==> s.direct == [])
    && (s.socket.SendLow? || s.socket.LowEnd? ==> s.high == [])
    && (s.socket.LowEnd? ==> s.low != [])
  }

  function Sends(pipe: seq<Command>): nat {
    if pipe == [] then 0 else (if pipe[0].Send? then 1 else 0) + Sends(pipe[1..])
  }

  function Counted(ws: seq<Worker>): nat {
    if ws == [] then 0 else (if ws[0].Queueing? then 1 else 0) + Counted(ws[1..])
  }

  /** `sending` counts the send commands in the pipe, those about to enter it and the one being served. */
  predicate SendingOk(s: State) {
    s.sending == Sends(s.pipe) + Counted(s.workers) + if s.socket.Uncounting? then 1 else 0
  }

  lemma {:induction false} SendsAppend(pipe: seq<Command>, c: Command)
    ensures Sends(pipe + [c]) == Sends(pipe) + if c.Send? then 1 else 0
  {
    if pipe != [] {
      SendsAppend(pipe[1..], c);
      assert (pipe + [c])[1..] == pipe[1..] + [c];
    }
  }

  lemma {:induction false} CountedUpdate(ws: seq<Worker>, t: nat, w: Worker)
    requires t < |ws|
    ensures Counted(ws[t := w]) + (if ws[t].Queueing? then 1 else 0) == Counted(ws) + if w.Queueing? then 1 else 0
    decreases t
  {
    if t == 0 {
      assert ws[0 := w][1..] == ws[1..];
    } else {
      CountedUpdate(ws[1..], t - 1, w);
      assert ws[t := w][1..] == ws[1..][t - 1 := w];
    }
  }

  /** A look at a field changes the looking thread and perhaps the lock. */
  lemma LookFrame(s: State, t: nat)
    requires t < |s.workers| && (s.workers[t].First? || s.workers[t].Second?)
    ensures var u := LookStep(s, t); u == s.(workers := s.workers[t := u.workers[t]], lock := u.lock)
  {
  }

  /** A thread that looks keeps its package in hand. */
  lemma LookPackage(s: State, t: nat)
    requires t < |s.workers| && (s.workers[t].First? || s.workers[t].Second?)
    ensures var w := LookStep(s, t).workers[t]; InFlight(w) && !w.Queueing? && w.p == s.workers[t].p
  {
  }

  lemma SelfUpdate(ws: seq<Worker>, t: nat)
    requires t < |ws|
    ensures ws[t := ws[t]] == ws
  {
  }

  /** No thread but `t` has moved. */
  predicate OnlyWorker(s: State, u: State, t: nat) {
    t < |s.workers| == |u.workers| && u.workers == s.workers[t := u.workers[t]]
  }

  /** No thread has moved. */
  predicate NoWorker(s: State, u: State) {
    u.workers == s.workers && u.nums == s.nums
  }

  /** A step of a thread leaves all other threads alone. */
  lemma WorkersAfter(s: State, a: Action)
    requires Enabled(s, a)
    ensures if ByThread(a) then OnlyWorker(s, Apply(s, a), a.t) else NoWorker(s, Apply(s, a))
  {
    hide ThreadStep, ControlStep, DataStep;
    if ByThread(a) { ThreadWorkers(s, a); } else if ByControl(a) { ControlWorkers(s, a); } else { DataWorkers(s, a); }
  }

  lemma ThreadWorkers(s: State, a: Action)
    requires Enabled(s, a) && ByThread(a)
    ensures OnlyWorker(s, ThreadStep(s, a), a.t)
  {
    hide LookStep;
    SelfUpdate(s.workers, a.t);
    if a.Look? { LookFrame(s, a.t); }
  }

  /** What the control steps leave alone. */
  predicate ControlFrame(s: State, u: State, a: Action) {
    && NoWorker(s, u) && u.direct == s.direct && u.dropped == s.dropped
    && u.pipe == (if a.AskClose? then s.pipe + [Close(a.shutdown)] else s.pipe)
    && (!a.EndLow? ==> u.high == s.high)
    && (u.phase.Invalid? ==> s.phase.Invalid?) && (u.phase.Connected? ==> s.phase.Connected?)
    && (!a.Uncount? ==> u.sending == s.sending && (u.socket.Uncounting? <==> s.socket.Uncounting?))
  }

  lemma ControlWorkers(s: State, a: Action)
    requires Enabled(s, a) && ByControl(a)
    ensures ControlFrame(s, ControlStep(s, a), a)
  {
    hide BlockedStep, ErrorStep, ListDoneStep, RemoteClosedStep;
    if s.socket.SendHigh? || s.socket.SendLow? { ListMoves(s); }
    RemoteMoves(s);
  }

  /** Nothing but the lists, the lock and what the socket thread does changes; the phase does not go back. */
  predicate Moves(s: State, u: State) {
    && NoWorker(s, u) && u.direct == s.direct && u.dropped == s.dropped && u.pipe == s.pipe && u.sending == s.sending
    && u.high == s.high && (u.phase.Invalid? ==> s.phase.Invalid?) && (u.phase.Connected? ==> s.phase.Connected?)
    && (u.socket.Uncounting? <==> s.socket.Uncounting?)
  }

  lemma ListMoves(s: State)
    requires s.socket.SendHigh? || s.socket.SendLow?
    ensures Moves(s, BlockedStep(s)) && Moves(s, ErrorStep(s)) && Moves(s, ListDoneStep(s))
  {
  }

  lemma RemoteMoves(s: State)
    ensures s.socket.Waiting? ==> Moves(s, RemoteClosedStep(s))
  {
    hide NoMoreSending;
  }

  /** The commands stay where they are. */
  predicate Unserved(s: State, u: State) {
    u.pipe == s.pipe && u.sending == s.sending && (u.socket.Uncounting? <==> s.socket.Uncounting?)
  }

  lemma FreeWorkers(s: State)
    ensures s.socket.Freeing? ==> NoWorker(s, FreeStep(s)) && Unserved(s, FreeStep(s))
    ensures NoWorker(s, InvalidateStep(s)) && (s.socket.Freed? ==> Unserved(s, InvalidateStep(s)))
    ensures NoWorker(s, FlushStep(s)) && (s.socket.Waiting? ==> Unserved(s, FlushStep(s)))
  {
    hide Size, Packages;
  }

  lemma DataWorkers(s: State, a: Action)
    requires Enabled(s, a) && ByData(a)
    ensures NoWorker(s, DataStep(s, a))
    ensures !a.Serve? ==> Unserved(s, DataStep(s, a))
  {
    hide FreeStep, InvalidateStep, FlushStep;
    FreeWorkers(s);
  }

  lemma KeepLockWorker(s: State, t: nat, w: Worker, lock: Lock)
    requires LockOk(s) && t < |s.workers|
    requires lock == if Locked(w) then ByWorker(t) else if Locked(s.workers[t]) then Unlocked else s.lock
    requires Locked(w) && !Locked(s.workers[t]) ==> s.lock.Unlocked?
    ensures LockOk(s.(workers := s.workers[t := w], lock := lock))
  {
  }

  lemma KeepLockThread(s: State, a: Action)
    requires Enabled(s, a) && ByThread(a) && LockOk(s)
    ensures LockOk(Apply(s, a))
  {
    hide ControlStep, DataStep, LockOk, LookStep;
    LockParts(s, a.t);
    if a.Look? {
      KeepLockLook(s, a.t);
    } else {
      WorkersAfter(s, a);
      var u := Apply(s, a);
      KeepLockWorker(s, a.t, u.workers[a.t], u.lock);
      KeepLockFrame(s.(workers := u.workers, lock := u.lock), u);
    }
  }

  lemma LockParts(s: State, t: nat)
    requires LockOk(s) && t < |s.workers|
    ensures Locked(s.workers[t]) <==> s.lock == ByWorker(t)
    ensures s.lock.BySocket? <==> HasLock(s.socket)
  {
  }

  lemma KeepLockLook(s: State, t: nat)
    requires LockOk(s) && t < |s.workers| && (s.workers[t].First? || s.workers[t].Second?)
    ensures LockOk(LookStep(s, t))
  {
    hide LockOk;
    LockParts(s, t);
    LookFrame(s, t);
    var u := LookStep(s, t);
    KeepLockWorker(s, t, u.workers[t], u.lock);
  }

  /** Only a thread that has the lock leaves something in the direct buffer. */
  lemma KeepLockFrame(s: State, u: State)
    requires LockOk(s) && u.workers == s.workers && u.lock == s.lock && u.socket == s.socket && u.high == s.high
      && u.low == s.low
    requires u.direct == s.direct || (|u.direct| <= 1 && !HasLock(s.socket))
    ensures LockOk(u)
  {
  }

  lemma SocketParts(s: State)
    requires LockOk(s)
    ensures s.lock.BySocket? <==> HasLock(s.socket)
    ensures s.socket.SendLow? || s.socket.LowEnd? ==> s.high == []
    ensures s.socket.LowEnd? ==> s.low != []
  {
  }

  /** The socket thread goes on, and may give the lock back. */
  lemma KeepLockSocket(s: State, u: State)
    requires LockOk(s) && u.workers == s.workers && u.direct == s.direct
    requires u.lock == s.lock || (s.lock.BySocket? && u.lock.Unlocked?)
    requires (u.lock.BySocket? <==> HasLock(u.socket)) && (HasLock(u.socket) ==> HasLock(s.socket))
    requires u.socket.SendLow? || u.socket.LowEnd? ==> u.high == []
    requires u.socket.LowEnd? ==> u.low != []
    ensures LockOk(u)
  {
  }

  lemma KeepLockControl(s: State, a: Action)
    requires Enabled(s, a) && ByControl(a) && LockOk(s)
    ensures LockOk(Apply(s, a))
  {
    hide Size, Packages, ThreadStep, DataStep, LockOk;
    SocketParts(s);
    KeepLockSocket(s, Apply(s, a));
  }

  lemma KeepLockData(s: State, a: Action)
    requires Enabled(s, a) && ByData(a) && LockOk(s)
    ensures LockOk(Apply(s, a))
  {
    hide ThreadStep, ControlStep, LockOk, WriteStep, ServeStep, FlushStep, FreeStep, InvalidateStep;
    match a
    case Serve => KeepLockServe(s);
    case Flush => KeepLockFlush(s);
    case WriteOut(n) => KeepLockWrite(s, n);
    case FreeLists => KeepLockFree(s);
    case Invalidate => KeepLockFree(s);
  }

  lemma KeepLockServe(s: State)
    requires s.socket.Waiting? && s.pipe != [] && LockOk(s)
    ensures LockOk(ServeStep(s))
  {
  }

  lemma KeepLockFlush(s: State)
    requires s.socket.Waiting? && s.lock.Unlocked? && LockOk(s)
    ensures LockOk(FlushStep(s))
  {
    hide Size;
  }

  lemma KeepLockWrite(s: State, n: nat)
    requires Head(s) != [] && Head(s)[0].off + n <= |Head(s)[0].p.bytes| && LockOk(s)
    ensures LockOk(WriteStep(s, n))
  {
  }

  lemma KeepLockFree(s: State)
    requires LockOk(s)
    ensures s.socket.Freeing? ==> LockOk(FreeStep(s))
    ensures s.socket.Freed? && (s.socket.locked || s.lock.Unlocked?) ==> LockOk(InvalidateStep(s))
  {
    hide Packages;
  }

  lemma ServedSends(pipe: seq<Command>)
    requires pipe != []
    ensures Sends(pipe) == Sends(pipe[1..]) + if pipe[0].Send? then 1 else 0
  {
  }

  lemma KeepSendingLook(s: State, t: nat)
    requires t < |s.workers| && (s.workers[t].First? || s.workers[t].Second?) && SendingOk(s)
    ensures SendingOk(LookStep(s, t))
  {
    hide Sends, Counted, LookStep;
    LookFrame(s, t);
    LookPackage(s, t);
    CountedUpdate(s.workers, t, LookStep(s, t).workers[t]);
  }

  lemma KeepSendingThread(s: State, a: Action)
    requires Enabled(s, a) && ByThread(a) && LockOk(s) && SendingOk(s)
    ensures SendingOk(Apply(s, a)) && (a.Uncount? ==> s.sending > 0)
  {
    hide Sends, Counted, ControlStep, DataStep, LookStep, LockOk;
    if a.Look? {
      KeepSendingLook(s, a.t);
      return;
    }
    WorkersAfter(s, a);
    CountedUpdate(s.workers, a.t, Apply(s, a).workers[a.t]);
    if a.Enqueue? { SendsAppend(s.pipe, Send(s.workers[a.t].p)); }
    if a.Wake? { SendsAppend(s.pipe, Trigger); }
  }

  lemma KeepSendingControl(s: State, a: Action)
    requires Enabled(s, a) && ByControl(a) && LockOk(s) && SendingOk(s)
    ensures SendingOk(Apply(s, a)) && (a.Uncount? ==> s.sending > 0)
  {
    hide Sends, Counted, ThreadStep, DataStep, LockOk;
    if a.Uncount? { return; }
    ControlSends(s, a);
  }

  lemma ControlSends(s: State, a: Action)
    requires Enabled(s, a) && ByControl(a) && !a.Uncount? && SendingOk(s)
    ensures SendingOk(ControlStep(s, a))
  {
    hide Sends, Counted, ControlStep;
    ControlWorkers(s, a);
    if a.AskClose? { SendsAppend(s.pipe, Close(a.shutdown)); }
  }

  lemma KeepSendingData(s: State, a: Action)
    requires Enabled(s, a) && ByData(a) && LockOk(s) && SendingOk(s)
    ensures SendingOk(Apply(s, a)) && (a.Uncount? ==> s.sending > 0)
  {
    hide Sends, Counted, ThreadStep, ControlStep, DataStep, LockOk;
    DataWorkers(s, a);
    if a.Serve? { ServeSends(s); }
  }

  lemma ServeSends(s: State)
    requires s.socket.Waiting? && s.pipe != [] && SendingOk(s)
    ensures SendingOk(DataStep(s, Serve))
  {
    hide Sends, Counted;
    ServedSends(s.pipe);
  }


  // What holds of the bytes

  predicate Fresh(bs: seq<Buf>) {
    forall b | b in bs :: b.off == 0
  }

  predicate OffsetsOk(bs: seq<Buf>) {
    forall b | b in bs :: b.off == 0 || b.off < |b.p.bytes|
  }

  function Flat(ps: seq<Package>): seq<Byte> {
    if ps == [] then [] else Flat(ps[..|ps| - 1]) + ps[|ps| - 1].bytes
  }

  function Prefix(b: Buf): seq<Byte> {
    if b.off <= |b.p.bytes| then b.p.bytes[..b.off] else []
  }

  /** The bytes already written of the package that is next on the wire. */
  function Part(s: State): seq<Byte> {
    if s.direct != [] then Prefix(s.direct[0])
    else if s.high != [] then Prefix(s.high[0])
    else if s.low != [] then Prefix(s.low[0])
    else []
  }

  /** Only the package that is next may be written in part, and a low one only until the round ends. */
  predicate PartialOk(s: State) {
    && OffsetsOk(s.direct) && OffsetsOk(s.high) && OffsetsOk(s.low)
    && (s.direct != [] ==> Fresh(s.high) && Fresh(s.low))
    && (s.high != [] ==> Fresh(s.high[1..]) && Fresh(s.low))
    && (if s.socket.LowEnd? then s.low != [] ==> Fresh(s.low[1..]) else Fresh(s.low))
  }

  /** Whole packages and a part of the next. */
  predicate WireOk(s: State) {
    && (s.torn ==> s.lost)
    && (!s.torn ==> s.wire == Flat(s.sent) + s.cut)
    && (!s.lost ==> s.cut == Part(s))
    && (s.lost ==> s.socket.Freed? || s.phase.Invalid?)
    && (s.phase.Invalid? ==>
        s.high == [] && s.low == [] && s.direct == [] && (s.socket.Waiting? || s.socket.Uncounting?))
    && (s.socket.Freed? ==> s.high == [] && s.low == [])
  }

  predicate WbOk(s: State) {
    s.socket.Freed? || s.phase.Invalid? || s.wbSize == Size(s.high) + Size(s.low)
  }

  lemma FlatAppend(ps: seq<Package>, p: Package)
    ensures Flat(ps + [p]) == Flat(ps) + p.bytes
  {
    assert (ps + [p])[..|ps|] == ps;
  }

  /** What a thread about to write directly has seen: no package is half written, and no direct buffer waits. */
  predicate MayWrite(s: State) {
    s.direct == [] && Fresh(s.high) && Fresh(s.low) && !s.phase.Invalid?
  }

  /** Nothing about bytes and buffers changes. */
  predicate SameBytes(s: State, u: State) {
    && u.high == s.high && u.low == s.low && u.direct == s.direct && u.wbSize == s.wbSize && u.wire == s.wire
    && u.sent == s.sent && u.cut == s.cut && u.lost == s.lost && u.torn == s.torn
  }

  predicate MovesBytes(a: Action) {
    a.DirectWrite? || a.Serve? || a.Flush? || a.WriteOut? || a.EndLow? || a.FreeLists? || a.Invalidate?
  }

  lemma AsideThread(s: State, a: Action)
    requires Enabled(s, a) && !MovesBytes(a) && ByThread(a)
    ensures SameBytes(s, Apply(s, a)) && Apply(s, a).socket == s.socket && Apply(s, a).phase == s.phase
  {
    hide ControlStep, DataStep, DirectStep, LookStep;
    if a.Look? { LookFrame(s, a.t); }
  }

  lemma Aside(s: State, a: Action)
    requires Enabled(s, a) && !MovesBytes(a)
    ensures SameBytes(s, Apply(s, a))
    ensures Apply(s, a).socket.Freed? <==> s.socket.Freed?
    ensures Apply(s, a).socket.LowEnd? ==> s.socket.SendLow? || s.socket.LowEnd?
    ensures s.socket.LowEnd? ==> Apply(s, a).socket.LowEnd?
    ensures s.phase.Invalid? && (s.socket.Waiting? || s.socket.Uncounting?) && s.high == [] && s.low == [] ==>
              Apply(s, a).phase.Invalid? && (Apply(s, a).socket.Waiting? || Apply(s, a).socket.Uncounting?)
    ensures Apply(s, a).phase.Invalid? ==> s.phase.Invalid?
  {
    hide DirectStep, ServeStep, FlushStep, WriteStep, EndLowStep, FreeStep, InvalidateStep, BeginStep, LookStep;
    if ByThread(a) { AsideThread(s, a); }
  }

  ghost predicate BytesOk(s: State) {
    LockOk(s) && PartialOk(s) && WireOk(s) && WbOk(s)
  }

  lemma KeepAside(s: State, a: Action)
    requires Enabled(s, a) && BytesOk(s) && !MovesBytes(a)
    ensures PartialOk(Apply(s, a)) && WireOk(Apply(s, a)) && WbOk(Apply(s, a))
  {
    hide Apply, Flat, Size, LockOk;
    Aside(s, a);
    assert Part(Apply(s, a)) == Part(s);
  }

  lemma WithEmpty(f: seq<Byte>, bytes: seq<Byte>)
    ensures f + [] + bytes == f + bytes == f + bytes + [] && f + [] == f
  {
  }

  lemma KeepDirect(s: State, t: nat, n: nat)
    requires BytesOk(s) && MayWrite(s) && t < |s.workers| && s.workers[t].Ready? && n <= |s.workers[t].p.bytes|
    ensures PartialOk(DirectStep(s, t, n)) && WireOk(DirectStep(s, t, n)) && WbOk(DirectStep(s, t, n))
  {
    hide Flat, Size, LockOk;
    var p, u := s.workers[t].p, DirectStep(s, t, n);
    assert Part(s) == [];
    FlatAppend(s.sent, p);
    WithEmpty(Flat(s.sent), p.bytes[..n]);
    WithEmpty(s.wire, []);
    assert p.bytes[..|p.bytes|] == p.bytes && p.bytes[..0] == [];
    assert Part(u) == if n == |p.bytes| then [] else p.bytes[..n];
  }

  lemma FreshAppend(bs: seq<Buf>, p: Package)
    ensures OffsetsOk(bs) ==> OffsetsOk(bs + [Buf(p, 0)])
    ensures Fresh(bs) ==> Fresh(bs + [Buf(p, 0)])
    ensures bs != [] && Fresh(bs[1..]) ==> Fresh((bs + [Buf(p, 0)])[1..])
    ensures bs != [] ==> (bs + [Buf(p, 0)])[0] == bs[0]
  {
    if bs != [] { assert (bs + [Buf(p, 0)])[1..] == bs[1..] + [Buf(p, 0)]; }
  }

  lemma KeepAppend(s: State, p: Package)
    requires PartialOk(s) && WireOk(s) && WbOk(s) && !s.socket.LowEnd? && !s.socket.Freed?
    ensures PartialOk(AppendStep(s, p)) && WireOk(AppendStep(s, p)) && WbOk(AppendStep(s, p))
  {
    hide Flat, Size, Fresh, OffsetsOk;
    SizeAppend(s.high, Buf(p, 0));
    SizeAppend(s.low, Buf(p, 0));
    FreshAppend(s.high, p);
    FreshAppend(s.low, p);
    FreshEmpty();
    assert ([] + [Buf(p, 0)])[1..] == [];
    assert Prefix(Buf(p, 0)) == [];
  }

  lemma FreshEmpty()
    ensures Fresh([]) && OffsetsOk([])
  {
  }

  lemma {:induction false} SizeAppend(bs: seq<Buf>, b: Buf)
    ensures Size(bs + [b]) == Size(bs) + |b.p.bytes| - b.off
  {
    if bs == [] {
      assert [b][1..] == [];
    } else {
      SizeAppend(bs[1..], b);
      assert (bs + [b])[1..] == bs[1..] + [b];
    }
  }

  lemma KeepServe(s: State)
    requires BytesOk(s) && s.socket.Waiting? && s.pipe != []
    ensures PartialOk(ServeStep(s)) && WireOk(ServeStep(s)) && WbOk(ServeStep(s))
  {
    hide Flat, Size, LockOk, AppendStep;
    var s1 := s.(pipe := s.pipe[1..]);
    assert Part(s1) == Part(s);
    match s.pipe[0]
    case Send(p) =>
      KeepAppend(s1, p);
      Serving(AppendStep(s1, p), s1, p);
    case Trigger =>
    case Close(shutdown) => assert Part(CloseStep(s1, shutdown)) == Part(s);
  }

  lemma Serving(u: State, s: State, p: Package)
    requires u == AppendStep(s, p) && s.socket.Waiting? && PartialOk(u) && WireOk(u) && WbOk(u)
    ensures var v := u.(socket := Uncounting); PartialOk(v) && WireOk(v) && WbOk(v)
  {
    hide Flat, Size;
    assert Part(u.(socket := Uncounting)) == Part(u);
  }

  lemma KeepFlush(s: State)
    requires BytesOk(s) && s.socket.Waiting? && s.lock.Unlocked? && !s.phase.Invalid?
    ensures PartialOk(FlushStep(s)) && WireOk(FlushStep(s)) && WbOk(FlushStep(s))
  {
    hide Flat, LockOk;
    assert |s.direct| <= 1 by { LockFacts(s); }
    var u := FlushStep(s);
    if s.direct != [] {
      assert s.direct == [s.direct[0]] && s.direct[1..] == [];
      assert u.high == [s.direct[0]] + s.high && u.high[1..] == s.high;
      assert Size(u.high) == |s.direct[0].p.bytes| - s.direct[0].off + Size(s.high);
      assert Size(s.direct) == |s.direct[0].p.bytes| - s.direct[0].off + Size([]);
    } else {
      assert u.high == s.high;
    }
  }

  lemma LockFacts(s: State)
    requires LockOk(s)
    ensures |s.direct| <= 1
    ensures HasLock(s.socket) ==> s.direct == [] && s.lock.BySocket?
    ensures s.socket.SendLow? || s.socket.LowEnd? ==> s.high == []
  {
  }

  lemma KeepWrite(s: State, n: nat)
    requires BytesOk(s) && Head(s) != [] && Head(s)[0].off + n <= |Head(s)[0].p.bytes|
    ensures PartialOk(WriteStep(s, n)) && WireOk(WriteStep(s, n)) && WbOk(WriteStep(s, n))
  {
    hide Flat, LockOk, PartialOk, WbOk, Part;
    LockFacts(s);
    HeadPart(s);
    WriteWire(s, n);
    if Head(s)[0].off + n == |Head(s)[0].p.bytes| { WriteWhole(s, n); } else { WritePart(s, n); }
  }

  lemma HeadPart(s: State)
    requires BytesOk(s) && Head(s) != []
    ensures Part(s) == Head(s)[0].p.bytes[..Head(s)[0].off]
  {
    hide Flat, LockOk;
    LockFacts(s);
  }

  lemma Joined(f: seq<Byte>, bytes: seq<Byte>, off: nat, n: nat)
    requires off + n <= |bytes|
    ensures f + bytes[..off] + bytes[off..off + n] == f + bytes[..off + n]
    ensures off + n == |bytes| ==> bytes[..off + n] == bytes && f + bytes + [] == f + bytes
  {
    assert bytes[..off] + bytes[off..off + n] == bytes[..off + n];
  }

  /** One write keeps the bytes together. */
  lemma WriteWire(s: State, n: nat)
    requires Head(s) != [] && Head(s)[0].off + n <= |Head(s)[0].p.bytes|
    requires s.wire == Flat(s.sent) + s.cut && s.cut == Head(s)[0].p.bytes[..Head(s)[0].off]
    ensures var u := WriteStep(s, n); u.wire == Flat(u.sent) + u.cut
  {
    hide Flat;
    var b := Head(s)[0];
    Joined(Flat(s.sent), b.p.bytes, b.off, n);
    FlatAppend(s.sent, b.p);
  }

  lemma WriteWhole(s: State, n: nat)
    requires BytesOk(s) && Head(s) != [] && Head(s)[0].off + n == |Head(s)[0].p.bytes|
    ensures var u := WriteStep(s, n); PartialOk(u) && WbOk(u) && Part(u) == []
  {
    hide Flat, LockOk;
    LockFacts(s);
    var u := WriteStep(s, n);
    if s.socket.SendHigh? && |s.high| > 1 { assert s.high[1..][0] == s.high[1] && s.high[1] in s.high[1..]; }
    if s.socket.SendLow? && |s.low| > 1 { assert s.low[1..][0] == s.low[1]; }
  }

  lemma WritePart(s: State, n: nat)
    requires BytesOk(s) && Head(s) != [] && Head(s)[0].off + n < |Head(s)[0].p.bytes|
    ensures var u := WriteStep(s, n); PartialOk(u) && WbOk(u) && Part(u) == u.cut
  {
    hide Flat, LockOk;
    LockFacts(s);
    var b, u := Head(s)[0], WriteStep(s, n);
    var c := b.(off := b.off + n);
    assert ([c] + Head(s)[1..])[1..] == Head(s)[1..];
  }

  lemma KeepEndLow(s: State)
    requires BytesOk(s) && s.socket.LowEnd?
    ensures PartialOk(EndLowStep(s)) && WireOk(EndLowStep(s)) && WbOk(EndLowStep(s))
  {
    hide Flat, LockOk;
    LockFacts(s);
    var u := EndLowStep(s);
    if s.low != [] && s.low[0].off > 0 {
      assert [s.low[0]][1..] == [];
    } else if s.low != [] {
      assert s.low == [s.low[0]] + s.low[1..];
    }
  }

  lemma KeepFree(s: State)
    requires BytesOk(s) && s.socket.Freeing?
    ensures PartialOk(FreeStep(s)) && WireOk(FreeStep(s)) && WbOk(FreeStep(s))
  {
    hide Flat, LockOk, Size, Packages;
    LockFacts(s);
    if s.high != [] { assert s.high[0] in s.high + s.low; }
    if s.low != [] { assert s.low[0] in s.high + s.low; }
  }

  lemma KeepInvalidate(s: State)
    requires BytesOk(s) && s.socket.Freed?
    ensures PartialOk(InvalidateStep(s)) && WireOk(InvalidateStep(s)) && WbOk(InvalidateStep(s))
  {
    hide Flat, LockOk, Size, Packages;
    LockFacts(s);
    if s.direct != [] { assert s.direct[0] in s.direct; }
  }

  lemma KeepBytes(s: State, a: Action)
    requires Enabled(s, a) && BytesOk(s) && (a.DirectWrite? ==> MayWrite(s))
    ensures BytesOk(Apply(s, a))
  {
    hide PartialOk, WireOk, WbOk, LockOk, DirectStep, ServeStep, FlushStep, WriteStep, EndLowStep, FreeStep,
         InvalidateStep;
    KeepLock(s, a);
    match a
    case DirectWrite(t, n) => KeepDirect(s, t, n);
    case Serve => KeepServe(s);
    case Flush => KeepFlush(s);
    case WriteOut(n) => KeepWrite(s, n);
    case EndLow => KeepEndLow(s);
    case FreeLists => KeepFree(s);
    case Invalidate => KeepInvalidate(s);
    case _ => KeepAside(s, a);
  }

  lemma KeepLock(s: State, a: Action)
    requires Enabled(s, a) && LockOk(s)
    ensures LockOk(Apply(s, a))
  {
    hide Apply, LockOk;
    if ByThread(a) {
      KeepLockThread(s, a);
    } else if ByControl(a) {
      KeepLockControl(s, a);
    } else {
      KeepLockData(s, a);
    }
  }

  lemma KeepSending(s: State, a: Action)
    requires Enabled(s, a) && LockOk(s) && SendingOk(s)
    ensures SendingOk(Apply(s, a)) && (a.Uncount? ==> s.sending > 0)
  {
    hide Apply, LockOk, SendingOk;
    if ByThread(a) {
      KeepSendingThread(s, a);
    } else if ByControl(a) {
      KeepSendingControl(s, a);
    } else {
      KeepSendingData(s, a);
    }
  }


  // What the threads know

  /** No command of thread `t` is in the pipe, no package of it in the list. */
  predicate NoneQueued(t: nat, pipe: seq<Command>) {
    forall c | c in pipe && c.Send? :: c.p.owner != t
  }

  predicate NoneOf(t: nat, bs: seq<Buf>) {
    forall b | b in bs :: b.p.owner != t
  }

  /** The thread has seen `sending` at zero. */
  predicate SawNoCommand(w: Worker) {
    (w.First? && w.field.Type?) || w.Trying? || w.Second? || w.Ready?
  }

  predicate SawNoHigh(w: Worker) {
    (w.Second? && !w.field.HighHead?) || w.Ready?
  }

  predicate SawNoDirect(w: Worker) {
    (w.Second? && (w.field.SendingRef? || w.field.Type?)) || w.Ready?
  }

  predicate Knows(s: State, t: nat) {
    t < |s.workers| == |s.nums| &&
    var w := s.workers[t];
    && (InFlight(w) ==> w.p.owner == t && s.nums[t] == w.p.num + 1)
    && (w.First? || w.Trying? || w.Second? || w.Ready? ==> w.p.high)
    && (SawNoCommand(w) ==> NoneQueued(t, s.pipe))
    && (SawNoHigh(w) ==> Fresh(s.high) && NoneOf(t, s.high))
    && (SawNoDirect(w) ==> s.direct == [])
    && (w.Ready? ==> !s.phase.Invalid?)
  }

  ghost predicate AllKnow(s: State) {
    |s.workers| == |s.nums| && forall t {:trigger Knows(s, t)} | 0 <= t < |s.workers| :: Knows(s, t)
  }

  lemma {:induction false} NoSends(pipe: seq<Command>, t: nat)
    requires Sends(pipe) == 0
    ensures NoneQueued(t, pipe)
  {
    if pipe != [] { NoSends(pipe[1..], t); }
  }

  lemma KeepKnowsLook(s: State, t: nat)
    requires t < |s.workers| == |s.nums| && SendingOk(s) && Knows(s, t) && (s.workers[t].First? || s.workers[t].Second?)
    ensures Knows(LookStep(s, t), t)
  {
    hide Sends, Counted, Fresh, NoneOf, NoneQueued;
    if s.sending == 0 { NoSends(s.pipe, t); }
    NothingThere(t);
  }

  lemma KeepKnowsBegin(s: State, t: nat, high: bool, bytes: seq<Byte>)
    requires t < |s.workers| == |s.nums| && Knows(s, t) && s.workers[t].Idle?
    ensures Knows(BeginStep(s, t, high, bytes), t)
  {
    hide Fresh, NoneOf, NoneQueued;
  }

  /** After a direct write the thread has nothing in hand. */
  lemma DirectFrame(s: State, t: nat, n: nat)
    requires t < |s.workers| && s.workers[t].Ready? && n <= |s.workers[t].p.bytes|
    ensures var u := DirectStep(s, t, n);
            |u.workers| == |s.workers| && (u.workers[t].Idle? || u.workers[t].Waking?) && u.nums == s.nums
    ensures var u := DirectStep(s, t, n);
            u.dropped == s.dropped && u.pipe == s.pipe && u.high == s.high && u.phase == s.phase
  {
  }

  /** The thread that takes the step. */
  lemma KeepKnowsSelf(s: State, a: Action)
    requires Enabled(s, a) && ByThread(a) && SendingOk(s) && Knows(s, a.t)
    ensures Knows(Apply(s, a), a.t)
  {
    hide ControlStep, DataStep, BeginStep, LookStep, DirectStep, SendingOk, Fresh, NoneOf, NoneQueued;
    if a.Look? { KeepKnowsLook(s, a.t); }
    if a.Begin? { KeepKnowsBegin(s, a.t, a.high, a.bytes); }
    if a.DirectWrite? { DirectFrame(s, a.t, a.n); }
  }

  lemma NothingThere(t: nat)
    ensures Fresh([]) && NoneOf(t, [])
  {
  }

  lemma ThreadFrame(s: State, a: Action)
    requires Enabled(s, a) && ByThread(a)
    ensures |Apply(s, a).nums| == |s.nums| && forall t | 0 <= t < |s.nums| && t != a.t ::
      Apply(s, a).nums[t] == s.nums[t]
    ensures a.Enqueue? ==> Apply(s, a).pipe == s.pipe + [Send(s.workers[a.t].p)]
    ensures a.Wake? ==> Apply(s, a).pipe == s.pipe + [Trigger]
    ensures !a.Enqueue? && !a.Wake? ==> Apply(s, a).pipe == s.pipe
    ensures Apply(s, a).high == s.high && Apply(s, a).phase == s.phase
      && (!a.DirectWrite? ==> Apply(s, a).direct == s.direct)
  {
    hide ControlStep, DataStep, LookStep, DirectStep;
    if a.Look? { LookFrame(s, a.t); }
    if a.DirectWrite? { DirectFrame(s, a.t, a.n); }
  }

  /** The others. */
  lemma KeepKnowsOther(s: State, a: Action, t: nat)
    requires Enabled(s, a) && ByThread(a) && LockOk(s) && t != a.t && t < |s.workers| == |s.nums|
    requires Knows(s, a.t) && Knows(s, t)
    ensures Knows(Apply(s, a), t)
  {
    hide Apply, Fresh, NoneOf;
    ThreadFrame(s, a);
    WorkersAfter(s, a);
    assert Locked(s.workers[t]) <==> s.lock == ByWorker(t);
    assert Locked(s.workers[a.t]) <==> s.lock == ByWorker(a.t);
  }

  lemma KeepKnowsControl(s: State, a: Action, t: nat)
    requires Enabled(s, a) && ByControl(a) && LockOk(s) && t < |s.workers| == |s.nums| && Knows(s, t)
    ensures Knows(Apply(s, a), t)
  {
    hide ThreadStep, ControlStep, DataStep, Fresh, NoneOf, NoneQueued;
    assert Locked(s.workers[t]) <==> s.lock == ByWorker(t);
    ControlWorkers(s, a);
    if a.AskClose? { CloseQueued(s.pipe, a.shutdown, t); }
  }

  lemma CloseQueued(pipe: seq<Command>, shutdown: bool, t: nat)
    ensures NoneQueued(t, pipe) ==> NoneQueued(t, pipe + [Close(shutdown)])
  {
  }

  lemma RestQueued(pipe: seq<Command>, t: nat)
    requires NoneQueued(t, pipe) && pipe != []
    ensures NoneQueued(t, pipe[1..]) && (pipe[0].Send? ==> pipe[0].p.owner != t)
  {
    assert pipe[0] in pipe;
    assert forall c | c in pipe[1..] :: c in pipe;
  }

  lemma AppendKnown(bs: seq<Buf>, p: Package, t: nat)
    requires Fresh(bs) && NoneOf(t, bs) && p.owner != t
    ensures Fresh(bs + [Buf(p, 0)]) && NoneOf(t, bs + [Buf(p, 0)])
  {
    assert forall x | x in bs + [Buf(p, 0)] :: x in bs || x == Buf(p, 0);
  }

  lemma KeepKnowsServe(s: State, t: nat)
    requires t < |s.workers| == |s.nums| && Knows(s, t) && s.pipe != []
    ensures Knows(ServeStep(s), t)
  {
    hide Fresh, NoneOf, NoneQueued;
    if SawNoCommand(s.workers[t]) { RestQueued(s.pipe, t); }
    if s.pipe[0].Send? && SawNoHigh(s.workers[t]) { AppendKnown(s.high, s.pipe[0].p, t); }
  }

  lemma KeepKnowsData(s: State, a: Action, t: nat)
    requires Enabled(s, a) && ByData(a) && LockOk(s) && t < |s.workers| == |s.nums| && Knows(s, t)
    ensures Knows(Apply(s, a), t)
  {
    hide ThreadStep, ControlStep, Size, Packages, ServeStep, NoneQueued;
    assert Locked(s.workers[t]) <==> s.lock == ByWorker(t);
    if a.Serve? { KeepKnowsServe(s, t); }
  }

  lemma KeepAllKnow(s: State, a: Action)
    requires Enabled(s, a) && LockOk(s) && SendingOk(s) && AllKnow(s)
    ensures AllKnow(Apply(s, a))
  {
    hide Apply, Knows, LockOk, SendingOk;
    SameLength(s, a);
    forall t | 0 <= t < |s.workers| ensures Knows(Apply(s, a), t) {
      assert Knows(s, t);
      if ByControl(a) { KeepKnowsControl(s, a, t); }
      else if ByData(a) { KeepKnowsData(s, a, t); }
      else if t == a.t { KeepKnowsSelf(s, a); }
      else { assert Knows(s, a.t); KeepKnowsOther(s, a, t); }
    }
  }

  lemma SameLength(s: State, a: Action)
    requires Enabled(s, a)
    ensures |Apply(s, a).workers| == |s.workers| && |Apply(s, a).nums| == |s.nums|
  {
    WorkersAfter(s, a);
  }

  lemma ReadyMayWrite(s: State, t: nat)
    requires LockOk(s) && PartialOk(s) && AllKnow(s) && t < |s.workers| && s.workers[t].Ready?
    ensures MayWrite(s)
  {
    assert Knows(s, t);
    assert Locked(s.workers[t]) <==> s.lock == ByWorker(t);
  }


  // Where the packages are

  /** The packages in the pipe. */
  function Piped(pipe: seq<Command>): seq<Package> {
    if pipe == [] then [] else (if pipe[0].Send? then [pipe[0].p] else []) + Piped(pipe[1..])
  }

  /** All packages on their way, in the order in which they go on the wire as things stand. */
  function Track(s: State): seq<Package> {
    s.sent + Packages(s.direct) + Packages(s.high) + Packages(s.low) + Piped(s.pipe)
  }

  /** High-priority packages of one thread are in the order it sent them. */
  predicate Ordered(ps: seq<Package>) {
    forall i, j | 0 <= i < j < |ps| && ps[i].high && ps[j].high && ps[i].owner == ps[j].owner :: ps[i].num < ps[j].num
  }

  predicate NoHigh(ps: seq<Package>) {
    forall p | p in ps :: !p.high
  }

  /** How often the `k`-th package of thread `t` occurs. */
  function Times(ps: seq<Package>, t: nat, k: nat): nat {
    if ps == [] then 0 else (if ps[0].owner == t && ps[0].num == k then 1 else 0) + Times(ps[1..], t, k)
  }

  function Flying(s: State, t: nat, k: nat): nat {
    if t < |s.workers| && InFlight(s.workers[t]) && s.workers[t].p.num == k then 1 else 0
  }

  function Taken(s: State, t: nat, k: nat): nat {
    if t < |s.nums| && k < s.nums[t] then 1 else 0
  }

  /** Every package a thread sent is in exactly one place. */
  predicate OnceOk(s: State, t: nat, k: nat) {
    Times(Track(s), t, k) + Times(s.dropped, t, k) + Flying(s, t, k) == Taken(s, t, k)
  }

  ghost predicate AllOnce(s: State) {
    forall t: nat, k: nat {:trigger OnceOk(s, t, k)} :: OnceOk(s, t, k)
  }

  predicate OrderOk(s: State) {
    Ordered(Track(s)) && NoHigh(Packages(s.low))
  }

  lemma {:induction false} TimesConcat(a: seq<Package>, b: seq<Package>, t: nat, k: nat)
    ensures Times(a + b, t, k) == Times(a, t, k) + Times(b, t, k)
  {
    if a == [] {
      assert a + b == b;
    } else {
      TimesConcat(a[1..], b, t, k);
      assert (a + b)[1..] == a[1..] + b;
    }
  }

  lemma {:induction false} TimesOf(ps: seq<Package>, i: nat)
    requires i < |ps|
    ensures Times(ps, ps[i].owner, ps[i].num) >= 1
    decreases i
  {
    if i > 0 { TimesOf(ps[1..], i - 1); }
  }

  lemma PackagesConcat(a: seq<Buf>, b: seq<Buf>)
    ensures Packages(a + b) == Packages(a) + Packages(b)
  {
  }

  lemma {:induction false} PipedAppend(pipe: seq<Command>, c: Command)
    ensures Piped(pipe + [c]) == Piped(pipe) + if c.Send? then [c.p] else []
  {
    if pipe == [] {
      assert [c][1..] == [];
    } else {
      PipedAppend(pipe[1..], c);
      assert (pipe + [c])[1..] == pipe[1..] + [c];
    }
  }

  lemma {:induction false} PipedNone(pipe: seq<Command>, t: nat)
    requires NoneQueued(t, pipe)
    ensures forall p | p in Piped(pipe) :: p.owner != t
  {
    if pipe != [] {
      assert pipe[0] in pipe;
      assert forall c | c in pipe[1..] :: c in pipe;
      PipedNone(pipe[1..], t);
    }
  }

  // Changes of the track

  lemma OrderedInsert(a: seq<Package>, p: Package, b: seq<Package>)
    requires Ordered(a + b) && (forall q | q in a && q.owner == p.owner :: q.num < p.num)
    requires forall q | q in b && q.high :: q.owner != p.owner
    ensures Ordered(a + [p] + b)
  {
    var ps, qs := a + b, a + [p] + b;
    forall j | |a| < j < |qs| ensures !(qs[j].high && qs[j].owner == p.owner) {
      assert qs[j] == b[j - |a| - 1] && b[j - |a| - 1] in b;
    }
    forall i, j | 0 <= i < j < |qs| && qs[i].high && qs[j].high && qs[i].owner == qs[j].owner
      ensures qs[i].num < qs[j].num
    {
      if j == |a| {
        assert qs[i] == a[i] && a[i] in a;
      } else if i != |a| {
        var x, y := if i < |a| then i else i - 1, if j < |a| then j else j - 1;
        assert ps[x] == qs[i] && ps[y] == qs[j];
      }
    }
  }

  lemma OrderedRemove(a: seq<Package>, b: seq<Package>, c: seq<Package>)
    requires Ordered(a + b + c)
    ensures Ordered(a + c)
  {
    var ps, qs := a + b + c, a + c;
    forall i, j | 0 <= i < j < |qs| && qs[i].high && qs[j].high && qs[i].owner == qs[j].owner
      ensures qs[i].num < qs[j].num
    {
      var x, y := if i < |a| then i else i + |b|, if j < |a| then j else j + |b|;
      assert ps[x] == qs[i] && ps[y] == qs[j];
    }
  }

  /** A package passes the low list. */
  lemma OrderedMove(a: seq<Package>, l: seq<Package>, p: Package, b: seq<Package>)
    requires Ordered(a + l + [p] + b) && NoHigh(l)
    ensures Ordered(a + [p] + l + b)
  {
    var ps, qs := a + l + [p] + b, a + [p] + l + b;
    forall i, j | 0 <= i < j < |qs| && qs[i].high && qs[j].high && qs[i].owner == qs[j].owner
      ensures qs[i].num < qs[j].num
    {
      var x := Back(a, l, p, b, i);
      var y := Back(a, l, p, b, j);
      assert ps[x] == qs[i] && ps[y] == qs[j];
    }
  }

  /** Where element `i` was before the move; elements of `l` have low priority. */
  lemma Back(a: seq<Package>, l: seq<Package>, p: Package, b: seq<Package>, i: nat) returns (x: nat)
    requires NoHigh(l) && i < |a + [p] + l + b|
    ensures x < |a + l + [p] + b| && (a + l + [p] + b)[x] == (a + [p] + l + b)[i]
    ensures x == if i == |a| then |a| + |l| else if |a| < i <= |a| + |l| then i - 1 else i
    ensures |a| < i <= |a| + |l| ==> !(a + [p] + l + b)[i].high
  {
    x := if i == |a| then |a| + |l| else if |a| < i <= |a| + |l| then i - 1 else i;
    if |a| < i <= |a| + |l| { assert (a + [p] + l + b)[i] == l[i - |a| - 1] && l[i - |a| - 1] in l; }
  }


  predicate MovesPackages(a: Action) {
    a.Enqueue? || a.DirectWrite? || a.Serve? || a.FreeLists? || a.Invalidate?
  }

  /** The pipe, after steps that put no package in it. */
  lemma AsidePipe(s: State, a: Action)
    requires Enabled(s, a) && !MovesPackages(a)
    ensures Piped(Apply(s, a).pipe) == Piped(s.pipe)
    ensures !a.Begin? ==> Apply(s, a).dropped == s.dropped && Apply(s, a).nums == s.nums
  {
    hide ThreadStep, ControlStep, Piped;
    if ByThread(a) { AsidePipeThread(s, a); }
    if ByControl(a) { AsidePipeControl(s, a); }
  }

  lemma AsidePipeThread(s: State, a: Action)
    requires Enabled(s, a) && !MovesPackages(a) && ByThread(a)
    ensures Piped(ThreadStep(s, a).pipe) == Piped(s.pipe)
    ensures !a.Begin? ==> ThreadStep(s, a).dropped == s.dropped && ThreadStep(s, a).nums == s.nums
  {
    hide DirectStep, LookStep, Piped;
    PipedAppend(s.pipe, Trigger);
    if a.Look? { LookFrame(s, a.t); }
  }

  lemma AsidePipeControl(s: State, a: Action)
    requires Enabled(s, a) && ByControl(a)
    ensures Piped(ControlStep(s, a).pipe) == Piped(s.pipe)
    ensures ControlStep(s, a).dropped == s.dropped && ControlStep(s, a).nums == s.nums
  {
    hide Piped;
    if a.AskClose? { PipedAppend(s.pipe, Close(a.shutdown)); }
  }

  lemma PackagesOf(b: Buf)
    ensures Packages([]) == [] && Packages([b]) == [b.p]
  {
  }

  lemma FlushTrack(s: State)
    ensures Track(FlushStep(s)) == Track(s)
  {
    hide Piped, Size, Packages;
    PackagesConcat(s.direct, s.high);
    PackagesOf(Buf(Package(0, 0, true, []), 0));
  }

  lemma SpliceSent<T>(sent: seq<T>, x: T, r: seq<T>, l: seq<T>, q: seq<T>)
    ensures sent + [] + ([x] + r) + l + q == (sent + [x]) + [] + r + l + q
  {
  }

  lemma WriteHighTrack(s: State, n: nat)
    requires s.socket.SendHigh? && s.high != [] && s.high[0].off + n <= |s.high[0].p.bytes| && s.direct == []
    ensures Track(WriteStep(s, n)) == Track(s)
  {
    hide Piped, Packages;
    var b, rest, u := s.high[0], s.high[1..], WriteStep(s, n);
    var c := b.(off := b.off + n);
    assert s.high == [b] + rest;
    PackagesConcat([b], rest);
    PackagesConcat([c], rest);
    PackagesOf(b);
    PackagesOf(c);
    SpliceSent(s.sent, b.p, Packages(rest), Packages(s.low), Piped(s.pipe));
  }

  lemma SpliceLow<T>(sent: seq<T>, x: T, r: seq<T>, q: seq<T>)
    ensures sent + [] + [] + ([x] + r) + q == (sent + [x]) + [] + [] + r + q
  {
  }

  lemma WriteLowTrack(s: State, n: nat)
    requires s.socket.SendLow? && s.low != [] && s.low[0].off + n <= |s.low[0].p.bytes| && s.direct == []
      && s.high == []
    ensures Track(WriteStep(s, n)) == Track(s)
  {
    hide Piped, Packages;
    var b, rest := s.low[0], s.low[1..];
    var c := b.(off := b.off + n);
    assert s.low == [b] + rest;
    PackagesConcat([b], rest);
    PackagesConcat([c], rest);
    PackagesOf(b);
    PackagesOf(c);
    SpliceLow(s.sent, b.p, Packages(rest), Piped(s.pipe));
  }

  lemma WriteTrack(s: State, n: nat)
    requires Head(s) != [] && Head(s)[0].off + n <= |Head(s)[0].p.bytes|
    requires s.direct == [] && (s.socket.SendLow? ==> s.high == [])
    ensures Track(WriteStep(s, n)) == Track(s)
  {
    hide Track, WriteStep;
    if s.socket.SendHigh? { WriteHighTrack(s, n); } else { WriteLowTrack(s, n); }
  }

  lemma EndLowTrack(s: State)
    requires s.high == []
    ensures Track(EndLowStep(s)) == Track(s)
  {
    hide Piped, Packages;
    if s.low != [] {
      assert s.low == [s.low[0]] + s.low[1..];
      PackagesConcat([s.low[0]], s.low[1..]);
      PackagesOf(s.low[0]);
      var tail := Packages(s.low[1..]) + Piped(s.pipe);
      assert Track(s) == s.sent + Packages(s.direct) + ([s.low[0].p] + tail);
    }
  }

  lemma TrackSame(s: State, a: Action)
    requires Enabled(s, a) && LockOk(s) && !MovesPackages(a)
    ensures Track(Apply(s, a)) == Track(s)
  {
    hide LockOk, Track, FlushStep, WriteStep, EndLowStep, DirectStep, ServeStep, FreeStep, InvalidateStep;
    LockFacts(s);
    match a
    case Flush => FlushTrack(s);
    case WriteOut(n) => WriteTrack(s, n);
    case EndLow => EndLowTrack(s);
    case _ => SameTrack(s, a);
  }

  lemma SameTrack(s: State, a: Action)
    requires Enabled(s, a) && !MovesPackages(a) && !MovesBytes(a)
    ensures Track(Apply(s, a)) == Track(s)
  {
    hide Apply, Piped, Packages;
    AsidePipe(s, a);
    Aside(s, a);
  }

  lemma LowSame(s: State, a: Action)
    requires Enabled(s, a) && LockOk(s) && !MovesPackages(a) && NoHigh(Packages(s.low))
    ensures NoHigh(Packages(Apply(s, a).low))
  {
    hide LockOk, FlushStep, DirectStep, ServeStep, FreeStep, InvalidateStep;
    match a
    case Flush => FlushLow(s);
    case WriteOut(n) => WriteLow(s, n);
    case EndLow => if s.low != [] { TailLow(s.low); }
    case _ => Aside(s, a);
  }

  lemma FlushLow(s: State)
    ensures FlushStep(s).low == s.low
  {
  }

  lemma TailLow(bs: seq<Buf>)
    requires bs != [] && NoHigh(Packages(bs))
    ensures NoHigh(Packages(bs[1..])) && !bs[0].p.high
  {
    assert Packages(bs)[0] in Packages(bs);
    forall p | p in Packages(bs[1..]) ensures !p.high {
      var i :| 0 <= i < |bs[1..]| && Packages(bs[1..])[i] == p;
      assert Packages(bs)[i + 1] == p;
    }
  }

  lemma WriteLow(s: State, n: nat)
    requires Head(s) != [] && Head(s)[0].off + n <= |Head(s)[0].p.bytes| && NoHigh(Packages(s.low))
    ensures NoHigh(Packages(WriteStep(s, n).low))
  {
    if s.socket.SendLow? {
      TailLow(s.low);
      var c := s.low[0].(off := s.low[0].off + n);
      PackagesConcat([c], s.low[1..]);
      assert Packages([c]) == [s.low[0].p];
    }
  }

  // The steps that move packages

  lemma EnqueueTrack(s: State, p: Package)
    ensures Track(s.(pipe := s.pipe + [Send(p)])) == Track(s) + [p]
  {
    hide Piped, Packages;
    PipedAppend(s.pipe, Send(p));
  }

  lemma DirectTrack(s: State, t: nat, n: nat)
    requires t < |s.workers| && s.workers[t].Ready? && n <= |s.workers[t].p.bytes| && s.direct == []
    ensures Track(s) == s.sent + (Packages(s.high) + Packages(s.low) + Piped(s.pipe))
    ensures Track(DirectStep(s, t, n)) ==
            s.sent + [s.workers[t].p] + (Packages(s.high) + Packages(s.low) + Piped(s.pipe))
  {
    hide Piped, Packages;
    var p, high, low, pipe := s.workers[t].p, Packages(s.high), Packages(s.low), Piped(s.pipe);
    PackagesOf(Buf(p, n));
    NoMore(s.sent);
    NoMore(s.sent + [p]);
    Assoc(s.sent, high, low);
    Assoc(s.sent, high + low, pipe);
    Assoc(s.sent + [p], high, low);
    Assoc(s.sent + [p], high + low, pipe);
  }

  /** A command served: dropped, or put into a list. */
  lemma ServeTrack(s: State) returns (a: seq<Package>, l: seq<Package>, r: seq<Package>)
    requires s.pipe != [] && s.pipe[0].Send?
    ensures var p, u := s.pipe[0].p, ServeStep(s);
            && l == Packages(s.low)
            && Track(s) == a + l + [p] + r
            && (|| (u.dropped == s.dropped + [p] && Track(u) == a + l + r && u.low == s.low)
                || (u.dropped == s.dropped && Track(u) == a + [p] + l + r && u.low == s.low && (p.high || l == []))
                || (u.dropped == s.dropped && Track(u) == Track(s) && !p.high && Packages(u.low) == l + [p]))
  {
    hide Piped, Packages, Track, AppendStep;
    var p := s.pipe[0].p;
    a, l, r := s.sent + Packages(s.direct) + Packages(s.high), Packages(s.low), Piped(s.pipe[1..]);
    TrackParts(s);
    AppendTrack(s.(pipe := s.pipe[1..]), p);
    TrackParts(ServeStep(s));
    TrackParts(AppendStep(s.(pipe := s.pipe[1..]), p));
  }

  lemma TrackParts(s: State)
    ensures Track(s) == s.sent + Packages(s.direct) + Packages(s.high) + Packages(s.low) + Piped(s.pipe)
    ensures s.pipe != [] && s.pipe[0].Send? ==>
              Track(s) == s.sent + Packages(s.direct) + Packages(s.high) + Packages(s.low) + [s.pipe[0].p]
                          + Piped(s.pipe[1..])
  {
    hide Packages;
    if s.pipe != [] && s.pipe[0].Send? {
      Assoc(s.sent + Packages(s.direct) + Packages(s.high) + Packages(s.low), [s.pipe[0].p], Piped(s.pipe[1..]));
    }
  }

  /** Where `send_socket` puts a package. */
  lemma AppendTrack(s: State, p: Package)
    ensures var u := AppendStep(s, p);
            && u.sent == s.sent && u.direct == s.direct && u.pipe == s.pipe
            && (|| (u.dropped == s.dropped + [p] && u.high == s.high && u.low == s.low)
                || (u.dropped == s.dropped && Packages(u.high) == Packages(s.high) + [p] && u.low == s.low
                    && (p.high || Packages(s.low) == []))
                || (u.dropped == s.dropped && u.high == s.high && !p.high && Packages(u.low) == Packages(s.low) + [p]))
  {
    hide Packages;
    PackagesConcat(s.high, [Buf(p, 0)]);
    PackagesConcat(s.low, [Buf(p, 0)]);
    PackagesOne(p);
  }

  lemma PipedFirst(pipe: seq<Command>)
    requires pipe != []
    ensures Piped(pipe) == (if pipe[0].Send? then [pipe[0].p] else []) + Piped(pipe[1..])
  {
  }

  lemma PackagesOne(p: Package)
    ensures Packages([Buf(p, 0)]) == [p]
  {
  }

  lemma FreeTrack(s: State)
    requires s.socket.Freeing?
    ensures var a, b, c := s.sent + Packages(s.direct), Packages(s.high) + Packages(s.low), Piped(s.pipe);
            Track(s) == a + b + c && Track(FreeStep(s)) == a + c && FreeStep(s).dropped == s.dropped + b
  {
    hide Piped;
    PackagesConcat(s.high, s.low);
    assert Packages([]) == [];
  }

  lemma InvalidateTrack(s: State)
    requires s.socket.Freed?
    ensures var a, b, c := s.sent, Packages(s.direct), Packages(s.high) + Packages(s.low) + Piped(s.pipe);
            Track(s) == a + b + c && Track(InvalidateStep(s)) == a + c && InvalidateStep(s).dropped == s.dropped + b
  {
    hide Piped;
    assert Packages([]) == [];
  }


  // Order

  lemma BelowFlight(s: State, t: nat, ps: seq<Package>, rest: seq<Package>)
    requires AllKnow(s) && AllOnce(s) && t < |s.workers| && InFlight(s.workers[t]) && Track(s) == ps + rest
    ensures forall q | q in ps && q.owner == t :: q.num < s.workers[t].p.num
  {
    hide Track, Piped;
    assert Knows(s, t);
    forall q | q in ps && q.owner == t ensures q.num < s.workers[t].p.num {
      var i :| 0 <= i < |ps| && ps[i] == q;
      TimesOf(ps, i);
      TimesConcat(ps, rest, t, q.num);
      assert OnceOk(s, t, q.num);
    }
  }

  lemma NoneThere(t: nat, bs: seq<Buf>)
    requires NoneOf(t, bs)
    ensures forall q | q in Packages(bs) :: q.owner != t
  {
    forall q | q in Packages(bs) ensures q.owner != t {
      var i :| 0 <= i < |bs| && Packages(bs)[i] == q;
      assert bs[i] in bs;
    }
  }

  lemma KeepOrderDirect(s: State, t: nat, n: nat)
    requires AllKnow(s) && AllOnce(s) && OrderOk(s)
    requires t < |s.workers| && s.workers[t].Ready? && n <= |s.workers[t].p.bytes|
    ensures OrderOk(DirectStep(s, t, n))
  {
    hide Track, Piped, Packages, Ordered, NoHigh;
    assert Knows(s, t);
    var p := s.workers[t].p;
    var rest := Packages(s.high) + Packages(s.low) + Piped(s.pipe);
    DirectTrack(s, t, n);
    BelowFlight(s, t, s.sent, rest);
    RestNotMine(s, t);
    OrderedInsert(s.sent, p, rest);
  }

  lemma RestNotMine(s: State, t: nat)
    requires t < |s.workers| && s.workers[t].Ready? && Knows(s, t) && NoHigh(Packages(s.low))
    ensures forall q | q in Packages(s.high) + Packages(s.low) + Piped(s.pipe) && q.high :: q.owner != t
  {
    hide Packages, Piped;
    NoneThere(t, s.high);
    PipedNone(s.pipe, t);
  }

  lemma KeepOrderServe(s: State)
    requires OrderOk(s) && s.pipe != []
    ensures OrderOk(ServeStep(s))
  {
    hide Track, Piped, Packages, Ordered;
    if s.pipe[0].Send? {
      var p, u := s.pipe[0].p, ServeStep(s);
      var a, l, r := ServeTrack(s);
      if Track(u) == a + l + r {
        OrderedRemove(a + l, [p], r);
      } else if Track(u) == a + [p] + l + r {
        OrderedMove(a, l, p, r);
      }
      if u.low != s.low { assert forall q | q in l + [p] :: q in l || q == p; }
    } else {
      ServeOther(s);
    }
  }

  lemma ServeOther(s: State)
    requires s.pipe != [] && !s.pipe[0].Send?
    ensures Track(ServeStep(s)) == Track(s) && ServeStep(s).low == s.low && ServeStep(s).dropped == s.dropped
  {
    hide Packages, Piped;
    PipedFirst(s.pipe);
    assert [] + Piped(s.pipe[1..]) == Piped(s.pipe[1..]);
  }

  lemma KeepOrderEnqueue(s: State, t: nat)
    requires AllKnow(s) && AllOnce(s) && OrderOk(s) && t < |s.workers| && s.workers[t].Queueing?
    ensures Ordered(Track(s) + [s.workers[t].p])
  {
    hide Track, Ordered;
    assert Knows(s, t);
    var p := s.workers[t].p;
    assert Track(s) + [] == Track(s);
    BelowFlight(s, t, Track(s), []);
    OrderedInsert(Track(s), p, []);
    assert Track(s) + [p] + [] == Track(s) + [p];
  }

  lemma KeepOrder(s: State, a: Action)
    requires Enabled(s, a) && LockOk(s) && AllKnow(s) && AllOnce(s) && OrderOk(s)
    ensures OrderOk(Apply(s, a))
  {
    hide LockOk, AllKnow, AllOnce, Track, Packages, Ordered, NoHigh, DirectStep, ServeStep, FreeStep, InvalidateStep,
         FlushStep, WriteStep, EndLowStep, Piped;
    match a
    case DirectWrite(t, n) => KeepOrderDirect(s, t, n);
    case Enqueue(t) =>
      KeepOrderEnqueue(s, t);
      EnqueueTrack(Go(s, t, Idle), s.workers[t].p);
      GoTrack(s, t);
    case Serve => KeepOrderServe(s);
    case FreeLists =>
      FreeTrack(s);
      OrderedRemove(s.sent + Packages(s.direct), Packages(s.high) + Packages(s.low), Piped(s.pipe));
      FreedLow(s);
    case Invalidate =>
      InvalidateTrack(s);
      OrderedRemove(s.sent, Packages(s.direct), Packages(s.high) + Packages(s.low) + Piped(s.pipe));
      InvalidateLow(s);
    case _ =>
      TrackSame(s, a);
      LowSame(s, a);
  }

  lemma GoTrack(s: State, t: nat)
    requires t < |s.workers|
    ensures Track(Go(s, t, Idle)) == Track(s)
  {
  }

  lemma FreedLow(s: State)
    requires s.socket.Freeing?
    ensures NoHigh(Packages(FreeStep(s).low))
  {
  }

  lemma InvalidateLow(s: State)
    requires s.socket.Freed?
    ensures InvalidateStep(s).low == s.low
  {
  }


  // Conservation

  lemma FlyingAfter(s: State, a: Action, t: nat, k: nat)
    requires Enabled(s, a) && (ByThread(a) ==> Knows(s, a.t)) && |s.workers| == |s.nums|
    ensures var u := Apply(s, a);
            Flying(u, t, k) + (if (a.DirectWrite? || a.Enqueue?) && t == a.t && s.workers[t].p.num == k then 1 else 0)
            == Flying(s, t, k)
               + if a.Begin? && t == a.t && k == s.nums[t] && u.dropped == s.dropped then 1 else 0
    ensures var u := Apply(s, a);
            Taken(u, t, k) == Taken(s, t, k) + if a.Begin? && t == a.t && k == s.nums[t] then 1 else 0
    ensures a.Begin? && Apply(s, a).dropped != s.dropped ==>
              Apply(s, a).dropped == s.dropped + [Package(a.t, s.nums[a.t], a.high, a.bytes)]
  {
    hide ThreadStep, ControlStep, DataStep, NoneQueued, NoneOf, Fresh;
    WorkersAfter(s, a);
    if ByThread(a) { FlyingThread(s, a, t, k); }
  }

  lemma FlyingThread(s: State, a: Action, t: nat, k: nat)
    requires Enabled(s, a) && ByThread(a) && Knows(s, a.t) && |s.workers| == |s.nums|
    ensures var u := ThreadStep(s, a);
            Flying(u, t, k) + (if (a.DirectWrite? || a.Enqueue?) && t == a.t && s.workers[t].p.num == k then 1 else 0)
            == Flying(s, t, k)
               + if a.Begin? && t == a.t && k == s.nums[t] && u.dropped == s.dropped then 1 else 0
    ensures var u := ThreadStep(s, a);
            Taken(u, t, k) == Taken(s, t, k) + if a.Begin? && t == a.t && k == s.nums[t] then 1 else 0
    ensures a.Begin? && ThreadStep(s, a).dropped != s.dropped ==>
              ThreadStep(s, a).dropped == s.dropped + [Package(a.t, s.nums[a.t], a.high, a.bytes)]
  {
    hide ThreadStep, Knows;
    ThreadWorkers(s, a);
    Owner(s, a.t);
    if a.Begin? { BeginMoves(s, a); } else { FlightMoves(s, a); }
  }

  lemma Owner(s: State, t: nat)
    requires Knows(s, t)
    ensures t < |s.workers| == |s.nums| && (InFlight(s.workers[t]) ==> s.nums[t] == s.workers[t].p.num + 1)
  {
  }

  /** A new package is taken in hand or dropped. */
  lemma BeginMoves(s: State, a: Action)
    requires Enabled(s, a) && a.Begin?
    ensures var u, p := ThreadStep(s, a), Package(a.t, s.nums[a.t], a.high, a.bytes);
            && u.nums == s.nums[a.t := s.nums[a.t] + 1] && |u.workers| == |s.workers|
            && if InFlight(u.workers[a.t]) then u.dropped == s.dropped && u.workers[a.t].p == p
               else u.dropped == s.dropped + [p] && u.dropped != s.dropped
  {
    var p := Package(a.t, s.nums[a.t], a.high, a.bytes);
    assert |s.dropped + [p]| != |s.dropped|;
  }

  /** Other steps keep it in hand, until it is written or put into the pipe. */
  lemma FlightMoves(s: State, a: Action)
    requires Enabled(s, a) && ByThread(a) && !a.Begin?
    ensures var u := ThreadStep(s, a); u.nums == s.nums && u.dropped == s.dropped && |u.workers| == |s.workers|
    ensures var w, v := s.workers[a.t], ThreadStep(s, a).workers[a.t];
            && (InFlight(v) <==> InFlight(w) && !a.DirectWrite? && !a.Enqueue?) && (InFlight(v) ==> v.p == w.p)
            && (a.DirectWrite? || a.Enqueue? ==> InFlight(w))
  {
    hide LookStep, DirectStep;
    if a.Look? {
      LookFrame(s, a.t);
      LookPackage(s, a.t);
    }
    if a.DirectWrite? { DirectFrame(s, a.t, a.n); }
  }

  lemma TimesOne(p: Package, t: nat, k: nat)
    ensures Times([p], t, k) == (if p.owner == t && p.num == k then 1 else 0) && Times([], t, k) == 0
  {
    assert [p][1..] == [];
  }

  lemma TimesThree(a: seq<Package>, b: seq<Package>, c: seq<Package>, t: nat, k: nat)
    ensures Times(a + b + c, t, k) == Times(a, t, k) + Times(b, t, k) + Times(c, t, k)
    ensures Times(a + c, t, k) == Times(a, t, k) + Times(c, t, k)
  {
    hide Times;
    TimesConcat(a + b, c, t, k);
    TimesConcat(a, b, t, k);
    TimesConcat(a, c, t, k);
  }

  /** Times on the track and among the dropped after a step. */
  predicate TimesMove(s: State, u: State, t: nat, k: nat, more: nat) {
    Times(Track(u), t, k) + Times(u.dropped, t, k) == Times(Track(s), t, k) + Times(s.dropped, t, k) + more
  }

  lemma DirectTimes(s: State, i: nat, n: nat, t: nat, k: nat)
    requires i < |s.workers| && s.workers[i].Ready? && n <= |s.workers[i].p.bytes| && s.direct == []
    ensures var p := s.workers[i].p; TimesMove(s, DirectStep(s, i, n), t, k,
      if p.owner == t && p.num == k then 1 else 0)
  {
    hide Track, Piped, Packages, Times;
    DirectTrack(s, i, n);
    TimesThree(s.sent, [s.workers[i].p], Packages(s.high) + Packages(s.low) + Piped(s.pipe), t, k);
    TimesOne(s.workers[i].p, t, k);
  }

  lemma ServeTimes(s: State, t: nat, k: nat)
    requires s.pipe != []
    ensures TimesMove(s, ServeStep(s), t, k, 0)
  {
    hide Track, Piped, Packages, Times;
    if s.pipe[0].Send? {
      var p := s.pipe[0].p;
      var a, l, r := ServeTrack(s);
      TimesThree(a + l, [p], r, t, k);
      TimesThree(a, l, r, t, k);
      TimesThree(a + [p], l, r, t, k);
      TimesThree(a, [p], l, t, k);
      TimesConcat(a, [p], t, k);
      TimesConcat(s.dropped, [p], t, k);
    } else {
      ServeOther(s);
    }
  }

  lemma RemoveTimes(s: State, u: State, a: seq<Package>, b: seq<Package>, c: seq<Package>, t: nat, k: nat)
    requires Track(s) == a + b + c && Track(u) == a + c && u.dropped == s.dropped + b
    ensures TimesMove(s, u, t, k, 0)
  {
    hide Track, Times;
    TimesThree(a, b, c, t, k);
    TimesConcat(s.dropped, b, t, k);
  }

  lemma EnqueueTimes(s: State, i: nat, t: nat, k: nat)
    requires Enabled(s, Enqueue(i))
    ensures var p := s.workers[i].p;
            TimesMove(s, Apply(s, Enqueue(i)), t, k, if p.owner == t && p.num == k then 1 else 0)
  {
    hide Track, Times;
    EnqueueTrack(Go(s, i, Idle), s.workers[i].p);
    GoTrack(s, i);
    TimesConcat(Track(s), [s.workers[i].p], t, k);
    TimesOne(s.workers[i].p, t, k);
  }

  lemma AsideTimes(s: State, a: Action, t: nat, k: nat)
    requires Enabled(s, a) && LockOk(s) && !MovesPackages(a)
    ensures Times(Track(Apply(s, a)), t, k) == Times(Track(s), t, k)
    ensures Times(Apply(s, a).dropped, t, k) ==
            Times(s.dropped, t, k)
            + if a.Begin? && Apply(s, a).dropped != s.dropped && t == a.t && s.nums[t] == k then 1 else 0
  {
    hide Track, Times, LockOk, Apply;
    TrackSame(s, a);
    AsidePipe(s, a);
    if a.Begin? { BeginDropped(s, a, t, k); }
  }

  lemma BeginDropped(s: State, a: Action, t: nat, k: nat)
    requires Enabled(s, a) && a.Begin?
    ensures Times(Apply(s, a).dropped, t, k) ==
            Times(s.dropped, t, k) + if Apply(s, a).dropped != s.dropped && t == a.t && s.nums[t] == k then 1 else 0
  {
    hide Times;
    var p := Package(a.t, s.nums[a.t], a.high, a.bytes);
    TimesConcat(s.dropped, [p], t, k);
    TimesOne(p, t, k);
    assert |s.dropped + [p]| != |s.dropped|;
  }

  lemma KeepOnce(s: State, a: Action, t: nat, k: nat)
    requires Enabled(s, a) && LockOk(s) && AllKnow(s) && OnceOk(s, t, k)
    ensures OnceOk(Apply(s, a), t, k)
  {
    hide LockOk, Track, Times, Packages, Piped, DirectStep, ServeStep, FreeStep, InvalidateStep, FlushStep,
         WriteStep, EndLowStep, BeginStep, LookStep, BlockedStep, ErrorStep, ListDoneStep, RemoteClosedStep, Flying,
         Taken, Knows;
    if ByThread(a) { assert Knows(s, a.t); }
    FlyingAfter(s, a, t, k);
    match a
    case DirectWrite(i, n) =>
      MyDirect(s, i);
      DirectTimes(s, i, n, t, k);
    case Enqueue(i) =>
      MyFlight(s, i);
      EnqueueTimes(s, i, t, k);
    case Serve => ServeTimes(s, t, k);
    case FreeLists =>
      FreeTrack(s);
      RemoveTimes(s, FreeStep(s), s.sent + Packages(s.direct), Packages(s.high) + Packages(s.low), Piped(s.pipe), t, k);
    case Invalidate =>
      InvalidateTrack(s);
      RemoveTimes(s, InvalidateStep(s), s.sent, Packages(s.direct),
        Packages(s.high) + Packages(s.low) + Piped(s.pipe), t, k);
    case _ => AsideTimes(s, a, t, k);
  }

  lemma MyDirect(s: State, t: nat)
    requires t < |s.workers| && s.workers[t].Ready? && Knows(s, t)
    ensures s.direct == [] && s.workers[t].p.owner == t
  {
  }

  lemma MyFlight(s: State, t: nat)
    requires t < |s.workers| && InFlight(s.workers[t]) && Knows(s, t)
    ensures s.workers[t].p.owner == t
  {
  }

  // Whole runs

  ghost predicate Inv(s: State) {
    BytesOk(s) && SendingOk(s) && AllKnow(s) && AllOnce(s) && OrderOk(s)
  }

  lemma KeepInv(s: State, a: Action)
    requires Enabled(s, a) && Inv(s)
    ensures Inv(Apply(s, a))
  {
    hide Apply, PartialOk, WireOk, WbOk, LockOk, SendingOk, OrderOk, AllKnow;
    if a.DirectWrite? { ReadyMayWrite(s, a.t); }
    KeepBytes(s, a);
    KeepSending(s, a);
    KeepAllKnow(s, a);
    KeepOrder(s, a);
    forall t: nat, k: nat ensures OnceOk(Apply(s, a), t, k) {
      assert OnceOk(s, t, k);
      KeepOnce(s, a, t, k);
    }
  }

  /** An open socket, no thread sending yet. */
  predicate Initial(s: State) {
    && |s.workers| == |s.nums| && (forall t | 0 <= t < |s.workers| :: s.workers[t].Idle? && s.nums[t] == 0)
    && s.pipe == [] && s.sending == 0 && s.high == [] && s.low == [] && s.direct == [] && s.wbSize == 0
    && s.lock.Unlocked? && s.socket.Waiting? && s.phase.Connected? && !s.closing
    && s.wire == [] && s.sent == [] && s.dropped == [] && s.cut == [] && !s.lost && !s.torn
  }

  lemma {:induction false} NoneCounted(ws: seq<Worker>)
    requires forall t | 0 <= t < |ws| :: ws[t].Idle?
    ensures Counted(ws) == 0
  {
    if ws != [] { NoneCounted(ws[1..]); }
  }

  lemma InitialInv(s: State)
    requires Initial(s)
    ensures Inv(s)
  {
    NoneCounted(s.workers);
    assert Track(s) == [];
    forall t: nat, k: nat ensures OnceOk(s, t, k) { }
  }

  /** The steps `run` lead from `s` to `u`. */
  predicate Leads(s: State, run: seq<Action>, u: State)
    decreases |run|
  {
    if run == [] then u == s else Enabled(s, run[0]) && Leads(Apply(s, run[0]), run[1..], u)
  }

  lemma {:induction false} RunKeepsInv(s: State, run: seq<Action>, u: State)
    requires Inv(s) && Leads(s, run, u)
    ensures Inv(u)
    decreases |run|
  {
    hide Inv, Apply;
    if run != [] {
      KeepInv(s, run[0]);
      RunKeepsInv(Apply(s, run[0]), run[1..], u);
    }
  }

  lemma Reachable(s: State, run: seq<Action>, u: State)
    requires Initial(s) && Leads(s, run, u)
    ensures Inv(u)
  {
    hide Inv, Apply;
    InitialInv(s);
    RunKeepsInv(s, run, u);
  }

  /** No package is lost or doubled: a package some thread sent is either written completely, or dropped, or on its way,
      and in one place only. */
  lemma EachPackageOnce(s: State, run: seq<Action>, u: State, t: nat, k: nat)
    requires Initial(s) && Leads(s, run, u) && t < |u.nums| && k < u.nums[t]
    ensures Times(u.sent, t, k) + Times(Packages(u.direct + u.high + u.low), t, k) + Times(Piped(u.pipe), t, k)
            + Times(u.dropped, t, k) + Flying(u, t, k) == 1
  {
    hide Times, Packages, Piped, Track, Leads, Initial;
    Reachable(s, run, u);
    assert OnceOk(u, t, k);
    TrackTimes(u, t, k);
  }

  lemma TrackTimes(s: State, t: nat, k: nat)
    ensures Times(Track(s), t, k) ==
            Times(s.sent, t, k) + Times(Packages(s.direct + s.high + s.low), t, k) + Times(Piped(s.pipe), t, k)
  {
    hide Times, Packages, Piped;
    var a, b, c := Packages(s.direct), Packages(s.high), Packages(s.low);
    PackagesConcat(s.direct, s.high);
    PackagesConcat(s.direct + s.high, s.low);
    TimesConcat(a + b, c, t, k);
    TimesConcat(a, b, t, k);
    TimesConcat(s.sent + a + b + c, Piped(s.pipe), t, k);
    TimesConcat(s.sent + a + b, c, t, k);
    TimesConcat(s.sent + a, b, t, k);
    TimesConcat(s.sent, a, t, k);
  }

  /** High-priority packages of one thread are written in the order in which it sent them. */
  lemma InOrder(s: State, run: seq<Action>, u: State, i: nat, j: nat)
    requires Initial(s) && Leads(s, run, u) && i < j < |u.sent|
    requires u.sent[i].high && u.sent[j].high && u.sent[i].owner == u.sent[j].owner
    ensures u.sent[i].num < u.sent[j].num
  {
    Reachable(s, run, u);
    assert Track(u)[i] == u.sent[i] && Track(u)[j] == u.sent[j];
  }

  /** The assertions of the code: no low package is half written when a round starts, the high list is empty when one
      is raised, the byte count is zero when both lists are empty, and `sending` is never decremented below zero. */
  lemma AssertionsHold(s: State, run: seq<Action>, u: State, a: Action)
    requires Initial(s) && Leads(s, run, u) && Enabled(u, a)
    ensures a.Flush? ==> Fresh(u.low)
    ensures a.EndLow? ==> u.high == []
    ensures a.ListDone? && u.high == [] && u.low == [] && !u.phase.Invalid? ==> u.wbSize == 0
    ensures a.Uncount? ==> u.sending > 0
  {
    Reachable(s, run, u);
  }
}
