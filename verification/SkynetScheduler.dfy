/** The message-queue scheduler of skynet: services (contexts) with reference counts, their queues, the global queue
    list, and any number of threads that dispatch, send, create and retire. Every spin-locked region and every atomic
    operation is one step, and steps of the threads interleave freely.
    What a running callback does (send, create, retire) is done by some other thread of the model. */
module SkynetScheduler {

  /** A service is named by its handle. No handle is given out again while anything of its former service is left. */
  type Id = nat

  type Message = nat

  /** What became of a message that left its queue. */
  datatype Fate = Dispatched(m: Message) | Dropped(m: Message)

  /** A context and its queue. `registered`: the handle table holds a reference. `ref`: the atomic counter.
      `queue`, `inGlobal`, `release`: fields of `struct message_queue`. `running`: the message its callback is
      working on. `init`: the service started. `pushed` and `done` record the history of the queue; `ctxFreed` and
      `freed` what has been freed. */
  datatype Service = Service(
    registered: bool, init: bool, ref: int, ctxFreed: bool,
    queue: seq<Message>, inGlobal: bool, release: bool, freed: bool,
    running: seq<Message>, pushed: seq<Message>, done: seq<Fate>)

  /** Where a thread goes on once it has released its reference. */
  datatype Next = ToIdle | KeepQueue(q: Id) | Publish(q: Id) | RetireOwn(q: Id) | ReleaseQueue(q: Id)

  datatype Thread =
    | Idle
    | Kept(q: Id)                        // worker with a queue, about to grab its context by handle
    | Serving(q: Id)                     // context grabbed, about to pop a message
    | Running(q: Id, m: Message)         // in the callback
    | Finishing(q: Id)                   // about to look for another queue
    | Swapping(q: Id, nq: Id)            // found one, about to push the old one back
    | Orphan(q: Id)                      // about to call skynet_mq_release
    | Dropping(q: Id)                    // in _drop_queue
    | Sending(c: Id, m: Message)         // context grabbed, about to push a message
    | Starting(c: Id)                    // creator, while the service initialises
    | Launching(c: Id)                   // creator of a service that lives on, about to set `init`; without a reference
    | Publishing(c: Id, alive: bool)     // creator, about to push the new queue
    | Logging(c: Id)                     // creator, about to log the launch for the context; without a reference
    | Withdrawing(c: Id)                 // creator of a service that failed, about to retire its handle
    | Releasing(c: Id, next: Next)       // about to decrement the reference count
    | Deleting(c: Id, next: Next)        // the count was one: about to mark the queue for release
    | Freeing(c: Id, next: Next)         // about to free the context

  datatype State = State(threads: seq<Thread>, list: seq<Id>, services: map<Id, Service>)

  // Steps

  datatype Action =
    | Take(t: nat)                        // skynet_globalmq_pop by a worker without a queue
    | Grab(t: nat)                        // skynet_handle_grab in the dispatch function
    | PopMessage(t: nat)                  // skynet_mq_pop
    | EndMessage(t: nat, more: bool)      // the callback returns; go on with this queue or not
    | PopNext(t: nat)                     // skynet_globalmq_pop after the loop
    | PushBack(t: nat)                    // skynet_globalmq_push of the old queue
    | Release(t: nat)                     // ATOM_FDEC in skynet_context_release
    | MarkRelease(t: nat)                 // skynet_mq_mark_release
    | FreeContext(t: nat)
    | GrabFor(t: nat, c: Id, m: Message)  // skynet_handle_grab in skynet_context_push
    | PushMessage(t: nat)                 // skynet_mq_push
    | Retire(t: nat, c: Id)               // skynet_handle_retire takes the handle out of the table
    | GrabAgain(t: nat, other: nat)       // skynet_context_grab by code that has a reference
    | Create(t: nat, c: Id)               // context, handle and queue
    | InitOk(t: nat)
    | InitFail(t: nat)
    | SetInit(t: nat)                     // ctx->init = true
    | PublishQueue(t: nat)                // skynet_globalmq_push of the new queue
    | WriteLog(t: nat)                    // skynet_error of skynet_context_new, which reads the context
    | RetireNew(t: nat)                   // skynet_handle_retire of a service that failed
    | ReleaseOrphan(t: nat)               // skynet_mq_release
    | DropOne(t: nat)                     // one round of _drop_queue

  /** The context whose reference a thread holds. */
  function RefOf(t: Thread): Id
    requires HasRef(t)
  {
    match t
    case Serving(q) => q
    case Running(q, _) => q
    case Finishing(q) => q
    case Swapping(q, _) => q
    case Sending(c, _) => c
    case Starting(c) => c
    case Releasing(c, _) => c
  }

  predicate HasRef(t: Thread) {
    t.Serving? || t.Running? || t.Finishing? || t.Swapping? || t.Sending? || t.Starting? || t.Releasing?
  }

  predicate Enabled(s: State, a: Action) {
    && a.t < |s.threads|
    && var th := s.threads[a.t];
       match a
       case Take(_) => th.Idle? && s.list != []
       case Grab(_) => th.Kept? && th.q in s.services
       case PopMessage(_) => th.Serving? && th.q in s.services
       case EndMessage(_, _) => th.Running? && th.q in s.services
       case PopNext(_) => th.Finishing?
       case PushBack(_) => th.Swapping?
       case Release(_) => th.Releasing? && th.c in s.services
       case MarkRelease(_) => th.Deleting? && th.c in s.services
       case FreeContext(_) => th.Freeing? && th.c in s.services
       case GrabFor(_, c, _) => th.Idle? && c in s.services && s.services[c].registered
       case PushMessage(_) => th.Sending? && th.c in s.services
       case Retire(_, c) => th.Idle? && c in s.services && s.services[c].registered
       case GrabAgain(_, other) =>
         th.Idle? && other < |s.threads| && HasRef(s.threads[other]) && RefOf(s.threads[other]) in s.services
       case Create(_, c) => th.Idle? && c !in s.services
       case InitOk(_) => th.Starting?
       case InitFail(_) => th.Starting?
       case SetInit(_) => th.Launching? && th.c in s.services
       case PublishQueue(_) => th.Publishing?
       case WriteLog(_) => th.Logging?
       case RetireNew(_) => th.Withdrawing? && th.c in s.services
       case ReleaseOrphan(_) => th.Orphan? && th.q in s.services
       case DropOne(_) => th.Dropping? && th.q in s.services
  }

  function Go(s: State, t: nat, th: Thread): State
    requires t < |s.threads|
  {
    s.(threads := s.threads[t := th])
  }

  function Update(s: State, c: Id, v: Service): State {
    s.(services := s.services[c := v])
  }

  function Enlist(s: State, c: Id): State {
    s.(list := s.list + [c])
  }

  /** `freed`: the reference was the last one, and the context is gone. */
  function Continue(next: Next, freed: bool): Thread {
    match next
    case ToIdle => Idle
    case KeepQueue(q) => Kept(q)
    case Publish(q) => if freed then Publishing(q, false) else Launching(q)
    case RetireOwn(q) => Withdrawing(q)
    case ReleaseQueue(q) => Orphan(q)
  }

  function Fresh(): Service {
    Service(true, false, 2, false, [], true, false, false, [], [], [])
  }

  /** Steps of a worker with a queue. */
  predicate ByWorker(a: Action) {
    a.Take? || a.Grab? || a.PopMessage? || a.EndMessage? || a.PopNext? || a.PushBack? || a.ReleaseOrphan? || a.DropOne?
  }

  /** Steps on the reference count and the handle table. */
  predicate ByReference(a: Action) {
    a.Release? || a.MarkRelease? || a.FreeContext? || a.GrabFor? || a.PushMessage? || a.Retire? || a.GrabAgain?
  }

  function WorkerStep(s: State, a: Action): State
    requires Enabled(s, a) && ByWorker(a)
  {
    var t, th := a.t, s.threads[a.t];
    match a
    case Take(_) => Go(s, t, Kept(s.list[0])).(list := s.list[1..])
    case Grab(_) =>
      var v := s.services[th.q];
      if v.registered then Update(Go(s, t, Serving(th.q)), th.q, v.(ref := v.ref + 1))
      else Go(s, t, Orphan(th.q))
    case PopMessage(_) =>
      var v := s.services[th.q];
      if v.queue != [] then
        Update(Go(s, t, Running(th.q, v.queue[0])), th.q,
               v.(queue := v.queue[1..], running := v.running + [v.queue[0]]))
      else
        Update(Go(s, t, Releasing(th.q, ToIdle)), th.q, v.(inGlobal := false))
    case EndMessage(_, more) =>
      var v := s.services[th.q];
      Update(Go(s, t, if more then Serving(th.q) else Finishing(th.q)), th.q,
             v.(running := [], done := v.done + [Dispatched(th.m)]))
    case PopNext(_) =>
      if s.list != [] then Go(s, t, Swapping(th.q, s.list[0])).(list := s.list[1..])
      else Go(s, t, Releasing(th.q, KeepQueue(th.q)))
    case PushBack(_) => Enlist(Go(s, t, Releasing(th.q, KeepQueue(th.nq))), th.q)
    case ReleaseOrphan(_) =>
      if s.services[th.q].release then Go(s, t, Dropping(th.q)) else Enlist(Go(s, t, Idle), th.q)
    case DropOne(_) =>
      var v := s.services[th.q];
      if v.queue != [] then
        Update(s, th.q, v.(queue := v.queue[1..], done := v.done + [Dropped(v.queue[0])]))
      else
        Update(Go(s, t, Idle), th.q, v.(inGlobal := false, freed := true))
  }

  function ReferenceStep(s: State, a: Action): State
    requires Enabled(s, a) && ByReference(a)
  {
    var t, th := a.t, s.threads[a.t];
    match a
    case Release(_) =>
      var v := s.services[th.c];
      if v.ref == 1 then Update(Go(s, t, Deleting(th.c, th.next)), th.c, v.(ref := 0))
      else Update(Go(s, t, Continue(th.next, false)), th.c, v.(ref := v.ref - 1))
    case MarkRelease(_) =>
      var v := s.services[th.c];
      var s1 := Update(Go(s, t, Freeing(th.c, th.next)), th.c, v.(release := true));
      if v.inGlobal then s1 else Enlist(s1, th.c)
    case FreeContext(_) =>
      Update(Go(s, t, Continue(th.next, true)), th.c, s.services[th.c].(ctxFreed := true))
    case GrabFor(_, c, m) =>
      var v := s.services[c];
      Update(Go(s, t, Sending(c, m)), c, v.(ref := v.ref + 1))
    case PushMessage(_) =>
      var v := s.services[th.c];
      var s1 := Update(Go(s, t, Releasing(th.c, ToIdle)), th.c,
                       v.(queue := v.queue + [th.m], pushed := v.pushed + [th.m], inGlobal := true));
      if v.inGlobal then s1 else Enlist(s1, th.c)
    case Retire(_, c) =>
      Update(Go(s, t, Releasing(c, ToIdle)), c, s.services[c].(registered := false))
    case GrabAgain(_, other) =>
      var c := RefOf(s.threads[other]);
      Update(Go(s, t, Releasing(c, ToIdle)), c, s.services[c].(ref := s.services[c].ref + 1))
  }

  function CreatorStep(s: State, a: Action): State
    requires Enabled(s, a) && !ByWorker(a) && !ByReference(a)
  {
    var t, th := a.t, s.threads[a.t];
    match a
    case Create(_, c) => Update(Go(s, t, Starting(c)), c, Fresh())
    case InitOk(_) => Go(s, t, Releasing(th.c, Publish(th.c)))
    case InitFail(_) => Go(s, t, Releasing(th.c, RetireOwn(th.c)))
    case SetInit(_) => Update(Go(s, t, Publishing(th.c, true)), th.c, s.services[th.c].(init := true))
    case PublishQueue(_) => Enlist(Go(s, t, if th.alive then Logging(th.c) else Idle), th.c)
    case WriteLog(_) => Go(s, t, Idle)
    case RetireNew(_) =>
      var v := s.services[th.c];
      if v.registered then Update(Go(s, t, Releasing(th.c, ReleaseQueue(th.c))), th.c, v.(registered := false))
      else Go(s, t, Orphan(th.c))
  }

  function Apply(s: State, a: Action): State
    requires Enabled(s, a)
  {
    if ByWorker(a) then WorkerStep(s, a) else if ByReference(a) then ReferenceStep(s, a) else CreatorStep(s, a)
  }

  // The invariant

  /** What threads have of one service: references to the context (ref), holds on its queue (hold), its deletion in two
      steps (delete, free), its running callback (run), its creation (creation) before its queue is published or
      orphaned. */
  datatype Share = Share(ref: nat, hold: nat, delete: nat, free: nat, run: nat, creation: nat)

  function Is(a: Id, b: Id): nat {
    if a == b then 1 else 0
  }

  function HeldBy(next: Next, c: Id): nat {
    if next.ToIdle? then 0 else Is(next.q, c)
  }

  predicate Creates(next: Next) {
    next.Publish? || next.RetireOwn?
  }

  function HoldsOf(t: Thread, c: Id): nat {
    match t
    case Kept(q) => Is(q, c)
    case Serving(q) => Is(q, c)
    case Running(q, _) => Is(q, c)
    case Finishing(q) => Is(q, c)
    case Swapping(q, nq) => Is(q, c) + Is(nq, c)
    case Orphan(q) => Is(q, c)
    case Dropping(q) => Is(q, c)
    case Starting(q) => Is(q, c)
    case Launching(q) => Is(q, c)
    case Publishing(q, _) => Is(q, c)
    case Withdrawing(q) => Is(q, c)
    case Releasing(_, next) => HeldBy(next, c)
    case Deleting(_, next) => HeldBy(next, c)
    case Freeing(_, next) => HeldBy(next, c)
    case _ => 0
  }

  function ShareOf(t: Thread, c: Id): Share {
    Share(if HasRef(t) then Is(RefOf(t), c) else 0,
          HoldsOf(t, c),
          if t.Deleting? then Is(t.c, c) else 0,
          if t.Freeing? then Is(t.c, c) else 0,
          if t.Running? then Is(t.q, c) else 0,
          if t.Starting? || t.Launching? || t.Withdrawing? then Is(t.c, c)
          else if (t.Releasing? || t.Deleting? || t.Freeing?) && Creates(t.next) then HeldBy(t.next, c)
          else 0)
  }

  function Total(ts: seq<Thread>, c: Id): Share {
    if ts == [] then Share(0, 0, 0, 0, 0, 0) else Plus(ShareOf(ts[0], c), Total(ts[1..], c))
  }

  function Plus(a: Share, b: Share): Share {
    Share(a.ref + b.ref, a.hold + b.hold, a.delete + b.delete, a.free + b.free, a.run + b.run, a.creation + b.creation)
  }

  /** How often the queue of `c` is in the global list. */
  function Count(list: seq<Id>, c: Id): nat {
    multiset(list)[c]
  }

  function Messages(fs: seq<Fate>): (ms: seq<Message>)
    ensures |ms| == |fs| && forall i | 0 <= i < |fs| :: ms[i] == fs[i].m
  {
    seq(|fs|, i requires 0 <= i < |fs| => fs[i].m)
  }

  /** Messages leave in order, each to exactly one fate, and none is dropped before the queue is released. */
  predicate Accounted(v: Service) {
    && v.pushed == Messages(v.done) + v.running + v.queue
    && (forall f | f in v.done && f.Dropped? :: v.release)
  }

  /** What holds of a service whose queue is `listed` times in the global list. */
  predicate Good(v: Service, listed: nat, k: Share) {
    // the counter counts the handle table and the threads that hold a reference
    && v.ref == (if v.registered then 1 else 0) + k.ref
    // the queue is in one place, or idle with its flag down; once freed it is nowhere
    && listed + k.hold == (if !v.freed && (v.inGlobal || v.release) then 1 else 0)
    // exactly one thread deletes the context, after the last reference is gone
    && k.delete == (if v.ref == 0 && !v.release then 1 else 0)
    && k.free == (if v.release && !v.ctxFreed then 1 else 0)
    && (v.release ==> v.ref == 0)
    && (v.freed ==> v.release)
    && (v.ctxFreed ==> v.release)
    // one callback at a time
    && k.run == |v.running| <= 1
    // only its creator has the queue of a service that has not started
    && (v.registered && !v.init ==> k.creation >= 1)
    && (k.creation >= 1 ==> !v.init)
    // a queue with messages is scheduled
    && (v.queue != [] ==> v.inGlobal && !v.freed)
    && Accounted(v)
  }

  predicate Consistent(s: State, c: Id) {
    c in s.services && Good(s.services[c], Count(s.list, c), Total(s.threads, c))
  }

  function NextMentioned(next: Next): set<Id> {
    if next.ToIdle? then {} else {next.q}
  }

  /** Services a thread refers to. */
  function Mentioned(t: Thread): set<Id> {
    match t
    case Idle => {}
    case Kept(q) => {q}
    case Serving(q) => {q}
    case Running(q, _) => {q}
    case Finishing(q) => {q}
    case Swapping(q, nq) => {q, nq}
    case Orphan(q) => {q}
    case Dropping(q) => {q}
    case Sending(c, _) => {c}
    case Starting(c) => {c}
    case Launching(c) => {c}
    case Publishing(c, _) => {c}
    case Logging(c) => {c}
    case Withdrawing(c) => {c}
    case Releasing(c, next) => {c} + NextMentioned(next)
    case Deleting(c, next) => {c} + NextMentioned(next)
    case Freeing(c, next) => {c} + NextMentioned(next)
  }

  predicate ThreadOk(s: State, t: Thread) {
    && Mentioned(t) <= s.services.Keys
    && (t.Running? ==> s.services[t.q].running == [t.m])
    && (t.Serving? || t.Running? ==> s.services[t.q].init)
    && ((t.Releasing? || t.Deleting? || t.Freeing?) && Creates(t.next) ==> t.next.q == t.c)
    && (t.Dropping? ==> s.services[t.q].release)
    && (t.Logging? || (t.Publishing? && t.alive) ==> s.services[t.c].init)
  }

  ghost predicate Inv(s: State) {
    && (forall t | 0 <= t < |s.threads| :: ThreadOk(s, s.threads[t]))
    && (forall c | c in s.list :: c in s.services)
    && (forall c | c in s.services :: Consistent(s, c))
  }

  // Counting

  /** `w` is part of `k`; callbacks and creations are holds. */
  predicate Within(w: Share, k: Share) {
    && w.ref <= k.ref && w.hold <= k.hold && w.delete <= k.delete && w.free <= k.free
    && w.run <= k.run && w.creation <= k.creation
    && k.run - w.run <= k.hold - w.hold
    && k.creation - w.creation <= k.hold - w.hold
  }

  lemma ShareHolds(t: Thread, c: Id)
    ensures ShareOf(t, c).run <= ShareOf(t, c).hold && ShareOf(t, c).creation <= ShareOf(t, c).hold
    ensures c !in Mentioned(t) ==> ShareOf(t, c) == Share(0, 0, 0, 0, 0, 0)
  {
  }

  lemma {:induction false} TotalUpdate(ts: seq<Thread>, t: nat, th: Thread, c: Id)
    requires t < |ts|
    ensures Plus(Total(ts[t := th], c), ShareOf(ts[t], c)) == Plus(Total(ts, c), ShareOf(th, c))
    decreases t
  {
    hide ShareOf;
    if t == 0 {
      assert ts[0 := th][1..] == ts[1..];
    } else {
      TotalUpdate(ts[1..], t - 1, th, c);
      assert ts[t := th][1..] == ts[1..][t - 1 := th];
    }
  }

  lemma {:induction false} TotalHolds(ts: seq<Thread>, c: Id)
    ensures Within(Share(0, 0, 0, 0, 0, 0), Total(ts, c))
  {
    hide ShareOf;
    if ts != [] {
      ShareHolds(ts[0], c);
      TotalHolds(ts[1..], c);
    }
  }

  lemma {:induction false} TotalWithin(ts: seq<Thread>, t: nat, c: Id)
    requires t < |ts|
    ensures Within(ShareOf(ts[t], c), Total(ts, c))
    decreases t
  {
    hide ShareOf;
    ShareHolds(ts[0], c);
    if t > 0 { TotalWithin(ts[1..], t - 1, c); } else { TotalHolds(ts[1..], c); }
  }

  /** Two threads. */
  lemma {:induction false} TotalTwo(ts: seq<Thread>, t: nat, u: nat, c: Id)
    requires t < u < |ts|
    ensures Total(ts, c).hold >= ShareOf(ts[t], c).hold + ShareOf(ts[u], c).hold
    decreases t
  {
    hide ShareOf;
    if t == 0 { TotalWithin(ts[1..], u - 1, c); } else { TotalTwo(ts[1..], t - 1, u - 1, c); }
  }

  lemma {:induction false} TotalNone(ts: seq<Thread>, c: Id)
    requires forall t | 0 <= t < |ts| :: c !in Mentioned(ts[t])
    ensures Total(ts, c) == Share(0, 0, 0, 0, 0, 0)
  {
    hide ShareOf, Mentioned;
    if ts != [] {
      assert c !in Mentioned(ts[0]);
      ShareHolds(ts[0], c);
      forall t | 0 <= t < |ts[1..]| ensures c !in Mentioned(ts[1..][t]) { assert ts[1..][t] == ts[t + 1]; }
      TotalNone(ts[1..], c);
    }
  }

  /** The total after a step in which thread `t` became `th`. */
  lemma After(s: State, t: nat, th: Thread, c: Id) returns (k: Share)
    requires t < |s.threads|
    ensures k == Total(s.threads[t := th], c)
    ensures Plus(k, ShareOf(s.threads[t], c)) == Plus(Total(s.threads, c), ShareOf(th, c))
    ensures Within(ShareOf(s.threads[t], c), Total(s.threads, c))
  {
    k := Total(s.threads[t := th], c);
    TotalUpdate(s.threads, t, th, c);
    TotalWithin(s.threads, t, c);
  }

  lemma ListedPush(list: seq<Id>, c: Id, d: Id)
    ensures Count(list + [d], c) == Count(list, c) + Is(d, c)
  {
  }

  lemma ListedPop(list: seq<Id>, c: Id)
    requires list != []
    ensures Count(list, c) == Count(list[1..], c) + Is(list[0], c)
  {
    assert list == [list[0]] + list[1..];
  }

  lemma MessagesAppend(fs: seq<Fate>, f: Fate)
    ensures Messages(fs + [f]) == Messages(fs) + [f.m]
  {
  }

  // What holds of a service, step by step: `k` and `l` are the shares before and after, `n` and `m` how often the queue
  // is in the list.

  /** A queue changes hands, or comes from or goes to the list. */
  lemma GoodMove(v: Service, n: nat, k: Share, m: nat, l: Share)
    requires Good(v, n, k) && m + l.hold == n + k.hold
    requires l == k.(hold := l.hold)
    ensures Good(v, m, l)
  {
  }

  lemma GoodGrab(v: Service, n: nat, k: Share, l: Share)
    requires Good(v, n, k) && (v.registered || k.ref >= 1)
    requires l == k.(ref := k.ref + 1)
    ensures Good(v.(ref := v.ref + 1), n, l)
  {
  }

  lemma GoodCall(v: Service, n: nat, k: Share, l: Share)
    requires Good(v, n, k) && v.queue != [] && k.hold >= 1 && k.run + 1 <= k.hold
    requires l == k.(run := k.run + 1)
    ensures Good(v.(queue := v.queue[1..], running := v.running + [v.queue[0]]), n, l)
  {
    assert v.queue == [v.queue[0]] + v.queue[1..];
  }

  lemma GoodIdle(v: Service, n: nat, k: Share, l: Share)
    requires Good(v, n, k) && v.queue == [] && k.hold >= 1 && k.ref >= 1
    requires l == k.(hold := k.hold - 1)
    ensures Good(v.(inGlobal := false), n, l)
  {
  }

  lemma GoodReturn(v: Service, n: nat, k: Share, l: Share, m: Message)
    requires Good(v, n, k) && v.running == [m] && k.run >= 1
    requires l == k.(run := k.run - 1)
    ensures Good(v.(running := [], done := v.done + [Dispatched(m)]), n, l)
  {
    MessagesAppend(v.done, Dispatched(m));
  }

  lemma GoodRelease(v: Service, n: nat, k: Share, l: Share)
    requires Good(v, n, k) && k.ref >= 1 && v.ref != 1
    requires l == k.(ref := k.ref - 1)
    ensures Good(v.(ref := v.ref - 1), n, l)
  {
  }

  lemma GoodInit(v: Service, n: nat, k: Share, l: Share)
    requires Good(v, n, k) && k.creation <= k.hold && l.creation + 1 == k.creation && l == k.(creation := l.creation)
    ensures Good(v.(init := true), n, l)
  {
  }

  lemma GoodLastRelease(v: Service, n: nat, k: Share, l: Share)
    requires Good(v, n, k) && k.ref >= 1 && v.ref == 1
    requires l == k.(ref := k.ref - 1, delete := k.delete + 1)
    ensures Good(v.(ref := 0), n, l)
  {
  }

  lemma GoodMark(v: Service, n: nat, k: Share, m: nat, l: Share)
    requires Good(v, n, k) && k.delete >= 1
    requires l == k.(delete := k.delete - 1, free := k.free + 1) && m == if v.inGlobal then n else n + 1
    ensures Good(v.(release := true), m, l)
  {
  }

  lemma GoodFree(v: Service, n: nat, k: Share, l: Share)
    requires Good(v, n, k) && k.free >= 1 && l.creation <= k.creation
    requires l == k.(free := k.free - 1, creation := l.creation)
    ensures Good(v.(ctxFreed := true), n, l)
  {
  }

  lemma GoodPush(v: Service, n: nat, k: Share, m: nat, l: Share, x: Message)
    requires Good(v, n, k) && k.ref >= 1
    requires l == k && m == if v.inGlobal then n else n + 1
    ensures Good(v.(queue := v.queue + [x], pushed := v.pushed + [x], inGlobal := true), m, l)
  {
    assert v.pushed + [x] == Messages(v.done) + v.running + (v.queue + [x]);
  }

  lemma GoodRetire(v: Service, n: nat, k: Share, l: Share)
    requires Good(v, n, k) && v.registered
    requires l == k.(ref := k.ref + 1, creation := l.creation) && l.creation <= k.creation
    ensures Good(v.(registered := false), n, l)
  {
  }

  lemma GoodWithdraw(v: Service, n: nat, k: Share, l: Share)
    requires Good(v, n, k) && !v.registered
    requires l == k.(creation := l.creation) && l.creation <= k.creation
    ensures Good(v, n, l)
  {
  }

  lemma GoodDrop(v: Service, n: nat, k: Share, l: Share)
    requires Good(v, n, k) && v.queue != [] && v.release && k.hold >= 1 && k.run + 1 <= k.hold
    requires l == k
    ensures Good(v.(queue := v.queue[1..], done := v.done + [Dropped(v.queue[0])]), n, l)
  {
    assert v.queue == [v.queue[0]] + v.queue[1..];
    MessagesAppend(v.done, Dropped(v.queue[0]));
  }

  lemma GoodFreed(v: Service, n: nat, k: Share, l: Share)
    requires Good(v, n, k) && v.queue == [] && v.release && k.hold >= 1
    requires l == k.(hold := k.hold - 1)
    ensures Good(v.(inGlobal := false, freed := true), n, l)
  {
  }

  lemma FreshGood()
    ensures Good(Fresh(), 0, Share(1, 1, 0, 0, 0, 1))
  {
  }

  // Every step keeps what holds of every service

  lemma KeepTake(s: State, a: Action, c: Id)
    requires Enabled(s, a) && a.Take? && Consistent(s, c) && ThreadOk(s, s.threads[a.t])
    ensures Consistent(Apply(s, a), c)
  {
    hide Good, Total, Count, Mentioned;
    var t, th, v, n, k := a.t, s.threads[a.t], s.services[c], Count(s.list, c), Total(s.threads, c);
    ListedPop(s.list, c);
    var l := After(s, t, Kept(s.list[0]), c);
    GoodMove(v, n, k, Count(s.list[1..], c), l);
  }

  lemma KeepPopNext(s: State, a: Action, c: Id)
    requires Enabled(s, a) && a.PopNext? && Consistent(s, c) && ThreadOk(s, s.threads[a.t])
    ensures Consistent(Apply(s, a), c)
  {
    hide Good, Total, Count, Mentioned;
    var t, th, v, n, k := a.t, s.threads[a.t], s.services[c], Count(s.list, c), Total(s.threads, c);
    if s.list != [] {
      ListedPop(s.list, c);
      var l := After(s, t, Swapping(th.q, s.list[0]), c);
      GoodMove(v, n, k, Count(s.list[1..], c), l);
    } else {
      var l := After(s, t, Releasing(th.q, KeepQueue(th.q)), c);
      assert l == k;
    }
  }

  lemma KeepGrab(s: State, a: Action, c: Id)
    requires Enabled(s, a) && a.Grab? && Consistent(s, c) && ThreadOk(s, s.threads[a.t])
    ensures Consistent(Apply(s, a), c)
  {
    hide Good, Total, Count, Mentioned;
    var t, th, v, n, k := a.t, s.threads[a.t], s.services[c], Count(s.list, c), Total(s.threads, c);
    var q := th.q;
    if s.services[q].registered {
      var l := After(s, t, Serving(q), c);
      if c == q { GoodGrab(v, n, k, l); } else { assert l == k; }
    } else {
      var l := After(s, t, Orphan(q), c);
      assert l == k;
    }
  }

  lemma KeepGrabFor(s: State, a: Action, c: Id)
    requires Enabled(s, a) && a.GrabFor? && Consistent(s, c) && ThreadOk(s, s.threads[a.t])
    ensures Consistent(Apply(s, a), c)
  {
    hide Good, Total, Count, Mentioned;
    var t, th, v, n, k := a.t, s.threads[a.t], s.services[c], Count(s.list, c), Total(s.threads, c);
    var l := After(s, t, Sending(a.c, a.m), c);
    if c == a.c { GoodGrab(v, n, k, l); } else { assert l == k; }
  }

  lemma KeepGrabAgain(s: State, a: Action, c: Id)
    requires Enabled(s, a) && a.GrabAgain? && Consistent(s, c) && ThreadOk(s, s.threads[a.t])
    ensures Consistent(Apply(s, a), c)
  {
    hide Good, Total, Count, Mentioned;
    var t, th, v, n, k := a.t, s.threads[a.t], s.services[c], Count(s.list, c), Total(s.threads, c);
    var d := RefOf(s.threads[a.other]);
    var l := After(s, t, Releasing(d, ToIdle), c);
    TotalWithin(s.threads, a.other, c);
    if c == d { GoodGrab(v, n, k, l); } else { assert l == k; }
  }

  lemma KeepPopMessage(s: State, a: Action, c: Id)
    requires Enabled(s, a) && a.PopMessage? && Consistent(s, c) && ThreadOk(s, s.threads[a.t])
    ensures Consistent(Apply(s, a), c)
  {
    hide Good, Total, Count, Mentioned;
    var t, th, v, n, k := a.t, s.threads[a.t], s.services[c], Count(s.list, c), Total(s.threads, c);
    var q := th.q;
    if s.services[q].queue != [] {
      var l := After(s, t, Running(q, s.services[q].queue[0]), c);
      if c == q { GoodCall(v, n, k, l); } else { assert l == k; }
    } else {
      var l := After(s, t, Releasing(q, ToIdle), c);
      if c == q { GoodIdle(v, n, k, l); } else { assert l == k; }
    }
  }

  lemma KeepEndMessage(s: State, a: Action, c: Id)
    requires Enabled(s, a) && a.EndMessage? && Consistent(s, c) && ThreadOk(s, s.threads[a.t])
    ensures Consistent(Apply(s, a), c)
  {
    hide Good, Total, Count, Mentioned;
    var t, th, v, n, k := a.t, s.threads[a.t], s.services[c], Count(s.list, c), Total(s.threads, c);
    var q := th.q;
    var l := After(s, t, if a.more then Serving(q) else Finishing(q), c);
    if c == q { GoodReturn(v, n, k, l, th.m); } else { assert l == k; }
  }

  lemma KeepPushBack(s: State, a: Action, c: Id)
    requires Enabled(s, a) && a.PushBack? && Consistent(s, c) && ThreadOk(s, s.threads[a.t])
    ensures Consistent(Apply(s, a), c)
  {
    hide Good, Total, Count, Mentioned;
    var t, th, v, n, k := a.t, s.threads[a.t], s.services[c], Count(s.list, c), Total(s.threads, c);
    ListedPush(s.list, c, th.q);
    var l := After(s, t, Releasing(th.q, KeepQueue(th.nq)), c);
    GoodMove(v, n, k, Count(s.list + [th.q], c), l);
  }

  lemma KeepPublish(s: State, a: Action, c: Id)
    requires Enabled(s, a) && a.PublishQueue? && Consistent(s, c) && ThreadOk(s, s.threads[a.t])
    ensures Consistent(Apply(s, a), c)
  {
    hide Good, Total, Count, Mentioned;
    var t, th, v, n, k := a.t, s.threads[a.t], s.services[c], Count(s.list, c), Total(s.threads, c);
    ListedPush(s.list, c, th.c);
    var l := After(s, t, if th.alive then Logging(th.c) else Idle, c);
    GoodMove(v, n, k, Count(s.list + [th.c], c), l);
  }

  lemma KeepSetInit(s: State, a: Action, c: Id)
    requires Enabled(s, a) && a.SetInit? && Consistent(s, c) && ThreadOk(s, s.threads[a.t])
    ensures Consistent(Apply(s, a), c)
  {
    hide Good, Total, Count, Mentioned;
    var t, th, v, n, k := a.t, s.threads[a.t], s.services[c], Count(s.list, c), Total(s.threads, c);
    var l := After(s, t, Publishing(th.c, true), c);
    if c == th.c { GoodInit(v, n, k, l); } else { assert l == k; }
  }

  lemma KeepWriteLog(s: State, a: Action, c: Id)
    requires Enabled(s, a) && a.WriteLog? && Consistent(s, c) && ThreadOk(s, s.threads[a.t])
    ensures Consistent(Apply(s, a), c)
  {
    hide Good, Total, Count, Mentioned;
    var l := After(s, a.t, Idle, c);
    assert l == Total(s.threads, c);
  }

  lemma KeepReleaseOrphan(s: State, a: Action, c: Id)
    requires Enabled(s, a) && a.ReleaseOrphan? && Consistent(s, c) && ThreadOk(s, s.threads[a.t])
    ensures Consistent(Apply(s, a), c)
  {
    hide Good, Total, Count, Mentioned;
    var t, th, v, n, k := a.t, s.threads[a.t], s.services[c], Count(s.list, c), Total(s.threads, c);
    var q := th.q;
    if s.services[q].release {
      var l := After(s, t, Dropping(q), c);
      assert l == k;
    } else {
      ListedPush(s.list, c, q);
      var l := After(s, t, Idle, c);
      GoodMove(v, n, k, Count(s.list + [q], c), l);
    }
  }

  lemma KeepMarkRelease(s: State, a: Action, c: Id)
    requires Enabled(s, a) && a.MarkRelease? && Consistent(s, c) && ThreadOk(s, s.threads[a.t])
    ensures Consistent(Apply(s, a), c)
  {
    hide Good, Total, Count, Mentioned;
    var t, th, v, n, k := a.t, s.threads[a.t], s.services[c], Count(s.list, c), Total(s.threads, c);
    var q := th.c;
    var list := if s.services[q].inGlobal then s.list else s.list + [q];
    ListedPush(s.list, c, q);
    var l := After(s, t, Freeing(q, th.next), c);
    var m := Count(list, c);
    if c == q { GoodMark(v, n, k, m, l); } else { assert l == k && m == n; }
  }

  lemma KeepPushMessage(s: State, a: Action, c: Id)
    requires Enabled(s, a) && a.PushMessage? && Consistent(s, c) && ThreadOk(s, s.threads[a.t])
    ensures Consistent(Apply(s, a), c)
  {
    hide Good, Total, Count, Mentioned;
    var t, th, v, n, k := a.t, s.threads[a.t], s.services[c], Count(s.list, c), Total(s.threads, c);
    var q := th.c;
    var list := if s.services[q].inGlobal then s.list else s.list + [q];
    ListedPush(s.list, c, q);
    var l := After(s, t, Releasing(q, ToIdle), c);
    var m := Count(list, c);
    if c == q { GoodPush(v, n, k, m, l, th.m); } else { assert l == k && m == n; }
  }

  lemma KeepRelease(s: State, a: Action, c: Id)
    requires Enabled(s, a) && a.Release? && Consistent(s, c) && ThreadOk(s, s.threads[a.t])
    requires s.services[s.threads[a.t].c].ref != 1
    ensures Consistent(Apply(s, a), c)
  {
    hide Good, Total, Count, Mentioned;
    var t, th, v, n, k := a.t, s.threads[a.t], s.services[c], Count(s.list, c), Total(s.threads, c);
    var l := After(s, t, Continue(th.next, false), c);
    ContinueShare(th.next, false, c);
    if c == th.c { GoodRelease(v, n, k, l); } else { assert l == k; }
  }

  lemma KeepLastRelease(s: State, a: Action, c: Id)
    requires Enabled(s, a) && a.Release? && Consistent(s, c) && ThreadOk(s, s.threads[a.t])
    requires s.services[s.threads[a.t].c].ref == 1
    ensures Consistent(Apply(s, a), c)
  {
    hide Good, Total, Count, Mentioned;
    var t, th, v, n, k := a.t, s.threads[a.t], s.services[c], Count(s.list, c), Total(s.threads, c);
    var l := After(s, t, Deleting(th.c, th.next), c);
    if c == th.c { GoodLastRelease(v, n, k, l); } else { assert l == k; }
  }

  lemma KeepFreeContext(s: State, a: Action, c: Id)
    requires Enabled(s, a) && a.FreeContext? && Consistent(s, c) && ThreadOk(s, s.threads[a.t])
    ensures Consistent(Apply(s, a), c)
  {
    hide Good, Total, Count, Mentioned;
    var t, th, v, n, k := a.t, s.threads[a.t], s.services[c], Count(s.list, c), Total(s.threads, c);
    var l := After(s, t, Continue(th.next, true), c);
    ContinueShare(th.next, true, c);
    if c == th.c { GoodFree(v, n, k, l); } else { assert l == k; }
  }

  lemma KeepInit(s: State, a: Action, c: Id)
    requires Enabled(s, a) && (a.InitOk? || a.InitFail?) && Consistent(s, c) && ThreadOk(s, s.threads[a.t])
    ensures Consistent(Apply(s, a), c)
  {
    hide Good, Total, Count, Mentioned;
    var t, th, v, n, k := a.t, s.threads[a.t], s.services[c], Count(s.list, c), Total(s.threads, c);
    var l := After(s, t, Releasing(th.c, if a.InitOk? then Publish(th.c) else RetireOwn(th.c)), c);
    assert l == k;
  }

  lemma KeepRetire(s: State, a: Action, c: Id)
    requires Enabled(s, a) && a.Retire? && Consistent(s, c) && ThreadOk(s, s.threads[a.t])
    ensures Consistent(Apply(s, a), c)
  {
    hide Good, Total, Count, Mentioned;
    var t, th, v, n, k := a.t, s.threads[a.t], s.services[c], Count(s.list, c), Total(s.threads, c);
    var l := After(s, t, Releasing(a.c, ToIdle), c);
    if c == a.c { GoodRetire(v, n, k, l); } else { assert l == k; }
  }

  lemma KeepRetireNew(s: State, a: Action, c: Id)
    requires Enabled(s, a) && a.RetireNew? && Consistent(s, c) && ThreadOk(s, s.threads[a.t])
    ensures Consistent(Apply(s, a), c)
  {
    hide Good, Total, Count, Mentioned;
    var t, th, v, n, k := a.t, s.threads[a.t], s.services[c], Count(s.list, c), Total(s.threads, c);
    var q := th.c;
    if s.services[q].registered {
      var l := After(s, t, Releasing(q, ReleaseQueue(q)), c);
      if c == q { GoodRetire(v, n, k, l); } else { assert l == k; }
    } else {
      var l := After(s, t, Orphan(q), c);
      if c == q { GoodWithdraw(v, n, k, l); } else { assert l == k; }
    }
  }

  lemma KeepDropOne(s: State, a: Action, c: Id)
    requires Enabled(s, a) && a.DropOne? && Consistent(s, c) && ThreadOk(s, s.threads[a.t])
    ensures Consistent(Apply(s, a), c)
  {
    hide Good, Total, Count, Mentioned;
    var t, th, v, n, k := a.t, s.threads[a.t], s.services[c], Count(s.list, c), Total(s.threads, c);
    var q := th.q;
    if s.services[q].queue != [] {
      TotalWithin(s.threads, t, c);
      if c == q { GoodDrop(v, n, k, k); }
    } else {
      var l := After(s, t, Idle, c);
      if c == q { GoodFreed(v, n, k, l); } else { assert l == k; }
    }
  }

  lemma KeepCreate(s: State, a: Action, c: Id)
    requires Enabled(s, a) && a.Create? && Consistent(s, c) && ThreadOk(s, s.threads[a.t])
    ensures Consistent(Apply(s, a), c)
  {
    hide Good, Total, Count, Mentioned;
    var t, th, v, n, k := a.t, s.threads[a.t], s.services[c], Count(s.list, c), Total(s.threads, c);
    var l := After(s, t, Starting(a.c), c);
    assert c != a.c && l == k;
  }

  lemma ContinueShare(next: Next, freed: bool, c: Id)
    ensures ShareOf(Continue(next, freed), c) ==
            Share(0, HeldBy(next, c), 0, 0, 0,
                  if next.RetireOwn? || (next.Publish? && !freed) then HeldBy(next, c) else 0)
  {
  }

  lemma KeepCreated(s: State, a: Action)
    requires Enabled(s, a) && a.Create? && Total(s.threads, a.c) == Share(0, 0, 0, 0, 0, 0) && Count(s.list, a.c) == 0
    ensures Consistent(Apply(s, a), a.c)
  {
    hide Good, Total, Count, Mentioned;
    var k := After(s, a.t, Starting(a.c), a.c);
    FreshGood();
    assert k == Share(1, 1, 0, 0, 0, 1);
  }

  lemma Unknown(s: State, c: Id)
    requires Inv(s) && c !in s.services
    ensures Total(s.threads, c) == Share(0, 0, 0, 0, 0, 0) && Count(s.list, c) == 0
  {
    forall t | 0 <= t < |s.threads| ensures c !in Mentioned(s.threads[t]) {
      assert ThreadOk(s, s.threads[t]);
    }
    TotalNone(s.threads, c);
  }

  lemma KeepService(s: State, a: Action, c: Id)
    requires Inv(s) && Enabled(s, a) && c in Apply(s, a).services
    ensures Consistent(Apply(s, a), c)
  {
    if c !in s.services {
      assert a.Create? && a.c == c;
      Unknown(s, c);
      KeepCreated(s, a);
    } else {
      assert ThreadOk(s, s.threads[a.t]);
      assert Consistent(s, c);
      KeepNear(s, a, c);
    }
  }

  lemma KeepNear(s: State, a: Action, c: Id)
    requires Enabled(s, a) && Consistent(s, c) && ThreadOk(s, s.threads[a.t])
    ensures Consistent(Apply(s, a), c)
  {
    match a
    case Take(_) => KeepTake(s, a, c);
    case Grab(_) => KeepGrab(s, a, c);
    case PopMessage(_) => KeepPopMessage(s, a, c);
    case EndMessage(_, _) => KeepEndMessage(s, a, c);
    case PopNext(_) => KeepPopNext(s, a, c);
    case PushBack(_) => KeepPushBack(s, a, c);
    case Release(_) => if s.services[s.threads[a.t].c].ref == 1 {
      KeepLastRelease(s, a, c);
    } else {
      KeepRelease(s, a, c);
    }
    case MarkRelease(_) => KeepMarkRelease(s, a, c);
    case FreeContext(_) => KeepFreeContext(s, a, c);
    case GrabFor(_, _, _) => KeepGrabFor(s, a, c);
    case PushMessage(_) => KeepPushMessage(s, a, c);
    case Retire(_, _) => KeepRetire(s, a, c);
    case GrabAgain(_, _) => KeepGrabAgain(s, a, c);
    case Create(_, _) => KeepCreate(s, a, c);
    case InitOk(_) => KeepInit(s, a, c);
    case InitFail(_) => KeepInit(s, a, c);
    case SetInit(_) => KeepSetInit(s, a, c);
    case PublishQueue(_) => KeepPublish(s, a, c);
    case WriteLog(_) => KeepWriteLog(s, a, c);
    case RetireNew(_) => KeepRetireNew(s, a, c);
    case ReleaseOrphan(_) => KeepReleaseOrphan(s, a, c);
    case DropOne(_) => KeepDropOne(s, a, c);
  }

  // Every step keeps what holds of every thread

  /** Services are never forgotten, and neither a start nor a release is undone. */
  lemma Grows(s: State, a: Action, c: Id)
    requires Enabled(s, a) && c in s.services
    ensures c in Apply(s, a).services
    ensures var v, w := s.services[c], Apply(s, a).services[c];
            && (v.init ==> w.init) && (v.release ==> w.release)
            && (w.running != v.running ==> (a.PopMessage? || a.EndMessage?) && c == s.threads[a.t].q)
  {
  }

  lemma ThreadStays(s: State, a: Action, th: Thread)
    requires Enabled(s, a) && ThreadOk(s, th)
    requires th.Running? ==> Apply(s, a).services[th.q].running == s.services[th.q].running
    ensures ThreadOk(Apply(s, a), th)
  {
    forall c | c in Mentioned(th) ensures c in Apply(s, a).services { Grows(s, a, c); }
    if th.Running? || th.Serving? || th.Dropping? { Grows(s, a, th.q); }
    if th.Logging? || th.Publishing? { Grows(s, a, th.c); }
  }

  /** What the next step of thread `th` relies on. */
  predicate Ready(s: State, th: Thread) {
    && ThreadOk(s, th)
    && (s.list != [] ==> s.list[0] in s.services)
    && (th.Kept? && s.services[th.q].registered ==> s.services[th.q].init)
    && (th.Serving? ==> s.services[th.q].running == [])
  }

  lemma KeepThread(s: State, a: Action)
    requires Enabled(s, a) && Ready(s, s.threads[a.t])
    requires a.GrabAgain? ==> ThreadOk(s, s.threads[a.other])
    ensures ThreadOk(Apply(s, a), Apply(s, a).threads[a.t])
  {
    hide WorkerStep, ReferenceStep, CreatorStep, ThreadOk, Ready;
    if ByWorker(a) { KeepWorker(s, a); } else if ByReference(a) { KeepReference(s, a); } else { KeepCreator(s, a); }
  }

  lemma KeepWorker(s: State, a: Action)
    requires Enabled(s, a) && ByWorker(a) && Ready(s, s.threads[a.t])
    ensures ThreadOk(WorkerStep(s, a), WorkerStep(s, a).threads[a.t])
  {
    var u := WorkerStep(s, a);
    assert Mentioned(u.threads[a.t]) <= u.services.Keys;
  }

  lemma KeepReference(s: State, a: Action)
    requires Enabled(s, a) && ByReference(a) && Ready(s, s.threads[a.t])
    requires a.GrabAgain? ==> ThreadOk(s, s.threads[a.other])
    ensures ThreadOk(ReferenceStep(s, a), ReferenceStep(s, a).threads[a.t])
  {
    var u := ReferenceStep(s, a);
    assert Mentioned(u.threads[a.t]) <= u.services.Keys;
  }

  lemma KeepCreator(s: State, a: Action)
    requires Enabled(s, a) && !ByWorker(a) && !ByReference(a) && Ready(s, s.threads[a.t])
    ensures ThreadOk(CreatorStep(s, a), CreatorStep(s, a).threads[a.t])
  {
    var u := CreatorStep(s, a);
    assert Mentioned(u.threads[a.t]) <= u.services.Keys;
  }

  lemma ThreadReady(s: State, t: nat)
    requires Inv(s) && t < |s.threads|
    ensures Ready(s, s.threads[t])
  {
    var th := s.threads[t];
    assert ThreadOk(s, th);
    if s.list != [] { assert s.list[0] in s.services; }
    if th.Kept? || th.Serving? {
      assert Consistent(s, th.q);
      TotalWithin(s.threads, t, th.q);
    }
  }

  /** Only one thread has the queue of a service in hand. */
  lemma HeldOnce(s: State, t: nat, u: nat, c: Id)
    requires Inv(s) && t < |s.threads| && u < |s.threads| && t != u && c in s.services
    requires HoldsOf(s.threads[t], c) > 0
    ensures HoldsOf(s.threads[u], c) == 0
  {
    assert Consistent(s, c);
    if t < u { TotalTwo(s.threads, t, u, c); } else { TotalTwo(s.threads, u, t, c); }
  }

  lemma KeepOtherThread(s: State, a: Action, u: nat)
    requires Inv(s) && Enabled(s, a) && u < |s.threads| && u != a.t
    ensures ThreadOk(Apply(s, a), s.threads[u])
  {
    var th := s.threads[a.t];
    assert ThreadOk(s, th) && ThreadOk(s, s.threads[u]);
    if s.threads[u].Running? {
      Grows(s, a, s.threads[u].q);
      if a.PopMessage? || a.EndMessage? { HeldOnce(s, a.t, u, th.q); }
    }
    ThreadStays(s, a, s.threads[u]);
  }

  lemma KeepList(s: State, a: Action, c: Id)
    requires Enabled(s, a) && ThreadOk(s, s.threads[a.t]) && c in Apply(s, a).list
    requires c in s.list ==> c in s.services
    ensures c in Apply(s, a).services
  {
    if c in s.services { Grows(s, a, c); }
  }

  lemma KeepInv(s: State, a: Action)
    requires Inv(s) && Enabled(s, a)
    ensures Inv(Apply(s, a))
  {
    var u := Apply(s, a);
    ThreadReady(s, a.t);
    forall t | 0 <= t < |u.threads| ensures ThreadOk(u, u.threads[t]) {
      if t == a.t {
        if a.GrabAgain? { assert ThreadOk(s, s.threads[a.other]); }
        KeepThread(s, a);
      } else {
        Steady(s, a);
        KeepOtherThread(s, a, t);
      }
    }
    forall c | c in u.list ensures c in u.services { KeepList(s, a, c); }
    forall c | c in u.services ensures Consistent(u, c) { KeepService(s, a, c); }
  }

  lemma Steady(s: State, a: Action)
    requires Enabled(s, a)
    ensures Apply(s, a).threads == s.threads[a.t := Apply(s, a).threads[a.t]]
  {
  }
}
