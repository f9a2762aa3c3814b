/** The data structures under the scheduler (skynet_mq.c): the ring buffer of a service's queue, which doubles when it
    fills up, and the global list that links the queues themselves. */
module SkynetQueue {
  import opened RingBuffer

  type Message = nat

  const DEFAULT_QUEUE_SIZE: nat := 64
  const MQ_OVERLOAD: nat := 1024

  /** `overload_threshold` after a pop that leaves `length` messages: doubled until it is not below the length. */
  function Raised(threshold: nat, length: nat): (r: nat)
    requires threshold > 0
    decreases length - threshold
  {
    if length > threshold then Raised(2 * threshold, length) else threshold
  }

  /** The new threshold covers the length, and is no more than twice what was needed. */
  lemma {:induction false} RaisedCovers(threshold: nat, length: nat)
    requires threshold > 0
    ensures Raised(threshold, length) >= length && Raised(threshold, length) >= threshold
    ensures Raised(threshold, length) == threshold || Raised(threshold, length) < 2 * length
    decreases length - threshold
  {
    if length > threshold { RaisedCovers(2 * threshold, length); }
  }

  class MessageQueue {
    var cap: nat
    var head: nat
    var tail: nat
    var release: bool
    var inGlobal: bool
    var overload: nat
    var overloadThreshold: nat
    var queue: array<Message>
    var next: MessageQueue?

    ghost predicate Valid()
      reads this, queue
    {
      && 0 < cap == queue.Length && head < cap && tail < cap
      && overloadThreshold > 0
    }

    ghost function Contents(): seq<Message>
      requires Valid()
      reads this, queue
    {
      Ring(queue[..], head, tail)
    }

    /** `skynet_mq_create`: the flag is up although the queue is in no list, for its creator has it. */
    constructor ()
      ensures Valid() && fresh(queue) && Contents() == [] && inGlobal && !release && next == null
      ensures overload == 0 && overloadThreshold == MQ_OVERLOAD
    {
      cap, head, tail := DEFAULT_QUEUE_SIZE, 0, 0;
      inGlobal, release := true, false;
      overload, overloadThreshold := 0, MQ_OVERLOAD;
      queue := new Message[DEFAULT_QUEUE_SIZE];
      next := null;
    }

    /** `skynet_mq_length`. */
    method Length() returns (n: nat)
      requires Valid()
      ensures n == |Contents()|
    {
      if head <= tail {
        return tail - head;
      }
      return tail + cap - head;
    }

    /** `skynet_mq_overload`: read and clear. */
    method TakeOverload() returns (n: nat)
      modifies this`overload
      ensures n == old(overload) && overload == 0
    {
      n := overload;
      overload := 0;
    }

    /** `skynet_mq_pop`. An empty queue lowers its flag: nobody will look at it until the next push. */
    method Pop() returns (ok: bool, message: Message)
      requires Valid()
      modifies this`head, this`inGlobal, this`overload, this`overloadThreshold
      ensures Valid() && ok == (old(Contents()) != [])
      ensures ok ==>
                && old(Contents()) == [message] + Contents()
                && inGlobal == old(inGlobal)
                && overloadThreshold == Raised(old(overloadThreshold), |Contents()|)
                && overload == if |Contents()| > old(overloadThreshold) then |Contents()| else old(overload)
      ensures !ok ==> Contents() == [] && !inGlobal && overload == old(overload) && overloadThreshold == MQ_OVERLOAD
    {
      message := 0;
      if head != tail {
        RingPop(queue[..], head, tail);
        message := queue[head];
        head := head + 1;
        if head >= cap {
          head := 0;
        }
        ok := true;
        var length: int := tail - head;
        if length < 0 {
          length := length + cap;
        }
        Watch(length);
      } else {
        ok := false;
        overloadThreshold := MQ_OVERLOAD;
        inGlobal := false;
      }
    }

    /** The loop of `skynet_mq_pop` that records an overload. */
    method Watch(length: nat)
      requires overloadThreshold > 0
      modifies this`overload, this`overloadThreshold
      ensures overloadThreshold == Raised(old(overloadThreshold), length) > 0
      ensures overload == if length > old(overloadThreshold) then length else old(overload)
    {
      while length > overloadThreshold
        invariant overloadThreshold > 0
        invariant Raised(overloadThreshold, length) == Raised(old(overloadThreshold), length)
        invariant overload == if overloadThreshold > old(overloadThreshold) then length else old(overload)
        invariant overloadThreshold >= old(overloadThreshold)
        invariant overloadThreshold > old(overloadThreshold) ==> length > old(overloadThreshold)
        decreases length - overloadThreshold
      {
        overload := length;
        overloadThreshold := overloadThreshold * 2;
      }
    }

    /** `expand_queue`: called when the ring has filled up, so that `head == tail` with all slots in use. */
    method ExpandQueue()
      requires Valid() && head == tail
      modifies this`cap, this`head, this`tail, this`queue
      ensures Valid() && fresh(queue) && cap == 2 * old(cap)
      ensures Contents() == old(queue[head..] + queue[..head])
    {
      ghost var all := queue[head..] + queue[..head];
      var bigger := new Message[cap * 2];
      var i := 0;
      while i < cap
        modifies bigger
        invariant 0 <= i <= cap
        invariant forall k | 0 <= k < i :: bigger[k] == all[k]
      {
        Wrap(head + i, cap);
        bigger[i] := queue[(head + i) % cap];
        i := i + 1;
      }
      head := 0;
      tail := cap;
      cap := cap * 2;
      queue := bigger;
      assert queue[..][head..tail] == all;
    }

    /** `skynet_mq_push`: tells whether the queue has to go to the global list. */
    method Push(message: Message) returns (toGlobal: bool)
      requires Valid()
      modifies this`cap, this`head, this`tail, this`queue, this`inGlobal, queue
      ensures Valid() && (queue == old(queue) || fresh(queue))
      ensures Contents() == old(Contents()) + [message]
      ensures toGlobal == !old(inGlobal) && inGlobal
    {
      RingPush(queue[..], head, tail, message);
      queue[tail] := message;
      tail := tail + 1;
      if tail >= cap {
        tail := 0;
      }
      if head == tail {
        ExpandQueue();
      }
      toGlobal := !inGlobal;
      inGlobal := true;
    }

    /** `skynet_mq_mark_release`: likewise. */
    method MarkRelease() returns (toGlobal: bool)
      requires !release
      modifies this`release
      ensures release && toGlobal == !inGlobal
    {
      release := true;
      toGlobal := !inGlobal;
    }
  }

  /** The global list: the queues are linked through their `next` fields. */
  class GlobalQueue {
    var head: MessageQueue?
    var tail: MessageQueue?
    ghost var queues: seq<MessageQueue>

    ghost predicate Valid()
      reads this, queues
    {
      && (forall i, j | 0 <= i < j < |queues| :: queues[i] != queues[j])
      && (if queues == [] then head == null && tail == null
          else head == queues[0] && tail == queues[|queues| - 1] && tail.next == null)
      && (forall i | 0 <= i < |queues| - 1 :: queues[i].next == queues[i + 1])
    }

    constructor ()
      ensures Valid() && queues == []
    {
      head, tail := null, null;
      queues := [];
    }

    /** `skynet_globalmq_push`. */
    method Push(queue: MessageQueue)
      requires Valid() && queue !in queues && queue.next == null
      modifies this, if queues == [] then {} else {queues[|queues| - 1]}
      ensures Valid() && queues == old(queues) + [queue]
    {
      if tail != null {
        tail.next := queue;
        tail := queue;
      } else {
        head, tail := queue, queue;
      }
      queues := queues + [queue];
    }

    /** `skynet_globalmq_pop`. */
    method Pop() returns (queue: MessageQueue?)
      requires Valid()
      modifies this, if queues == [] then {} else {queues[0]}
      ensures Valid()
      ensures old(queues) == [] ==> queue == null && queues == []
      ensures old(queues) != [] ==> queue == old(queues)[0] && queues == old(queues)[1..] && queue.next == null
    {
      queue := head;
      if queue != null {
        head := queue.next;
        assert |queues| > 1 ==> queues[0].next == queues[0 + 1];
        if head == null {
          tail := null;
        }
        queue.next := null;
        queues := queues[1..];
      }
    }
  }
}
