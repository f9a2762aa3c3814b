/** A ring buffer in an array: `head` is the first item, `tail` the first free slot. */
module RingBuffer {

  /** The items of a ring with the given storage, first to last. */
  function Ring<T>(data: seq<T>, head: nat, tail: nat): (s: seq<T>)
    requires head < |data| && tail < |data|
    ensures |s| == if head <= tail then tail - head else tail + |data| - head
  {
    if head <= tail then data[head..tail] else data[head..] + data[..tail]
  }

  lemma Wrap(x: nat, n: nat)
    requires x < 2 * n
    ensures x % n == if x < n then x else x - n
  {
    if x >= n { assert x == n + (x - n); }
  }

  /** Taking the first item moves the head on. */
  lemma RingPop<T>(data: seq<T>, head: nat, tail: nat)
    requires head < |data| && tail < |data| && head != tail
    ensures var next := if head + 1 < |data| then head + 1 else 0;
            Ring(data, head, tail) == [data[head]] + Ring(data, next, tail)
  {
    if head > tail { assert data[head..] == [data[head]] + data[head + 1..]; }
  }

  /** Storing an item at the tail, unless that fills the ring. */
  lemma RingPush<T>(data: seq<T>, head: nat, tail: nat, item: T)
    requires head < |data| && tail < |data|
    ensures var next := if tail + 1 < |data| then tail + 1 else 0;
            var d := data[tail := item];
            (if next == head then d[head..] + d[..head] else Ring(d, head, next)) == Ring(data, head, tail) + [item]
  {
  }
}
