/** The hierarchical timer wheel (skynet_timer.c): 256 lists for the near future and four levels of 64 lists, each list
    cascaded down when the 32-bit clock reaches it. */
module SkynetTimer {
  import opened Common

  /** 2^32, the range of the clock. */
  const WRAP: nat := 0x1_0000_0000

  type Time = t: int | 0 <= t < 0x1_0000_0000

  type Event = nat

  /** A node of a list: what to dispatch, and when (`expire`). */
  datatype Node = Node(event: Event, expire: Time)

  const NEAR: nat := 256
  const LEVELS: nat := 64

  /** A list of the wheel. */
  datatype Place = Near(k: nat) | Level(i: nat, k: nat)

  /** What one list of level `i` spans. */
  function Span(i: nat): (n: nat)
    ensures n > 0
  {
    if i == 0 then 0x100 else if i == 1 then 0x4000 else if i == 2 then 0x10_0000 else 0x400_0000
  }

  /** `add_node`: the list for a node that expires at `e`, at time `now`. */
  function Where(e: Time, now: Time): Place {
    if e / 0x100 == now / 0x100 then Near(e % 0x100)
    else if e / 0x4000 == now / 0x4000 then Level(0, e / 0x100 % 64)
    else if e / 0x10_0000 == now / 0x10_0000 then Level(1, e / 0x4000 % 64)
    else if e / 0x400_0000 == now / 0x400_0000 then Level(2, e / 0x10_0000 % 64)
    else Level(3, e / 0x400_0000 % 64)
  }

  predicate IsPlace(p: Place) {
    if p.Near? then p.k < NEAR else p.i < 4 && p.k < LEVELS
  }

  /** What one list of level `i + 1` spans: the mask of round `i` of `add_node`. */
  function MaskOf(i: nat): (n: nat)
    ensures n > 0
  {
    if i == 0 then 0x4000 else if i == 1 then 0x10_0000 else if i == 2 then 0x400_0000 else WRAP
  }

  /** Ticks until `e`. */
  function Remaining(e: Time, now: Time): Time {
    if e >= now then e - now else e + WRAP - now
  }

  function Tick(now: Time): Time {
    if now + 1 == WRAP then 0 else now + 1
  }

  /** The list that `timer_shift` cascades when the clock has become `now`, if any. */
  function Cascade(now: Time): (p: Place)
    ensures IsPlace(p)
  {
    if now == 0 then Level(3, 0)
    else if now % 0x100 != 0 then Near(0)
    else if now / 0x100 % 64 != 0 then Level(0, now / 0x100 % 64)
    else if now / 0x4000 % 64 != 0 then Level(1, now / 0x4000 % 64)
    else if now / 0x10_0000 % 64 != 0 then Level(2, now / 0x10_0000 % 64)
    else Level(3, now / 0x400_0000 % 64)
  }

  // Digits of a time

  datatype Digits = Digits(near: int, d0: int, d1: int, d2: int, d3: int)

  predicate Proper(d: Digits) {
    0 <= d.near < 256 && 0 <= d.d0 < 64 && 0 <= d.d1 < 64 && 0 <= d.d2 < 64 && 0 <= d.d3 < 64
  }

  function ValueOf(d: Digits): int {
    d.near + 0x100 * d.d0 + 0x4000 * d.d1 + 0x10_0000 * d.d2 + 0x400_0000 * d.d3
  }

  function DigitsOf(t: Time): Digits {
    Digits(t % 0x100, t / 0x100 % 64, t / 0x4000 % 64, t / 0x10_0000 % 64, t / 0x400_0000 % 64)
  }

  lemma DigitsMean(t: Time)
    ensures Proper(DigitsOf(t)) && ValueOf(DigitsOf(t)) == t
    ensures var d := DigitsOf(t);
            && t / 0x400_0000 == d.d3
            && t / 0x10_0000 == d.d2 + 64 * d.d3
            && t / 0x4000 == d.d1 + 64 * (d.d2 + 64 * d.d3)
            && t / 0x100 == d.d0 + 64 * (d.d1 + 64 * (d.d2 + 64 * d.d3))
  {
    var a := t / 0x100;
    var b := a / 64;
    var c := b / 64;
    assert t / 0x4000 == b;
    assert t / 0x10_0000 == c;
    assert t / 0x400_0000 == c / 64;
  }

  /** How far the digits agree decides the list. */
  lemma WhereByDigits(e: Time, now: Time)
    ensures var a, b := DigitsOf(e), DigitsOf(now);
            Where(e, now) ==
            if a.d3 != b.d3 then Level(3, a.d3)
            else if a.d2 != b.d2 then Level(2, a.d2)
            else if a.d1 != b.d1 then Level(1, a.d1)
            else if a.d0 != b.d0 then Level(0, a.d0)
            else Near(a.near)
  {
    DigitsMean(e);
    DigitsMean(now);
  }

  /** A pending node: it expires within half the range of the clock. */
  predicate Pending(e: Time, now: Time) {
    0 < Remaining(e, now) < 0x8000_0000
  }

  /** Counting up, digit by digit. */
  function NextDigits(d: Digits): Digits {
    if d.near < 255 then d.(near := d.near + 1)
    else if d.d0 < 63 then Digits(0, d.d0 + 1, d.d1, d.d2, d.d3)
    else if d.d1 < 63 then Digits(0, 0, d.d1 + 1, d.d2, d.d3)
    else if d.d2 < 63 then Digits(0, 0, 0, d.d2 + 1, d.d3)
    else if d.d3 < 63 then Digits(0, 0, 0, 0, d.d3 + 1)
    else Digits(0, 0, 0, 0, 0)
  }

  lemma Carry256(x: nat)
    ensures (x + 1) % 256 == if x % 256 == 255 then 0 else x % 256 + 1
    ensures (x + 1) / 256 == if x % 256 == 255 then x / 256 + 1 else x / 256
  {
  }

  lemma Carry64(x: nat)
    ensures (x + 1) % 64 == if x % 64 == 63 then 0 else x % 64 + 1
    ensures (x + 1) / 64 == if x % 64 == 63 then x / 64 + 1 else x / 64
  {
  }

  /** The digits, each from the quotient before. */
  lemma DigitsByQuotients(t: Time)
    ensures var q0 := t / 0x100;
            var q1 := q0 / 64;
            var q2 := q1 / 64;
            var q3 := q2 / 64;
            DigitsOf(t) == Digits(t % 0x100, q0 % 64, q1 % 64, q2 % 64, q3) && 0 <= q3 < 64
  {
    var q0 := t / 0x100;
    assert t / 0x4000 == q0 / 64;
    assert t / 0x10_0000 == q0 / 64 / 64;
    assert t / 0x400_0000 == q0 / 64 / 64 / 64;
  }

  lemma TickDigits(now: Time)
    ensures DigitsOf(Tick(now)) == NextDigits(DigitsOf(now))
  {
    hide DigitsOf;
    DigitsByQuotients(now);
    DigitsByQuotients(Tick(now));
    if now + 1 == WRAP {
      LastDigits();
      FirstDigits();
    } else {
      Carry256(now);
      Carry64(now / 0x100);
      Carry64(now / 0x100 / 64);
      Carry64(now / 0x100 / 64 / 64);
    }
  }

  lemma LastDigits()
    ensures DigitsOf(0xffff_ffff) == Digits(255, 63, 63, 63, 63)
  {
  }

  lemma FirstDigits()
    ensures DigitsOf(0) == Digits(0, 0, 0, 0, 0)
  {
  }

  lemma NotZero(now: Time)
    requires now != 0
    ensures DigitsOf(now) != Digits(0, 0, 0, 0, 0)
  {
    hide DigitsOf;
    DigitsMean(now);
  }

  lemma CascadeByDigits(now: Time)
    ensures var d := DigitsOf(now);
            Cascade(now) ==
            if d == Digits(0, 0, 0, 0, 0) then Level(3, 0)
            else if d.near != 0 then Near(0)
            else if d.d0 != 0 then Level(0, d.d0)
            else if d.d1 != 0 then Level(1, d.d1)
            else if d.d2 != 0 then Level(2, d.d2)
            else Level(3, d.d3)
    ensures now % 0x100 == DigitsOf(now).near
  {
    if now == 0 { FirstDigits(); } else { NotZero(now); }
  }

  /** One tick: a pending node is in the list that is cascaded, or its list stays right. */
  lemma TickKeeps(e: Time, now: Time)
    requires Pending(e, now)
    ensures Where(e, Tick(now)) == Where(e, now) || Where(e, now) == Cascade(Tick(now))
    ensures Tick(now) % 0x100 != 0 ==> Where(e, Tick(now)) == Where(e, now)
  {
    hide Where, Cascade, Tick, DigitsOf;
    WhereByDigits(e, now);
    WhereByDigits(e, Tick(now));
    DigitsMean(e);
    DigitsMean(now);
    TickDigits(now);
    CascadeByDigits(Tick(now));
  }

  lemma TickRemaining(e: Time, now: Time)
    requires Pending(e, now)
    ensures Remaining(e, Tick(now)) == Remaining(e, now) - 1
    ensures Remaining(e, Tick(now)) == 0 <==> e == Tick(now)
  {
  }

  // Lists of nodes

  /** The nodes that expire at `e`, in order. */
  function OfExpire(ns: seq<Node>, e: Time): seq<Node> {
    if ns == [] then []
    else OfExpire(ns[..|ns| - 1], e) + if ns[|ns| - 1].expire == e then [ns[|ns| - 1]] else []
  }

  /** The others. */
  function Without(ns: seq<Node>, e: Time): seq<Node> {
    if ns == [] then []
    else Without(ns[..|ns| - 1], e) + if ns[|ns| - 1].expire == e then [] else [ns[|ns| - 1]]
  }

  lemma OfExpireAppend(ns: seq<Node>, n: Node, e: Time)
    ensures OfExpire(ns + [n], e) == OfExpire(ns, e) + if n.expire == e then [n] else []
    ensures Without(ns + [n], e) == Without(ns, e) + if n.expire == e then [] else [n]
  {
    assert (ns + [n])[..|ns|] == ns;
  }

  lemma {:induction false} OfExpireFirst(n: Node, ns: seq<Node>, e: Time)
    ensures OfExpire([n] + ns, e) == (if n.expire == e then [n] else []) + OfExpire(ns, e)
  {
    if ns == [] {
      assert [n] + ns == [] + [n];
      OfExpireAppend([], n, e);
    } else {
      var k := |ns| - 1;
      OfExpireFirst(n, ns[..k], e);
      assert [n] + ns == ([n] + ns[..k]) + [ns[k]];
      OfExpireAppend([n] + ns[..k], ns[k], e);
    }
  }

  lemma {:induction false} OfExpireIn(ns: seq<Node>, e: Time)
    ensures forall n | n in ns && n.expire == e :: n in OfExpire(ns, e)
    ensures forall n | n in OfExpire(ns, e) :: n in ns && n.expire == e
    ensures (forall n | n in ns :: n.expire != e) ==> OfExpire(ns, e) == []
    ensures (forall n | n in ns :: n.expire == e) ==> OfExpire(ns, e) == ns
    ensures forall n | n in Without(ns, e) :: n in ns && n.expire != e
  {
    if ns != [] {
      OfExpireIn(ns[..|ns| - 1], e);
      assert ns == ns[..|ns| - 1] + [ns[|ns| - 1]];
    }
  }

  lemma {:induction false} OfExpireWithout(ns: seq<Node>, e: Time, f: Time)
    ensures OfExpire(Without(ns, e), f) == if e == f then [] else OfExpire(ns, f)
  {
    if ns != [] {
      OfExpireWithout(ns[..|ns| - 1], e, f);
      if ns[|ns| - 1].expire != e { OfExpireAppend(Without(ns[..|ns| - 1], e), ns[|ns| - 1], f); }
      else { assert Without(ns[..|ns| - 1], e) + [] == Without(ns[..|ns| - 1], e); }
      if ns[|ns| - 1].expire != f { assert OfExpire(ns[..|ns| - 1], f) + [] == OfExpire(ns[..|ns| - 1], f); }
    }
  }

  // The wheel as a function from places to lists

  type Lists = Place -> seq<Node>

  /** Every node is in the list where `add_node` would put it now, and for every time of expiry the wheel holds the
      pending nodes in the order in which they were added, but for those of `rest`, still to be put back. */
  ghost predicate Holds(at: Lists, now: Time, pending: seq<Node>, rest: seq<Node>) {
    && (forall p, n | IsPlace(p) && n in at(p) :: Where(n.expire, now) == p)
    && (forall e: Time {:trigger OfExpire(pending, e)} ::
      OfExpire(at(Where(e, now)), e) + OfExpire(rest, e) == OfExpire(pending, e))
  }

  ghost predicate AllPending(pending: seq<Node>, now: Time) {
    forall n | n in pending :: Pending(n.expire, now)
  }

  lemma WhereValid(e: Time, now: Time)
    ensures IsPlace(Where(e, now))
  {
  }

  /** What `add_node` does to the lists. */
  ghost predicate Linked(at: Lists, at': Lists, p: Place, n: Node) {
    forall q :: IsPlace(q) ==> at'(q) == if q == p then at(p) + [n] else at(q)
  }

  lemma LinkKeeps(at: Lists, at': Lists, now: Time, pending: seq<Node>, pending': seq<Node>, rest: seq<Node>,
        rest': seq<Node>, n: Node)
    requires Holds(at, now, pending, rest) && Linked(at, at', Where(n.expire, now), n)
    requires (pending' == pending && rest == [n] + rest') || (pending' == pending + [n] && rest == rest' == [])
    ensures Holds(at', now, pending', rest')
  {
    hide Where, IsPlace;
    WhereValid(n.expire, now);
    forall e: Time ensures OfExpire(at'(Where(e, now)), e) + OfExpire(rest', e) == OfExpire(pending', e) {
      WhereValid(e, now);
      var l, l', here := at(Where(e, now)), at'(Where(e, now)), Where(e, now) == Where(n.expire, now);
      if |pending'| == |pending| {
        LinkNext(l, l', here, pending, rest, rest', n, e);
      } else {
        LinkLast(l, l', here, pending, n, e);
      }
    }
  }

  /** One list, for one time of expiry: `here` tells whether the node went to this list. It came from the list that is
      being moved ... */
  lemma LinkNext(l: seq<Node>, l': seq<Node>, here: bool, pending: seq<Node>, rest: seq<Node>, rest': seq<Node>,
        n: Node, e: Time)
    requires OfExpire(l, e) + OfExpire(rest, e) == OfExpire(pending, e)
    requires l' == (if here then l + [n] else l) && (n.expire == e ==> here) && rest == [n] + rest'
    ensures OfExpire(l', e) + OfExpire(rest', e) == OfExpire(pending, e)
  {
    hide OfExpire;
    OfExpireFirst(n, rest', e);
    if here { OfExpireAppend(l, n, e); }
    if n.expire == e {
      Assoc(OfExpire(l, e), [n], OfExpire(rest', e));
    } else {
      NoMore(OfExpire(l, e));
      NoMore(OfExpire(rest', e));
    }
  }

  /** ... or is new. */
  lemma LinkLast(l: seq<Node>, l': seq<Node>, here: bool, pending: seq<Node>, n: Node, e: Time)
    requires OfExpire(l, e) + OfExpire([], e) == OfExpire(pending, e)
    requires l' == (if here then l + [n] else l) && (n.expire == e ==> here)
    ensures OfExpire(l', e) + OfExpire([], e) == OfExpire(pending + [n], e)
  {
    hide OfExpire;
    OfExpireNone(e);
    OfExpireAppend(pending, n, e);
    if here { OfExpireAppend(l, n, e); }
    NoMore(OfExpire(l, e));
    NoMore(OfExpire(l', e));
  }

  lemma OfExpireNone(e: Time)
    ensures OfExpire([], e) == []
  {
  }

  /** A pending node's list decides where it is. */
  lemma InPending(at: Lists, now: Time, pending: seq<Node>, p: Place, n: Node)
    requires Holds(at, now, pending, []) && IsPlace(p) && n in at(p)
    ensures n in pending
  {
    OfExpireIn(at(p), n.expire);
    OfExpireIn(pending, n.expire);
    assert OfExpire(at(Where(n.expire, now)), n.expire) + OfExpire([], n.expire) == OfExpire(pending, n.expire);
  }

  /** The lists when the clock has ticked and the list to be cascaded is taken out. */
  ghost predicate TakenOut(at: Lists, at': Lists, p: Place) {
    forall q :: IsPlace(q) ==> at'(q) == if q == p then [] else at(q)
  }

  lemma TickHolds(at: Lists, at': Lists, now: Time, pending: seq<Node>)
    requires Holds(at, now, pending, []) && AllPending(pending, now)
    requires TakenOut(at, at', Cascade(Tick(now))) && Tick(now) % 0x100 == 0
    ensures Holds(at', Tick(now), pending, at(Cascade(Tick(now))))
  {
    hide Where, IsPlace, Cascade, Tick;
    var next, c := Tick(now), Cascade(Tick(now));
    forall p, n | IsPlace(p) && n in at'(p) ensures Where(n.expire, next) == p {
      InPending(at, now, pending, p, n);
      TickKeeps(n.expire, now);
    }
    forall e: Time ensures OfExpire(at'(Where(e, next)), e) + OfExpire(at(c), e) == OfExpire(pending, e) {
      ExpireMoves(at, at', now, pending, e);
    }
  }

  lemma ExpireMoves(at: Lists, at': Lists, now: Time, pending: seq<Node>, e: Time)
    requires Holds(at, now, pending, []) && AllPending(pending, now) && TakenOut(at, at', Cascade(Tick(now)))
    ensures OfExpire(at'(Where(e, Tick(now))), e) + OfExpire(at(Cascade(Tick(now))), e) == OfExpire(pending, e)
  {
    hide Where, IsPlace, Cascade, Tick, OfExpire, Pending;
    OfExpireNone(e);
    var next, c := Tick(now), Cascade(Tick(now));
    WhereValid(e, now);
    WhereValid(e, next);
    assert OfExpire(at(Where(e, now)), e) + OfExpire([], e) == OfExpire(pending, e);
    var here := at'(Where(e, next));
    OfExpireIn(here, e);
    OfExpireIn(at(c), e);
    OfExpireIn(pending, e);
    if Where(e, now) == c {
      forall n | n in here ensures n.expire != e { }
    } else if exists n :: n in pending && n.expire == e {
      TickKeeps(e, now);
    } else {
      forall n | n in here || n in at(c) ensures n.expire != e {
        if n.expire == e { InPending(at, now, pending, if n in here then Where(e, next) else c, n); }
      }
    }
  }

  lemma TickSame(at: Lists, now: Time, pending: seq<Node>)
    requires Holds(at, now, pending, []) && AllPending(pending, now) && Tick(now) % 0x100 != 0
    ensures Holds(at, Tick(now), pending, [])
  {
    hide IsPlace, Cascade, Tick;
    assert forall e: Time :: Where(e, Tick(now)) == Where(e, now) by {
      forall e: Time ensures Where(e, Tick(now)) == Where(e, now) { SameBlock(e, now); }
    }
  }

  lemma SameBlock(e: Time, now: Time)
    requires Tick(now) % 0x100 != 0
    ensures Where(e, Tick(now)) == Where(e, now)
  {
    hide Where;
    WhereByDigits(e, now);
    WhereByDigits(e, Tick(now));
    DigitsMean(now);
    DigitsMean(Tick(now));
  }

  /** The list of the present holds exactly the nodes that expire now. */
  lemma NearIsDue(at: Lists, now: Time, pending: seq<Node>)
    requires Holds(at, now, pending, [])
    ensures at(Near(now % 0x100)) == OfExpire(pending, now)
  {
    var p := Near(now % 0x100);
    assert Where(now, now) == p && IsPlace(p);
    forall n | n in at(p) ensures n.expire == now {
      assert Where(n.expire, now) == p;
      assert n.expire / 0x100 == now / 0x100 && n.expire % 0x100 == now % 0x100;
    }
    OfExpireIn(at(p), now);
    assert OfExpire(at(p), now) + OfExpire([], now) == OfExpire(pending, now);
  }

  lemma OnlyNow(e: Time, now: Time)
    ensures Where(e, now) == Near(now % 0x100) <==> e == now
  {
    if Where(e, now) == Near(now % 0x100) { assert e / 0x100 == now / 0x100 && e % 0x100 == now % 0x100; }
  }

  lemma DispatchKeeps(at: Lists, at': Lists, now: Time, pending: seq<Node>)
    requires Holds(at, now, pending, []) && TakenOut(at, at', Near(now % 0x100))
    ensures Holds(at', now, Without(pending, now), [])
  {
    var p := Near(now % 0x100);
    NearIsDue(at, now, pending);
    forall e: Time ensures OfExpire(at'(Where(e, now)), e) + OfExpire([], e) == OfExpire(Without(pending, now), e) {
      WhereValid(e, now);
      OfExpireWithout(pending, now, e);
      assert OfExpire(at(Where(e, now)), e) + OfExpire([], e) == OfExpire(pending, e);
      OnlyNow(e, now);
    }
  }

  // The timer

  /** The lists of the two arrays. */
  function Wheel(near: seq<seq<Node>>, levels: seq<seq<Node>>): Lists {
    (p: Place) =>
      if p.Near? && p.k < |near| then near[p.k]
      else if p.Level? && 64 * p.i + p.k < |levels| then levels[64 * p.i + p.k]
      else []
  }

  class Timer {
    var near: array<seq<Node>>
    var levels: array<seq<Node>>         // level i, list k at 64 * i + k
    var time: Time
    ghost var pending: seq<Node>         // in the order in which they were added

    ghost function At(): Lists
      reads this, near, levels
    {
      Wheel(near[..], levels[..])
    }

    ghost predicate Shaped()
      reads this
    {
      near.Length == NEAR && levels.Length == 4 * LEVELS && near != levels
    }

    ghost predicate Valid()
      reads this, near, levels
    {
      Shaped() && Holds(At(), time, pending, []) && AllPending(pending, time)
    }

    constructor (now: Time)
      ensures Valid() && time == now && pending == [] && fresh(near) && fresh(levels)
    {
      near := new seq<Node>[NEAR](_ => []);
      levels := new seq<Node>[4 * LEVELS](_ => []);
      time := now;
      pending := [];
      new;
      assert forall p :: Wheel(near[..], levels[..])(p) == [];
    }

    /** `link`. */
    method Link(p: Place, node: Node)
      requires Shaped() && IsPlace(p)
      modifies near, levels
      ensures Linked(old(At()), At(), p, node)
    {
      if p.Near? {
        near[p.k] := near[p.k] + [node];
      } else {
        levels[64 * p.i + p.k] := levels[64 * p.i + p.k] + [node];
      }
      forall q | IsPlace(q) ensures At()(q) == if q == p then old(At())(p) + [node] else old(At())(q) { }
    }

    /** `add_node`: the loop widens the mask until the two times agree above it. */
    method AddNode(node: Node)
      requires Shaped()
      modifies near, levels
      ensures Linked(old(At()), At(), Where(node.expire, time), node)
    {
      var expire := node.expire;
      if expire / NEAR == time / NEAR {
        Link(Near(expire % NEAR), node);
      } else {
        var i := 0;
        var mask := NEAR * LEVELS;
        while i < 3
          invariant 0 <= i <= 3 && mask == MaskOf(i)
          invariant forall j | 0 <= j < i :: expire / MaskOf(j) != time / MaskOf(j)
          decreases 3 - i
        {
          if expire / mask == time / mask {
            break;
          }
          mask := mask * LEVELS;
          i := i + 1;
        }
        assert i < 3 ==> expire / MaskOf(i) == time / MaskOf(i);
        assert expire / MaskOf(0) == time / MaskOf(0) <==> i == 0;
        assert i > 0 ==> (expire / MaskOf(1) == time / MaskOf(1) <==> i == 1);
        assert i > 1 ==> (expire / MaskOf(2) == time / MaskOf(2) <==> i == 2);
        Link(Level(i, expire / Span(i) % LEVELS), node);
      }
    }

    /** `timer_add`: the deadline may wrap around. */
    method TimerAdd(event: Event, delay: nat)
      requires Valid() && 0 < delay < 0x8000_0000
      modifies this`pending, near, levels
      ensures Valid()
      ensures pending == old(pending) + [Node(event, (time + delay) % WRAP)]
    {
      var node := Node(event, (time + delay) % WRAP);
      ghost var at := At();
      AddNode(node);
      LinkKeeps(at, At(), time, pending, pending + [node], [], [], node);
      assert Remaining(node.expire, time) == delay;
      pending := pending + [node];
    }

    /** `move_list`: empty the list and add its nodes anew. */
    method MoveList(level: nat, idx: nat, ghost was: Time)
      requires Shaped() && level < 4 && idx < LEVELS
      requires Holds(At(), was, pending, []) && AllPending(pending, was)
      requires time == Tick(was) && time % 0x100 == 0 && Cascade(time) == Level(level, idx)
      modifies near, levels
      ensures Holds(At(), time, pending, [])
    {
      hide Where, Cascade, Tick, Pending, OfExpire;
      ghost var at := At();
      var current := levels[64 * level + idx];
      levels[64 * level + idx] := [];
      assert forall q :: IsPlace(q) ==> At()(q) == if q == Level(level, idx) then [] else at(q);
      TickHolds(at, At(), was, pending);
      while current != []
        invariant Holds(At(), time, pending, current)
        decreases |current|
      {
        var node := current[0];
        ghost var before := At();
        AddNode(node);
        assert current == [node] + current[1..];
        LinkKeeps(before, At(), time, pending, pending, current, current[1..], node);
        current := current[1..];
      }
    }

    /** `timer_shift`: tick, and cascade the list the clock has reached. */
    method TimerShift()
      requires Valid()
      modifies this`time, near, levels
      ensures Shaped() && time == Tick(old(time)) && Holds(At(), time, pending, [])
    {
      ghost var was := time;
      time := if time + 1 == WRAP then 0 else time + 1;
      if time == 0 {
        MoveList(3, 0, was);
      } else if time % NEAR != 0 {
        TickSame(At(), was, pending);
      } else {
        var mask := NEAR;
        var rest := time / NEAR;
        var i := 0;
        DigitsMean(time);
        while time % mask == 0
          invariant 0 <= i <= 3 && mask == Span(i) && rest == time / mask && time % mask == 0
          invariant forall j | 0 <= j < i :: time / Span(j) % LEVELS == 0
          decreases 4 - i
        {
          var idx := rest % LEVELS;
          if idx != 0 {
            assert Cascade(time) == Level(i, idx);
            MoveList(i, idx, was);
            return;
          }
          assert i < 3;
          assert time % Span(i + 1) == 0 && time / Span(i + 1) == time / Span(i) / LEVELS;
          mask := mask * LEVELS;
          rest := rest / LEVELS;
          i := i + 1;
        }
        assert false;
      }
    }

    /** `timer_execute`: dispatch the list of the present, in order. */
    method TimerExecute() returns (fired: seq<Node>)
      requires Shaped() && Holds(At(), time, pending, [])
      modifies this`pending, near
      ensures Shaped() && Holds(At(), time, pending, [])
      ensures fired == OfExpire(old(pending), time) && pending == Without(old(pending), time)
    {
      var idx := time % NEAR;
      fired := near[idx];
      ghost var at := At();
      NearIsDue(at, time, pending);
      near[idx] := [];
      assert forall q :: IsPlace(q) ==> At()(q) == if q == Near(idx) then [] else at(q);
      DispatchKeeps(at, At(), time, pending);
      pending := Without(pending, time);
    }

    /** `timer_update`: nothing is due at the present time; then one tick, and what is due now fires. */
    method TimerUpdate() returns (fired: seq<Node>)
      requires Valid()
      modifies this`time, this`pending, near, levels
      ensures Valid() && time == Tick(old(time))
      ensures fired == OfExpire(old(pending), time) && pending == Without(old(pending), time)
    {
      ghost var was, all := time, pending;
      fired := TimerExecute();
      NoneDue(all, was);
      assert fired == [] && pending == all;
      TimerShift();
      fired := TimerExecute();
      OfExpireIn(all, time);
      forall n | n in pending ensures Pending(n.expire, time) { TickRemaining(n.expire, was); }
    }
  }

  lemma {:induction false} NoneDue(pending: seq<Node>, now: Time)
    requires AllPending(pending, now)
    ensures OfExpire(pending, now) == [] && Without(pending, now) == pending
  {
    hide Pending;
    if pending != [] {
      var n := pending[|pending| - 1];
      NoneDue(pending[..|pending| - 1], now);
      assert n in pending;
      NotNow(n.expire, now);
      assert pending == pending[..|pending| - 1] + [n];
    }
  }

  lemma NotNow(e: Time, now: Time)
    requires Pending(e, now)
    ensures e != now
  {
  }

  // Runs: every timer fires once, at the update it asked for

  datatype Op = Add(event: Event, delay: nat) | Update

  predicate Legal(ops: seq<Op>) {
    forall op | op in ops && op.Add? :: 0 < op.delay < 0x8000_0000
  }

  function Events(ns: seq<Node>): seq<Event> {
    if ns == [] then [] else Events(ns[..|ns| - 1]) + [ns[|ns| - 1].event]
  }

  /** What the updates of `ops` dispatch, one sequence for each. */
  function Fires(now: Time, pending: seq<Node>, ops: seq<Op>): seq<seq<Event>>
    decreases |ops|
  {
    if ops == [] then [] else
    match ops[0]
    case Add(event, delay) => Fires(now, pending + [Node(event, (now + delay) % WRAP)], ops[1..])
    case Update =>
      [Events(OfExpire(pending, Tick(now)))] + Fires(Tick(now), Without(pending, Tick(now)), ops[1..])
  }

  function Updates(ops: seq<Op>): nat {
    if ops == [] then 0 else (if ops[0].Update? then 1 else 0) + Updates(ops[1..])
  }

  /** The events that are to fire at update number `at`: those added when `at - delay` updates had been made. */
  function Due(ops: seq<Op>, done: nat, at: nat): seq<Event> {
    if ops == [] then [] else
    match ops[0]
    case Add(event, delay) => (if done + delay == at then [event] else []) + Due(ops[1..], done, at)
    case Update => Due(ops[1..], done + 1, at)
  }

  /** A pending timer by the number of the update that is to fire it. */
  datatype Alarm = Alarm(event: Event, at: nat)

  function OnClock(start: Time, a: Alarm): Node {
    Node(a.event, (start + a.at) % WRAP)
  }

  function OnClockAll(start: Time, alarms: seq<Alarm>): (ns: seq<Node>)
    ensures |ns| == |alarms| && forall i | 0 <= i < |ns| :: ns[i] == OnClock(start, alarms[i])
  {
    seq(|alarms|, i requires 0 <= i < |alarms| => OnClock(start, alarms[i]))
  }

  function Ringing(alarms: seq<Alarm>, at: nat): seq<Event> {
    if alarms == [] then []
    else Ringing(alarms[..|alarms| - 1], at) + if alarms[|alarms| - 1].at == at then [alarms[|alarms| - 1].event]
      else []
  }

  function Later(alarms: seq<Alarm>, at: nat): seq<Alarm> {
    if alarms == [] then []
    else Later(alarms[..|alarms| - 1], at) + if alarms[|alarms| - 1].at == at then [] else [alarms[|alarms| - 1]]
  }

  /** Alarms to come, within half the range of the clock. */
  predicate Coming(alarms: seq<Alarm>, done: nat) {
    forall a | a in alarms :: done < a.at < done + 0x8000_0000
  }

  function Clock(start: Time, done: nat): Time {
    (start + done) % WRAP
  }

  lemma ModStep(x: nat)
    ensures (x + 1) % WRAP == if x % WRAP + 1 == WRAP then 0 else x % WRAP + 1
  {
  }

  lemma ModNear(x: nat, y: nat)
    requires x <= y < x + 0x8000_0000 && x % WRAP == y % WRAP
    ensures x == y
  {
  }

  lemma ClockTick(start: Time, done: nat)
    ensures Tick(Clock(start, done)) == Clock(start, done + 1)
  {
    ModStep(start + done);
  }

  lemma ModAdd(x: nat, d: nat)
    ensures (x % WRAP + d) % WRAP == (x + d) % WRAP
  {
    var q := x / WRAP;
    assert x == q * WRAP + x % WRAP;
    assert x + d == q * WRAP + (x % WRAP + d);
  }

  /** On the clock, the nodes due next are the alarms with the next number. */
  lemma {:induction false} DueNext(start: Time, alarms: seq<Alarm>, done: nat)
    requires Coming(alarms, done)
    ensures Events(OfExpire(OnClockAll(start, alarms), Clock(start, done + 1))) == Ringing(alarms, done + 1)
    ensures Without(OnClockAll(start, alarms), Clock(start, done + 1)) == OnClockAll(start, Later(alarms, done + 1))
    ensures Coming(Later(alarms, done + 1), done + 1)
  {
    if alarms == [] {
      assert OnClockAll(start, alarms) == [];
    } else {
      var k := |alarms| - 1;
      assert alarms == alarms[..k] + [alarms[k]] && alarms[k] in alarms;
      assert forall a | a in alarms[..k] :: a in alarms;
      DueNext(start, alarms[..k], done);
      DueNextOne(start, alarms[..k], done, alarms[k]);
    }
  }

  lemma DueNextOne(start: Time, alarms: seq<Alarm>, done: nat, a: Alarm)
    requires done < a.at < done + 0x8000_0000
    requires Events(OfExpire(OnClockAll(start, alarms), Clock(start, done + 1))) == Ringing(alarms, done + 1)
    requires Without(OnClockAll(start, alarms), Clock(start, done + 1)) == OnClockAll(start, Later(alarms, done + 1))
    requires Coming(Later(alarms, done + 1), done + 1)
    ensures Events(OfExpire(OnClockAll(start, alarms + [a]), Clock(start, done + 1))) == Ringing(alarms + [a], done + 1)
    ensures Without(OnClockAll(start, alarms + [a]), Clock(start, done + 1))
      == OnClockAll(start, Later(alarms + [a], done + 1))
    ensures Coming(Later(alarms + [a], done + 1), done + 1)
  {
    hide Events, OfExpire, Without, Ringing, Later, OnClockAll;
    var now, n := Clock(start, done + 1), OnClock(start, a);
    LaterClock(start, alarms, a);
    OfExpireAppend(OnClockAll(start, alarms), n, now);
    RingingAppend(alarms, a, done + 1);
    LaterAppend(alarms, a, done + 1);
    if n.expire == now { ModNear(start + done + 1, start + a.at); }
    assert n.expire == now <==> a.at == done + 1;
    var ns := OfExpire(OnClockAll(start, alarms), now);
    EventsAppend(ns, n);
    LaterClock(start, Later(alarms, done + 1), a);
    assert ns + [] == ns;
  }

  lemma LaterAppend(alarms: seq<Alarm>, a: Alarm, at: nat)
    ensures Later(alarms + [a], at) == Later(alarms, at) + if a.at == at then [] else [a]
  {
    assert (alarms + [a])[..|alarms|] == alarms;
  }

  lemma EventsAppend(ns: seq<Node>, n: Node)
    ensures Events(ns + [n]) == Events(ns) + [n.event]
  {
    assert (ns + [n])[..|ns|] == ns;
  }

  lemma LaterClock(start: Time, alarms: seq<Alarm>, a: Alarm)
    ensures OnClockAll(start, alarms + [a]) == OnClockAll(start, alarms) + [OnClock(start, a)]
    ensures OnClockAll(start, alarms + []) == OnClockAll(start, alarms) + []
  {
    assert alarms + [] == alarms;
  }

  lemma {:induction false} RingingLater(alarms: seq<Alarm>, at: nat, other: nat)
    requires other != at
    ensures Ringing(Later(alarms, at), other) == Ringing(alarms, other)
  {
    if alarms != [] {
      var k := |alarms| - 1;
      RingingLater(alarms[..k], at, other);
      RingingAppend(Later(alarms[..k], at), alarms[k], other);
    }
  }

  lemma RingingAppend(alarms: seq<Alarm>, a: Alarm, at: nat)
    ensures Ringing(alarms + [a], at) == Ringing(alarms, at) + if a.at == at then [a.event] else []
    ensures Ringing(alarms + [], at) == Ringing(alarms, at)
  {
    assert (alarms + [a])[..|alarms|] == alarms;
    assert alarms + [] == alarms;
  }

  lemma {:induction false} NothingYet(ops: seq<Op>, done: nat, at: nat)
    requires Legal(ops) && at <= done
    ensures Due(ops, done, at) == []
  {
    if ops != [] {
      assert ops[0] in ops;
      assert forall op | op in ops[1..] :: op in ops;
      NothingYet(ops[1..], if ops[0].Update? then done + 1 else done, at);
    }
  }

  lemma SomeOp(ops: seq<Op>)
    requires Updates(ops) > 0
    ensures ops != []
  {
  }

  lemma OneOp(now: Time, pending: seq<Node>, ops: seq<Op>, done: nat, at: nat)
    requires ops != []
    ensures ops[0].Add? ==>
              && Fires(now, pending, ops) == Fires(now, pending + [Node(ops[0].event, (now + ops[0].delay) % WRAP)],
                ops[1..])
              && Due(ops, done, at) == (if done + ops[0].delay == at then [ops[0].event] else [])
                + Due(ops[1..], done, at)
              && Updates(ops) == Updates(ops[1..])
    ensures ops[0].Update? ==>
              && Fires(now, pending, ops) ==
                 [Events(OfExpire(pending, Tick(now)))] + Fires(Tick(now), Without(pending, Tick(now)), ops[1..])
              && Due(ops, done, at) == Due(ops[1..], done + 1, at)
              && Updates(ops) == Updates(ops[1..]) + 1
  {
    hide OfExpire, Without, Tick, Events;
  }

  /** The general statement: with some timers pending, update number `u` fires those of them that are due, then those of
      `ops` that are. */
  lemma {:induction false} FiresExactly(start: Time, alarms: seq<Alarm>, done: nat, ops: seq<Op>, u: nat)
    requires Legal(ops) && Coming(alarms, done) && u < Updates(ops)
    ensures var fires := Fires(Clock(start, done), OnClockAll(start, alarms), ops);
            |fires| == Updates(ops) && fires[u] == Ringing(alarms, done + 1 + u) + Due(ops, done, done + 1 + u)
    decreases |ops|
  {
    hide Tick, Clock, OfExpire, Without, OnClockAll, Ringing, Later, Events, Fires, Due, Updates;
    SomeOp(ops);
    OneOp(Clock(start, done), OnClockAll(start, alarms), ops, done, done + 1 + u);
    var rest := ops[1..];
    assert ops[0] in ops;
    assert forall op | op in rest :: op in ops;
    match ops[0]
    case Add(event, delay) =>
      var a := Alarm(event, done + delay);
      AddedNode(start, alarms, done, event, delay);
      FiresExactly(start, alarms + [a], done, rest, u);
      RingingAppend(alarms, a, done + 1 + u);
    case Update =>
      ClockTick(start, done);
      DueNext(start, alarms, done);
      if u == 0 {
        NothingYet(rest, done + 1, done + 1);
        if Updates(rest) > 0 {
          FiresExactly(start, Later(alarms, done + 1), done + 1, rest, 0);
        } else {
          NoFires(Tick(Clock(start, done)), OnClockAll(start, Later(alarms, done + 1)), rest);
        }
      } else {
        FiresExactly(start, Later(alarms, done + 1), done + 1, rest, u - 1);
        RingingLater(alarms, done + 1, done + 1 + u);
      }
  }

  lemma {:induction false} NoFires(now: Time, pending: seq<Node>, ops: seq<Op>)
    requires Updates(ops) == 0
    ensures Fires(now, pending, ops) == []
    decreases |ops|
  {
    if ops != [] { NoFires(now, pending + [Node(ops[0].event, (now + ops[0].delay) % WRAP)], ops[1..]); }
  }

  lemma AddedNode(start: Time, alarms: seq<Alarm>, done: nat, event: Event, delay: nat)
    ensures OnClockAll(start, alarms) + [Node(event, (Clock(start, done) + delay) % WRAP)]
            == OnClockAll(start, alarms + [Alarm(event, done + delay)])
  {
    ModAdd(start + done, delay);
    LaterClock(start, alarms, Alarm(event, done + delay));
  }

  /** From an empty wheel at any clock value: the `u`-th update dispatches exactly the timers whose delay ends there,
      each once, in the order in which they were added, however often the clock wraps around. */
  lemma Exact(start: Time, ops: seq<Op>, u: nat)
    requires Legal(ops) && u < Updates(ops)
    ensures |Fires(start, [], ops)| == Updates(ops) && Fires(start, [], ops)[u] == Due(ops, 0, u + 1)
  {
    FiresExactly(start, [], 0, ops, u);
    assert OnClockAll(start, []) == [];
    assert Ringing([], u + 1) + Due(ops, 0, u + 1) == Due(ops, 0, u + 1);
  }

  /** The wheel does what `Fires` says. */
  method Run(timer: Timer, ops: seq<Op>) returns (fires: seq<seq<Event>>)
    requires timer.Valid() && timer.pending == [] && Legal(ops)
    modifies timer, timer.near, timer.levels
    ensures fires == Fires(old(timer.time), [], ops)
  {
    hide OfExpire, Without, Tick, Events, Holds, AllPending;
    fires := [];
    var i := 0;
    while i < |ops|
      invariant 0 <= i <= |ops| && timer.Valid()
      invariant timer.near == old(timer.near) && timer.levels == old(timer.levels)
      invariant Fires(old(timer.time), [], ops) == fires + Fires(timer.time, timer.pending, ops[i..])
    {
      assert ops[i..][0] == ops[i] && ops[i..][1..] == ops[i + 1..] && ops[i] in ops;
      match ops[i] {
        case Add(event, delay) =>
          timer.TimerAdd(event, delay);
        case Update =>
          var fired := timer.TimerUpdate();
          fires := fires + [Events(fired)];
      }
      i := i + 1;
    }
    assert ops[i..] == [];
  }
}
