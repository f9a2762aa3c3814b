/** The handle store (skynet_handle.c): a slot table of live services that doubles when a scan finds no free slot, and a
    sorted array of names. It refines a map from handles to services and a map from names to handles. */
module HandleStore {
  import opened Common
  import opened Numbers

  const HANDLE_MASK: int := 0xff_ffff
  const SPAN: int := 0x100_0000
  const DEFAULT_SLOT_SIZE: nat := 4
  const MAX_SLOT_SIZE: nat := 0x4000_0000

  /** A service, and the handle it got. */
  datatype Context = Context(id: nat, handle: nat)

  // Powers of two

  function TwoTo(k: nat): (p: nat)
    ensures p > 0
  {
    if k == 0 then 1 else 2 * TwoTo(k - 1)
  }

  lemma {:induction false} TwoToAdd(j: nat, k: nat)
    ensures TwoTo(j + k) == TwoTo(j) * TwoTo(k)
  {
    if j > 0 {
      TwoToAdd(j - 1, k);
      assert 2 * (TwoTo(j - 1) * TwoTo(k)) == 2 * TwoTo(j - 1) * TwoTo(k);
    }
  }

  lemma TwoToSpan()
    ensures TwoTo(24) == SPAN && TwoTo(30) == MAX_SLOT_SIZE
  {
    assert TwoTo(12) == 0x1000;
    TwoToAdd(12, 12);
    TwoToAdd(6, 24);
  }

  lemma {:induction false} TwoToLess(j: nat, k: nat)
    requires TwoTo(j) < TwoTo(k)
    ensures 2 * TwoTo(j) <= TwoTo(k)
  {
    if j > 0 && k > 0 { TwoToLess(j - 1, k - 1); }
  }

  ghost predicate PowerOfTwo(n: nat) {
    exists k: nat :: n == TwoTo(k)
  }

  /** The harbor bits of a handle do not change its slot. */
  lemma HarborFree(local: nat, h: nat, size: nat)
    requires PowerOfTwo(size) && size <= SPAN
    ensures SlotOf(local + h * SPAN, size) == SlotOf(local, size)
  {
    var k: nat :| size == TwoTo(k);
    TwoToSpan();
    TwoToMonotone(k, 24);
    TwoToAdd(k, 24 - k);
    Product(size, TwoTo(24 - k), h);
    ModShift(local, size, TwoTo(24 - k) * h);
  }

  lemma {:induction false} TwoToMonotone(j: nat, k: nat)
    requires TwoTo(j) <= TwoTo(k)
    ensures j <= k
  {
    if j > 0 && k > 0 { TwoToMonotone(j - 1, k - 1); }
  }

  /** The slot of a handle. Sizes are powers of two, so that masking the bits does it. */
  function SlotOf(h: nat, size: nat): (i: nat)
    requires size > 0
    ensures i < size
  {
    h % size
  }

  /** Doubling the table keeps a handle's slot or moves it by the old size. */
  lemma DoubleSlot(h: nat, size: nat)
    requires size > 0
    ensures SlotOf(SlotOf(h, 2 * size), size) == SlotOf(h, size)
  {
    var r := h % (2 * size);
    assert h == 2 * size * (h / (2 * size)) + r;
    assert 2 * size * (h / (2 * size)) == size * (2 * (h / (2 * size)));
    ModShift(r, size, 2 * (h / (2 * size)));
  }

  // Slots

  /** The slots hold exactly the live services, each where its handle says. */
  ghost predicate SlotsOk(slots: seq<Option<Context>>, live: map<nat, nat>, harbor: nat) {
    && |slots| > 0
    && (forall i | 0 <= i < |slots| && slots[i].Some? ::
          var c := slots[i].value; c.handle in live && live[c.handle] == c.id && SlotOf(c.handle, |slots|) == i)
    && (forall h | h in live :: harbor * SPAN < h <= harbor * SPAN + HANDLE_MASK
          && slots[SlotOf(h, |slots|)] == Some(Context(live[h], h)))
  }

  /** The contexts of the first `i` slots moved to a table of twice the size. */
  ghost predicate Moved(slots: seq<Option<Context>>, bigger: seq<Option<Context>>, i: nat)
    requires 0 < |slots|
  {
    && i <= |slots| && |bigger| == 2 * |slots|
    && (forall j | 0 <= j < i && slots[j].Some? :: bigger[SlotOf(slots[j].value.handle, |bigger|)] == slots[j])
    && (forall b | 0 <= b < |bigger| && bigger[b].Some? ::
          && SlotOf(bigger[b].value.handle, |bigger|) == b
          && SlotOf(bigger[b].value.handle, |slots|) < i && slots[SlotOf(bigger[b].value.handle, |slots|)] == bigger[b])
  }

  lemma MovedNone(slots: seq<Option<Context>>, bigger: seq<Option<Context>>)
    requires 0 < |slots| && |bigger| == 2 * |slots| && forall b | 0 <= b < |bigger| :: bigger[b] == None
    ensures Moved(slots, bigger, 0)
  {
  }

  /** The next context finds its new slot free. */
  lemma MovedNext(slots: seq<Option<Context>>, bigger: seq<Option<Context>>, i: nat, live: map<nat, nat>, harbor: nat)
    requires SlotsOk(slots, live, harbor) && Moved(slots, bigger, i) && i < |slots|
    ensures slots[i].None? ==> Moved(slots, bigger, i + 1)
    ensures slots[i].Some? ==> var hash := SlotOf(slots[i].value.handle, |bigger|);
              bigger[hash] == None && Moved(slots, bigger[hash := slots[i]], i + 1)
  {
    hide SlotOf;
    if slots[i].Some? {
      var hash := SlotOf(slots[i].value.handle, |bigger|);
      DoubleSlot(slots[i].value.handle, |slots|);
      if bigger[hash].Some? { DoubleSlot(bigger[hash].value.handle, |slots|); }
    }
  }

  lemma MovedAll(slots: seq<Option<Context>>, bigger: seq<Option<Context>>, live: map<nat, nat>, harbor: nat)
    requires SlotsOk(slots, live, harbor) && Moved(slots, bigger, |slots|)
    ensures SlotsOk(bigger, live, harbor)
  {
    forall h | h in live ensures bigger[SlotOf(h, |bigger|)] == Some(Context(live[h], h)) {
      assert slots[SlotOf(h, |slots|)].Some?;
    }
  }

  lemma BelowSpan(size: nat)
    requires PowerOfTwo(size) && size <= SPAN
    ensures size == SPAN || 2 * size <= SPAN
    ensures PowerOfTwo(2 * size)
  {
    var k: nat :| size == TwoTo(k);
    TwoToSpan();
    if size < SPAN { TwoToLess(k, 24); }
    assert 2 * size == TwoTo(k + 1);
  }

  lemma BelowMax(size: nat)
    requires PowerOfTwo(size) && size < MAX_SLOT_SIZE
    ensures 2 * size <= MAX_SLOT_SIZE && PowerOfTwo(2 * size)
  {
    var k: nat :| size == TwoTo(k);
    TwoToSpan();
    TwoToLess(k, 30);
    assert 2 * size == TwoTo(k + 1);
  }

  /** Live handles are not 0 and no two of them share a slot. */
  lemma HandlesApart(slots: seq<Option<Context>>, live: map<nat, nat>, harbor: nat)
    requires SlotsOk(slots, live, harbor)
    ensures 0 !in live
    ensures forall h, g | h in live && g in live && h != g :: SlotOf(h, |slots|) != SlotOf(g, |slots|)
  {
    hide SlotOf;
    forall h, g | h in live && g in live && h != g ensures SlotOf(h, |slots|) != SlotOf(g, |slots|) {
      assert slots[SlotOf(h, |slots|)] == Some(Context(live[h], h));
      assert slots[SlotOf(g, |slots|)] == Some(Context(live[g], g));
    }
  }

  predicate Used(live: map<nat, nat>, harbor: nat, l: nat) {
    l + harbor * SPAN in live
  }

  /** Every handle is in use. */
  ghost predicate Full(live: map<nat, nat>, harbor: nat) {
    forall l | 1 <= l <= HANDLE_MASK :: Used(live, harbor, l)
  }

  // The scan for a free slot

  predicate Taken(slots: seq<Option<Context>>, l: nat)
    requires |slots| > 0
  {
    slots[SlotOf(l, |slots|)].Some?
  }

  predicate TakenBetween(slots: seq<Option<Context>>, from: nat, to: nat)
    requires |slots| > 0
  {
    forall l | from <= l < to :: Taken(slots, l)
  }

  /** After `i` turns of the scan that began at handle `from` and wrapped some times, the handles it passed are taken.
      */
  predicate Scanned(slots: seq<Option<Context>>, from: nat, i: nat, handle: nat, wrapped: nat) {
    && |slots| > 0
    && match wrapped
       case 0 => handle == from + i && TakenBetween(slots, from, handle)
       case 1 => handle == from + i - HANDLE_MASK && TakenBetween(slots, from, SPAN) && TakenBetween(slots, 1, handle)
       case _ => TakenBetween(slots, 1, SPAN)
  }

  /** `local` is the first handle from `from` on, and round again from 1, whose slot is free. */
  predicate FirstFree(slots: seq<Option<Context>>, from: nat, local: nat) {
    && |slots| > 0 && !Taken(slots, local)
    && if from <= local then TakenBetween(slots, from, local)
       else TakenBetween(slots, from, SPAN) && TakenBetween(slots, 1, local)
  }

  lemma ScanFound(slots: seq<Option<Context>>, from: nat, i: nat, handle: nat, wrapped: nat)
    requires Scanned(slots, from, i, handle, wrapped) && 1 <= handle < SPAN && slots[SlotOf(handle, |slots|)].None?
    ensures FirstFree(slots, from, handle)
  {
    hide SlotOf;
    assert !Taken(slots, handle);
  }

  lemma SameUpdate(slots: seq<Option<Context>>, i: nat, after: seq<Option<Context>>)
    requires i < |slots| == |after| && slots[i].None? && after == slots[i := after[i]]
    ensures after[i := None] == slots
  {
  }

  lemma ScanStart(slots: seq<Option<Context>>, from: nat)
    requires |slots| > 0
    ensures Scanned(slots, from, 0, from, 0)
  {
  }

  lemma ScanWrap(slots: seq<Option<Context>>, from: nat, i: nat, wrapped: nat)
    requires Scanned(slots, from, i, SPAN, wrapped)
    ensures Scanned(slots, from, i, 1, wrapped + 1)
  {
  }

  lemma ScanNext(slots: seq<Option<Context>>, from: nat, i: nat, handle: nat, wrapped: nat)
    requires Scanned(slots, from, i, handle, wrapped) && slots[SlotOf(handle, |slots|)].Some?
    ensures Scanned(slots, from, i + 1, handle + 1, wrapped)
  {
    hide SlotOf;
    assert Taken(slots, handle);
  }

  /** A scan of the largest table that finds nothing has passed every handle. */
  lemma ScanEnd(slots: seq<Option<Context>>, live: map<nat, nat>, harbor: nat, from: nat, handle: nat, wrapped: nat)
    requires Scanned(slots, from, SPAN, handle, wrapped) && 1 <= from && 1 <= handle <= SPAN
    requires |slots| == SPAN && SlotsOk(slots, live, harbor)
    ensures Full(live, harbor)
  {
    forall l | 1 <= l <= HANDLE_MASK ensures Used(live, harbor, l) {
      assert Taken(slots, l);
      TakenUsed(slots, live, harbor, l);
    }
  }

  lemma TakenUsed(slots: seq<Option<Context>>, live: map<nat, nat>, harbor: nat, l: nat)
    requires |slots| == SPAN && SlotsOk(slots, live, harbor) && 1 <= l <= HANDLE_MASK && Taken(slots, l)
    ensures Used(live, harbor, l)
  {
    var h := slots[l].value.handle;
    TwoToSpan();
    HarborFree(h - harbor * SPAN, harbor, SPAN);
  }

  /** A new service in a free slot. */
  lemma TakeSlot(slots: seq<Option<Context>>, live: map<nat, nat>, harbor: nat, local: nat, id: nat)
    requires SlotsOk(slots, live, harbor) && PowerOfTwo(|slots|) && |slots| <= SPAN && 1 <= local <= HANDLE_MASK
    requires slots[SlotOf(local, |slots|)].None?
    ensures var h := local + harbor * SPAN;
            h !in live && SlotsOk(slots[SlotOf(local, |slots|) := Some(Context(id, h))], live[h := id], harbor)
  {
    hide SlotOf;
    HarborFree(local, harbor, |slots|);
  }

  // Names

  type Name = seq<Byte>

  datatype HandleName = HandleName(name: Name, handle: nat)

  /** `strcmp`, up to the size of the result. */
  function Compare(a: Name, b: Name): int {
    if a == [] then if b == [] then 0 else -1
    else if b == [] then 1
    else if a[0] < b[0] then -1
    else if a[0] > b[0] then 1
    else Compare(a[1..], b[1..])
  }

  lemma {:induction false} CompareEqual(a: Name, b: Name)
    ensures Compare(a, b) == 0 <==> a == b
    ensures Compare(a, b) == -Compare(b, a)
  {
    if a != [] && b != [] {
      CompareEqual(a[1..], b[1..]);
      assert a == [a[0]] + a[1..] && b == [b[0]] + b[1..];
    }
  }

  lemma {:induction false} CompareLess(a: Name, b: Name, c: Name)
    requires Compare(a, b) < 0 && Compare(b, c) < 0
    ensures Compare(a, c) < 0
  {
    if a != [] && a[0] == b[0] == c[0] { CompareLess(a[1..], b[1..], c[1..]); }
  }

  ghost predicate Sorted(ns: seq<HandleName>) {
    forall i, j | 0 <= i < j < |ns| :: Compare(ns[i].name, ns[j].name) < 0
  }

  /** The array holds exactly the names of the map, in order. */
  ghost predicate NamesOk(ns: seq<HandleName>, names: map<Name, nat>) {
    && Sorted(ns)
    && (forall x | x in ns :: x.name in names && names[x.name] == x.handle)
    && (forall n | n in names :: HandleName(n, names[n]) in ns)
  }

  /** What is left of the names when handle `h` goes. */
  function Kept(ns: seq<HandleName>, h: nat): seq<HandleName> {
    if ns == [] then []
    else Kept(ns[..|ns| - 1], h) + if ns[|ns| - 1].handle == h then [] else [ns[|ns| - 1]]
  }

  lemma {:induction false} KeptMeans(ns: seq<HandleName>, h: nat)
    requires Sorted(ns)
    ensures Sorted(Kept(ns, h)) && forall x :: x in Kept(ns, h) <==> x in ns && x.handle != h
  {
    if ns != [] {
      var front, last := ns[..|ns| - 1], ns[|ns| - 1];
      KeptMeans(front, h);
      assert ns == front + [last];
      forall x | x in Kept(front, h) ensures Compare(x.name, last.name) < 0 {
        assert x in front;
      }
    }
  }

  lemma KeptNext(ns: seq<HandleName>, i: nat, h: nat)
    requires i < |ns|
    ensures Kept(ns[..i + 1], h) == if ns[i].handle == h then Kept(ns[..i], h) else Kept(ns[..i], h) + [ns[i]]
  {
    assert ns[..i + 1][..i] == ns[..i];
    NoMore(Kept(ns[..i], h));
  }

  lemma KeptNone(h: nat)
    ensures Kept([], h) == []
  {
  }

  /** The names of the other handles. */
  function Without(names: map<Name, nat>, h: nat): map<Name, nat> {
    map n | n in names && names[n] != h :: names[n]
  }

  lemma KeptOk(ns: seq<HandleName>, names: map<Name, nat>, h: nat)
    requires NamesOk(ns, names)
    ensures NamesOk(Kept(ns, h), Without(names, h))
  {
    KeptMeans(ns, h);
  }

  ghost predicate Below(ns: seq<HandleName>, at: nat, n: Name) {
    at <= |ns| && forall i | 0 <= i < at :: Compare(ns[i].name, n) < 0
  }

  ghost predicate Above(ns: seq<HandleName>, at: nat, n: Name) {
    forall i | at <= i < |ns| :: Compare(ns[i].name, n) > 0
  }

  /** All names before `at` are smaller than `n`, all others greater. */
  ghost predicate Between(ns: seq<HandleName>, at: nat, n: Name) {
    Below(ns, at, n) && Above(ns, at, n)
  }

  lemma SortedAround(ns: seq<HandleName>, names: map<Name, nat>, mid: nat, n: Name)
    requires NamesOk(ns, names) && mid < |ns|
    ensures Compare(ns[mid].name, n) < 0 ==> Below(ns, mid + 1, n)
    ensures Compare(ns[mid].name, n) > 0 ==> Above(ns, mid, n)
    ensures ns[mid].name in names && names[ns[mid].name] == ns[mid].handle
  {
    if Compare(ns[mid].name, n) < 0 {
      forall i | 0 <= i < mid ensures Compare(ns[i].name, n) < 0 { CompareLess(ns[i].name, ns[mid].name, n); }
    }
    if Compare(ns[mid].name, n) > 0 {
      CompareEqual(ns[mid].name, n);
      forall i | mid < i < |ns| ensures Compare(ns[i].name, n) > 0 {
        CompareLess(n, ns[mid].name, ns[i].name);
        CompareEqual(n, ns[i].name);
      }
    }
    assert ns[mid] in ns;
  }

  lemma Ends(ns: seq<HandleName>, n: Name)
    ensures Below(ns, 0, n) && Above(ns, |ns|, n)
  {
  }

  lemma NotThere(ns: seq<HandleName>, names: map<Name, nat>, at: nat, n: Name)
    requires NamesOk(ns, names) && Between(ns, at, n)
    ensures n !in names
  {
    CompareEqual(n, n);
    assert forall i | 0 <= i < |ns| :: ns[i].name != n;
  }

  function Inserted(ns: seq<HandleName>, at: nat, x: HandleName): seq<HandleName>
    requires at <= |ns|
  {
    ns[..at] + [x] + ns[at..]
  }

  lemma InsertedIn(ns: seq<HandleName>, at: nat, x: HandleName, y: HandleName)
    requires at <= |ns|
    ensures y in Inserted(ns, at, x) <==> y in ns || y == x
  {
    assert ns == ns[..at] + ns[at..];
  }

  lemma InsertedSorted(ns: seq<HandleName>, at: nat, x: HandleName)
    requires Sorted(ns) && Between(ns, at, x.name)
    ensures Sorted(Inserted(ns, at, x))
  {
    hide Compare;
    var all := Inserted(ns, at, x);
    forall i, j | 0 <= i < j < |all| ensures Compare(all[i].name, all[j].name) < 0 {
      if i == at { CompareEqual(x.name, all[j].name); }
    }
  }

  lemma InsertedOk(ns: seq<HandleName>, names: map<Name, nat>, at: nat, x: HandleName)
    requires NamesOk(ns, names) && Between(ns, at, x.name)
    ensures NamesOk(Inserted(ns, at, x), names[x.name := x.handle])
  {
    hide Compare, Sorted, Inserted;
    var all := Inserted(ns, at, x);
    NotThere(ns, names, at, x.name);
    InsertedSorted(ns, at, x);
    forall y ensures y in all <==> y in ns || y == x { InsertedIn(ns, at, x, y); }
  }

  /** What became of a name. */
  datatype Naming = Named | InUse | Aborted

  class Store {
    const harbor: nat
    var handleIndex: nat
    var slot: array<Option<Context>>
    var nameCap: nat
    var nameCount: nat
    var name: array<HandleName>
    ghost var live: map<nat, nat>
    ghost var names: map<Name, nat>

    ghost predicate Valid()
      reads this, slot, name
    {
      && harbor <= 0xff && 1 <= handleIndex <= SPAN
      && PowerOfTwo(slot.Length) && slot.Length <= SPAN
      && SlotsOk(slot[..], live, harbor)
      && NamesValid()
    }

    ghost predicate NamesValid()
      reads this, name
    {
      && nameCount <= nameCap == name.Length && PowerOfTwo(nameCap) && nameCap <= MAX_SLOT_SIZE
      && NamesOk(name[..nameCount], names)
    }

    /** `skynet_handle_init`. */
    constructor (harbor: nat)
      ensures Valid() && this.harbor == harbor % 256 && live == map[] && names == map[] && fresh(slot) && fresh(name)
    {
      this.harbor := harbor % 256;
      handleIndex := 1;
      slot := new Option<Context>[DEFAULT_SLOT_SIZE](_ => None);
      nameCap, nameCount := 2, 0;
      name := new HandleName[2](_ => HandleName([], 0));
      live, names := map[], map[];
      new;
      assert DEFAULT_SLOT_SIZE == TwoTo(2) && 2 == TwoTo(1);
    }

    /** The scan of `skynet_handle_register`: the first handle, from `handle_index` on, whose slot is free. */
    method Scan(id: nat) returns (r: Option<nat>)
      requires Valid()
      modifies this`handleIndex, this`live, slot
      ensures Valid()
      ensures r.Some? ==> 1 <= r.value - harbor * SPAN <= HANDLE_MASK
      ensures r.Some? ==> r.value !in old(live) && live == old(live)[r.value := id]
      ensures r.Some? ==> handleIndex == r.value - harbor * SPAN + 1
                          && FirstFree(old(slot[..]), old(handleIndex), r.value - harbor * SPAN)
      ensures r.Some? ==> var i := SlotOf(r.value - harbor * SPAN, slot.Length);
                          slot[..] == old(slot[..])[i := Some(Context(id, r.value))]
      ensures r.None? ==> live == old(live) && handleIndex == old(handleIndex) && slot[..] == old(slot[..])
      ensures r.None? && slot.Length == SPAN ==> Full(live, harbor)
    {
      hide SlotsOk, SlotOf, Scanned, NamesOk;
      var i, handle := 0, handleIndex;
      ghost var wrapped := 0;
      ScanStart(slot[..], handle);
      while i < slot.Length
        invariant 0 <= i <= slot.Length && 1 <= handle <= SPAN
        invariant slot[..] == old(slot[..]) && live == old(live) && handleIndex == old(handleIndex)
        invariant Scanned(slot[..], handleIndex, i, handle, wrapped)
      {
        if handle > HANDLE_MASK {
          ScanWrap(slot[..], handleIndex, i, wrapped);
          handle := 1;
          wrapped := wrapped + 1;
        }
        var hash := SlotOf(handle, slot.Length);
        if slot[hash] == None {
          var full := handle + harbor * SPAN;
          ScanFound(slot[..], handleIndex, i, handle, wrapped);
          TakeSlot(slot[..], live, harbor, handle, id);
          slot[hash] := Some(Context(id, full));
          handleIndex := handle + 1;
          live := live[full := id];
          assert slot[..] == old(slot[..])[hash := Some(Context(id, full))];
          return Some(full);
        }
        ScanNext(slot[..], handleIndex, i, handle, wrapped);
        i, handle := i + 1, handle + 1;
      }
      if slot.Length == SPAN { ScanEnd(slot[..], live, harbor, handleIndex, handle, wrapped); }
      return None;
    }

    /** `skynet_handle_register`: none when the table cannot grow any more, which happens only if all handles are
        taken. */
    method Register(id: nat) returns (r: Option<nat>)
      requires Valid()
      modifies this`handleIndex, this`live, this`slot, slot
      ensures Valid() && (slot == old(slot) || fresh(slot))
      ensures r.Some? ==> 1 <= r.value - harbor * SPAN <= HANDLE_MASK
      ensures r.Some? ==> r.value !in old(live) && live == old(live)[r.value := id]
      ensures r.Some? ==> handleIndex == r.value - harbor * SPAN + 1
      ensures r.Some? ==> var local := r.value - harbor * SPAN;
                          FirstFree(slot[..][SlotOf(local, slot.Length) := None], old(handleIndex), local)
      ensures r.None? ==> live == old(live) && Full(live, harbor)
    {
      while true
        invariant Valid() && live == old(live) && (slot == old(slot) || fresh(slot)) && handleIndex == old(handleIndex)
        decreases SPAN - slot.Length
      {
        ghost var slots := slot[..];
        r := Scan(id);
        if r.Some? {
          SameUpdate(slots, SlotOf(r.value - harbor * SPAN, slot.Length), slot[..]);
          return;
        }
        BelowSpan(slot.Length);
        if slot.Length * 2 - 1 > HANDLE_MASK {
          return None;
        }
        Double();
      }
    }

    /** The second half of the loop of `skynet_handle_register`. Every context finds its new
        slot free, which is asserted. */
    method Double()
      requires Valid() && slot.Length * 2 - 1 <= HANDLE_MASK
      modifies this`slot
      ensures Valid() && fresh(slot) && slot.Length == 2 * old(slot.Length)
    {
      hide SlotsOk, Moved;
      var size := slot.Length;
      var bigger := new Option<Context>[size * 2](_ => None);
      var i := 0;
      MovedNone(slot[..], bigger[..]);
      while i < size
        modifies bigger
        invariant 0 <= i <= size
        invariant Moved(slot[..], bigger[..], i)
      {
        MovedNext(slot[..], bigger[..], i, live, harbor);
        if slot[i].Some? {
          var hash := SlotOf(slot[i].value.handle, size * 2);
          assert bigger[hash] == None;
          ghost var before := bigger[..];
          bigger[hash] := slot[i];
          assert bigger[..] == before[hash := slot[i]];
        }
        i := i + 1;
      }
      MovedAll(slot[..], bigger[..], live, harbor);
      BelowSpan(size);
      slot := bigger;
    }

    /** `skynet_handle_retire`. */
    method Retire(handle: nat) returns (ok: bool)
      requires Valid()
      modifies this`live, this`names, this`nameCount, slot, name
      ensures Valid() && ok == (handle in old(live))
      ensures live == old(live) - {handle}
      ensures names == if ok then Without(old(names), handle) else old(names)
    {
      var hash := SlotOf(handle, slot.Length);
      if slot[hash].None? || slot[hash].value.handle != handle {
        return false;
      }
      slot[hash] := None;
      live := live - {handle};
      RemoveNames(handle);
      return true;
    }

    /** The loop of `skynet_handle_retire` over the names. */
    method RemoveNames(handle: nat)
      requires NamesValid()
      modifies this`names, this`nameCount, name
      ensures NamesValid() && names == Without(old(names), handle)
    {
      hide Kept, NamesOk, Without;
      ghost var all := name[..nameCount];
      var i, j, n := 0, 0, nameCount;
      KeptNone(handle);
      while i < n
        invariant 0 <= j <= i <= n
        invariant name[..j] == Kept(all[..i], handle) && name[i..n] == all[i..]
        invariant nameCount == n && names == old(names)
      {
        KeptNext(all, i, handle);
        assert name[i] == name[i..n][0];
        if name[i].handle != handle {
          name[j] := name[i];
          j := j + 1;
        }
        assert name[i + 1..n] == all[i + 1..];
        i := i + 1;
      }
      assert all[..i] == all;
      KeptOk(all, names, handle);
      nameCount := j;
      names := Without(names, handle);
    }

    /** `skynet_handle_grab`: the service with this handle. */
    method Grab(handle: nat) returns (r: Option<nat>)
      requires Valid()
      ensures r == if handle in live then Some(live[handle]) else None
    {
      var hash := SlotOf(handle, slot.Length);
      if slot[hash].Some? && slot[hash].value.handle == handle {
        return Some(slot[hash].value.id);
      }
      return None;
    }

    /** The binary search of `skynet_handle_findname` and `_insert_name`. */
    method Search(n: Name) returns (found: bool, at: nat)
      requires NamesValid()
      ensures found ==> at < nameCount && name[at].name == n && n in names && name[at].handle == names[n]
      ensures !found ==> Between(name[..nameCount], at, n) && n !in names
    {
      hide Below, Above, NamesOk, Compare;
      ghost var ns := name[..nameCount];
      var begin, end := 0, nameCount as int - 1;
      Ends(ns, n);
      while begin <= end
        invariant 0 <= begin <= end + 1 <= nameCount
        invariant Below(ns, begin, n) && Above(ns, end + 1, n)
        decreases end - begin
      {
        var mid := (begin + end) / 2;
        var c := Compare(name[mid].name, n);
        CompareEqual(name[mid].name, n);
        SortedAround(ns, names, mid, n);
        if c == 0 {
          return true, mid;
        }
        if c < 0 {
          begin := mid + 1;
        } else {
          end := mid - 1;
        }
      }
      NotThere(ns, names, begin, n);
      return false, begin;
    }

    /** `skynet_handle_findname`: 0 when there is no such name. */
    method FindName(n: Name) returns (handle: nat)
      requires Valid()
      ensures handle == if n in names then names[n] else 0
    {
      var found, at := Search(n);
      handle := if found then name[at].handle else 0;
    }

    /** `skynet_handle_namehandle`: the first to take a name keeps it. With as many names as the table can ever
        hold an assertion ends the program. */
    method NameHandle(handle: nat, n: Name) returns (r: Naming)
      requires Valid()
      modifies this`names, this`nameCount, this`nameCap, this`name, name
      ensures Valid() && (name == old(name) || fresh(name))
      ensures r.InUse? <==> n in old(names)
      ensures r.Aborted? <==> n !in old(names) && old(nameCount) == old(nameCap) == MAX_SLOT_SIZE
      ensures names == if r.Named? then old(names)[n := handle] else old(names)
    {
      var found, at := Search(n);
      if found {
        return InUse;
      }
      if nameCount >= nameCap && nameCap * 2 > MAX_SLOT_SIZE {
        assert nameCap == MAX_SLOT_SIZE by {
          if nameCap < MAX_SLOT_SIZE { BelowMax(nameCap); }
        }
        return Aborted;
      }
      InsertNameBefore(n, handle, at);
      return Named;
    }

    /** `_insert_name_before`. */
    method InsertNameBefore(n: Name, handle: nat, before: nat)
      requires NamesValid() && nameCount < MAX_SLOT_SIZE && before <= nameCount && Between(name[..nameCount], before, n)
      modifies this`names, this`nameCount, this`nameCap, this`name, name
      ensures NamesValid() && (name == old(name) || fresh(name)) && names == old(names)[n := handle]
    {
      hide NamesOk, Between;
      ghost var all, x := name[..nameCount], HandleName(n, handle);
      if nameCount >= nameCap {
        GrowNames(before);
      } else {
        ShiftNames(before);
      }
      name[before] := HandleName(n, handle);
      nameCount := nameCount + 1;
      InsertedOk(all, names, before, x);
      assert name[..nameCount] == Inserted(all, before, x);
      names := names[n := handle];
    }

    /** A copy of twice the size, with a gap. */
    method GrowNames(before: nat)
      requires NamesValid() && nameCount == nameCap < MAX_SLOT_SIZE && before <= nameCount
      modifies this`nameCap, this`name
      ensures fresh(name) && nameCap == name.Length > nameCount && PowerOfTwo(nameCap) && nameCap <= MAX_SLOT_SIZE
      ensures name[..before] == old(name[..before]) && name[before + 1..nameCount + 1] == old(name[before..nameCount])
    {
      hide NamesOk;
      BelowMax(nameCap);
      nameCap := nameCap * 2;
      assert nameCap <= MAX_SLOT_SIZE;
      var bigger := new HandleName[nameCap](_ => HandleName([], 0));
      forall i | 0 <= i < before {
        bigger[i] := name[i];
      }
      forall i | before <= i < nameCount {
        bigger[i + 1] := name[i];
      }
      name := bigger;
    }

    /** Move the names from `before` on by one place. */
    method ShiftNames(before: nat)
      requires NamesValid() && nameCount < nameCap && before <= nameCount
      modifies name
      ensures name[..before] == old(name[..before]) && name[before + 1..nameCount + 1] == old(name[before..nameCount])
    {
      hide NamesOk;
      var i := nameCount;
      while i > before
        invariant before <= i <= nameCount
        invariant forall k | 0 <= k < i :: name[k] == old(name[k])
        invariant forall k | i < k <= nameCount :: name[k] == old(name[k - 1])
      {
        name[i] := name[i - 1];
        i := i - 1;
      }
    }
  }
}
