/** Read-only shared tables (lua-sharedata.c): an array part and a hash part whose colliding keys are chained through
    free slots. Built in two passes over a Lua table, then looked up and traversed. */
module SharedData {
  import opened Common

  /** Integer keys fit 32 bits (others are not part of this model). */
  datatype Key = IntKey(n: int) | StrKey(s: string)

  /** Any value but nil. */
  type Value = nat

  type Hash32 = h: int | 0 <= h < 0x1_0000_0000

  type HashFunction = Key -> Hash32

  datatype Entry = Entry(key: Key, value: Value)

  /** `full` stands for a value type other than nil. */
  datatype Node = Node(full: bool, key: Key, keyhash: Hash32, value: Value, next: int, nocolliding: bool)

  const EMPTY := Node(false, IntKey(0), 0, 0, -1, false)

  /** The slot where the search for a key starts. */
  function Main(hash: HashFunction, size: nat, key: Key): (i: nat)
    requires size > 0
    ensures i < size
  {
    hash(key) % size
  }

  // The hash part

  ghost predicate KeysOk(hs: seq<Node>, hash: HashFunction) {
    && (forall i | 0 <= i < |hs| && hs[i].full :: hs[i].keyhash == hash(hs[i].key))
    && (forall i, j | 0 <= i < j < |hs| && hs[i].full && hs[j].full :: hs[i].key != hs[j].key)
  }

  /** The slot of key `key` starts the chain of its main position. */
  predicate AtHome(hs: seq<Node>, hash: HashFunction, i: nat)
    requires i < |hs|
  {
    hs[i].full && Main(hash, |hs|, hs[i].key) == i
  }

  /** After the first pass over some keys: each main position is taken by the first key that has it. */
  ghost predicate FirstPass(hs: seq<Node>, hash: HashFunction) {
    && KeysOk(hs, hash)
    && (forall i | 0 <= i < |hs| :: hs[i].next == -1 && (hs[i].full ==> AtHome(hs, hash, i) && hs[i].nocolliding))
    && (forall i | 0 <= i < |hs| && !hs[i].full :: !hs[i].nocolliding)
  }

  /** Slot `c[p]` and where it leads. */
  ghost predicate LinkOk(hs: seq<Node>, hash: HashFunction, m: nat, c: seq<nat>, p: nat)
    requires p < |c|
  {
    && c[p] < |hs| && hs[c[p]].full && Main(hash, |hs|, hs[c[p]].key) == m
    && hs[c[p]].next == if p + 1 < |c| then c[p + 1] else -1
  }

  /** Chain `m`: its slots from the main position on, all with main position `m`. */
  ghost predicate ChainOk(hs: seq<Node>, hash: HashFunction, m: nat, c: seq<nat>)
    requires m < |hs|
  {
    && (c != [] ==> c[0] == m)
    && (forall p | 0 <= p < |c| :: LinkOk(hs, hash, m, c, p))
    && (hs[m].full && hs[m].nocolliding ==> c == [m])
  }

  /** The chains hold every slot taken. */
  ghost predicate Chained(hs: seq<Node>, hash: HashFunction, chains: seq<seq<nat>>) {
    && |chains| == |hs|
    && (forall m | 0 <= m < |hs| :: ChainOk(hs, hash, m, chains[m]))
    && (forall i | 0 <= i < |hs| && hs[i].full :: i in chains[Main(hash, |hs|, hs[i].key)])
  }

  ghost predicate Holds(hs: seq<Node>, key: Key) {
    exists i :: 0 <= i < |hs| && hs[i].full && hs[i].key == key
  }

  /** The main position of `key` is taken by a key that has it. */
  predicate HomeTaken(hs: seq<Node>, hash: HashFunction, key: Key)
    requires |hs| > 0
  {
    AtHome(hs, hash, Main(hash, |hs|, key))
  }

  // The first pass

  function FirstNode(hash: HashFunction, e: Entry): Node {
    Node(true, e.key, hash(e.key), e.value, -1, true)
  }

  lemma FirstPassStep(hs: seq<Node>, hash: HashFunction, e: Entry)
    requires |hs| > 0 && FirstPass(hs, hash) && !Holds(hs, e.key)
    requires !hs[Main(hash, |hs|, e.key)].full
    ensures FirstPass(hs[Main(hash, |hs|, e.key) := FirstNode(hash, e)], hash)
  {
    var m := Main(hash, |hs|, e.key);
    var hs' := hs[m := FirstNode(hash, e)];
    forall i, j | 0 <= i < j < |hs'| && hs'[i].full && hs'[j].full ensures hs'[i].key != hs'[j].key {
      if i == m { assert hs[j].full; } else if j == m { assert hs[i].full; }
    }
  }

  /** After the first pass the chains are single slots. */
  lemma SingleChains(hs: seq<Node>, hash: HashFunction) returns (chains: seq<seq<nat>>)
    requires FirstPass(hs, hash)
    ensures Chained(hs, hash, chains)
  {
    chains := seq(|hs|, i requires 0 <= i < |hs| => if hs[i].full then [i] else []);
    forall m | 0 <= m < |hs| ensures ChainOk(hs, hash, m, chains[m]) {
      if hs[m].full { assert AtHome(hs, hash, m); assert LinkOk(hs, hash, m, chains[m], 0); }
    }
    forall i | 0 <= i < |hs| && hs[i].full ensures i in chains[Main(hash, |hs|, hs[i].key)] {
      assert AtHome(hs, hash, i);
    }
  }

  // The second pass: a key is put into a free slot and linked behind its main position

  function Linked(hs: seq<Node>, hash: HashFunction, e: Entry, n: nat): seq<Node>
    requires |hs| > 0 && n < |hs|
  {
    var m := Main(hash, |hs|, e.key);
    hs[n := Node(true, e.key, hash(e.key), e.value, hs[m].next, false)][m := hs[m].(next := n, nocolliding := false)]
  }

  lemma LinkedKeys(hs: seq<Node>, hash: HashFunction, e: Entry, n: nat)
    requires |hs| > 0 && n < |hs| && !hs[n].full && KeysOk(hs, hash) && !Holds(hs, e.key) && HomeTaken(hs, hash, e.key)
    ensures KeysOk(Linked(hs, hash, e, n), hash)
    ensures forall k :: Holds(Linked(hs, hash, e, n), k) <==> Holds(hs, k) || k == e.key
    ensures forall i | 0 <= i < |hs| && AtHome(hs, hash, i) :: AtHome(Linked(hs, hash, e, n), hash, i)
  {
    var u := Linked(hs, hash, e, n);
    assert forall i | 0 <= i < |hs| && i != n ::
      u[i].full == hs[i].full && u[i].key == hs[i].key && u[i].keyhash == hs[i].keyhash;
    assert u[n].full && u[n].key == e.key;
    forall i | 0 <= i < |hs| && hs[i].full ensures hs[i].key != e.key { }
    forall k ensures Holds(u, k) <==> Holds(hs, k) || k == e.key {
      if Holds(hs, k) {
        var i :| 0 <= i < |hs| && hs[i].full && hs[i].key == k;
        assert u[i].full && u[i].key == k;
      }
    }
  }

  lemma LinkedChains(hs: seq<Node>, hash: HashFunction, chains: seq<seq<nat>>, e: Entry,
        n: nat) returns (chains': seq<seq<nat>>)
    requires |hs| > 0 && n < |hs| && !hs[n].full && Chained(hs, hash, chains) && HomeTaken(hs, hash, e.key)
    ensures Chained(Linked(hs, hash, e, n), hash, chains')
  {
    var m := Main(hash, |hs|, e.key);
    var u, c := Linked(hs, hash, e, n), chains[m];
    assert ChainOk(hs, hash, m, c) && m in c;
    var c' := [m, n] + c[1..];
    chains' := chains[m := c'];
    HomeFirst(hs, hash, m, c);
    forall q | 0 <= q < |hs| ensures ChainOk(u, hash, q, chains'[q]) {
      assert ChainOk(hs, hash, q, chains[q]);
      if q == m { NewChain(hs, hash, c, e, n); } else { OtherChain(hs, hash, q, chains[q], e, n); }
    }
    forall i | 0 <= i < |hs| && u[i].full ensures i in chains'[Main(hash, |hs|, u[i].key)] {
      if i == n {
        assert c'[1] == n;
      } else if Main(hash, |hs|, u[i].key) == m {
        assert i in c;
        var p :| 0 <= p < |c| && c[p] == i;
        if p == 0 { assert c'[0] == i; } else { assert c'[p + 1] == i; }
      }
    }
  }

  /** The main position stands only at the start of its chain. */
  lemma HomeFirst(hs: seq<Node>, hash: HashFunction, m: nat, c: seq<nat>)
    requires m < |hs| && ChainOk(hs, hash, m, c) && c != []
    ensures forall p | 0 < p < |c| :: c[p] != m
  {
    forall p | 0 < p < |c| ensures c[p] != m {
      if c[p] == m { SameTail(hs, hash, m, c, 0, p); }
    }
  }

  /** Two occurrences of a slot in a chain are followed by the same number of slots. */
  lemma {:induction false} SameTail(hs: seq<Node>, hash: HashFunction, m: nat, c: seq<nat>, p: nat, q: nat)
    requires m < |hs| && ChainOk(hs, hash, m, c) && p < |c| && q < |c| && c[p] == c[q]
    ensures p == q
    decreases |c| - p + |c| - q
  {
    assert LinkOk(hs, hash, m, c, p) && LinkOk(hs, hash, m, c, q);
    if p + 1 < |c| && q + 1 < |c| { SameTail(hs, hash, m, c, p + 1, q + 1); }
  }

  lemma OtherChain(hs: seq<Node>, hash: HashFunction, q: nat, c: seq<nat>, e: Entry, n: nat)
    requires |hs| > 0 && n < |hs| && q < |hs| && !hs[n].full && HomeTaken(hs, hash, e.key)
    requires ChainOk(hs, hash, q, c) && q != Main(hash, |hs|, e.key)
    ensures ChainOk(Linked(hs, hash, e, n), hash, q, c)
  {
    var u := Linked(hs, hash, e, n);
    forall p | 0 <= p < |c| ensures LinkOk(u, hash, q, c, p) { assert LinkOk(hs, hash, q, c, p); }
  }

  lemma NewChain(hs: seq<Node>, hash: HashFunction, c: seq<nat>, e: Entry, n: nat)
    requires |hs| > 0 && n < |hs| && !hs[n].full && HomeTaken(hs, hash, e.key)
    requires var m := Main(hash, |hs|, e.key); ChainOk(hs, hash, m, c) && c != [] && forall p | 0 < p < |c| :: c[p] != m
    ensures var m := Main(hash, |hs|, e.key); ChainOk(Linked(hs, hash, e, n), hash, m, [m, n] + c[1..])
  {
    var m := Main(hash, |hs|, e.key);
    var u, c' := Linked(hs, hash, e, n), [m, n] + c[1..];
    assert LinkOk(hs, hash, m, c, 0);
    forall p | 0 <= p < |c'| ensures LinkOk(u, hash, m, c', p) {
      if p >= 2 { assert LinkOk(hs, hash, m, c, p - 1) && c'[p] == c[p - 1]; }
    }
  }

  // Counting slots against keys

  function HeldKeys(hs: seq<Node>): set<Key> {
    if hs == [] then {} else HeldKeys(hs[1..]) + if hs[0].full then {hs[0].key} else {}
  }

  lemma {:induction false} HeldMeans(hs: seq<Node>, k: Key)
    ensures k in HeldKeys(hs) <==> Holds(hs, k)
  {
    if hs != [] {
      HeldMeans(hs[1..], k);
      if Holds(hs, k) {
        var i :| 0 <= i < |hs| && hs[i].full && hs[i].key == k;
        if i > 0 { assert hs[1..][i - 1] == hs[i]; }
      }
      if Holds(hs[1..], k) {
        var i :| 0 <= i < |hs[1..]| && hs[1..][i].full && hs[1..][i].key == k;
        assert hs[i + 1] == hs[1..][i];
      }
    }
  }

  lemma {:induction false} HeldSize(hs: seq<Node>, hash: HashFunction)
    requires KeysOk(hs, hash)
    ensures |HeldKeys(hs)| <= |hs|
    ensures (exists i :: 0 <= i < |hs| && !hs[i].full) ==> |HeldKeys(hs)| < |hs|
    ensures (forall i | 0 <= i < |hs| :: hs[i].full) ==> |HeldKeys(hs)| == |hs|
  {
    if hs != [] {
      var rest := hs[1..];
      assert forall i | 0 <= i < |rest| :: rest[i] == hs[i + 1];
      HeldSize(rest, hash);
      if hs[0].full {
        HeldMeans(rest, hs[0].key);
        if exists i :: 0 <= i < |hs| && !hs[i].full {
          var i :| 0 <= i < |hs| && !hs[i].full;
          assert !rest[i - 1].full;
        }
      }
    }
  }

  // The source table: its entries in the order in which they are enumerated

  predicate InArray(key: Key, n: nat) {
    key.IntKey? && 0 < key.n <= n
  }

  predicate Distinct(es: seq<Entry>) {
    forall i, j | 0 <= i < j < |es| :: es[i].key != es[j].key
  }

  /** `countsize`. */
  function CountSize(es: seq<Entry>, n: nat): nat {
    if es == [] then 0
    else CountSize(es[..|es| - 1], n) + if InArray(es[|es| - 1].key, n) then 0 else 1
  }

  function HashKeys(es: seq<Entry>, n: nat): set<Key> {
    set i | 0 <= i < |es| && !InArray(es[i].key, n) :: es[i].key
  }

  lemma {:induction false} CountIsSize(es: seq<Entry>, n: nat)
    requires Distinct(es)
    ensures |HashKeys(es, n)| == CountSize(es, n)
  {
    if es == [] {
      assert HashKeys(es, n) == {};
    } else {
      var rest, e := es[..|es| - 1], es[|es| - 1];
      CountIsSize(rest, n);
      if InArray(e.key, n) {
        assert HashKeys(es, n) == HashKeys(rest, n);
      } else {
        assert HashKeys(es, n) == HashKeys(rest, n) + {e.key} by {
          forall k | k in HashKeys(es, n) ensures k in HashKeys(rest, n) + {e.key} {
            var i :| 0 <= i < |es| && !InArray(es[i].key, n) && es[i].key == k;
            if i < |rest| { assert rest[i] == es[i]; }
          }
          forall k | k in HashKeys(rest, n) ensures k in HashKeys(es, n) {
            var i :| 0 <= i < |rest| && !InArray(rest[i].key, n) && rest[i].key == k;
            assert es[i] == rest[i];
          }
          assert es[|es| - 1].key == e.key;
        }
        assert e.key !in HashKeys(rest, n);
      }
    }
  }

  /** What every slot taken holds is an entry of the table that belongs in the hash part. */
  ghost predicate FromSource(hs: seq<Node>, es: seq<Entry>, n: nat) {
    forall i | 0 <= i < |hs| && hs[i].full :: !InArray(hs[i].key, n) && Entry(hs[i].key, hs[i].value) in es
  }

  lemma HeldFromSource(hs: seq<Node>, es: seq<Entry>, n: nat)
    requires FromSource(hs, es, n)
    ensures HeldKeys(hs) <= HashKeys(es, n)
  {
    forall k | k in HeldKeys(hs) ensures k in HashKeys(es, n) {
      HeldMeans(hs, k);
      var i :| 0 <= i < |hs| && hs[i].full && hs[i].key == k;
      var j :| 0 <= j < |es| && es[j] == Entry(hs[i].key, hs[i].value);
      assert es[j].key == k;
    }
  }

  /** As long as some key of the hash part is missing there is a free slot. */
  lemma FreeSlot(hs: seq<Node>, hash: HashFunction, es: seq<Entry>, n: nat, key: Key)
    requires KeysOk(hs, hash) && FromSource(hs, es, n) && Distinct(es) && |hs| == CountSize(es, n)
    requires key in HashKeys(es, n) && !Holds(hs, key)
    ensures exists i :: 0 <= i < |hs| && !hs[i].full
  {
    HeldSize(hs, hash);
    HeldFromSource(hs, es, n);
    HeldMeans(hs, key);
    CountIsSize(es, n);
    SubsetSize(HeldKeys(hs), HashKeys(es, n));
  }

  /** When no key is missing all slots are taken. */
  lemma NoneFree(hs: seq<Node>, hash: HashFunction, es: seq<Entry>, n: nat)
    requires KeysOk(hs, hash) && Distinct(es) && |hs| == CountSize(es, n)
    requires forall k | k in HashKeys(es, n) :: Holds(hs, k)
    ensures forall i | 0 <= i < |hs| :: hs[i].full
  {
    HeldSize(hs, hash);
    forall k | k in HashKeys(es, n) ensures k in HeldKeys(hs) { HeldMeans(hs, k); }
    CountIsSize(es, n);
    SubsetSize(HashKeys(es, n), HeldKeys(hs));
  }

  // The finished table

  /** What the two passes leave: `hs` holds exactly the entries of the hash part. */
  ghost predicate Built(hs: seq<Node>, hash: HashFunction, es: seq<Entry>, n: nat) {
    && KeysOk(hs, hash)
    && (exists chains :: Chained(hs, hash, chains))
    && (forall i | 0 <= i < |hs| :: hs[i].full)
    && (|hs| > 0 ==> forall i | 0 <= i < |hs| :: HomeTaken(hs, hash, hs[i].key))
    && FromSource(hs, es, n)
    && (forall e | e in es && !InArray(e.key, n) :: Holds(hs, e.key))
  }

  /** The value of a key in the table. */
  function ValueOf(es: seq<Entry>, key: Key): Option<Value> {
    if es == [] then None else if es[0].key == key then Some(es[0].value) else ValueOf(es[1..], key)
  }

  lemma {:induction false} ValueOfEntry(es: seq<Entry>, e: Entry)
    requires Distinct(es) && e in es
    ensures ValueOf(es, e.key) == Some(e.value)
  {
    if es[0] != e {
      assert forall i | 0 <= i < |es[1..]| :: es[1..][i] == es[i + 1];
      var i :| 0 <= i < |es| && es[i] == e;
      assert es[1..][i - 1] == e && es[0].key != es[i].key;
      ValueOfEntry(es[1..], e);
    }
  }

  lemma {:induction false} ValueOfNone(es: seq<Entry>, key: Key)
    ensures ValueOf(es, key) == None <==> forall e | e in es :: e.key != key
  {
    if es != [] {
      ValueOfNone(es[1..], key);
      assert forall e | e in es :: e == es[0] || e in es[1..];
      assert forall e | e in es[1..] :: e in es;
    }
  }

  /** The array part: cell `k - 1` for key `k`; keys the table lacks are nil. */
  ghost predicate ArrayOk(cells: seq<Option<Value>>, es: seq<Entry>) {
    forall k | 0 <= k < |cells| :: cells[k] == ValueOf(es, IntKey(k + 1))
  }

  /** The first keys of `es` are in the table, none of them twice. */
  ghost predicate SecondPass(hs: seq<Node>, hash: HashFunction, es: seq<Entry>, n: nat, i: nat)
    requires i <= |es|
  {
    && KeysOk(hs, hash) && FromSource(hs, es, n)
    && (exists chains :: Chained(hs, hash, chains))
    && (forall e | e in es && !InArray(e.key, n) :: |hs| > 0 && HomeTaken(hs, hash, e.key))
    && (forall j | 0 <= j < i && !InArray(es[j].key, n) :: Holds(hs, es[j].key))
    && (forall x | 0 <= x < |hs| && hs[x].full && !AtHome(hs, hash, x) ::
      exists j :: 0 <= j < i && es[j].key == hs[x].key)
  }

  lemma CellStep(cells: seq<Option<Value>>, es: seq<Entry>, i: nat, k: nat)
    requires i < |es| && Distinct(es) && ArrayOk(cells, es[..i]) && k < |cells|
    ensures ValueOf(es[..i + 1], IntKey(k + 1)) == if IntKey(k + 1) == es[i].key then Some(es[i].value) else cells[k]
  {
    ValueOfNext(es, i, IntKey(k + 1));
    assert cells[k] == ValueOf(es[..i], IntKey(k + 1));
  }

  lemma CellsStep(cells: seq<Option<Value>>, es: seq<Entry>, i: nat)
    requires i < |es| && Distinct(es) && ArrayOk(cells, es[..i])
    ensures if InArray(es[i].key, |cells|) then ArrayOk(cells[es[i].key.n - 1 := Some(es[i].value)], es[..i + 1])
            else ArrayOk(cells, es[..i + 1])
  {
    hide ValueOf;
    var u := if InArray(es[i].key, |cells|) then cells[es[i].key.n - 1 := Some(es[i].value)] else cells;
    forall k | 0 <= k < |u| ensures u[k] == ValueOf(es[..i + 1], IntKey(k + 1)) { CellStep(cells, es, i, k); }
  }

  /** The first pass has seen the first `i` entries. */
  ghost predicate SomeTaken(hs: seq<Node>, hash: HashFunction, es: seq<Entry>, n: nat, i: nat)
    requires i <= |es|
  {
    && FirstPass(hs, hash) && FromSource(hs, es, n)
    && (forall x | 0 <= x < |hs| && hs[x].full :: exists j :: 0 <= j < i && es[j].key == hs[x].key)
    && (forall j | 0 <= j < i && !InArray(es[j].key, n) :: |hs| > 0 && HomeTaken(hs, hash, es[j].key))
  }

  lemma TakenSkip(hs: seq<Node>, hash: HashFunction, es: seq<Entry>, n: nat, i: nat)
    requires i < |es| && SomeTaken(hs, hash, es, n, i)
    requires InArray(es[i].key, n) || (|hs| > 0 && hs[Main(hash, |hs|, es[i].key)].full)
    ensures SomeTaken(hs, hash, es, n, i + 1)
  {
    if !InArray(es[i].key, n) { assert AtHome(hs, hash, Main(hash, |hs|, es[i].key)); }
  }

  lemma TakenStep(hs: seq<Node>, hash: HashFunction, es: seq<Entry>, n: nat, i: nat)
    requires i < |es| && |hs| > 0 && SomeTaken(hs, hash, es, n, i) && Distinct(es) && !InArray(es[i].key, n)
    requires !hs[Main(hash, |hs|, es[i].key)].full
    ensures SomeTaken(hs[Main(hash, |hs|, es[i].key) := FirstNode(hash, es[i])], hash, es, n, i + 1)
  {
    var e, m := es[i], Main(hash, |hs|, es[i].key);
    var u := hs[m := FirstNode(hash, e)];
    assert e in es;
    FirstPassStep(hs, hash, e);
    forall x | 0 <= x < |u| && u[x].full ensures exists j :: 0 <= j < i + 1 && es[j].key == u[x].key {
      if x == m { assert es[i].key == u[x].key; } else { assert hs[x].full; }
    }
    forall j | 0 <= j < i + 1 && !InArray(es[j].key, n) ensures HomeTaken(u, hash, es[j].key) {
      if j < i { assert HomeTaken(hs, hash, es[j].key); }
    }
  }

  lemma TakenDone(hs: seq<Node>, hash: HashFunction, es: seq<Entry>, n: nat)
    requires SomeTaken(hs, hash, es, n, |es|)
    ensures SecondPass(hs, hash, es, n, 0)
  {
    SecondPassFirst(hs, hash, es, n);
  }

  lemma SecondPassHome(hs: seq<Node>, hash: HashFunction, es: seq<Entry>, n: nat, i: nat)
    requires i < |es| && SecondPass(hs, hash, es, n, i) && !InArray(es[i].key, n)
    ensures |hs| > 0 && hs[Main(hash, |hs|, es[i].key)].full
    ensures hs[Main(hash, |hs|, es[i].key)].key == es[i].key ==> Holds(hs, es[i].key)
  {
    assert es[i] in es;
    assert HomeTaken(hs, hash, es[i].key);
  }

  lemma MissingKey(hs: seq<Node>, hash: HashFunction, es: seq<Entry>, n: nat, i: nat)
    requires |hs| == CountSize(es, n) && i < |es| && SecondPass(hs, hash, es, n, i) && Distinct(es)
      && !InArray(es[i].key, n)
    requires |hs| > 0 && hs[Main(hash, |hs|, es[i].key)].key != es[i].key
    ensures !Holds(hs, es[i].key) && exists x :: 0 <= x < |hs| && !hs[x].full
  {
    NotYet(hs, hash, es, n, i);
    FreeSlot(hs, hash, es, n, es[i].key);
  }

  lemma SecondPassFirst(hs: seq<Node>, hash: HashFunction, es: seq<Entry>, n: nat)
    requires FirstPass(hs, hash) && FromSource(hs, es, n)
    requires forall e | e in es && !InArray(e.key, n) :: |hs| > 0 && HomeTaken(hs, hash, e.key)
    ensures SecondPass(hs, hash, es, n, 0)
  {
    var chains := SingleChains(hs, hash);
  }

  /** A key that its main position does not hold is not in the table yet. */
  lemma NotYet(hs: seq<Node>, hash: HashFunction, es: seq<Entry>, n: nat, i: nat)
    requires |hs| > 0 && i < |es| && SecondPass(hs, hash, es, n, i) && Distinct(es)
    requires hs[Main(hash, |hs|, es[i].key)].key != es[i].key
    ensures !Holds(hs, es[i].key)
  {
    forall x | 0 <= x < |hs| && hs[x].full ensures hs[x].key != es[i].key {
      if !AtHome(hs, hash, x) {
        var j :| 0 <= j < i && es[j].key == hs[x].key;
      }
    }
  }

  lemma SecondPassSkip(hs: seq<Node>, hash: HashFunction, es: seq<Entry>, n: nat, i: nat)
    requires i < |es| && SecondPass(hs, hash, es, n, i)
    requires !InArray(es[i].key, n) ==> Holds(hs, es[i].key)
    ensures SecondPass(hs, hash, es, n, i + 1)
  {
  }

  lemma SecondPassLink(hs: seq<Node>, hash: HashFunction, es: seq<Entry>, n: nat, i: nat, slot: nat)
    requires i < |es| && SecondPass(hs, hash, es, n, i) && !InArray(es[i].key, n)
    requires slot < |hs| && !hs[slot].full && !Holds(hs, es[i].key)
    ensures SecondPass(Linked(hs, hash, es[i], slot), hash, es, n, i + 1)
  {
    assert es[i] in es;
    var u := Linked(hs, hash, es[i], slot);
    var chains :| Chained(hs, hash, chains);
    var chains' := LinkedChains(hs, hash, chains, es[i], slot);
    LinkedKeys(hs, hash, es[i], slot);
    forall e | e in es && !InArray(e.key, n) ensures HomeTaken(u, hash, e.key) { assert HomeTaken(hs, hash, e.key); }
    forall x | 0 <= x < |u| && u[x].full && !AtHome(u, hash, x)
      ensures exists j :: 0 <= j < i + 1 && es[j].key == u[x].key {
      if x == slot {
        assert es[i].key == u[x].key;
      } else {
        assert hs[x].full && hs[x].key == u[x].key && !AtHome(hs, hash, x);
      }
    }
  }

  lemma SecondPassDone(hs: seq<Node>, hash: HashFunction, es: seq<Entry>, n: nat)
    requires SecondPass(hs, hash, es, n, |es|) && Distinct(es) && |hs| == CountSize(es, n)
    ensures Built(hs, hash, es, n)
  {
    forall k | k in HashKeys(es, n) ensures Holds(hs, k) {
      var j :| 0 <= j < |es| && !InArray(es[j].key, n) && es[j].key == k;
    }
    NoneFree(hs, hash, es, n);
    forall i | 0 <= i < |hs| ensures HomeTaken(hs, hash, hs[i].key) {
      assert Entry(hs[i].key, hs[i].value) in es;
    }
    forall e | e in es && !InArray(e.key, n) ensures Holds(hs, e.key) {
      var j :| 0 <= j < |es| && es[j] == e;
    }
  }

  /** Where a key is found, or that it is not there, follows from its chain. */
  lemma InChain(hs: seq<Node>, hash: HashFunction, chains: seq<seq<nat>>, i: nat) returns (p: nat)
    requires Chained(hs, hash, chains) && i < |hs| && hs[i].full
    ensures var m := Main(hash, |hs|, hs[i].key);
            p < |chains[m]| && chains[m][p] == i && LinkOk(hs, hash, m, chains[m], p)
  {
    var m := Main(hash, |hs|, hs[i].key);
    assert i in chains[m] && ChainOk(hs, hash, m, chains[m]);
    p :| 0 <= p < |chains[m]| && chains[m][p] == i;
  }

  class Table {
    const hash: HashFunction
    var sizearray: nat
    var sizehash: nat
    var cells: array<Option<Value>>
    var slots: array<Node>

    ghost predicate Shaped()
      reads this
    {
      cells.Length == sizearray && slots.Length == sizehash
    }

    ghost predicate Valid(es: seq<Entry>)
      reads this, cells, slots
    {
      Shaped() && Distinct(es) && ArrayOk(cells[..], es) && Built(slots[..], hash, es, sizearray)
    }

    /** `convtable`: `es` enumerates a source table whose length operator gives `n`. */
    constructor (hash: HashFunction, es: seq<Entry>, n: nat)
      requires Distinct(es)
      ensures Valid(es) && sizearray == n && this.hash == hash && fresh(cells) && fresh(slots)
    {
      this.hash := hash;
      sizearray := n;
      cells := new Option<Value>[n](_ => None);
      var size := 0;
      for i := 0 to |es|
        invariant size == CountSize(es[..i], n)
      {
        assert es[..i + 1][..i] == es[..i];
        if !InArray(es[i].key, n) { size := size + 1; }
      }
      assert es[..|es|] == es;
      sizehash := size;
      slots := new Node[size](_ => EMPTY);
      new;
      FillNoColliding(es);
      FillColliding(es);
    }

    /** `fillnocolliding`. */
    method FillNoColliding(es: seq<Entry>)
      requires Shaped() && Distinct(es) && sizehash == CountSize(es, sizearray)
      requires forall k | 0 <= k < sizearray :: cells[k] == None
      requires forall k | 0 <= k < sizehash :: slots[k] == EMPTY
      modifies cells, slots
      ensures ArrayOk(cells[..], es) && SecondPass(slots[..], hash, es, sizearray, 0)
    {
      SizePositive(es, sizearray);
      for i := 0 to |es|
        invariant ArrayOk(cells[..], es[..i])
        invariant SomeTaken(slots[..], hash, es, sizearray, i)
      {
        ghost var cs := cells[..];
        var e := es[i];
        assert es[i] in es;
        CellsStep(cs, es, i);
        if InArray(e.key, sizearray) {
          cells[e.key.n - 1] := Some(e.value);
          assert cells[..] == cs[e.key.n - 1 := Some(e.value)];
          TakenSkip(slots[..], hash, es, sizearray, i);
        } else {
          var m := Main(hash, sizehash, e.key);
          ghost var hs := slots[..];
          if !slots[m].full {
            TakenStep(hs, hash, es, sizearray, i);
            slots[m] := Node(true, e.key, hash(e.key), e.value, -1, true);
            assert slots[..] == hs[m := FirstNode(hash, e)];
          } else {
            TakenSkip(hs, hash, es, sizearray, i);
          }
          assert cells[..] == cs;
        }
      }
      assert es[..|es|] == es;
      TakenDone(slots[..], hash, es, sizearray);
    }

    /** `fillcolliding`: the search for a free slot never looks back, and never fails. */
    method FillColliding(es: seq<Entry>)
      requires Shaped() && Distinct(es) && sizehash == CountSize(es, sizearray)
      requires SecondPass(slots[..], hash, es, sizearray, 0)
      modifies slots
      ensures Built(slots[..], hash, es, sizearray)
    {
      hide SecondPass, Built;
      var emptyslot := 0;
      for i := 0 to |es|
        invariant 0 <= emptyslot <= sizehash && forall x | 0 <= x < emptyslot :: slots[x].full
        invariant SecondPass(slots[..], hash, es, sizearray, i)
      {
        var e := es[i];
        ghost var hs := slots[..];
        if !InArray(e.key, sizearray) {
          SecondPassHome(hs, hash, es, sizearray, i);
          var m := Main(hash, sizehash, e.key);
          if slots[m].key != e.key {
            MissingKey(hs, hash, es, sizearray, i);
            var n := FindFree(emptyslot);
            emptyslot := n + 1;
            SecondPassLink(hs, hash, es, sizearray, i, n);
            slots[n] := Node(true, e.key, hash(e.key), e.value, slots[m].next, false);
            slots[m] := slots[m].(next := n, nocolliding := false);
            assert slots[..] == Linked(hs, hash, e, n);
          } else {
            SecondPassSkip(hs, hash, es, sizearray, i);
          }
        } else {
          SecondPassSkip(hs, hash, es, sizearray, i);
        }
      }
      SecondPassDone(slots[..], hash, es, sizearray);
    }

    method FindFree(emptyslot: nat) returns (n: nat)
      requires Shaped() && (forall x | 0 <= x < emptyslot :: x < sizehash && slots[x].full)
      requires exists i :: 0 <= i < sizehash && !slots[i].full
      ensures emptyslot <= n < sizehash && !slots[n].full && forall x | 0 <= x < n :: slots[x].full
    {
      n := emptyslot;
      ghost var i :| 0 <= i < sizehash && !slots[i].full;
      assert emptyslot <= i;
      while slots[n].full
        invariant emptyslot <= n <= i && forall x | 0 <= x < n :: slots[x].full
        decreases sizehash - n
      {
        n := n + 1;
      }
    }

    /** `lookup_key`: the index of the node with this key, or -1. */
    method LookupKey(key: Key, ghost es: seq<Entry>) returns (index: int)
      requires Valid(es)
      ensures -1 <= index < sizehash
      ensures index >= 0 ==> slots[index].full && slots[index].key == key
      ensures index < 0 ==> !Holds(slots[..], key)
    {
      hide FromSource, ChainOk;
      if sizehash == 0 {
        return -1;
      }
      ghost var hs := slots[..];
      var n := Main(hash, sizehash, key);
      if hash(key) != slots[n].keyhash && slots[n].nocolliding {
        AloneThere(hs, hash, key);
        return -1;
      }
      index := Walk(key, n, es);
    }

    /** The loop of `lookup_key` along the chain. */
    method Walk(key: Key, start: nat, ghost es: seq<Entry>) returns (index: int)
      requires Valid(es) && sizehash > 0 && start == Main(hash, sizehash, key)
      ensures -1 <= index < sizehash
      ensures index >= 0 ==> slots[index].full && slots[index].key == key
      ensures index < 0 ==> !Holds(slots[..], key)
    {
      hide FromSource, ChainOk, Holds, KeysOk, HomeTaken;
      ghost var hs := slots[..];
      var n := start;
      ghost var chains :| Chained(hs, hash, chains);
      ghost var m := Main(hash, sizehash, slots[n].key);
      ghost var p := InChain(hs, hash, chains, n);
      StartOfChain(hs, hash, chains, key, p);
      while true
        invariant 0 <= n < sizehash && p < |chains[m]| && chains[m][p] == n && LinkOk(hs, hash, m, chains[m], p)
        invariant Holds(hs, key) ==> m == start
        invariant m == start ==> forall q | 0 <= q < p :: chains[m][q] < |hs| ==> hs[chains[m][q]].key != key
        decreases |chains[m]| - p
      {
        if hash(key) == slots[n].keyhash {
          if slots[n].key == key {
            return n;
          }
        }
        HashOfKey(hs, hash, n);
        if slots[n].next < 0 {
          if m == start { WholeChain(hs, hash, chains, key); }
          return -1;
        }
        n := slots[n].next;
        p := p + 1;
        LinkAt(hs, hash, chains, m, p);
      }
    }

    /** `lindexconf`: the value of a key, exactly as in the table it was built from. */
    method Index(key: Key, ghost es: seq<Entry>) returns (v: Option<Value>)
      requires Valid(es)
      ensures v == ValueOf(es, key)
    {
      if InArray(key, sizearray) {
        return cells[key.n - 1];
      }
      var i := LookupKey(key, es);
      if i >= 0 {
        assert Entry(slots[..][i].key, slots[..][i].value) in es;
        ValueOfEntry(es, Entry(slots[i].key, slots[i].value));
        return Some(slots[i].value);
      }
      ValueOfNone(es, key);
      return None;
    }

    /** The keys in the order of traversal. */
    ghost function Order(): seq<Key>
      requires Shaped()
      reads this, cells, slots
    {
      ArrayKeys(cells[..], 0) + NodeKeys(slots[..])
    }

    /** `pushfirsthash`. */
    method FirstHash() returns (r: Option<Key>)
      requires Shaped()
      ensures r == First(NodeKeys(slots[..]))
    {
      if sizehash > 0 {
        assert NodeKeys(slots[..])[0] == slots[0].key;
        return Some(slots[0].key);
      }
      return None;
    }

    /** The next key of the array part from cell `i` on, or the first of the hash part. */
    method NextCell(start: nat) returns (r: Option<Key>)
      requires Shaped() && start <= sizearray
      ensures r == First(ArrayKeys(cells[..], start) + NodeKeys(slots[..]))
    {
      var i := start;
      while i < sizearray
        invariant start <= i <= sizearray
        invariant ArrayKeys(cells[..], start) == ArrayKeys(cells[..], i)
      {
        if cells[i].Some? {
          return Some(IntKey(i + 1));
        }
        i := i + 1;
      }
      r := FirstHash();
      assert ArrayKeys(cells[..], i) == [];
      assert [] + NodeKeys(slots[..]) == NodeKeys(slots[..]);
    }

    /** `lnextkey`: the key after `key` in the traversal, the first one after nil. An index of the array part that
        has no value is followed by what would follow it if it had one. */
    method NextKey(key: Option<Key>, ghost es: seq<Entry>) returns (r: Option<Key>)
      requires Valid(es)
      ensures key == None ==> r == First(Order())
      ensures forall i | 0 <= i < |Order()| && key == Some(Order()[i]) :: r == First(Order()[i + 1..])
      ensures key != None && InArray(key.value, sizearray) ==>
                r == First(ArrayKeys(cells[..], key.value.n) + NodeKeys(slots[..]))
      ensures key != None && !InArray(key.value, sizearray) && key.value !in Order() ==> r == None
    {
      hide FromSource, ArrayOk, Distinct;
      NotArrayKeys(slots[..], hash, es, sizearray);
      ghost var order := Order();
      match key {
        case None =>
          r := NextCell(0);
          return;
        case Some(k) =>
          if InArray(k, sizearray) {
            r := NextCell(k.n);
            forall i | 0 <= i < |order| && order[i] == k ensures r == First(order[i + 1..]) {
              AfterCell(cells[..], slots[..], i, k.n);
            }
            return;
          }
          r := NextNode(k, es);
          return;
      }
    }

    /** The key of the slot after that of `key`. */
    method NextNode(key: Key, ghost es: seq<Entry>) returns (r: Option<Key>)
      requires Valid(es) && !InArray(key, sizearray)
      ensures forall i | 0 <= i < |Order()| && key == Order()[i] :: r == First(Order()[i + 1..])
      ensures key !in Order() ==> r == None
    {
      hide FromSource, ArrayOk, Distinct, ArrayKeys;
      var n := LookupKey(key, es);
      ghost var order, keys := Order(), NodeKeys(slots[..]);
      forall i | 0 <= i < |order| && order[i] == key ensures 0 <= n && order[i + 1..] == keys[n + 1..] {
        AfterNode(cells[..], slots[..], hash, i, n);
      }
      if n < 0 {
        return None;
      }
      assert keys[n] == key && order[|ArrayKeys(cells[..], 0)| + n] == key;
      n := n + 1;
      if n == sizehash {
        assert keys[n..] == [];
        return None;
      }
      assert keys[n..][0] == keys[n];
      return Some(slots[n].key);
    }
  }

  lemma NotArrayKeys(hs: seq<Node>, hash: HashFunction, es: seq<Entry>, n: nat)
    requires Built(hs, hash, es, n)
    ensures forall x | 0 <= x < |hs| :: !InArray(hs[x].key, n)
  {
  }

  function First(ks: seq<Key>): Option<Key> {
    if ks == [] then None else Some(ks[0])
  }

  /** Keys of the array part that are not nil, from cell `i` on. */
  function ArrayKeys(cells: seq<Option<Value>>, i: nat): seq<Key>
    decreases |cells| - i
  {
    if i >= |cells| then [] else (if cells[i].Some? then [IntKey(i + 1)] else []) + ArrayKeys(cells, i + 1)
  }

  function NodeKeys(hs: seq<Node>): (ks: seq<Key>)
    ensures |ks| == |hs| && forall i | 0 <= i < |hs| :: ks[i] == hs[i].key
  {
    seq(|hs|, i requires 0 <= i < |hs| => hs[i].key)
  }

  lemma {:induction false} SizePositive(es: seq<Entry>, n: nat)
    ensures forall e | e in es && !InArray(e.key, n) :: CountSize(es, n) > 0
  {
    if es != [] {
      SizePositive(es[..|es| - 1], n);
      assert es == es[..|es| - 1] + [es[|es| - 1]];
    }
  }

  lemma {:induction false} ValueOfNext(es: seq<Entry>, i: nat, k: Key)
    requires i < |es| && Distinct(es)
    ensures ValueOf(es[..i + 1], k) == if k == es[i].key then Some(es[i].value) else ValueOf(es[..i], k)
    decreases i
  {
    if i > 0 {
      var rest := es[1..];
      assert forall j | 0 <= j < |rest| :: rest[j] == es[j + 1];
      ValueOfNext(rest, i - 1, k);
      assert es[..i + 1][1..] == rest[..i] && es[..i][1..] == rest[..i - 1] && rest[i - 1] == es[i];
      assert es[..i + 1][0] == es[..i][0] == es[0] && es[0].key != es[i].key;
    } else {
      assert es[..1] == [es[0]] && es[..1][1..] == [] && es[..0] == [];
    }
  }

  /** A main position that never collided and holds another hash rules the key out. */
  lemma AloneThere(hs: seq<Node>, hash: HashFunction, key: Key)
    requires |hs| > 0 && KeysOk(hs, hash) && (exists chains :: Chained(hs, hash, chains))
    requires var n := Main(hash, |hs|, key); hs[n].full && hs[n].nocolliding && hs[n].keyhash != hash(key)
    ensures !Holds(hs, key)
  {
    var n := Main(hash, |hs|, key);
    var chains :| Chained(hs, hash, chains);
    assert ChainOk(hs, hash, n, chains[n]);
    forall i | 0 <= i < |hs| && hs[i].full ensures hs[i].key != key {
      assert hs[i].keyhash == hash(hs[i].key);
      if Main(hash, |hs|, hs[i].key) == n {
        var p := InChain(hs, hash, chains, i);
        assert i == n;
      }
    }
  }

  /** If the key is there, its main position starts its chain. */
  lemma StartOfChain(hs: seq<Node>, hash: HashFunction, chains: seq<seq<nat>>, key: Key, p: nat)
    requires |hs| > 0 && Chained(hs, hash, chains) && (forall i | 0 <= i < |hs| :: hs[i].full)
    requires forall i | 0 <= i < |hs| :: HomeTaken(hs, hash, hs[i].key)
    requires var n := Main(hash, |hs|, key);
             var m := Main(hash, |hs|, hs[n].key);
             p < |chains[m]| && chains[m][p] == n
    ensures var n := Main(hash, |hs|, key); Holds(hs, key) ==> Main(hash, |hs|, hs[n].key) == n
    ensures var n := Main(hash, |hs|, key); Main(hash, |hs|, hs[n].key) == n ==> p == 0
  {
    var n := Main(hash, |hs|, key);
    assert ChainOk(hs, hash, n, chains[n]);
    if Holds(hs, key) {
      var i :| 0 <= i < |hs| && hs[i].full && hs[i].key == key;
      assert HomeTaken(hs, hash, hs[i].key);
    }
    if Main(hash, |hs|, hs[n].key) == n { HomeFirst(hs, hash, n, chains[n]); }
  }

  /** A key that is there is in the chain of its main position. */
  lemma WholeChain(hs: seq<Node>, hash: HashFunction, chains: seq<seq<nat>>, key: Key)
    requires |hs| > 0 && Chained(hs, hash, chains)
    requires var c := chains[Main(hash, |hs|, key)]; forall q | 0 <= q < |c| :: c[q] < |hs| ==> hs[c[q]].key != key
    ensures !Holds(hs, key)
  {
    forall i | 0 <= i < |hs| && hs[i].full ensures hs[i].key != key {
      var p := InChain(hs, hash, chains, i);
    }
  }

  lemma HashOfKey(hs: seq<Node>, hash: HashFunction, i: nat)
    requires KeysOk(hs, hash) && i < |hs| && hs[i].full
    ensures hs[i].keyhash == hash(hs[i].key)
  {
  }

  lemma LinkAt(hs: seq<Node>, hash: HashFunction, chains: seq<seq<nat>>, m: nat, p: nat)
    requires Chained(hs, hash, chains) && m < |hs| && p < |chains[m]|
    ensures LinkOk(hs, hash, m, chains[m], p)
  {
    assert ChainOk(hs, hash, m, chains[m]);
  }

  // Traversal

  lemma {:induction false} ArrayKeysMean(cells: seq<Option<Value>>, i: nat)
    ensures forall k | k in ArrayKeys(cells, i) :: k.IntKey? && i < k.n <= |cells| && cells[k.n - 1].Some?
    ensures forall x | i <= x < |cells| && cells[x].Some? :: IntKey(x + 1) in ArrayKeys(cells, i)
    ensures forall p, q | 0 <= p < q < |ArrayKeys(cells, i)| :: ArrayKeys(cells, i)[p] != ArrayKeys(cells, i)[q]
    decreases |cells| - i
  {
    hide ArrayKeys;
    ArrayKeysStep(cells, i);
    if i < |cells| {
      ArrayKeysMean(cells, i + 1);
      var all, rest := ArrayKeys(cells, i), ArrayKeys(cells, i + 1);
      if cells[i].Some? {
        assert IntKey(i + 1) == all[0];
        forall x | i <= x < |cells| && cells[x].Some? ensures IntKey(x + 1) in all {
          if x > i { var p :| 0 <= p < |rest| && rest[p] == IntKey(x + 1); assert all[p + 1] == rest[p]; }
        }
        forall p, q | 0 <= p < q < |all| ensures all[p] != all[q] {
          assert all[q] == rest[q - 1] && rest[q - 1] in rest;
        }
      }
    }
  }

  lemma ArrayKeysStep(cells: seq<Option<Value>>, i: nat)
    ensures i >= |cells| ==> ArrayKeys(cells, i) == []
    ensures i < |cells| && cells[i].None? ==> ArrayKeys(cells, i) == ArrayKeys(cells, i + 1)
    ensures i < |cells| && cells[i].Some? ==> ArrayKeys(cells, i) == [IntKey(i + 1)] + ArrayKeys(cells, i + 1)
  {
    NoMore(ArrayKeys(cells, i + 1));
  }

  lemma {:induction false} AfterArrayKey(cells: seq<Option<Value>>, start: nat, i: nat, n: nat)
    requires i < |ArrayKeys(cells, start)| && ArrayKeys(cells, start)[i] == IntKey(n)
    ensures start < n <= |cells| && ArrayKeys(cells, start)[i + 1..] == ArrayKeys(cells, n)
    decreases |cells| - start
  {
    var ks, rest := ArrayKeys(cells, start), ArrayKeys(cells, start + 1);
    if cells[start].Some? {
      if i == 0 { assert ks[1..] == rest; }
      else {
        AfterArrayKey(cells, start + 1, i - 1, n);
        assert ks[i + 1..] == rest[i..];
      }
    } else {
      assert ks == rest;
      AfterArrayKey(cells, start + 1, i, n);
    }
  }

  lemma AfterCell(cells: seq<Option<Value>>, hs: seq<Node>, i: nat, n: nat)
    requires var order := ArrayKeys(cells, 0) + NodeKeys(hs); i < |order| && order[i] == IntKey(n)
    requires 0 < n <= |cells| && forall x | 0 <= x < |hs| :: !InArray(hs[x].key, |cells|)
    ensures (ArrayKeys(cells, 0) + NodeKeys(hs))[i + 1..] == ArrayKeys(cells, n) + NodeKeys(hs)
  {
    var a := ArrayKeys(cells, 0);
    forall x | |a| <= x < |a + NodeKeys(hs)| ensures (a + NodeKeys(hs))[x] != IntKey(n) {
      assert !InArray(hs[x - |a|].key, |cells|);
    }
    AfterArrayKey(cells, 0, i, n);
    assert (a + NodeKeys(hs))[i + 1..] == a[i + 1..] + NodeKeys(hs);
  }

  lemma AfterNode(cells: seq<Option<Value>>, hs: seq<Node>, hash: HashFunction, i: nat, n: int)
    requires KeysOk(hs, hash) && (forall x | 0 <= x < |hs| :: hs[x].full)
    requires var order := ArrayKeys(cells, 0) + NodeKeys(hs);
             && i < |order| && !InArray(order[i], |cells|)
             && (n >= 0 ==> n < |hs| && hs[n].key == order[i]) && (n < 0 ==> !Holds(hs, order[i]))
    ensures n >= 0 && (ArrayKeys(cells, 0) + NodeKeys(hs))[i + 1..] == NodeKeys(hs)[n + 1..]
  {
    var a := ArrayKeys(cells, 0);
    ArrayKeysMean(cells, 0);
    forall x | 0 <= x < |a| ensures InArray((a + NodeKeys(hs))[x], |cells|) { assert a[x] in a; }
    var x := i - |a|;
    assert hs[x].full && hs[x].key == (a + NodeKeys(hs))[i];
  }

  /** The traversal: first the array keys, then those of the slots, none of them twice. */
  lemma OrderDistinct(cells: seq<Option<Value>>, hs: seq<Node>, hash: HashFunction)
    requires KeysOk(hs, hash) && (forall i | 0 <= i < |hs| :: hs[i].full && !InArray(hs[i].key, |cells|))
    ensures var order := ArrayKeys(cells, 0) + NodeKeys(hs);
            forall i, j | 0 <= i < j < |order| :: order[i] != order[j]
  {
    var a, order := ArrayKeys(cells, 0), ArrayKeys(cells, 0) + NodeKeys(hs);
    ArrayKeysMean(cells, 0);
    forall i, j | 0 <= i < j < |order| ensures order[i] != order[j] {
      if i < |a| { assert order[i] == a[i] && a[i] in a && InArray(a[i], |cells|); }
      if j >= |a| { assert order[j] == hs[j - |a|].key; }
      if i >= |a| { assert order[i] == hs[i - |a|].key; }
    }
  }

  lemma OrderComplete(cells: seq<Option<Value>>, hs: seq<Node>, hash: HashFunction, es: seq<Entry>, k: Key)
    requires Distinct(es) && ArrayOk(cells, es) && Built(hs, hash, es, |cells|)
    ensures k in ArrayKeys(cells, 0) + NodeKeys(hs) <==> ValueOf(es, k) != None
  {
    hide KeysOk, Chained, HomeTaken;
    ArrayKeysMean(cells, 0);
    ValueOfNone(es, k);
    if InArray(k, |cells|) {
      assert cells[k.n - 1] == ValueOf(es, IntKey(k.n - 1 + 1));
      assert forall i | 0 <= i < |hs| :: NodeKeys(hs)[i] == hs[i].key && !InArray(hs[i].key, |cells|);
      assert k !in NodeKeys(hs);
    } else {
      assert k !in ArrayKeys(cells, 0);
      if k in NodeKeys(hs) {
        var i :| 0 <= i < |hs| && NodeKeys(hs)[i] == k;
        assert Entry(hs[i].key, hs[i].value) in es;
      }
      if ValueOf(es, k) != None {
        var e :| e in es && e.key == k;
        assert Holds(hs, e.key);
        var i :| 0 <= i < |hs| && hs[i].full && hs[i].key == k;
        assert NodeKeys(hs)[i] == k;
      }
    }
  }

  /** Starting from nil and asking for the next key again and again visits every key of the table exactly once. */
  lemma VisitsAll(table: Table, es: seq<Entry>)
    requires table.Valid(es)
    ensures forall i, j | 0 <= i < j < |table.Order()| :: table.Order()[i] != table.Order()[j]
    ensures forall k :: k in table.Order() <==> ValueOf(es, k) != None
  {
    var cells, hs := table.cells[..], table.slots[..];
    NotArrayKeys(hs, table.hash, es, table.sizearray);
    OrderDistinct(cells, hs, table.hash);
    forall k ensures k in table.Order() <==> ValueOf(es, k) != None { OrderComplete(cells, hs, table.hash, es, k); }
  }

  /** The loop of a traversal: ask for the next key until there is none. */
  method AllKeys(table: Table, ghost es: seq<Entry>) returns (keys: seq<Key>)
    requires table.Valid(es)
    ensures forall i, j | 0 <= i < j < |keys| :: keys[i] != keys[j]
    ensures forall k :: k in keys <==> ValueOf(es, k) != None
  {
    hide Table.Order, Table.Shaped, ValueOf, InArray, ArrayOk, Built, Distinct;
    ghost var order := table.Order();
    keys := [];
    var key := table.NextKey(None, es);
    while key != None
      invariant |keys| <= |order| && keys == order[..|keys|] && key == First(order[|keys|..])
      decreases |order| - |keys|
    {
      ghost var i := |keys|;
      assert order[i..][0] == order[i];
      keys := keys + [key.value];
      key := table.NextKey(key, es);
    }
    VisitsAll(table, es);
    assert keys == order;
  }
}
