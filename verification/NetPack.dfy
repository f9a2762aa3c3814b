/** Reassembly of size-prefixed packages from a byte stream (lua-netpack.c). Chunks of many connections arrive in any
    order and cut anywhere; what was left over of each connection waits in a hash table of chains. */
module NetPack {
  import opened Common
  import opened RingBuffer

  const QUEUESIZE: nat := 1024
  const HASHSIZE: nat := 4096

  /** A package's size has to fit the two bytes in front of it. */
  const TOO_LONG: nat := 0x10000

  datatype Package = Package(id: int, data: seq<Byte>)

  /** The start of a package: `read` bytes of `size`, or, when `read` is -1, only the first byte of the size. `buffer`
      is the filled part of the allocated buffer. */
  datatype Uncomplete = Uncomplete(id: int, size: int, buffer: seq<Byte>, read: int, header: Byte)

  /** What `filter_data_` answers: nothing, the only package, or that packages were queued. */
  datatype Answer = Nothing | Data(fd: int, data: seq<Byte>) | More

  // Streams of packages

  function SizeOf(a: Byte, b: Byte): (n: nat)
    ensures n < TOO_LONG
  {
    256 * a + b
  }

  /** The stream starts with a whole package. */
  predicate Whole(s: seq<Byte>) {
    |s| >= 2 && |s| - 2 >= SizeOf(s[0], s[1])
  }

  /** The packages that are complete in the stream `s`. */
  function Packs(s: seq<Byte>): seq<seq<Byte>>
    decreases |s|
  {
    if !Whole(s) then []
    else var n := SizeOf(s[0], s[1]); [s[2..2 + n]] + Packs(s[2 + n..])
  }

  /** The bytes behind them. */
  function Rest(s: seq<Byte>): seq<Byte>
    decreases |s|
  {
    if !Whole(s) then s else Rest(s[2 + SizeOf(s[0], s[1])..])
  }

  /** What `lpack` makes of a message. */
  function Frame(m: seq<Byte>): (s: seq<Byte>)
    requires |m| < TOO_LONG
  {
    [|m| / 256, |m| % 256] + m
  }

  function Frames(ms: seq<seq<Byte>>): seq<Byte>
    requires forall m | m in ms :: |m| < TOO_LONG
  {
    if ms == [] then [] else Frame(ms[0]) + Frames(ms[1..])
  }

  lemma PacksFrame(m: seq<Byte>, t: seq<Byte>)
    requires |m| < TOO_LONG
    ensures Packs(Frame(m) + t) == [m] + Packs(t) && Rest(Frame(m) + t) == Rest(t)
  {
    var s := Frame(m) + t;
    assert s[2..2 + |m|] == m;
    assert s[2 + |m|..] == t;
  }

  lemma PacksNone(s: seq<Byte>)
    requires !Whole(s)
    ensures Packs(s) == [] && Rest(s) == s
  {
  }

  /** The first package and what follows it. */
  lemma Split(s: seq<Byte>) returns (m: seq<Byte>, t: seq<Byte>)
    requires Whole(s)
    ensures |m| < TOO_LONG && s == Frame(m) + t && |t| < |s|
    ensures |m| == SizeOf(s[0], s[1]) && m == s[2..][..|m|] && t == s[2..][|m|..]
  {
    var n := SizeOf(s[0], s[1]);
    m, t := s[2..][..n], s[2..][n..];
  }

  /** The stream may be cut anywhere. */
  lemma {:induction false} PacksAppend(s: seq<Byte>, t: seq<Byte>)
    ensures Packs(s + t) == Packs(s) + Packs(Rest(s) + t) && Rest(s + t) == Rest(Rest(s) + t)
    decreases |s|
  {
    hide Packs, Rest, Frame, Whole;
    if Whole(s) {
      var m, u := Split(s);
      PacksFrame(m, u);
      PacksAppend(u, t);
      Assoc(Frame(m), u, t);
      PacksFrame(m, u + t);
      Assoc([m], Packs(u), Packs(Rest(u) + t));
    } else {
      PacksNone(s);
      NoMore(Packs(s + t));
    }
  }

  lemma {:induction false} RestNotWhole(s: seq<Byte>)
    ensures !Whole(Rest(s))
    decreases |s|
  {
    hide Packs, Frame, Whole;
    if Whole(s) {
      var m, t := Split(s);
      PacksFrame(m, t);
      RestNotWhole(t);
    } else {
      PacksNone(s);
    }
  }

  /** Every stream is a sequence of packed messages and the start of one more, in one way. */
  lemma {:induction false} StreamSplits(s: seq<Byte>)
    ensures (forall m | m in Packs(s) :: |m| < TOO_LONG) && !Whole(Rest(s))
    ensures s == Frames(Packs(s)) + Rest(s)
    decreases |s|
  {
    hide Packs, Frame, Whole;
    RestNotWhole(s);
    if Whole(s) {
      var m, t := Split(s);
      PacksFrame(m, t);
      StreamSplits(t);
      HeadTail(m, Packs(t));
      Assoc(Frame(m), Frames(Packs(t)), Rest(t));
    } else {
      PacksNone(s);
      NoMore(s);
    }
  }

  /** Unpacking the stream of packed messages gives the messages; an unfinished package behind them is left over. */
  lemma {:induction false} PacksFrames(ms: seq<seq<Byte>>, t: seq<Byte>)
    requires forall m | m in ms :: |m| < TOO_LONG
    requires !Whole(t)
    ensures Packs(Frames(ms) + t) == ms && Rest(Frames(ms) + t) == t
  {
    if ms == [] {
      assert Frames(ms) + t == t;
    } else {
      PacksFrames(ms[1..], t);
      PacksFrame(ms[0], Frames(ms[1..]) + t);
      assert Frames(ms) + t == Frame(ms[0]) + (Frames(ms[1..]) + t);
    }
  }

  /** `lpack`: an error when the message is too long. */
  method Pack(m: seq<Byte>) returns (r: Option<array<Byte>>)
    ensures r.None? == (|m| >= TOO_LONG)
    ensures r.Some? ==> fresh(r.value) && Packs(r.value[..]) == [m] && Rest(r.value[..]) == []
    ensures r.Some? ==> r.value[..] == Frame(m)
  {
    if |m| >= TOO_LONG {
      return None;
    }
    var buffer := new Byte[|m| + 2](_ => 0);
    buffer[0] := |m| / 256 % 256;
    buffer[1] := |m| % 256;
    var i := 0;
    while i < |m|
      invariant 0 <= i <= |m|
      invariant buffer[0] == |m| / 256 && buffer[1] == |m| % 256
      invariant forall k | 0 <= k < i :: buffer[2 + k] == m[k]
    {
      buffer[2 + i] := m[i];
      i := i + 1;
    }
    assert buffer[..] == Frame(m);
    PacksFrames([m], []);
    assert Frames([m]) + [] == Frame(m);
    return Some(buffer);
  }

  // Leftovers

  /** The chain of a connection; the shifts are arithmetic, and wrapping at 32 bits does not show modulo 4096. */
  function HashFd(fd: int): (h: nat)
    ensures h < HASHSIZE
  {
    (fd / 0x1000000 + fd / 0x1000 + fd) % HASHSIZE
  }

  predicate UncompleteOk(u: Uncomplete) {
    u.read == -1 || 0 <= u.read == |u.buffer| < u.size < TOO_LONG
  }

  /** The bytes that a leftover stands for. */
  function Raw(u: Uncomplete): seq<Byte>
    requires UncompleteOk(u)
  {
    if u.read < 0 then [u.header] else [u.size / 256, u.size % 256] + u.buffer
  }

  /** All of a chain's connections hash to it, none twice. */
  ghost predicate ChainOk(c: seq<Uncomplete>, h: nat) {
    && (forall i | 0 <= i < |c| :: UncompleteOk(c[i]) && HashFd(c[i].id) == h)
    && (forall i, j | 0 <= i < j < |c| :: c[i].id != c[j].id)
  }

  ghost predicate InChain(c: seq<Uncomplete>, fd: int) {
    exists i :: 0 <= i < |c| && c[i].id == fd
  }

  /** The bytes that wait for connection `fd` in a chain. */
  function Waiting(c: seq<Uncomplete>, fd: int): seq<Byte>
    requires forall i | 0 <= i < |c| :: UncompleteOk(c[i])
  {
    if c == [] then [] else if c[0].id == fd then Raw(c[0]) else Waiting(c[1..], fd)
  }

  lemma {:induction false} WaitingAt(c: seq<Uncomplete>, i: nat)
    requires i < |c| && (forall j | 0 <= j < |c| :: UncompleteOk(c[j]))
    requires forall j | 0 <= j < i :: c[j].id != c[i].id
    ensures Waiting(c, c[i].id) == Raw(c[i])
  {
    if i > 0 { WaitingAt(c[1..], i - 1); }
  }

  lemma {:induction false} WaitingNot(c: seq<Uncomplete>, fd: int)
    requires forall j | 0 <= j < |c| :: UncompleteOk(c[j])
    requires !InChain(c, fd)
    ensures Waiting(c, fd) == []
  {
    if c != [] {
      forall i | 0 <= i < |c[1..]| ensures c[1..][i].id != fd { assert c[1..][i] == c[i + 1]; }
      assert c[0].id != fd;
      WaitingNot(c[1..], fd);
    }
  }

  lemma NotWaiting(c: seq<Uncomplete>, h: nat, fd: int)
    requires ChainOk(c, h) && !InChain(c, fd)
    ensures Waiting(c, fd) == []
  {
    WaitingNot(c, fd);
  }

  function Unlinked(c: seq<Uncomplete>, i: nat): seq<Uncomplete>
    requires i < |c|
  {
    c[..i] + c[i + 1..]
  }

  /** Unlinking an element leaves the other connections alone. */
  lemma {:induction false} WaitingUnlinked(c: seq<Uncomplete>, i: nat, fd: int)
    requires i < |c| && c[i].id != fd && (forall j | 0 <= j < |c| :: UncompleteOk(c[j]))
    ensures forall j | 0 <= j < |Unlinked(c, i)| :: UncompleteOk(Unlinked(c, i)[j])
    ensures Waiting(Unlinked(c, i), fd) == Waiting(c, fd)
  {
    if i > 0 {
      WaitingUnlinked(c[1..], i - 1, fd);
      assert Unlinked(c, i)[1..] == Unlinked(c[1..], i - 1);
    } else {
      assert Unlinked(c, i) == c[1..];
    }
  }

  /** Unlinking the leftover of a connection takes its bytes and nothing else. */
  lemma UnlinkedOk(c: seq<Uncomplete>, h: nat, i: nat)
    requires ChainOk(c, h) && i < |c|
    ensures UncompleteOk(c[i]) && Waiting(c, c[i].id) == Raw(c[i])
    ensures ChainOk(Unlinked(c, i), h) && !InChain(Unlinked(c, i), c[i].id)
    ensures Waiting(Unlinked(c, i), c[i].id) == []
    ensures forall g | g != c[i].id :: Waiting(Unlinked(c, i), g) == Waiting(c, g)
  {
    hide Waiting, Raw;
    WaitingAt(c, i);
    WaitingNot(Unlinked(c, i), c[i].id);
    forall g | g != c[i].id ensures Waiting(Unlinked(c, i), g) == Waiting(c, g) { WaitingUnlinked(c, i, g); }
  }

  function Packages(fd: int, ps: seq<seq<Byte>>): seq<Package> {
    seq(|ps|, i requires 0 <= i < |ps| => Package(fd, ps[i]))
  }

  lemma PackagesNext(fd: int, m: seq<Byte>, ps: seq<seq<Byte>>)
    ensures Packages(fd, [m] + ps) == [Package(fd, m)] + Packages(fd, ps)
  {
  }

  /** The first package of a stream that starts with a whole one. */
  lemma PacksNext(fd: int, s: seq<Byte>)
    requires Whole(s)
    ensures var n := SizeOf(s[0], s[1]);
            && Packages(fd, Packs(s)) == [Package(fd, s[2..][..n])] + Packages(fd, Packs(s[2..][n..]))
            && Rest(s) == Rest(s[2..][n..])
  {
    hide Packs, Rest, Frame, Packages;
    var m, t := Split(s);
    PacksFrame(m, t);
    PackagesNext(fd, m, Packs(t));
  }

  /** A stream that is only part of a package. */
  lemma PacksPart(fd: int, u: Uncomplete, s: seq<Byte>)
    requires if u.read == -1 then s == [u.header] else |s| >= 2 && u.size == SizeOf(s[0], s[1]) && u.buffer == s[2..]
    requires UncompleteOk(u)
    ensures Packages(fd, Packs(s)) == [] && Rest(s) == s == Raw(u)
  {
  }

  /** The answer to a chunk that makes the bytes `s` available: what it delivers is what is complete in them. */
  predicate Answered(answer: Answer, fd: int, s: seq<Byte>) {
    match answer
    case Nothing => Packs(s) == []
    case Data(id, data) => id == fd && Packs(s) == [data] && Rest(s) == []
    case More => Packs(s) != [] && !(|Packs(s)| == 1 && Rest(s) == [])
  }

  /** What goes through the queue. */
  function Queued(answer: Answer, fd: int, s: seq<Byte>): seq<Package> {
    if answer == More then Packages(fd, Packs(s)) else []
  }

  /** Filling a leftover: `have` are the bytes read before, `more` the new ones. */
  lemma PacksFill(fd: int, size: nat, have: seq<Byte>, more: seq<Byte>, header: Byte)
    requires size < TOO_LONG && |have| <= size
    ensures var s: seq<Byte> := [size / 256, size % 256] + have + more; var need := size - |have|;
            && (|more| < need ==>
                 && Answered(Nothing, fd, s) && Queued(Nothing, fd, s) == []
                 && Rest(s) == Raw(Uncomplete(fd, size, have + more, |have + more|, header)))
            && (|more| == need ==>
                 && Answered(Data(fd, have + more[..need]), fd, s) && Rest(s) == []
                 && Queued(Data(fd, have + more[..need]), fd, s) == [])
            && (|more| > need ==>
                 && Answered(More, fd, s) && Rest(s) == Rest(more[need..])
                 && Queued(More, fd, s) == [Package(fd, have + more[..need])] + Packages(fd, Packs(more[need..])))
  {
    hide Packs, Rest, Packages;
    var s: seq<Byte> := [size / 256, size % 256] + have + more;
    var need := size - |have|;
    Assoc([size / 256, size % 256], have, more);
    if |more| >= need {
      var m, t := have + more[..need], more[need..];
      assert have + more == m + t;
      Assoc([size / 256, size % 256], m, t);
      PacksFrame(m, t);
      PackagesNext(fd, m, Packs(t));
      if t == [] { PacksNone([]); } else { RestPart(t); }
    } else {
      PacksNone(s);
      PacksEmpty(fd);
    }
  }

  lemma AnsweredHeader(fd: int, s: seq<Byte>)
    requires |s| == 1
    ensures Answered(Nothing, fd, s) && Queued(Nothing, fd, s) == []
    ensures Rest(s) == Raw(Uncomplete(fd, 0, [], -1, s[0]))
  {
  }

  /** The bytes available when a leftover is found, read as the start of a package of known size. */
  lemma RawFill(u: Uncomplete, more: seq<Byte>)
    requires UncompleteOk(u) && more != []
    ensures u.read < 0 ==> var size := SizeOf(u.header, more[0]);
                           Raw(u) + more == [size / 256, size % 256] + [] + more[1..]
    ensures u.read >= 0 ==> Raw(u) + more == [u.size / 256, u.size % 256] + u.buffer + more
  {
  }

  /** Bytes do not get lost. */
  lemma {:induction false} RestPart(s: seq<Byte>)
    requires s != []
    ensures Packs(s) != [] || Rest(s) != []
  {
  }

  lemma PacksEmpty(fd: int)
    ensures Packages(fd, Packs([])) == [] && Rest([]) == []
  {
  }

  class Queue {
    var cap: nat
    var head: nat
    var tail: nat
    var hash: array<seq<Uncomplete>>
    var queue: array<Package>

    ghost predicate Valid()
      reads this, hash, queue
    {
      && 0 < cap == queue.Length && head < cap && tail < cap
      && hash.Length == HASHSIZE && (forall h | 0 <= h < HASHSIZE :: ChainOk(hash[h], h))
    }

    /** The queued packages. */
    ghost function Contents(): seq<Package>
      requires Valid()
      reads this, hash, queue
    {
      Ring(queue[..], head, tail)
    }

    /** The bytes of connection `fd` that are not delivered yet. */
    ghost function Pending(fd: int): seq<Byte>
      requires Valid()
      reads this, hash, queue
    {
      Waiting(hash[HashFd(fd)], fd)
    }

    constructor ()
      ensures Valid() && fresh(hash) && fresh(queue) && Contents() == [] && forall fd :: Pending(fd) == []
    {
      cap, head, tail := QUEUESIZE, 0, 0;
      hash := new seq<Uncomplete>[HASHSIZE](_ => []);
      queue := new Package[QUEUESIZE](_ => Package(0, []));
    }

    /** `find_uncomplete`: unlink the leftover of a connection. */
    method FindUncomplete(fd: int) returns (r: Option<Uncomplete>)
      requires Valid()
      modifies hash
      ensures Valid() && Contents() == old(Contents())
      ensures r.None? ==> old(Pending(fd)) == [] && hash[..] == old(hash[..])
      ensures r.Some? ==> UncompleteOk(r.value) && r.value.id == fd && Raw(r.value) == old(Pending(fd))
      ensures !InChain(hash[HashFd(fd)], fd) && Pending(fd) == []
      ensures forall g | g != fd :: Pending(g) == old(Pending(g))
    {
      hide Ring, Waiting, Raw, ChainOk, Unlinked, UncompleteOk, HashFd;
      var h := HashFd(fd);
      var c := hash[h];
      var i := 0;
      while i < |c|
        invariant 0 <= i <= |c|
        invariant forall j | 0 <= j < i :: c[j].id != fd
        invariant hash[..] == old(hash[..])
      {
        if c[i].id == fd {
          UnlinkedOk(c, h, i);
          hash[h] := Unlinked(c, i);
          return Some(c[i]);
        }
        i := i + 1;
      }
      NotWaiting(c, h, fd);
      return None;
    }

    /** `save_uncomplete`, with the fields that its callers fill in next: a leftover goes to the front of its chain. */
    method SaveUncomplete(u: Uncomplete)
      requires Valid() && UncompleteOk(u) && !InChain(hash[HashFd(u.id)], u.id)
      modifies hash
      ensures Valid() && Contents() == old(Contents())
      ensures Pending(u.id) == Raw(u)
      ensures forall g | g != u.id :: Pending(g) == old(Pending(g))
    {
      var h := HashFd(u.id);
      ghost var c := hash[h];
      hash[h] := [u] + hash[h];
      assert hash[h][1..] == c;
    }

    /** `expand_queue`. */
    method ExpandQueue()
      requires Valid() && head == tail
      modifies this
      ensures Valid() && fresh(queue) && hash == old(hash)
      ensures Contents() == old(queue[head..] + queue[..head])
      ensures forall g :: Pending(g) == old(Pending(g))
    {
      ghost var all := queue[head..] + queue[..head];
      var bigger := new Package[cap + QUEUESIZE](_ => Package(0, []));
      var i := 0;
      while i < cap
        modifies bigger
        invariant 0 <= i <= cap
        invariant forall k | 0 <= k < i :: bigger[k] == all[k]
      {
        Wrap(head + i, cap);
        bigger[i] := queue[(head + i) % cap];
        i := i + 1;
      }
      head := 0;
      tail := cap;
      cap := cap + QUEUESIZE;
      queue := bigger;
      assert queue[..][head..tail] == all;
    }

    /** `push_data`. */
    method PushData(fd: int, data: seq<Byte>)
      requires Valid()
      modifies this, queue
      ensures Valid() && hash == old(hash) && (queue == old(queue) || fresh(queue))
      ensures Contents() == old(Contents()) + [Package(fd, data)]
      ensures forall g :: Pending(g) == old(Pending(g))
    {
      RingPush(queue[..], head, tail, Package(fd, data));
      queue[tail] := Package(fd, data);
      tail := tail + 1;
      if tail >= cap {
        tail := tail - cap;
      }
      if head == tail {
        ExpandQueue();
      }
    }

    /** `push_more`: queue every whole package of the bytes, keep the rest. */
    method PushMore(fd: int, buffer: seq<Byte>)
      requires Valid() && buffer != [] && !InChain(hash[HashFd(fd)], fd)
      modifies this, queue, hash
      ensures Valid() && hash == old(hash) && (queue == old(queue) || fresh(queue))
      ensures Contents() == old(Contents()) + Packages(fd, Packs(buffer))
      ensures Pending(fd) == Rest(buffer)
      ensures forall g | g != fd :: Pending(g) == old(Pending(g))
      decreases |buffer|
    {
      hide Packs, Rest, Packages, Ring, Waiting, Raw, ChainOk;
      if |buffer| == 1 {
        PacksPart(fd, Uncomplete(fd, 0, [], -1, buffer[0]), buffer);
        SaveUncomplete(Uncomplete(fd, 0, [], -1, buffer[0]));
        return;
      }
      var size := SizeOf(buffer[0], buffer[1]);
      var rest := buffer[2..];
      if |rest| < size {
        PacksPart(fd, Uncomplete(fd, size, rest, |rest|, 0), buffer);
        SaveUncomplete(Uncomplete(fd, size, rest, |rest|, 0));
        return;
      }
      PacksNext(fd, buffer);
      PushData(fd, rest[..size]);
      rest := rest[size..];
      if |rest| > 0 {
        PushMore(fd, rest);
      } else {
        PacksEmpty(fd);
        NotWaiting(hash[HashFd(fd)], HashFd(fd), fd);
      }
    }

    /** `filter_data_`: one chunk of connection `fd` arrived. */
    method Filter(fd: int, buffer: seq<Byte>) returns (answer: Answer)
      requires Valid() && buffer != []
      modifies this, queue, hash
      ensures Valid() && hash == old(hash) && (queue == old(queue) || fresh(queue))
      ensures var s := old(Pending(fd)) + buffer;
              && Pending(fd) == Rest(s)
              && Answered(answer, fd, s)
              && Contents() == old(Contents()) + Queued(answer, fd, s)
      ensures forall g | g != fd :: Pending(g) == old(Pending(g))
    {
      hide Packs, Rest, Packages, Ring, Waiting, Raw, ChainOk, Answered, Queued;
      var found := FindUncomplete(fd);
      if found.Some? {
        answer := Fill(found.value, buffer);
      } else {
        assert [] + buffer == buffer;
        answer := Start(fd, buffer);
      }
    }

    /** The first branch of `filter_data_`: there was a leftover. */
    method Fill(found: Uncomplete, buffer: seq<Byte>) returns (answer: Answer)
      requires Valid() && buffer != [] && UncompleteOk(found) && !InChain(hash[HashFd(found.id)], found.id)
      requires Pending(found.id) == []
      modifies this, queue, hash
      ensures Valid() && hash == old(hash) && (queue == old(queue) || fresh(queue))
      ensures var s := Raw(found) + buffer; var fd := found.id;
              && Pending(fd) == Rest(s)
              && Answered(answer, fd, s)
              && Contents() == old(Contents()) + Queued(answer, fd, s)
      ensures forall g | g != found.id :: Pending(g) == old(Pending(g))
    {
      hide Packs, Rest, Packages, Ring, Waiting, Raw, ChainOk, Answered, Queued;
      var uc, rest := found, buffer;
      if uc.read < 0 {
        uc := uc.(size := SizeOf(uc.header, rest[0]), buffer := [], read := 0);
        rest := rest[1..];
      }
      RawFill(found, buffer);
      PacksFill(uc.id, uc.size, uc.buffer, rest, uc.header);
      var need := uc.size - uc.read;
      if |rest| < need {
        SaveUncomplete(uc.(buffer := uc.buffer + rest, read := uc.read + |rest|));
        return Nothing;
      }
      var data := uc.buffer + rest[..need];
      rest := rest[need..];
      if |rest| == 0 {
        return Data(uc.id, data);
      }
      PushData(uc.id, data);
      PushMore(uc.id, rest);
      return More;
    }

    /** The second branch of `filter_data_`: the chunk starts a package. */
    method Start(fd: int, buffer: seq<Byte>) returns (answer: Answer)
      requires Valid() && buffer != [] && !InChain(hash[HashFd(fd)], fd) && Pending(fd) == []
      modifies this, queue, hash
      ensures Valid() && hash == old(hash) && (queue == old(queue) || fresh(queue))
      ensures && Pending(fd) == Rest(buffer)
              && Answered(answer, fd, buffer)
              && Contents() == old(Contents()) + Queued(answer, fd, buffer)
      ensures forall g | g != fd :: Pending(g) == old(Pending(g))
    {
      hide Packs, Rest, Packages, Ring, Waiting, Raw, ChainOk, Answered, Queued;
      if |buffer| == 1 {
        AnsweredHeader(fd, buffer);
        SaveUncomplete(Uncomplete(fd, 0, [], -1, buffer[0]));
        return Nothing;
      }
      var size := SizeOf(buffer[0], buffer[1]);
      var rest := buffer[2..];
      assert buffer == [size / 256, size % 256] + [] + rest;
      PacksFill(fd, size, [], rest, 0);
      assert [] + rest == rest && (|rest| >= size ==> [] + rest[..size] == rest[..size]);
      if |rest| < size {
        SaveUncomplete(Uncomplete(fd, size, rest, |rest|, 0));
        return Nothing;
      }
      if |rest| == size {
        assert rest[..size] == rest;
        return Data(fd, rest);
      }
      PushData(fd, rest[..size]);
      PushMore(fd, rest[size..]);
      return More;
    }

    /** `close_uncomplete`: drop what is left over of a closed connection. */
    method CloseUncomplete(fd: int)
      requires Valid()
      modifies hash
      ensures Valid() && Contents() == old(Contents())
      ensures Pending(fd) == [] && forall g | g != fd :: Pending(g) == old(Pending(g))
    {
      var found := FindUncomplete(fd);
    }

    /** `lpop`. */
    method Pop() returns (r: Option<Package>)
      requires Valid()
      modifies this
      ensures Valid() && hash == old(hash) && queue == old(queue)
      ensures r == None <==> old(Contents()) == []
      ensures old(Contents()) == (if r.Some? then [r.value] else []) + Contents()
      ensures forall g :: Pending(g) == old(Pending(g))
    {
      if head == tail {
        return None;
      }
      RingPop(queue[..], head, tail);
      r := Some(queue[head]);
      head := head + 1;
      if head >= cap {
        head := 0;
      }
    }
  }

  // Whole runs

  /** What the socket thread reports: bytes of a connection, or that it closed (or failed). */
  datatype Event = Chunk(fd: int, bytes: seq<Byte>) | Closed(fd: int)

  /** The byte streams of the connections that used `fd` one after the other. */
  function Streams(fd: int, events: seq<Event>): (ss: seq<seq<Byte>>)
    ensures ss != []
  {
    if events == [] then [[]]
    else
      var ss := Streams(fd, events[..|events| - 1]);
      var e := events[|events| - 1];
      if e.fd != fd then ss
      else if e.Closed? then ss + [[]]
      else ss[|ss| - 1 := ss[|ss| - 1] + e.bytes]
  }

  /** All the packages of a list of streams. */
  function AllPacks(ss: seq<seq<Byte>>): seq<seq<Byte>> {
    if ss == [] then [] else AllPacks(ss[..|ss| - 1]) + Packs(ss[|ss| - 1])
  }

  /** The packages of connection `fd` among those delivered. */
  function Of(fd: int, ps: seq<Package>): seq<seq<Byte>> {
    if ps == [] then []
    else Of(fd, ps[..|ps| - 1]) + if ps[|ps| - 1].id == fd then [ps[|ps| - 1].data] else []
  }

  lemma {:induction false} OfAppend(fd: int, ps: seq<Package>, g: int, qs: seq<seq<Byte>>)
    ensures Of(fd, ps + Packages(g, qs)) == Of(fd, ps) + if fd == g then qs else []
    decreases |qs|
  {
    var all := ps + Packages(g, qs);
    if qs == [] {
      assert all == ps;
    } else {
      var n := |qs| - 1;
      OfAppend(fd, ps, g, qs[..n]);
      assert all[..|all| - 1] == ps + Packages(g, qs[..n]);
    }
  }

  /** One more chunk: what `Packs` finds in the pending bytes is what it adds to the packages of the whole stream. */
  lemma ChunkAdds(fd: int, events: seq<Event>, b: seq<Byte>)
    ensures var ss := Streams(fd, events); var tt := Streams(fd, events + [Chunk(fd, b)]);
            var s := Rest(ss[|ss| - 1]) + b;
            AllPacks(tt) == AllPacks(ss) + Packs(s) && Rest(tt[|tt| - 1]) == Rest(s)
  {
    hide Packs, Rest;
    var ss, tt := Streams(fd, events), Streams(fd, events + [Chunk(fd, b)]);
    assert (events + [Chunk(fd, b)])[..|events|] == events;
    PacksAppend(ss[|ss| - 1], b);
    assert tt[..|tt| - 1] == ss[..|ss| - 1];
    Assoc(AllPacks(ss[..|ss| - 1]), Packs(ss[|ss| - 1]), Packs(Rest(ss[|ss| - 1]) + b));
  }

  lemma OtherAdds(fd: int, events: seq<Event>, e: Event)
    requires e.fd != fd || e.Closed?
    ensures var ss := Streams(fd, events); var tt := Streams(fd, events + [e]);
            AllPacks(tt) == AllPacks(ss) && Rest(tt[|tt| - 1]) == if e.fd == fd then [] else Rest(ss[|ss| - 1])
  {
    var ss, tt := Streams(fd, events), Streams(fd, events + [e]);
    assert (events + [e])[..|events|] == events;
    if e.fd == fd { assert tt[..|tt| - 1] == ss; }
  }

  /** Feed all the events, take out what was queued after each of them (as the gate server does): however the streams
      are cut and interleaved, each connection gets the packages of its own stream, in order. */
  method Run(events: seq<Event>) returns (delivered: seq<Package>)
    requires forall e | e in events && e.Chunk? :: e.bytes != []
    ensures forall fd :: Of(fd, delivered) == AllPacks(Streams(fd, events))
  {
    hide Packs, Rest, Ring, Waiting, ChainOk, Kept;
    var q := new Queue();
    delivered := [];
    var i := 0;
    KeptNone();
    while i < |events|
      invariant 0 <= i <= |events|
      invariant fresh(q) && fresh(q.queue) && fresh(q.hash)
      invariant q.Valid() && q.Contents() == []
      invariant forall fd :: Kept(fd, events[..i], delivered, q.Pending(fd))
    {
      delivered := Handle(q, events[..i], delivered, events[i]);
      assert events[..i + 1] == events[..i] + [events[i]];
      i := i + 1;
    }
    assert events[..i] == events;
    forall fd ensures Of(fd, delivered) == AllPacks(Streams(fd, events)) {
      KeptAll(fd, events, delivered, q.Pending(fd));
    }
  }

  /** After `events` connection `fd` got all the packages of its streams, and `pending` is left over. */
  predicate Kept(fd: int, events: seq<Event>, delivered: seq<Package>, pending: seq<Byte>) {
    var ss := Streams(fd, events);
    Of(fd, delivered) == AllPacks(ss) && pending == Rest(ss[|ss| - 1])
  }

  lemma KeptNone()
    ensures forall fd :: Kept(fd, [], [], [])
  {
    var none: seq<seq<Byte>> := [[]];
    assert none[..0] == [];
  }

  lemma KeptAll(fd: int, events: seq<Event>, delivered: seq<Package>, pending: seq<Byte>)
    requires Kept(fd, events, delivered, pending)
    ensures Of(fd, delivered) == AllPacks(Streams(fd, events))
  {
  }

  lemma ChunkKeeps(fd: int, events: seq<Event>, delivered: seq<Package>, pending: seq<Byte>, b: seq<Byte>, g: int,
        left: seq<Byte>)
    requires Kept(g, events, delivered, left) && (g == fd ==> left == pending)
    ensures Kept(g, events + [Chunk(fd, b)], delivered + Packages(fd, Packs(pending + b)),
      if g == fd then Rest(pending + b) else left)
  {
    OfAppend(g, delivered, fd, Packs(pending + b));
    if g == fd { ChunkAdds(fd, events, b); } else { OtherAdds(g, events, Chunk(fd, b)); }
  }

  lemma AnsweredAll(answer: Answer, fd: int, s: seq<Byte>)
    requires Answered(answer, fd, s)
    ensures answer != More ==> Queued(answer, fd, s) == []
    ensures Packages(fd, Packs(s)) ==
            (if answer.Data? then [Package(answer.fd, answer.data)] else []) + Queued(answer, fd, s)
  {
  }

  /** One event. */
  method Handle(q: Queue, ghost events: seq<Event>, delivered: seq<Package>, e: Event) returns (all: seq<Package>)
    requires q.Valid() && q.Contents() == [] && (e.Chunk? ==> e.bytes != [])
    requires forall fd :: Kept(fd, events, delivered, q.Pending(fd))
    modifies q, q.queue, q.hash
    ensures q.Valid() && q.Contents() == [] && q.hash == old(q.hash) && (q.queue == old(q.queue) || fresh(q.queue))
    ensures forall fd :: Kept(fd, events + [e], all, q.Pending(fd))
  {
    hide Kept, Packs, Rest, Packages, Ring, Waiting, ChainOk, Answered, Queued;
    all := delivered;
    match e {
      case Chunk(fd, bytes) =>
        ghost var s := q.Pending(fd) + bytes;
        var answer := q.Filter(fd, bytes);
        AnsweredAll(answer, fd, s);
        if answer.Data? {
          all := all + [Package(answer.fd, answer.data)];
        } else if answer == More {
          all := Drain(q, all);
        }
        assert all == delivered + Packages(fd, Packs(s));
        forall g ensures Kept(g, events + [e], all, q.Pending(g)) {
          ChunkKeeps(fd, events, delivered, old(q.Pending(fd)), bytes, g, old(q.Pending(g)));
        }
      case Closed(fd) =>
        q.CloseUncomplete(fd);
        forall g ensures Kept(g, events + [e], all, q.Pending(g)) {
          CloseKeeps(events, delivered, fd, g, old(q.Pending(g)));
        }
    }
  }

  lemma CloseKeeps(events: seq<Event>, delivered: seq<Package>, fd: int, g: int, left: seq<Byte>)
    requires Kept(g, events, delivered, left)
    ensures Kept(g, events + [Closed(fd)], delivered, if g == fd then [] else left)
  {
    OtherAdds(g, events, Closed(fd));
  }

  /** Pop until the queue is empty. */
  method Drain(q: Queue, delivered: seq<Package>) returns (all: seq<Package>)
    requires q.Valid()
    modifies q
    ensures q.Valid() && q.hash == old(q.hash) && q.queue == old(q.queue) && q.Contents() == []
    ensures all == delivered + old(q.Contents())
    ensures forall g :: q.Pending(g) == old(q.Pending(g))
  {
    all := delivered;
    while true
      invariant q.Valid() && q.hash == old(q.hash) && q.queue == old(q.queue)
      invariant all + q.Contents() == delivered + old(q.Contents())
      invariant forall g :: q.Pending(g) == old(q.Pending(g))
      decreases |q.Contents()|
    {
      var r := q.Pop();
      if r == None {
        return;
      }
      all := all + [r.value];
    }
  }

  function Concat(mss: seq<seq<seq<Byte>>>): seq<seq<Byte>> {
    if mss == [] then [] else Concat(mss[..|mss| - 1]) + mss[|mss| - 1]
  }

  /** Each connection sent packed messages and perhaps the start of one more, so what is found in its streams is
      exactly the messages. */
  lemma {:induction false} MessagesFound(mss: seq<seq<seq<Byte>>>, tails: seq<seq<Byte>>, ss: seq<seq<Byte>>)
    requires |mss| == |tails| == |ss|
    requires forall k | 0 <= k < |mss| :: forall m | m in mss[k] :: |m| < TOO_LONG
    requires forall k | 0 <= k < |mss| :: !Whole(tails[k]) && ss[k] == Frames(mss[k]) + tails[k]
    ensures AllPacks(ss) == Concat(mss)
  {
    if mss != [] {
      var n := |mss| - 1;
      MessagesFound(mss[..n], tails[..n], ss[..n]);
      PacksFrames(mss[n], tails[n]);
    }
  }
}
