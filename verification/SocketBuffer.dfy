/** The receive buffer of a socket (lua-socket.c): a list of chunks with an offset into the first one. Pushing, popping
    and the search for a separator treat it as one string of bytes, however that was cut into chunks. */
module SocketBuffer {
  import opened Common

  /** `sep` stands in `s` at `i`. */
  predicate Occurs(s: seq<Byte>, sep: seq<Byte>, i: nat) {
    i + |sep| <= |s| && s[i..i + |sep|] == sep
  }

  predicate OccursBefore(s: seq<Byte>, sep: seq<Byte>, n: nat) {
    exists i :: 0 <= i < n && Occurs(s, sep, i)
  }

  /** The next `k` bytes from `i` on. */
  lemma Piece(s: seq<Byte>, i: nat, k: nat)
    requires i + k <= |s|
    ensures s[..i] + s[i..][..k] == s[..i + k]
  {
  }

  /** Index of the first separator from `i` on, the length of `s` if there is none. */
  function FirstSep(s: seq<Byte>, sep: seq<Byte>, i: nat): (r: nat)
    requires i <= |s|
    ensures i <= r <= |s| && forall j | i <= j < r :: !Occurs(s, sep, j)
    ensures Occurs(s, sep, r) || forall j: nat | i <= j :: !Occurs(s, sep, j)
    decreases |s| - i
  {
    if i < |s| && !Occurs(s, sep, i) then FirstSep(s, sep, i + 1) else i
  }

  /** What `lreadline` gives: the bytes up to the first separator; nothing for an empty buffer. */
  function FirstLine(s: seq<Byte>, sep: seq<Byte>): Option<seq<Byte>> {
    var i := FirstSep(s, sep, 0);
    if s != [] && Occurs(s, sep, i) then Some(s[..i]) else None
  }

  /** ... and what it leaves. */
  function AfterLine(s: seq<Byte>, sep: seq<Byte>): seq<Byte>
    requires FirstLine(s, sep).Some?
  {
    s[FirstSep(s, sep, 0) + |sep|..]
  }

  lemma LineIs(s: seq<Byte>, sep: seq<Byte>, i: nat)
    requires s != [] && Occurs(s, sep, i) && !OccursBefore(s, sep, i)
    ensures i + |sep| <= |s| && FirstLine(s, sep) == Some(s[..i]) && AfterLine(s, sep) == s[i + |sep|..]
  {
    var r := FirstSep(s, sep, 0);
    assert Occurs(s, sep, r);
  }

  lemma LineMissing(s: seq<Byte>, sep: seq<Byte>)
    requires s == [] || forall i: nat :: !Occurs(s, sep, i)
    ensures FirstLine(s, sep) == None
  {
  }

  class Buffer {
    var size: nat
    var offset: nat
    var chunks: seq<seq<Byte>>

    ghost predicate ListOk()
      reads this`chunks, this`offset
    {
      && (forall i | 0 <= i < |chunks| :: chunks[i] != [])
      && (if chunks == [] then offset == 0 else offset < |chunks[0]|)
    }

    /** The bytes that were pushed and not popped yet. */
    ghost function Contents(): (s: seq<Byte>)
      requires ListOk()
      reads this`chunks, this`offset
    {
      Join(chunks)[offset..]
    }

    ghost predicate Valid()
      reads this
    {
      ListOk() && size == |Contents()|
    }

    constructor ()
      ensures Valid() && Contents() == []
    {
      size, offset, chunks := 0, 0, [];
    }

    /** `lpushbuffer`. No chunk that arrives is empty. */
    method Push(msg: seq<Byte>) returns (total: nat)
      requires Valid() && msg != []
      modifies this
      ensures Valid() && Contents() == old(Contents()) + msg && total == |Contents()|
    {
      JoinAppend(chunks, msg);
      assert (Join(chunks) + msg)[offset..] == Join(chunks)[offset..] + msg;
      chunks := chunks + [msg];
      size := size + |msg|;
      total := size;
    }

    /** `return_free_node`: the first chunk is done with. */
    method ReturnNode()
      requires ListOk() && chunks != []
      modifies this`offset, this`chunks
      ensures ListOk() && chunks == old(chunks)[1..]
      ensures Contents() == old(Contents())[old(|chunks[0]|) - old(offset)..]
    {
      assert Join(chunks)[|chunks[0]|..] == Join(chunks[1..]);
      offset := 0;
      chunks := chunks[1..];
    }

    /** The bytes of the first chunk come first. */
    lemma FrontBytes(k: nat)
      requires ListOk() && chunks != [] && k <= |chunks[0]| - offset
      ensures |chunks[0]| - offset <= |Contents()|
      ensures Contents()[..k] == chunks[0][offset..offset + k]
    {
      assert Join(chunks) == chunks[0] + Join(chunks[1..]);
      assert Join(chunks)[offset..][..k] == chunks[0][offset..offset + k];
    }

    /** They go on what was taken before. */
    lemma NextBytes(all: seq<Byte>, done: nat, k: nat)
      requires ListOk() && chunks != [] && k <= |chunks[0]| - offset
      requires done <= |all| && Contents() == all[done..]
      ensures done + k <= |all| && all[..done] + chunks[0][offset..offset + k] == all[..done + k]
    {
      FrontBytes(k);
      Piece(all, done, k);
    }

    /** Moving on inside the first chunk. */
    method Advance(n: nat)
      requires ListOk() && chunks != [] && n < |chunks[0]| - offset
      modifies this`offset
      ensures ListOk() && n <= |old(Contents())| && Contents() == old(Contents())[n..]
    {
      FrontBytes(n);
      offset := offset + n;
    }

    /** `pop_lstring`: take `sz` bytes, of which the last `skip` are not given out. */
    method PopString(sz: nat, skip: nat) returns (s: seq<Byte>)
      requires ListOk() && chunks != [] && skip <= sz <= |Contents()|
      modifies this`offset, this`chunks
      ensures ListOk()
      ensures s == old(Contents())[..sz - skip] && Contents() == old(Contents())[sz..]
    {
      hide Contents;
      if sz < |chunks[0]| - offset {
        FrontBytes(sz - skip);
        s := chunks[0][offset..offset + (sz - skip)];
        Advance(sz);
        return;
      }
      if sz == |chunks[0]| - offset {
        FrontBytes(sz - skip);
        s := chunks[0][offset..offset + (sz - skip)];
        ReturnNode();
        return;
      }
      s := PopLong(sz, skip);
    }

    /** The loop of `pop_lstring` over several chunks. */
    method PopLong(sz: nat, skip: nat) returns (s: seq<Byte>)
      requires ListOk() && chunks != [] && 0 < sz && skip <= sz <= |Contents()|
      modifies this`offset, this`chunks
      ensures ListOk()
      ensures s == old(Contents())[..sz - skip] && Contents() == old(Contents())[sz..]
    {
      hide Contents;
      ghost var all, done := Contents(), 0;
      s := [];
      var left := sz;
      while |chunks[0]| - offset < left
        invariant ListOk() && chunks != [] && 0 < left <= |Contents()| && done + left == sz
        invariant Contents() == all[done..]
        invariant s == all[..if done <= sz - skip then done else sz - skip]
        decreases left
      {
        var bytes, wanted := |chunks[0]| - offset, left - skip;
        if wanted > 0 {
          var k := if wanted < bytes then wanted else bytes;
          NextBytes(all, done, k);
          s := s + chunks[0][offset..offset + k];
        }
        FrontBytes(bytes);
        Dropped(all, done, bytes);
        ReturnNode();
        NotEmpty();
        left, done := left - bytes, done + bytes;
      }
      if left > skip {
        NextBytes(all, done, left - skip);
        s := s + chunks[0][offset..offset + (left - skip)];
      }
      Dropped(all, done, left);
      if |chunks[0]| - offset == left {
        ReturnNode();
      } else {
        Advance(left);
      }
    }

    lemma NotEmpty()
      requires ListOk()
      ensures Contents() == [] <==> chunks == []
    {
    }

    /** `lpopbuffer`: nothing when there are not that many bytes, or none are asked for. */
    method Pop(sz: nat) returns (r: Option<seq<Byte>>)
      requires Valid()
      modifies this
      ensures Valid()
      ensures r.Some? == (0 < sz <= |old(Contents())|)
      ensures r.Some? ==> r.value == old(Contents())[..sz] && Contents() == old(Contents())[sz..]
      ensures r.None? ==> Contents() == old(Contents())
    {
      if size < sz || sz == 0 {
        return None;
      }
      NotEmpty();
      var s := PopString(sz, 0);
      size := size - sz;
      r := Some(s);
    }

    /** `lclearbuffer`. */
    method Clear()
      requires Valid()
      modifies this
      ensures Valid() && Contents() == []
    {
      while chunks != []
        invariant ListOk()
        decreases |chunks|
      {
        ReturnNode();
      }
      size := 0;
    }

    /** `lreadall`. */
    method ReadAll() returns (s: seq<Byte>)
      requires Valid()
      modifies this
      ensures Valid() && s == old(Contents()) && Contents() == []
    {
      hide Contents, Join;
      ghost var all, done := Contents(), 0;
      s := [];
      while chunks != []
        invariant ListOk() && 0 <= done <= |all| && s == all[..done] && Contents() == all[done..]
        decreases |chunks|
      {
        var n := |chunks[0]| - offset;
        NextBytes(all, done, n);
        Dropped(all, done, n);
        s := s + chunks[0][offset..offset + n];
        ReturnNode();
        done := done + n;
      }
      NotEmpty();
      assert done == |all|;
      size := 0;
    }

    /** The bytes from byte `from` of chunk `k` on. */
    ghost function From(k: nat, from: nat): seq<Byte>
      requires k < |chunks| && from <= |chunks[k]|
      reads this
    {
      chunks[k][from..] + Join(chunks[k + 1..])
    }

    /** `check_sep`: does `sep` stand at byte `from` of chunk `k`? There are enough bytes for it. */
    method CheckSep(k: nat, from: nat, sep: seq<Byte>) returns (found: bool)
      requires ListOk() && k < |chunks| && from < |chunks[k]| && |sep| <= |From(k, from)|
      ensures found <==> sep <= From(k, from)
    {
      var node: nat, at: nat, left := k, from, sep;
      while |chunks[node]| - at < |left|
        invariant node < |chunks| && at < |chunks[node]| && |left| <= |From(node, at)|
        invariant sep <= From(k, from) <==> left <= From(node, at)
        decreases |chunks| - node
      {
        var sz := |chunks[node]| - at;
        SepNext(chunks[node][at..], Join(chunks[node + 1..]), left);
        if chunks[node][at..] != left[..sz] {
          return false;
        }
        assert Join(chunks[node + 1..]) != [];
        assert chunks[node + 1..][1..] == chunks[node + 2..];
        node, at, left := node + 1, 0, left[sz..];
        assert From(node, 0) == Join(chunks[node..]);
      }
      found := chunks[node][at..at + |left|] == left;
      SepHere(chunks[node][at..], Join(chunks[node + 1..]), left);
    }

    /** The search of `lreadline`: the first place of the separator, or -1. */
    method Search(sep: seq<Byte>) returns (at: int)
      requires Valid()
      ensures -1 <= at
      ensures at >= 0 ==> chunks != [] && Occurs(Contents(), sep, at) && !OccursBefore(Contents(), sep, at)
      ensures at < 0 ==> Contents() == [] || forall i: nat :: !Occurs(Contents(), sep, i)
    {
      hide Contents;
      NotEmpty();
      if chunks == [] {
        return -1;
      }
      var current, from, i := 0, offset, 0;
      StartsHere();
      while i <= size - |sep|
        invariant 0 <= current < |chunks| && 0 <= from < |chunks[current]| && 0 <= i < size
        invariant From(current, from) == Contents()[i..]
        invariant !OccursBefore(Contents(), sep, i)
      {
        var found := CheckSep(current, from, sep);
        PrefixOccurs(Contents(), sep, i);
        if found {
          return i;
        }
        Forward(current, from);
        Dropped(Contents(), i, 1);
        from, i := from + 1, i + 1;
        if from == |chunks[current]| {
          current, from := current + 1, 0;
          if current == |chunks| {
            break;
          }
        }
      }
      forall j: nat ensures !Occurs(Contents(), sep, j) { }
      at := -1;
    }

    lemma StartsHere()
      requires ListOk() && chunks != []
      ensures From(0, offset) == Contents()
    {
    }

    /** The next byte, in this chunk or the next one. */
    lemma Forward(k: nat, from: nat)
      requires ListOk() && k < |chunks| && from < |chunks[k]|
      ensures From(k, from) != []
      ensures if from + 1 < |chunks[k]| then From(k, from)[1..] == From(k, from + 1)
              else if k + 1 < |chunks| then From(k, from)[1..] == From(k + 1, 0)
              else From(k, from)[1..] == []
    {
      if k + 1 < |chunks| { assert chunks[k + 1..][1..] == chunks[k + 2..]; }
    }

    /** `lreadline`, when it is to take the line. */
    method ReadLine(sep: seq<Byte>) returns (line: Option<seq<Byte>>)
      requires Valid()
      modifies this
      ensures Valid()
      ensures line == FirstLine(old(Contents()), sep)
      ensures Contents() == if line.Some? then AfterLine(old(Contents()), sep) else old(Contents())
    {
      hide Contents, FirstLine, AfterLine, FirstSep, Occurs, OccursBefore;
      var i := Search(sep);
      NotEmpty();
      if i < 0 {
        LineMissing(Contents(), sep);
        return None;
      }
      LineIs(Contents(), sep, i);
      var s := PopString(i + |sep|, |sep|);
      size := size - (i + |sep|);
      line := Some(s);
    }

    /** `lreadline`, when it is only to check. */
    method HasLine(sep: seq<Byte>) returns (found: bool)
      requires Valid()
      ensures found == FirstLine(Contents(), sep).Some?
    {
      hide Contents, FirstLine;
      var i := Search(sep);
      NotEmpty();
      if i < 0 {
        LineMissing(Contents(), sep);
      } else {
        LineIs(Contents(), sep, i);
      }
      found := i >= 0;
    }
  }

  lemma PrefixOccurs(s: seq<Byte>, sep: seq<Byte>, i: nat)
    requires i <= |s|
    ensures sep <= s[i..] <==> Occurs(s, sep, i)
  {
    if Occurs(s, sep, i) { assert s[i..][..|sep|] == sep; }
  }

  /** A separator that goes on after `a`. */
  lemma SepNext(a: seq<Byte>, b: seq<Byte>, sep: seq<Byte>)
    requires |a| <= |sep|
    ensures sep <= a + b <==> a == sep[..|a|] && sep[|a|..] <= b
  {
    if a == sep[..|a|] && sep[|a|..] <= b {
      assert sep == a + sep[|a|..];
    }
    if sep <= a + b {
      assert sep == (a + b)[..|sep|];
      assert sep[|a|..] == b[..|sep| - |a|];
    }
  }

  /** A separator that ends in `a`. */
  lemma SepHere(a: seq<Byte>, b: seq<Byte>, sep: seq<Byte>)
    requires |sep| <= |a|
    ensures sep <= a + b <==> a[..|sep|] == sep
  {
  }

  lemma Dropped(s: seq<Byte>, i: nat, n: nat)
    requires i + n <= |s|
    ensures s[i..][n..] == s[i + n..]
  {
  }

  // Lines of a whole stream

  /** The lines of a stream that are complete. */
  function Lines(s: seq<Byte>, sep: seq<Byte>): seq<seq<Byte>>
    requires sep != []
    decreases |s|
  {
    match FirstLine(s, sep)
    case Some(line) => [line] + Lines(AfterLine(s, sep), sep)
    case None => []
  }

  /** ... and the start of the next one. */
  function Leftover(s: seq<Byte>, sep: seq<Byte>): seq<Byte>
    requires sep != []
    decreases |s|
  {
    if FirstLine(s, sep).Some? then Leftover(AfterLine(s, sep), sep) else s
  }

  /** More bytes do not change the first line once it is there. */
  lemma FirstLineStays(s: seq<Byte>, t: seq<Byte>, sep: seq<Byte>)
    requires sep != [] && FirstLine(s, sep).Some?
    ensures FirstLine(s + t, sep) == FirstLine(s, sep) && AfterLine(s + t, sep) == AfterLine(s, sep) + t
  {
    var i := FirstSep(s, sep, 0);
    forall j: nat | j <= i ensures Occurs(s + t, sep, j) <==> Occurs(s, sep, j) {
      assert (s + t)[j..j + |sep|] == s[j..j + |sep|];
    }
    LineIs(s + t, sep, i);
    assert (s + t)[..i] == s[..i] && (s + t)[i + |sep|..] == s[i + |sep|..] + t;
  }

  /** A stream may be cut anywhere, also inside a separator. */
  lemma {:induction false} LinesAppend(s: seq<Byte>, t: seq<Byte>, sep: seq<Byte>)
    requires sep != []
    ensures Lines(s + t, sep) == Lines(s, sep) + Lines(Leftover(s, sep) + t, sep)
    ensures Leftover(s + t, sep) == Leftover(Leftover(s, sep) + t, sep)
    decreases |s|
  {
    hide FirstLine, AfterLine;
    if FirstLine(s, sep).Some? {
      FirstLineStays(s, t, sep);
      AfterShorter(s, sep);
      var rest, line := AfterLine(s, sep), FirstLine(s, sep).value;
      LinesAppend(rest, t, sep);
      Assoc([line], Lines(rest, sep), Lines(Leftover(rest, sep) + t, sep));
    } else {
      NoMore(Lines(s + t, sep));
    }
  }

  lemma AfterShorter(s: seq<Byte>, sep: seq<Byte>)
    requires sep != [] && FirstLine(s, sep).Some?
    ensures |AfterLine(s, sep)| < |s|
  {
  }

  /** Take all lines that are complete. */
  method ReadLines(buffer: Buffer, sep: seq<Byte>) returns (lines: seq<seq<Byte>>)
    requires buffer.Valid() && sep != []
    modifies buffer
    ensures buffer.Valid() && buffer.Contents() == Leftover(old(buffer.Contents()), sep)
    ensures lines == Lines(old(buffer.Contents()), sep)
  {
    hide FirstLine, AfterLine;
    lines := [];
    var more := true;
    ghost var all := buffer.Contents();
    while more
      invariant buffer.Valid()
      invariant Leftover(buffer.Contents(), sep) == Leftover(all, sep)
      invariant Lines(all, sep) == lines + Lines(buffer.Contents(), sep)
      invariant !more ==> FirstLine(buffer.Contents(), sep).None?
      decreases more, |buffer.Contents()|
    {
      ghost var s := buffer.Contents();
      var line := buffer.ReadLine(sep);
      match line {
        case Some(l) =>
          AfterShorter(s, sep);
          Assoc(lines, [l], Lines(buffer.Contents(), sep));
          lines := lines + [l];
        case None =>
          more := false;
      }
    }
    NoMore(lines);
  }

  /** Chunk by chunk: the lines are those of the whole stream, however it was cut. */
  method Feed(chunks: seq<seq<Byte>>, sep: seq<Byte>) returns (lines: seq<seq<Byte>>, rest: seq<Byte>)
    requires sep != [] && forall c | c in chunks :: c != []
    ensures lines == Lines(Join(chunks), sep) && rest == Leftover(Join(chunks), sep)
  {
    hide Lines, Leftover;
    var buffer := new Buffer();
    lines := [];
    NoLines(sep);
    for k := 0 to |chunks|
      invariant buffer.Valid()
      invariant lines == Lines(Join(chunks[..k]), sep) && buffer.Contents() == Leftover(Join(chunks[..k]), sep)
    {
      ghost var s := Join(chunks[..k]);
      assert chunks[k] in chunks;
      var _ := buffer.Push(chunks[k]);
      var more := ReadLines(buffer, sep);
      lines := lines + more;
      LinesAppend(s, chunks[k], sep);
      JoinAppend(chunks[..k], chunks[k]);
      assert chunks[..k + 1] == chunks[..k] + [chunks[k]];
    }
    assert chunks[..|chunks|] == chunks;
    rest := buffer.ReadAll();
  }

  lemma NoLines(sep: seq<Byte>)
    requires sep != []
    ensures Lines(Join([]), sep) == [] && Leftover(Join([]), sep) == []
  {
  }
}
