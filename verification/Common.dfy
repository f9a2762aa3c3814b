/** Shared by several modules. */
module Common {

  datatype Option<T> = None | Some(value: T)

  type Byte = x: int | 0 <= x < 256

  lemma Assoc<T>(a: seq<T>, b: seq<T>, c: seq<T>)
    ensures a + b + c == a + (b + c)
  {
  }

  lemma NoMore<T>(a: seq<T>)
    ensures [] + a == a && a + [] == a
  {
  }

  lemma TakeDrop<T>(a: seq<T>, b: seq<T>)
    ensures (a + b)[..|a|] == a && (a + b)[|a|..] == b
  {
  }

  lemma HeadTail<T>(x: T, s: seq<T>)
    ensures ([x] + s)[0] == x && ([x] + s)[1..] == s
  {
  }

  /** A sequence in pieces. */
  function Join<T>(pieces: seq<seq<T>>): seq<T> {
    if pieces == [] then [] else pieces[0] + Join(pieces[1..])
  }

  lemma {:induction false} JoinAppend<T>(pieces: seq<seq<T>>, c: seq<T>)
    ensures Join(pieces + [c]) == Join(pieces) + c
  {
    if pieces == [] {
      assert [c][1..] == [];
    } else {
      JoinAppend(pieces[1..], c);
      assert (pieces + [c])[1..] == pieces[1..] + [c];
      Assoc(pieces[0], Join(pieces[1..]), c);
    }
  }

  lemma {:induction false} SubsetSize<T>(a: set<T>, b: set<T>)
    requires a <= b
    ensures |a| <= |b|
    ensures |a| == |b| ==> a == b
    decreases a
  {
    if x :| x in a {
      SubsetSize(a - {x}, b - {x});
    } else {
      assert a == {};
      if y :| y in b { assert |b| >= 1; }
    }
  }

  /** The numbers below `n`. */
  lemma {:induction false} NumbersBelow(n: nat) returns (s: set<int>)
    ensures |s| == n && forall x :: x in s <==> 0 <= x < n
  {
    if n == 0 {
      s := {};
    } else {
      s := NumbersBelow(n - 1);
      s := s + {n - 1};
    }
  }
}
