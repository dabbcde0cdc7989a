/** Facts about sequences without repetition, used wherever the source relies on
    distinct ids or on a path that never revisits a node. */
module Sequences {

  predicate Distinct<T(==)>(s: seq<T>) {
    forall i, j :: 0 <= i < j < |s| ==> s[i] != s[j]
  }

  function ToSet<T>(s: seq<T>): set<T> {
    set x | x in s
  }

  /** A sequence without repetition has as many elements as its set. */
  lemma {:induction false} DistinctCardinality<T>(s: seq<T>)
    requires Distinct(s)
    ensures |ToSet(s)| == |s|
  {
    if s != [] {
      var front, last := s[..|s| - 1], s[|s| - 1];
      DistinctCardinality(front);
      assert ToSet(s) == ToSet(front) + {last};
    }
  }

  /** Pigeonhole: distinct elements drawn from the elements of `pool` are no more than `pool` has. */
  lemma DistinctFits<T>(s: seq<T>, pool: seq<T>)
    requires Distinct(s)
    requires forall x :: x in s ==> x in pool
    ensures |s| <= |pool|
  {
    DistinctCardinality(s);
    SetOfSeqSize(pool);
    SubsetSize(ToSet(s), ToSet(pool));
  }

  lemma {:induction false} SetOfSeqSize<T>(s: seq<T>)
    ensures |ToSet(s)| <= |s|
  {
    if s != [] {
      var front, last := s[..|s| - 1], s[|s| - 1];
      SetOfSeqSize(front);
      assert ToSet(s) == ToSet(front) + {last};
    }
  }

  lemma {:induction false} SubsetSize<T>(a: set<T>, b: set<T>)
    requires a <= b
    ensures |a| <= |b|
  {
    if a != {} {
      var x :| x in a;
      SubsetSize(a - {x}, b - {x});
    }
  }

  /** The position of the first occurrence, as Python's `list.index` returns it. */
  function IndexOf<T(==)>(s: seq<T>, x: T): (i: nat)
    requires x in s
    ensures i < |s| && s[i] == x && x !in s[..i]
  {
    if s[0] == x then 0
    else
      assert s == [s[0]] + s[1..];
      var i := IndexOf(s[1..], x);
      assert s[..i + 1] == [s[0]] + s[1..][..i];
      i + 1
  }
}
