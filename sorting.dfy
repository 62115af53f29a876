/**
 * Stable sorting by an integer key: JavaScript's `Array.prototype.sort` with a numeric comparator, and the
 * ordering a SQL `ORDER BY` yields in this model (ties keep insertion order).
 */
module Sorting {

  predicate SortedBy<T>(s: seq<T>, key: T -> int) {
    forall i, j :: 0 <= i < j < |s| ==> key(s[i]) <= key(s[j])
  }

  /** Inserts `x` after every element whose key is at most its own, so earlier equal elements stay first. */
  function Insert<T>(x: T, s: seq<T>, key: T -> int): (r: seq<T>)
    ensures |r| == |s| + 1
    ensures multiset(r) == multiset(s) + multiset{x}
  {
    if s == [] then [x]
    else if key(x) < key(s[|s| - 1]) then
      assert s == s[..|s| - 1] + [s[|s| - 1]];
      Insert(x, s[..|s| - 1], key) + [s[|s| - 1]]
    else s + [x]
  }

  /** Every element of an insertion is the inserted one or an old one. */
  lemma InsertMembers<T>(x: T, s: seq<T>, key: T -> int)
    ensures forall i :: 0 <= i < |Insert(x, s, key)| ==> Insert(x, s, key)[i] == x || Insert(x, s, key)[i] in s
  {
    var r := Insert(x, s, key);
    forall i | 0 <= i < |r|
      ensures r[i] == x || r[i] in s
    {
      assert r[i] in multiset(r);
    }
  }

  /** Inserting into a sorted sequence keeps it sorted. */
  lemma {:induction false} InsertSorted<T>(x: T, s: seq<T>, key: T -> int)
    requires SortedBy(s, key)
    ensures SortedBy(Insert(x, s, key), key)
  {
    if s != [] {
      var last := s[|s| - 1];
      var front := s[..|s| - 1];
      forall i | 0 <= i < |front|
        ensures key(front[i]) <= key(last)
      {
        assert front[i] == s[i];
      }
      if key(x) < key(last) {
        assert SortedBy(front, key);
        InsertSorted(x, front, key);
        InsertBounded(x, front, key, key(last));
        SortedAppend(Insert(x, front, key), last, key);
      } else {
        SortedAppend(s, x, key);
      }
    }
  }

  /** An insertion of elements all keyed at most `b` has only such elements. */
  lemma InsertBounded<T>(x: T, s: seq<T>, key: T -> int, b: int)
    requires key(x) <= b && forall i :: 0 <= i < |s| ==> key(s[i]) <= b
    ensures forall i :: 0 <= i < |Insert(x, s, key)| ==> key(Insert(x, s, key)[i]) <= b
  {
    var r := Insert(x, s, key);
    InsertMembers(x, s, key);
    forall i | 0 <= i < |r|
      ensures key(r[i]) <= b
    {
      if r[i] != x {
        var j :| 0 <= j < |s| && s[j] == r[i];
      }
    }
  }

  /** A sorted sequence followed by an element keyed at least as high as all of it is sorted. */
  lemma SortedAppend<T>(s: seq<T>, x: T, key: T -> int)
    requires SortedBy(s, key) && forall i :: 0 <= i < |s| ==> key(s[i]) <= key(x)
    ensures SortedBy(s + [x], key)
  {
    var r := s + [x];
    forall i, j | 0 <= i < j < |r|
      ensures key(r[i]) <= key(r[j])
    {
      assert r[i] == s[i];
      if j < |s| {
        assert r[j] == s[j];
      }
    }
  }

  /** Stable insertion sort by `key`. */
  function SortBy<T>(s: seq<T>, key: T -> int): (r: seq<T>)
    ensures |r| == |s|
    ensures multiset(r) == multiset(s)
  {
    if s == [] then []
    else
      assert s == s[..|s| - 1] + [s[|s| - 1]];
      Insert(s[|s| - 1], SortBy(s[..|s| - 1], key), key)
  }

  /** The sort's output is ordered by the key. */
  lemma {:induction false} SortBySorted<T>(s: seq<T>, key: T -> int)
    ensures SortedBy(SortBy(s, key), key)
  {
    if s != [] {
      SortBySorted(s[..|s| - 1], key);
      InsertSorted(s[|s| - 1], SortBy(s[..|s| - 1], key), key);
    }
  }

  /** Sorting what is already sorted changes nothing. */
  lemma {:induction false} SortSorted<T>(s: seq<T>, key: T -> int)
    requires SortedBy(s, key)
    ensures SortBy(s, key) == s
  {
    if s != [] {
      var front, last := s[..|s| - 1], s[|s| - 1];
      SortedFront(s, key);
      SortSorted(front, key);
      SortByLast(s, key);
      InsertLargest(last, front, key);
      assert s == front + [last];
    }
  }

  /** Dropping the last element of a sorted sequence leaves it sorted, and that element is keyed highest. */
  lemma SortedFront<T>(s: seq<T>, key: T -> int)
    requires SortedBy(s, key) && s != []
    ensures SortedBy(s[..|s| - 1], key)
    ensures s[..|s| - 1] == [] || key(s[..|s| - 1][|s| - 2]) <= key(s[|s| - 1])
  {
    var front := s[..|s| - 1];
    forall i, j | 0 <= i < j < |front| ensures key(front[i]) <= key(front[j]) {
      assert front[i] == s[i] && front[j] == s[j];
    }
    if front != [] {
      assert front[|front| - 1] == s[|s| - 2];
    }
  }

  /** The sort of a non-empty sequence inserts its last element into the sort of the rest. */
  lemma SortByLast<T>(s: seq<T>, key: T -> int)
    requires s != []
    ensures SortBy(s, key) == Insert(s[|s| - 1], SortBy(s[..|s| - 1], key), key)
  {
  }

  /** Inserting an element keyed at least as high as the last one appends it. */
  lemma InsertLargest<T>(x: T, s: seq<T>, key: T -> int)
    requires s == [] || key(s[|s| - 1]) <= key(x)
    ensures Insert(x, s, key) == s + [x]
  {
  }

  /** Appending an element whose key is at least every other key to a sorted sequence, then sorting, just appends. */
  lemma AppendLargestSorted<T>(s: seq<T>, x: T, key: T -> int)
    requires SortedBy(s, key)
    requires forall i :: 0 <= i < |s| ==> key(s[i]) <= key(x)
    ensures SortBy(s + [x], key) == s + [x]
  {
    var t := s + [x];
    assert t[..|t| - 1] == s;
    SortByLast(t, key);
    SortSorted(s, key);
    InsertLargest(x, s, key);
  }
}
