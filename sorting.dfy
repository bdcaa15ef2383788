/** A stable sort by an integer key: the model of PHP 8's usort() with a
    `<=>` comparator and of an SQL ORDER BY on one numeric column. */
module Sorting {
  import opened Common

  ghost predicate SortedBy<T>(s: seq<T>, key: T -> int) {
    forall i, j :: 0 <= i < j < |s| ==> key(s[i]) <= key(s[j])
  }

  /** Places `x` after every element whose key is at most key(x). */
  function Insert<T>(x: T, s: seq<T>, key: T -> int): (r: seq<T>)
    ensures |r| == |s| + 1
  {
    if s == [] then [x]
    else if key(s[|s| - 1]) <= key(x) then s + [x]
    else Insert(x, s[..|s| - 1], key) + [s[|s| - 1]]
  }

  /** Insertion sort, ascending by key; equal keys keep their input order. */
  function SortBy<T>(s: seq<T>, key: T -> int): (r: seq<T>)
    ensures |r| == |s|
    ensures multiset(r) == multiset(s)
    ensures SortedBy(r, key)
  {
    if s == [] then []
    else
      var init := s[..|s| - 1];
      assert s == init + [s[|s| - 1]];
      InsertMultiset(s[|s| - 1], SortBy(init, key), key);
      InsertSorted(s[|s| - 1], SortBy(init, key), key);
      Insert(s[|s| - 1], SortBy(init, key), key)
  }

  lemma {:induction false} InsertMultiset<T>(x: T, s: seq<T>, key: T -> int)
    ensures multiset(Insert(x, s, key)) == multiset(s) + multiset{x}
  {
    if s != [] && key(s[|s| - 1]) > key(x) {
      var init := s[..|s| - 1];
      assert s == init + [s[|s| - 1]];
      InsertMultiset(x, init, key);
    }
  }

  /** Every key in Insert(x, s) is bounded by a bound on x and on all of s. */
  lemma {:induction false} InsertBounded<T>(x: T, s: seq<T>, key: T -> int, b: int)
    requires key(x) <= b
    requires forall i :: 0 <= i < |s| ==> key(s[i]) <= b
    ensures forall i :: 0 <= i < |Insert(x, s, key)| ==> key(Insert(x, s, key)[i]) <= b
  {
    if s != [] && key(s[|s| - 1]) > key(x) {
      InsertBounded(x, s[..|s| - 1], key, b);
    }
  }

  lemma {:induction false} InsertSorted<T>(x: T, s: seq<T>, key: T -> int)
    requires SortedBy(s, key)
    ensures SortedBy(Insert(x, s, key), key)
  {
    if s != [] && key(s[|s| - 1]) > key(x) {
      var init, last := s[..|s| - 1], s[|s| - 1];
      InsertSorted(x, init, key);
      InsertBounded(x, init, key, key(last));
      var r' := Insert(x, init, key);
      assert Insert(x, s, key) == r' + [last];
    }
  }

  /** A window of a sorted sequence is sorted and holds elements of it only. */
  lemma SliceSorted<T>(s: seq<T>, key: T -> int, offset: nat, limit: nat)
    requires SortedBy(s, key)
    ensures SortedBy(Slice(s, offset, limit), key)
    ensures forall x :: x in Slice(s, offset, limit) ==> x in s
  {
    var w := Slice(s, offset, limit);
    forall i, j | 0 <= i < j < |w|
      ensures key(w[i]) <= key(w[j])
    {
      assert w[i] == s[offset + i] && w[j] == s[offset + j];
    }
    forall x | x in w
      ensures x in s
    {
      var k :| 0 <= k < |w| && w[k] == x;
      assert s[offset + k] == x;
    }
  }

  /** The predicate "has key k", named so that every statement about it uses one term. */
  function KeyIs<T>(key: T -> int, k: int): T -> bool {
    y => key(y) == k
  }

  /** Inserting `x` adds it to the elements of its own key, after all of
      them, and leaves the elements of every other key as they are. */
  lemma {:induction false} InsertStable<T>(x: T, s: seq<T>, key: T -> int, k: int)
    ensures Filter(Insert(x, s, key), KeyIs(key, k))
         == Filter(s, KeyIs(key, k)) + (if key(x) == k then [x] else [])
  {
    if s == [] || key(s[|s| - 1]) <= key(x) {
      InsertStableAfter(x, s, key, k);
    } else {
      var init, last := s[..|s| - 1], s[|s| - 1];
      assert s == init + [last];
      InsertStable(x, init, key, k);
      assert Insert(x, s, key) == Insert(x, init, key) + [last];
      InsertStableBefore(x, init, last, Insert(x, init, key), key, k);
    }
  }

  lemma InsertStableAfter<T>(x: T, s: seq<T>, key: T -> int, k: int)
    requires s == [] || key(s[|s| - 1]) <= key(x)
    ensures Filter(Insert(x, s, key), KeyIs(key, k))
         == Filter(s, KeyIs(key, k)) + (if key(x) == k then [x] else [])
  {
    assert Insert(x, s, key) == s + [x];
    assert (s + [x])[..|s|] == s;
  }

  /** The step past an element `last` with a key above key(x). */
  lemma InsertStableBefore<T>(x: T, init: seq<T>, last: T, r: seq<T>, key: T -> int, k: int)
    requires key(last) > key(x)
    requires Filter(r, KeyIs(key, k)) == Filter(init, KeyIs(key, k)) + (if key(x) == k then [x] else [])
    ensures Filter(r + [last], KeyIs(key, k))
         == Filter(init + [last], KeyIs(key, k)) + (if key(x) == k then [x] else [])
  {
    var p := KeyIs(key, k);
    var xs: seq<T> := if key(x) == k then [x] else [];
    var ls: seq<T> := if p(last) then [last] else [];
    FilterSnoc(r, last, p);
    FilterSnoc(init, last, p);
    assert xs == [] || ls == [];
    Swap(Filter(init, p), xs, ls);
  }

  lemma Swap<T>(a: seq<T>, xs: seq<T>, ls: seq<T>)
    requires xs == [] || ls == []
    ensures a + xs + ls == a + ls + xs
  {
    if xs == [] {
      assert a + xs == a && a + ls + xs == a + ls;
    } else {
      assert a + ls == a && a + xs + ls == a + xs;
    }
  }

  /** Stability: the elements sharing one key come out in their input order. */
  lemma {:induction false} SortByStable<T>(s: seq<T>, key: T -> int, k: int)
    ensures Filter(SortBy(s, key), KeyIs(key, k)) == Filter(s, KeyIs(key, k))
  {
    if s != [] {
      var init, last := s[..|s| - 1], s[|s| - 1];
      SortByStable(init, key, k);
      InsertStable(last, SortBy(init, key), key, k);
      assert Filter(s, KeyIs(key, k)) == Filter(init, KeyIs(key, k)) + (if key(last) == k then [last] else []);
    }
  }
}
