/** Generic operations on sequences of rows: a filter (SQL WHERE and Python list
    comprehensions), SQL's LIMIT, and a stable insertion sort (Python's
    `sorted`, and SQL's ORDER BY, for which only the order is promised). */
module Seqs {

  /** The elements of s that satisfy p, in their original order. */
  function Filter<T(==,!new)>(s: seq<T>, p: T -> bool): (r: seq<T>)
    ensures |r| <= |s|
    ensures forall i :: 0 <= i < |r| ==> p(r[i])
    ensures forall x :: multiset(r)[x] == if p(x) then multiset(s)[x] else 0
  {
    if s == [] then []
    else
      assert s == [s[0]] + s[1..];
      (if p(s[0]) then [s[0]] else []) + Filter(s[1..], p)
  }

  /** Filtering a concatenation filters each part: the filter keeps order. */
  lemma {:induction false} FilterConcat<T(!new)>(a: seq<T>, b: seq<T>, p: T -> bool)
    ensures Filter(a + b, p) == Filter(a, p) + Filter(b, p)
  {
    if a == [] {
      assert a + b == b;
    } else {
      assert (a + b)[0] == a[0];
      assert (a + b)[1..] == a[1..] + b;
      FilterConcat(a[1..], b, p);
    }
  }

  /** A filter that every element passes changes nothing. */
  lemma {:induction false} FilterKeepsAll<T(!new)>(s: seq<T>, p: T -> bool)
    requires forall i :: 0 <= i < |s| ==> p(s[i])
    ensures Filter(s, p) == s
  {
    if s != [] {
      FilterKeepsAll(s[1..], p);
    }
  }

  /** SQL's `LIMIT n`: the first n rows; a negative n means no limit. */
  function Limit<T>(s: seq<T>, limit: int): (r: seq<T>)
    ensures |r| == if 0 <= limit < |s| then limit else |s|
    ensures r == s[..|r|]
  {
    if 0 <= limit < |s| then s[..limit] else s
  }

  // ---------------------------------------------------------------------
  // Ordering

  /** `le(a, b)`: a may be placed before b. */
  ghost predicate TotalPreorder<T(!new)>(le: (T, T) -> bool) {
    && (forall a, b :: le(a, b) || le(b, a))
    && (forall a, b, c :: le(a, b) && le(b, c) ==> le(a, c))
  }

  ghost predicate SortedBy<T>(s: seq<T>, le: (T, T) -> bool) {
    forall i, j :: 0 <= i < j < |s| ==> le(s[i], s[j])
  }

  /** a and b tie: neither must come first. */
  predicate Tied<T>(le: (T, T) -> bool, a: T, b: T) {
    le(a, b) && le(b, a)
  }

  /** The elements of s that tie with y, in their order in s. */
  function Ties<T>(s: seq<T>, le: (T, T) -> bool, y: T): seq<T> {
    if s == [] then [] else (if Tied(le, s[0], y) then [s[0]] else []) + Ties(s[1..], le, y)
  }

  /** x placed before the first element it may precede. */
  function Insert<T(==,!new)>(x: T, s: seq<T>, le: (T, T) -> bool): (r: seq<T>)
    ensures |r| == |s| + 1
    ensures multiset(r) == multiset(s) + multiset{x}
  {
    if s == [] then [x]
    else if le(x, s[0]) then [x] + s
    else
      assert s == [s[0]] + s[1..];
      [s[0]] + Insert(x, s[1..], le)
  }

  /** Stable insertion sort: the result is a permutation of s. */
  function InsertionSort<T(==,!new)>(s: seq<T>, le: (T, T) -> bool): (r: seq<T>)
    ensures |r| == |s|
    ensures multiset(r) == multiset(s)
  {
    if s == [] then []
    else
      assert s == [s[0]] + s[1..];
      Insert(s[0], InsertionSort(s[1..], le), le)
  }

  lemma {:induction false} InsertSorted<T(!new)>(x: T, s: seq<T>, le: (T, T) -> bool)
    requires TotalPreorder(le) && SortedBy(s, le)
    ensures SortedBy(Insert(x, s, le), le)
  {
    if s != [] && !le(x, s[0]) {
      var t := s[1..];
      InsertSorted(x, t, le);
      var r' := Insert(x, t, le);
      assert le(s[0], x);
      forall j | 0 <= j < |r'|
        ensures le(s[0], r'[j])
      {
        assert r'[j] in multiset(r');
        if r'[j] != x {
          assert r'[j] in multiset(t);
          var k :| 0 <= k < |t| && t[k] == r'[j];
          assert t[k] == s[k + 1];
        }
      }
    }
  }

  /** With a total preorder the sort is ordered. */
  lemma {:induction false} InsertionSortSorted<T(!new)>(s: seq<T>, le: (T, T) -> bool)
    requires TotalPreorder(le)
    ensures SortedBy(InsertionSort(s, le), le)
  {
    if s != [] {
      InsertionSortSorted(s[1..], le);
      InsertSorted(s[0], InsertionSort(s[1..], le), le);
    }
  }

  lemma {:induction false} InsertTies<T(!new)>(x: T, s: seq<T>, le: (T, T) -> bool, y: T)
    requires TotalPreorder(le) && SortedBy(s, le)
    ensures Ties(Insert(x, s, le), le, y) == (if Tied(le, x, y) then [x] else []) + Ties(s, le, y)
  {
    if s == [] {
    } else if le(x, s[0]) {
      assert ([x] + s)[1..] == s;
    } else {
      var r' := Insert(x, s[1..], le);
      InsertTies(x, s[1..], le, y);
      var r := Insert(x, s, le);
      assert r == [s[0]] + r';
      assert r[1..] == r';
      assert Ties(r, le, y) == (if Tied(le, s[0], y) then [s[0]] else []) + Ties(r', le, y);
      assert Ties(s, le, y) == (if Tied(le, s[0], y) then [s[0]] else []) + Ties(s[1..], le, y);
      if Tied(le, x, y) {
        assert !Tied(le, s[0], y);
      }
    }
  }

  /** The sort is stable: elements that tie keep their relative order. */
  lemma {:induction false} InsertionSortStable<T(!new)>(s: seq<T>, le: (T, T) -> bool, y: T)
    requires TotalPreorder(le)
    ensures Ties(InsertionSort(s, le), le, y) == Ties(s, le, y)
  {
    if s != [] {
      InsertionSortStable(s[1..], le, y);
      InsertionSortSorted(s[1..], le);
      InsertTies(s[0], InsertionSort(s[1..], le), le, y);
    }
  }

  /** In a sorted sequence every element of the first m may precede every
      element after them. */
  lemma SortedPrefixFirst<T(!new)>(s: seq<T>, m: nat, le: (T, T) -> bool)
    requires SortedBy(s, le) && m <= |s|
    ensures forall x, i :: x in multiset(s) - multiset(s[..m]) && 0 <= i < m ==> le(s[i], x)
  {
    assert s == s[..m] + s[m..];
    assert multiset(s) - multiset(s[..m]) == multiset(s[m..]);
    forall x, i | x in multiset(s) - multiset(s[..m]) && 0 <= i < m
      ensures le(s[i], x)
    {
      assert x in multiset(s[m..]);
      var k :| 0 <= k < |s[m..]| && s[m..][k] == x;
      assert s[m + k] == x;
    }
  }

  /** LIMIT applied to a sorted sequence: a sorted sub-multiset none of whose
      elements must follow an element left out. */
  lemma LimitOfSorted<T(!new)>(s: seq<T>, limit: int, le: (T, T) -> bool)
    requires SortedBy(s, le)
    ensures SortedBy(Limit(s, limit), le)
    ensures multiset(Limit(s, limit)) <= multiset(s)
    ensures forall x, i :: x in multiset(s) - multiset(Limit(s, limit)) && 0 <= i < |Limit(s, limit)| ==> le(Limit(s, limit)[i], x)
  {
    var r := Limit(s, limit);
    SortedPrefixFirst(s, |r|, le);
    assert s == r + s[|r|..];
  }

  /** The first element of a sorted sequence may precede every element. */
  lemma SortedFirstLeast<T(!new)>(s: seq<T>, le: (T, T) -> bool)
    requires TotalPreorder(le) && SortedBy(s, le) && s != []
    ensures forall x :: x in multiset(s) ==> le(s[0], x)
  {
    forall x | x in multiset(s)
      ensures le(s[0], x)
    {
      var k :| 0 <= k < |s| && s[k] == x;
      if k == 0 {
        assert le(x, x) || le(x, x);
      }
    }
  }
}
