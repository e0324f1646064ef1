/**
 `sorted(items, key=...)`: the stable sort by a numeric key.  `reverse=True` keeps equal items in
 their order as well, so a descending sort is the sort by the negated key.
 */
module StableSort {
  ghost predicate Sorted<T(!new)>(s: seq<T>, key: T -> real) {
    forall i, j :: 0 <= i < j < |s| ==> key(s[i]) <= key(s[j])
  }

  /** Insert `x` behind every item whose key is not larger. */
  function Insert<T>(s: seq<T>, x: T, key: T -> real): (r: seq<T>)
    ensures |r| == |s| + 1
  {
    if s == [] then [x]
    else if key(s[|s| - 1]) <= key(x) then s + [x]
    else Insert(s[..|s| - 1], x, key) + [s[|s| - 1]]
  }

  function Sort<T>(s: seq<T>, key: T -> real): (r: seq<T>)
    ensures |r| == |s|
  {
    if s == [] then [] else Insert(Sort(s[..|s| - 1], key), s[|s| - 1], key)
  }

  lemma {:induction false} InsertAdds<T>(s: seq<T>, x: T, key: T -> real)
    ensures multiset(Insert(s, x, key)) == multiset(s) + multiset{x}
  {
    if s != [] && key(s[|s| - 1]) > key(x) {
      InsertAdds(s[..|s| - 1], x, key);
      assert s == s[..|s| - 1] + [s[|s| - 1]];
    }
  }

  lemma {:induction false} SortPermutes<T>(s: seq<T>, key: T -> real)
    ensures multiset(Sort(s, key)) == multiset(s)
  {
    if s != [] {
      SortPermutes(s[..|s| - 1], key);
      InsertAdds(Sort(s[..|s| - 1], key), s[|s| - 1], key);
      assert s == s[..|s| - 1] + [s[|s| - 1]];
    }
  }

  lemma {:induction false} InsertSorts<T(!new)>(s: seq<T>, x: T, key: T -> real)
    requires Sorted(s, key)
    ensures Sorted(Insert(s, x, key), key)
  {
    if s != [] && key(s[|s| - 1]) > key(x) {
      var front, last := s[..|s| - 1], s[|s| - 1];
      InsertSorts(front, x, key);
      var inserted := Insert(front, x, key);
      InsertAdds(front, x, key);
      forall i | 0 <= i < |inserted| ensures key(inserted[i]) <= key(last) {
        assert inserted[i] in multiset(inserted);
        assert inserted[i] in front || inserted[i] == x;
      }
    }
  }

  lemma {:induction false} SortSorts<T(!new)>(s: seq<T>, key: T -> real)
    ensures Sorted(Sort(s, key), key)
  {
    if s != [] {
      SortSorts(s[..|s| - 1], key);
      InsertSorts(Sort(s[..|s| - 1], key), s[|s| - 1], key);
    }
  }

  lemma SortKeepsMembers<T>(s: seq<T>, key: T -> real, x: T)
    ensures x in Sort(s, key) <==> x in s
  {
    SortPermutes(s, key);
    assert x in Sort(s, key) <==> x in multiset(Sort(s, key));
    assert x in s <==> x in multiset(s);
  }

  ghost predicate Distinct<T(!new)>(s: seq<T>) {
    forall i, j :: 0 <= i < j < |s| ==> s[i] != s[j]
  }

  lemma {:induction false} DistinctMeansOnce<T(!new)>(s: seq<T>)
    ensures Distinct(s) <==> forall x :: multiset(s)[x] <= 1
  {
    if s != [] {
      var front, last := s[..|s| - 1], s[|s| - 1];
      DistinctMeansOnce(front);
      assert s == front + [last];
      assert multiset(s) == multiset(front) + multiset{last};
      if Distinct(s) {
        assert last !in front;
      }
      if forall x :: multiset(s)[x] <= 1 {
        forall x ensures multiset(front)[x] <= 1 { assert multiset(front)[x] <= multiset(s)[x]; }
        assert multiset(s)[last] == multiset(front)[last] + 1;
        assert last !in front;
      }
    }
  }

  lemma SortKeepsDistinct<T(!new)>(s: seq<T>, key: T -> real)
    requires Distinct(s)
    ensures Distinct(Sort(s, key))
  {
    SortPermutes(s, key);
    DistinctMeansOnce(s);
    DistinctMeansOnce(Sort(s, key));
  }

  function Filter<T>(s: seq<T>, p: T -> bool): seq<T> {
    if s == [] then []
    else Filter(s[..|s| - 1], p) + (if p(s[|s| - 1]) then [s[|s| - 1]] else [])
  }

  lemma FilterAppend<T>(s: seq<T>, x: T, p: T -> bool)
    ensures Filter(s + [x], p) == Filter(s, p) + (if p(x) then [x] else [])
  {
    assert (s + [x])[..|s|] == s;
  }

  /** Insertion keeps the picked items in order, the new one last, when they all have one key. */
  lemma {:induction false} InsertIsStable<T(!new)>(s: seq<T>, x: T, key: T -> real, p: T -> bool)
    requires p(x) ==> forall i :: 0 <= i < |s| && p(s[i]) ==> key(s[i]) == key(x)
    ensures Filter(Insert(s, x, key), p) == Filter(s, p) + (if p(x) then [x] else [])
  {
    if s != [] && key(s[|s| - 1]) > key(x) {
      var front, last := s[..|s| - 1], s[|s| - 1];
      InsertIsStable(front, x, key, p);
      FilterAppend(Insert(front, x, key), last, p);
      if p(x) { assert !p(last); }
    } else {
      FilterAppend(s, x, p);
    }
  }

  /** Sorting keeps the order of the items that share a key. */
  lemma {:induction false} SortIsStable<T(!new)>(s: seq<T>, key: T -> real, p: T -> bool)
    requires forall x, y :: p(x) && p(y) && x in s && y in s ==> key(x) == key(y)
    ensures Filter(Sort(s, key), p) == Filter(s, p)
  {
    if s != [] {
      var front, last := s[..|s| - 1], s[|s| - 1];
      assert s == front + [last];
      assert forall y :: y in front ==> y in s;
      SortIsStable(front, key, p);
      var sorted := Sort(front, key);
      forall i | 0 <= i < |sorted| && p(sorted[i]) && p(last) ensures key(sorted[i]) == key(last) {
        SortKeepsMembers(front, key, sorted[i]);
      }
      InsertIsStable(Sort(front, key), last, key, p);
      FilterAppend(Sort(front, key), last, p);
      FilterAppend(front, last, p);
    }
  }
}
