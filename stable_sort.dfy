/** A stable sort by an integer key. The server sorts chapters with Python's `sorted(...,
    key=...)` and the client sorts messages with `Array.prototype.sort`; both are stable
    sorts by an integer key, modelled here once as an insertion sort. */
module StableSort {
  import opened Seqs

  ghost predicate SortedBy<T>(s: seq<T>, key: T -> int) {
    forall i, j :: 0 <= i < j < |s| ==> key(s[i]) <= key(s[j])
  }

  /** The elements whose key is `k`. */
  function KeyIs<T>(key: T -> int, k: int): T -> bool {
    x => key(x) == k
  }

  /** `x` placed before the first element whose key is greater than its own. */
  function Insert<T>(x: T, s: seq<T>, key: T -> int): (r: seq<T>)
    ensures |r| == |s| + 1
  {
    if s == [] || key(x) < key(s[0]) then [x] + s else [s[0]] + Insert(x, s[1..], key)
  }

  function SortBy<T>(s: seq<T>, key: T -> int): (r: seq<T>)
    ensures |r| == |s|
  {
    if s == [] then [] else Insert(s[|s| - 1], SortBy(s[..|s| - 1], key), key)
  }

  lemma {:induction false} InsertPermutes<T>(x: T, s: seq<T>, key: T -> int)
    ensures multiset(Insert(x, s, key)) == multiset(s) + multiset{x}
  {
    if s != [] && key(s[0]) <= key(x) {
      InsertPermutes(x, s[1..], key);
      assert s == [s[0]] + s[1..];
    }
  }

  lemma {:induction false} InsertSorted<T>(x: T, s: seq<T>, key: T -> int)
    requires SortedBy(s, key)
    ensures SortedBy(Insert(x, s, key), key)
  {
    if s != [] && key(s[0]) <= key(x) {
      var t := Insert(x, s[1..], key);
      InsertSorted(x, s[1..], key);
      InsertPermutes(x, s[1..], key);
      forall j | 0 <= j < |t| ensures key(s[0]) <= key(t[j]) {
        assert t[j] in multiset(t);
        assert t[j] == x || t[j] in multiset(s[1..]);
      }
      ConsSorted(s[0], t, key);
    }
  }

  /** An element no greater than any of a sorted sequence may go in front of it. */
  lemma ConsSorted<T>(h: T, t: seq<T>, key: T -> int)
    requires SortedBy(t, key)
    requires forall j :: 0 <= j < |t| ==> key(h) <= key(t[j])
    ensures SortedBy([h] + t, key)
  {
    var r := [h] + t;
    forall i, j | 0 <= i < j < |r| ensures key(r[i]) <= key(r[j]) {
      if i > 0 {
        assert r[i] == t[i - 1] && r[j] == t[j - 1];
      } else {
        assert r[j] == t[j - 1];
      }
    }
  }

  /** The result is ordered by key and is a permutation of the input. */
  lemma SortBySorted<T>(s: seq<T>, key: T -> int)
    ensures SortedBy(SortBy(s, key), key)
    ensures multiset(SortBy(s, key)) == multiset(s)
  {
    SortByOrdered(s, key);
    SortByPermutes(s, key);
  }

  lemma {:induction false} SortByOrdered<T>(s: seq<T>, key: T -> int)
    ensures SortedBy(SortBy(s, key), key)
  {
    if s != [] {
      SortByOrdered(s[..|s| - 1], key);
      InsertSorted(s[|s| - 1], SortBy(s[..|s| - 1], key), key);
    }
  }

  lemma {:induction false} SortByPermutes<T>(s: seq<T>, key: T -> int)
    ensures multiset(SortBy(s, key)) == multiset(s)
  {
    if s != [] {
      var init, last := s[..|s| - 1], s[|s| - 1];
      SortByPermutes(init, key);
      InsertPermutes(last, SortBy(init, key), key);
      Unsnoc(s);
    }
  }

  /** Inserting into a sorted sequence appends `x` to the run of elements sharing its key. */
  lemma {:induction false} InsertKeepsRuns<T>(x: T, s: seq<T>, key: T -> int, k: int)
    requires SortedBy(s, key)
    ensures Filter(Insert(x, s, key), KeyIs(key, k))
         == Filter(s, KeyIs(key, k)) + (if key(x) == k then [x] else [])
  {
    var p := KeyIs(key, k);
    if s == [] {
      assert Insert(x, s, key) == [x];
    } else if key(x) < key(s[0]) {
      FilterAppend([x], s, p);
      if key(x) == k {
        FilterDropsAll(s, p);
      }
    } else {
      InsertKeepsRuns(x, s[1..], key, k);
      FilterAppend([s[0]], Insert(x, s[1..], key), p);
      FilterAppend([s[0]], s[1..], p);
      assert s == [s[0]] + s[1..];
    }
  }

  /** Stability: for every key, the elements with that key keep their relative order. */
  lemma {:induction false} SortByStable<T>(s: seq<T>, key: T -> int, k: int)
    ensures Filter(SortBy(s, key), KeyIs(key, k)) == Filter(s, KeyIs(key, k))
  {
    if s != [] {
      var init, last := s[..|s| - 1], s[|s| - 1];
      SortByStable(init, key, k);
      SortByOrdered(init, key);
      InsertKeepsRuns(last, SortBy(init, key), key, k);
      FilterSnoc(init, last, KeyIs(key, k));
      Unsnoc(s);
    }
  }

  /** Sorting an already sorted sequence changes nothing. */
  lemma {:induction false} SortBySortedIsIdentity<T>(s: seq<T>, key: T -> int)
    requires SortedBy(s, key)
    ensures SortBy(s, key) == s
  {
    if s != [] {
      var init, last := s[..|s| - 1], s[|s| - 1];
      SortBySortedIsIdentity(init, key);
      InsertLargestAppends(last, init, key);
      Unsnoc(s);
    }
  }

  lemma {:induction false} InsertLargestAppends<T>(x: T, s: seq<T>, key: T -> int)
    requires forall i :: 0 <= i < |s| ==> key(s[i]) <= key(x)
    ensures Insert(x, s, key) == s + [x]
  {
    if s != [] {
      InsertLargestAppends(x, s[1..], key);
      assert s == [s[0]] + s[1..];
    }
  }

  /** In a sorted sequence, the first element satisfying `p` has the lowest key among all
      elements satisfying `p`. */
  lemma FirstWhereLowest<T>(s: seq<T>, key: T -> int, p: T -> bool)
    requires SortedBy(s, key) && FirstWhere(s, p).Some?
    ensures forall j :: 0 <= j < |s| && p(s[j]) ==> key(FirstWhere(s, p).value) <= key(s[j])
  {
    var i := FirstWhereIndex(s, p);
    forall j | 0 <= j < |s| && p(s[j]) ensures key(s[i]) <= key(s[j]) {
      if i < j {
        assert key(s[i]) <= key(s[j]);
      }
    }
  }

  /** The same for a sorted rearrangement of `s`: what the search finds is a member of `s`
      whose key is the lowest among the members of `s` that satisfy `p`. */
  lemma FirstWhereLowestOf<T>(s: seq<T>, sorted: seq<T>, key: T -> int, p: T -> bool)
    requires SortedBy(sorted, key) && multiset(sorted) == multiset(s) && FirstWhere(sorted, p).Some?
    ensures FirstWhere(sorted, p).value in s
    ensures forall j :: 0 <= j < |s| && p(s[j]) ==> key(FirstWhere(sorted, p).value) <= key(s[j])
  {
    var x := FirstWhere(sorted, p).value;
    FirstWhereLowest(sorted, key, p);
    assert x in multiset(sorted);
    forall j | 0 <= j < |s| && p(s[j]) ensures key(x) <= key(s[j]) {
      assert s[j] in multiset(sorted);
      var l :| 0 <= l < |sorted| && sorted[l] == s[j];
    }
  }
}
