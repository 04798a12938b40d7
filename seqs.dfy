/** Order-preserving filtering and mapping of sequences: the list comprehensions
    and query results of the services are built from these two. */
module Seqs {
  import opened Wrappers

  /** The elements of `s` that satisfy `p`, in their order in `s`. */
  function Filter<T>(s: seq<T>, p: T -> bool): (r: seq<T>)
    ensures |r| <= |s|
    ensures forall i :: 0 <= i < |r| ==> r[i] in s && p(r[i])
    ensures forall i :: 0 <= i < |s| && p(s[i]) ==> s[i] in r
  {
    if s == [] then [] else (if p(s[0]) then [s[0]] else []) + Filter(s[1..], p)
  }

  /** `f` applied to every element of `s`, in order. */
  function Map<T, U>(s: seq<T>, f: T -> U): (r: seq<U>)
    ensures |r| == |s|
    ensures forall i :: 0 <= i < |s| ==> r[i] == f(s[i])
  {
    if s == [] then [] else [f(s[0])] + Map(s[1..], f)
  }

  /** The first element of `s` that satisfies `p`. */
  function FirstWhere<T>(s: seq<T>, p: T -> bool): (r: Option<T>)
    ensures r.Some? ==> r.value in s && p(r.value)
    ensures r.None? <==> forall i :: 0 <= i < |s| ==> !p(s[i])
  {
    if s == [] then None else if p(s[0]) then Some(s[0]) else FirstWhere(s[1..], p)
  }

  lemma {:induction false} FilterAppend<T>(s: seq<T>, t: seq<T>, p: T -> bool)
    ensures Filter(s + t, p) == Filter(s, p) + Filter(t, p)
  {
    if s == [] {
      assert s + t == t;
    } else {
      assert (s + t)[1..] == s[1..] + t;
      FilterAppend(s[1..], t, p);
    }
  }

  /** Filtering a sequence extended by one element: the element is kept at the end exactly when
      it satisfies `p`. */
  lemma FilterSnoc<T>(s: seq<T>, x: T, p: T -> bool)
    ensures Filter(s + [x], p) == Filter(s, p) + (if p(x) then [x] else [])
  {
    FilterAppend(s, [x], p);
    assert [x][1..] == [];
  }

  lemma Uncons<T>(s: seq<T>)
    requires s != []
    ensures s == [s[0]] + s[1..]
  {
  }

  lemma Unsnoc<T>(s: seq<T>)
    requires s != []
    ensures s == s[..|s| - 1] + [s[|s| - 1]]
  {
  }

  lemma TakeSnoc<T>(s: seq<T>, i: nat)
    requires i < |s|
    ensures s[..i + 1] == s[..i] + [s[i]]
  {
  }

  /** Filtering by a predicate that every element already satisfies changes nothing. */
  lemma {:induction false} FilterKeepsAll<T>(s: seq<T>, p: T -> bool)
    requires forall i :: 0 <= i < |s| ==> p(s[i])
    ensures Filter(s, p) == s
  {
    if s != [] {
      FilterKeepsAll(s[1..], p);
    }
  }

  /** Filtering by a predicate that no element satisfies gives the empty sequence. */
  lemma {:induction false} FilterDropsAll<T>(s: seq<T>, p: T -> bool)
    requires forall i :: 0 <= i < |s| ==> !p(s[i])
    ensures Filter(s, p) == []
  {
    if s != [] {
      FilterDropsAll(s[1..], p);
    }
  }

  /** Two predicates that agree on the elements of `s` filter it alike. */
  lemma {:induction false} FilterCongruent<T>(s: seq<T>, p: T -> bool, q: T -> bool)
    requires forall i :: 0 <= i < |s| ==> p(s[i]) == q(s[i])
    ensures Filter(s, p) == Filter(s, q)
  {
    if s != [] {
      FilterCongruent(s[1..], p, q);
    }
  }

  /** Filtering twice is filtering once by the conjunction. */
  lemma {:induction false} FilterFilter<T>(s: seq<T>, p: T -> bool, q: T -> bool, pq: T -> bool)
    requires forall i :: 0 <= i < |s| ==> pq(s[i]) == (p(s[i]) && q(s[i]))
    ensures Filter(Filter(s, p), q) == Filter(s, pq)
  {
    if s != [] {
      FilterFilter(s[1..], p, q, pq);
      assert Filter(s, p) == (if p(s[0]) then [s[0]] else []) + Filter(s[1..], p);
      FilterAppend(if p(s[0]) then [s[0]] else [], Filter(s[1..], p), q);
    }
  }

  /** Multiset view of Filter: it only removes elements. */
  lemma {:induction false} FilterSubMultiset<T>(s: seq<T>, p: T -> bool)
    ensures multiset(Filter(s, p)) <= multiset(s)
  {
    if s != [] {
      FilterSubMultiset(s[1..], p);
      Uncons(s);
      assert multiset(s) == multiset{s[0]} + multiset(s[1..]);
    }
  }

  /** If the first element of `s` that satisfies `p` also satisfies `q`, it is still the
      first one once `s` is narrowed to the elements that satisfy `q`. */
  lemma {:induction false} FirstWhereSurvivesFilter<T>(s: seq<T>, p: T -> bool, q: T -> bool)
    requires FirstWhere(s, p).Some? && q(FirstWhere(s, p).value)
    ensures FirstWhere(Filter(s, q), p) == FirstWhere(s, p)
  {
    var rest := Filter(s[1..], q);
    var head := if q(s[0]) then [s[0]] else [];
    assert Filter(s, q) == head + rest;
    if p(s[0]) {
      assert FirstWhere(s, p).value == s[0];
      assert (head + rest)[0] == s[0];
      assert FirstWhere(head + rest, p) == Some(s[0]);
    } else {
      assert FirstWhere(s, p) == FirstWhere(s[1..], p);
      FirstWhereSurvivesFilter(s[1..], p, q);
      if q(s[0]) {
        assert (head + rest)[1..] == rest;
        assert FirstWhere(head + rest, p) == FirstWhere(rest, p);
      } else {
        assert head + rest == rest;
      }
    }
  }

  /** The element `FirstWhere` finds sits at an index before which no element satisfies `p`. */
  lemma {:induction false} FirstWhereIndex<T>(s: seq<T>, p: T -> bool) returns (k: nat)
    requires FirstWhere(s, p).Some?
    ensures k < |s| && s[k] == FirstWhere(s, p).value
    ensures forall j :: 0 <= j < k ==> !p(s[j])
  {
    if p(s[0]) {
      k := 0;
    } else {
      var k' := FirstWhereIndex(s[1..], p);
      k := k' + 1;
      forall j | 0 <= j < k ensures !p(s[j]) {
        if j > 0 {
          assert s[j] == s[1..][j - 1];
        }
      }
    }
  }

  /** Searching the elements that satisfy `q` for one that satisfies `p` finds `s[k]` when
      `s[k]` satisfies both and no earlier element does. */
  lemma {:induction false} FirstWhereFilterAt<T>(s: seq<T>, q: T -> bool, p: T -> bool, k: nat)
    requires k < |s| && q(s[k]) && p(s[k])
    requires forall j :: 0 <= j < k && q(s[j]) ==> !p(s[j])
    ensures FirstWhere(Filter(s, q), p) == Some(s[k])
  {
    var rest := Filter(s[1..], q);
    var head := if q(s[0]) then [s[0]] else [];
    assert Filter(s, q) == head + rest;
    if k == 0 {
      assert (head + rest)[0] == s[0];
    } else {
      forall j | 0 <= j < k - 1 && q(s[1..][j]) ensures !p(s[1..][j]) {
        assert s[1..][j] == s[j + 1];
      }
      FirstWhereFilterAt(s[1..], q, p, k - 1);
      if q(s[0]) {
        assert (head + rest)[1..] == rest;
      } else {
        assert head + rest == rest;
      }
    }
  }
}
