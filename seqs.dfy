/** Sequence tools the in-memory tables are queried with: `where` filters,
    first-match lookups and `orderBy` sorting. */
module Seqs {
  import opened Common

  /** The elements of `s` that satisfy `p`, in their original order. */
  function Filter<T(!new)>(s: seq<T>, p: T -> bool): (r: seq<T>)
    ensures |r| <= |s|
    ensures forall x :: x in r <==> x in s && p(x)
    ensures forall k :: 0 <= k < |r| ==> p(r[k])
    ensures multiset(r) <= multiset(s)
  {
    if |s| == 0 then []
    else
      assert s == [s[0]] + s[1..];
      if p(s[0]) then [s[0]] + Filter(s[1..], p)
      else Filter(s[1..], p)
  }

  /** Filtering is nothing but counting: an element occurs in the result as
      often as it occurs in `s` when it satisfies `p`, and not at all
      otherwise. */
  lemma {:induction false} FilterMultiset<T(!new)>(s: seq<T>, p: T -> bool, x: T)
    ensures multiset(Filter(s, p))[x] == if p(x) then multiset(s)[x] else 0
  {
    if |s| > 0 {
      var t := s[1..];
      FilterMultiset(t, p, x);
      assert s == [s[0]] + t;
      assert multiset(s) == multiset{s[0]} + multiset(t);
      if p(s[0]) {
        assert Filter(s, p) == [s[0]] + Filter(t, p);
        assert multiset(Filter(s, p)) == multiset{s[0]} + multiset(Filter(t, p));
      } else {
        assert Filter(s, p) == Filter(t, p);
      }
    }
  }

  /** The same, for every element at once. */
  lemma FilterCounts<T(!new)>(s: seq<T>, p: T -> bool)
    ensures forall x :: multiset(Filter(s, p))[x] == if p(x) then multiset(s)[x] else 0
  {
    forall x ensures multiset(Filter(s, p))[x] == if p(x) then multiset(s)[x] else 0 {
      FilterMultiset(s, p, x);
    }
  }

  /** Filtering distributes over concatenation. */
  lemma {:induction false} FilterAppend<T(!new)>(a: seq<T>, b: seq<T>, p: T -> bool)
    ensures Filter(a + b, p) == Filter(a, p) + Filter(b, p)
  {
    if |a| == 0 {
      assert a + b == b;
    } else {
      assert (a + b)[1..] == a[1..] + b;
      FilterAppend(a[1..], b, p);
    }
  }

  /** Two tests that agree on every element select the same rows. */
  lemma {:induction false} FilterSame<T(!new)>(s: seq<T>, p: T -> bool, q: T -> bool)
    requires forall k :: 0 <= k < |s| ==> p(s[k]) == q(s[k])
    ensures Filter(s, p) == Filter(s, q)
  {
    if |s| > 0 {
      var t := s[1..];
      assert forall k :: 0 <= k < |t| ==> t[k] == s[k + 1];
      FilterSame(t, p, q);
      assert p(s[0]) == q(s[0]);
      if p(s[0]) {
        assert Filter(s, p) == [s[0]] + Filter(t, p);
        assert Filter(s, q) == [s[0]] + Filter(t, q);
      } else {
        assert Filter(s, p) == Filter(t, p);
        assert Filter(s, q) == Filter(t, q);
      }
    }
  }

  /** A test every element passes keeps the whole sequence. */
  lemma {:induction false} FilterKeepsAll<T(!new)>(s: seq<T>, p: T -> bool)
    requires forall k :: 0 <= k < |s| ==> p(s[k])
    ensures Filter(s, p) == s
  {
    if |s| > 0 {
      var t := s[1..];
      assert forall k :: 0 <= k < |t| ==> t[k] == s[k + 1];
      FilterKeepsAll(t, p);
      assert p(s[0]);
      assert Filter(s, p) == [s[0]] + Filter(t, p);
      assert s == [s[0]] + t;
    }
  }

  /** A test no element passes keeps nothing. */
  lemma {:induction false} FilterKeepsNone<T(!new)>(s: seq<T>, p: T -> bool)
    requires forall k :: 0 <= k < |s| ==> !p(s[k])
    ensures Filter(s, p) == []
  {
    if |s| > 0 {
      var t := s[1..];
      assert forall k :: 0 <= k < |t| ==> t[k] == s[k + 1];
      FilterKeepsNone(t, p);
      assert !p(s[0]);
      assert Filter(s, p) == Filter(t, p);
    }
  }

  /** Sorting by a relation that holds between any two elements (a
      comparator that always answers 0) leaves the sequence as it was. */
  lemma {:induction false} SortByIndifferent<T>(s: seq<T>, leq: (T, T) -> bool)
    requires forall a, b :: leq(a, b)
    ensures SortBy(s, leq) == s
  {
    if |s| > 0 {
      SortByIndifferent(s[1..], leq);
      assert s == [s[0]] + s[1..];
    }
  }

  /** The index of the first element satisfying `p` (a `findFirst`). */
  function FindIndex<T>(s: seq<T>, p: T -> bool): (r: Option<nat>)
    ensures r.Some? ==> r.value < |s| && p(s[r.value])
    ensures r.Some? ==> forall j :: 0 <= j < r.value ==> !p(s[j])
    ensures r.None? <==> forall j :: 0 <= j < |s| ==> !p(s[j])
  {
    if |s| == 0 then None
    else if p(s[0]) then Some(0)
    else match FindIndex(s[1..], p)
      case None => None
      case Some(i) => Some(i + 1)
  }

  /** The first element satisfying `p`, if any. */
  function Find<T(!new)>(s: seq<T>, p: T -> bool): (r: Option<T>)
    ensures r.Some? ==> r.value in s && p(r.value)
    ensures r.None? <==> forall x :: x in s ==> !p(x)
  {
    match FindIndex(s, p)
    case None => None
    case Some(i) => Some(s[i])
  }

  /** Appending a row does not change a match that already existed, and the
      new row becomes the match when there was none before. */
  lemma FindAppend<T(!new)>(s: seq<T>, x: T, p: T -> bool)
    ensures Find(s, p).Some? ==> Find(s + [x], p) == Find(s, p)
    ensures Find(s, p).None? ==> Find(s + [x], p) == if p(x) then Some(x) else None
  {
    var t := s + [x];
    assert forall k :: 0 <= k < |s| ==> t[k] == s[k];
    assert t[|s|] == x;
    var i, j := FindIndex(s, p), FindIndex(t, p);
    if i.Some? {
      assert j.Some? && j.value <= i.value;
    }
  }

  /** A relation usable as a sort order: total and transitive. */
  ghost predicate TotalPreorder<T(!new)>(leq: (T, T) -> bool)
  {
    && (forall a, b :: leq(a, b) || leq(b, a))
    && (forall a, b, c :: leq(a, b) && leq(b, c) ==> leq(a, c))
  }

  ghost predicate SortedBy<T>(s: seq<T>, leq: (T, T) -> bool)
  {
    forall i, j :: 0 <= i < j < |s| ==> leq(s[i], s[j])
  }

  function Insert<T>(x: T, s: seq<T>, leq: (T, T) -> bool): (r: seq<T>)
    ensures |r| == |s| + 1
    ensures multiset(r) == multiset(s) + multiset{x}
  {
    if |s| == 0 then [x]
    else if leq(x, s[0]) then [x] + s
    else
      assert s == [s[0]] + s[1..];
      [s[0]] + Insert(x, s[1..], leq)
  }

  /** Insertion sort: the model of a database `orderBy` and of the library
      sort the pages call.  It is stable (`SortByStable`), as `Array.sort`
      is required to be; a database `orderBy` promises no order among ties,
      so there only its being an ordered permutation is used. */
  function SortBy<T>(s: seq<T>, leq: (T, T) -> bool): (r: seq<T>)
    ensures |r| == |s|
    ensures multiset(r) == multiset(s)
  {
    if |s| == 0 then []
    else
      assert s == [s[0]] + s[1..];
      Insert(s[0], SortBy(s[1..], leq), leq)
  }

  /** Sorting neither adds nor drops an element. */
  lemma SortByMembers<T>(s: seq<T>, leq: (T, T) -> bool)
    ensures forall x :: x in SortBy(s, leq) <==> x in s
  {
    var r := SortBy(s, leq);
    forall x ensures x in r <==> x in s {
      assert x in r <==> x in multiset(r);
      assert x in s <==> x in multiset(s);
    }
  }

  lemma {:induction false} InsertSorted<T(!new)>(x: T, s: seq<T>, leq: (T, T) -> bool)
    requires TotalPreorder(leq)
    requires SortedBy(s, leq)
    ensures SortedBy(Insert(x, s, leq), leq)
  {
    if |s| == 0 {
    } else if leq(x, s[0]) {
      forall k | 0 <= k < |s| ensures leq(x, s[k]) {
        if k > 0 { assert leq(s[0], s[k]); }
      }
      SortedCons(x, s, leq);
    } else {
      var t := s[1..];
      SortedTail(s, leq);
      InsertSorted(x, t, leq);
      assert leq(s[0], x);
      assert forall k :: 0 <= k < |t| ==> t[k] == s[k + 1];
      InsertBound(s[0], x, t, leq);
      SortedCons(s[0], Insert(x, t, leq), leq);
    }
  }

  /** An element below every element of a sorted sequence can go in front. */
  lemma SortedCons<T>(y: T, t: seq<T>, leq: (T, T) -> bool)
    requires SortedBy(t, leq)
    requires forall k :: 0 <= k < |t| ==> leq(y, t[k])
    ensures SortedBy([y] + t, leq)
  {
    var r := [y] + t;
    forall i, j | 0 <= i < j < |r| ensures leq(r[i], r[j]) {
      if i == 0 {
        assert r[j] == t[j - 1];
      } else {
        assert r[i] == t[i - 1] && r[j] == t[j - 1];
      }
    }
  }

  lemma SortedTail<T>(s: seq<T>, leq: (T, T) -> bool)
    requires |s| > 0 && SortedBy(s, leq)
    ensures SortedBy(s[1..], leq)
  {
    var t := s[1..];
    forall i, j | 0 <= i < j < |t| ensures leq(t[i], t[j]) {
      assert t[i] == s[i + 1] && t[j] == s[j + 1];
    }
  }

  /** A lower bound of `x` and of every element of `t` bounds the result of
      inserting `x` into `t`. */
  lemma InsertBound<T>(y: T, x: T, t: seq<T>, leq: (T, T) -> bool)
    requires leq(y, x)
    requires forall k :: 0 <= k < |t| ==> leq(y, t[k])
    ensures forall k :: 0 <= k < |Insert(x, t, leq)| ==> leq(y, Insert(x, t, leq)[k])
  {
    var r := Insert(x, t, leq);
    forall k | 0 <= k < |r| ensures leq(y, r[k]) {
      assert r[k] in multiset(r);
      if r[k] != x {
        assert r[k] in multiset(t);
        var m :| 0 <= m < |t| && t[m] == r[k];
      }
    }
  }

  /** The elements of `s` that `leq` ranks level with `k`, in their order. */
  function Ties<T(!new)>(s: seq<T>, leq: (T, T) -> bool, k: T): (r: seq<T>)
    ensures forall x :: x in r <==> x in s && leq(x, k) && leq(k, x)
  {
    if |s| == 0 then []
    else (if leq(s[0], k) && leq(k, s[0]) then [s[0]] else []) + Ties(s[1..], leq, k)
  }

  /** One step of `Ties`: the head is kept exactly when it is level with `k`. */
  lemma TiesCons<T(!new)>(y: T, t: seq<T>, leq: (T, T) -> bool, k: T)
    ensures Ties([y] + t, leq, k) == (if leq(y, k) && leq(k, y) then [y] else []) + Ties(t, leq, k)
  {
    assert ([y] + t)[0] == y;
    assert ([y] + t)[1..] == t;
  }

  /** Inserting `x` puts it in front of every element level with it, so
      among those ties it comes first.  Only the transitivity of `leq`
      through `k` is needed. */
  lemma {:induction false} InsertTies<T(!new)>(x: T, s: seq<T>, leq: (T, T) -> bool, k: T)
    requires forall y :: leq(x, k) && leq(k, y) ==> leq(x, y)
    ensures Ties(Insert(x, s, leq), leq, k) == (if leq(x, k) && leq(k, x) then [x] else []) + Ties(s, leq, k)
  {
    if |s| == 0 || leq(x, s[0]) {
      assert Insert(x, s, leq) == [x] + s;
      TiesCons(x, s, leq, k);
    } else {
      var y, rest := s[0], s[1..];
      var t := Insert(x, rest, leq);
      assert s == [y] + rest;
      assert Insert(x, s, leq) == [y] + t;
      TiesCons(y, t, leq, k);
      TiesCons(y, rest, leq, k);
      InsertTies(x, rest, leq, k);
      if leq(x, k) && leq(k, x) {
        assert !leq(k, y);
        assert Ties(s, leq, k) == Ties(rest, leq, k);
        assert Ties(Insert(x, s, leq), leq, k) == Ties(t, leq, k) == [x] + Ties(rest, leq, k);
      } else {
        var h0 := if leq(y, k) && leq(k, y) then [y] else [];
        assert Ties(t, leq, k) == Ties(rest, leq, k);
        assert Ties(Insert(x, s, leq), leq, k) == h0 + Ties(rest, leq, k) == Ties(s, leq, k);
      }
    }
  }

  /** Stability: the elements level with any `k` keep their relative order. */
  lemma {:induction false} SortByStable<T(!new)>(s: seq<T>, leq: (T, T) -> bool)
    requires TotalPreorder(leq)
    ensures forall k :: Ties(SortBy(s, leq), leq, k) == Ties(s, leq, k)
  {
    if |s| > 0 {
      SortByStable(s[1..], leq);
      forall k ensures Ties(SortBy(s, leq), leq, k) == Ties(s, leq, k) {
        assert forall y :: leq(s[0], k) && leq(k, y) ==> leq(s[0], y);
        InsertTies(s[0], SortBy(s[1..], leq), leq, k);
      }
    }
  }

  /** What every `orderBy` in the model relies on: the result is sorted. */
  lemma {:induction false} SortBySorted<T(!new)>(s: seq<T>, leq: (T, T) -> bool)
    requires TotalPreorder(leq)
    ensures SortedBy(SortBy(s, leq), leq)
  {
    if |s| > 0 {
      SortBySorted(s[1..], leq);
      InsertSorted(s[0], SortBy(s[1..], leq), leq);
    }
  }
}
