/** Ranked lists of (movie key, score) pairs: Python's stable descending sort by
    score, and the bounded top-rated update the indexer performs with it. */
module Ranking {
  import opened Common

  /** A vote average. Python floats are modelled as real numbers (no rounding,
      no NaN or infinity). */
  type Score = real

  /** One entry of a ranked list: the movie key and its score. */
  type Ranked = (string, Score)

  /** The bound on every top-rated list (`[:100]`). */
  const Cap: nat := 100

  /** Scores never increase along the list. */
  predicate SortedDesc(s: seq<Ranked>) {
    forall i, j :: 0 <= i < j < |s| ==> s[i].1 >= s[j].1
  }

  /** Insert x just before the first entry that scores strictly less than x. */
  function InsertDesc(s: seq<Ranked>, x: Ranked): (r: seq<Ranked>)
    ensures |r| == |s| + 1
  {
    if s == [] then [x]
    else if s[0].1 >= x.1 then [s[0]] + InsertDesc(s[1..], x)
    else [x] + s
  }

  /** Inserting adds x and loses nothing. */
  lemma {:induction false} InsertDescPerm(s: seq<Ranked>, x: Ranked)
    ensures multiset(InsertDesc(s, x)) == multiset(s) + multiset{x}
  {
    if s != [] && s[0].1 >= x.1 {
      InsertDescPerm(s[1..], x);
      assert s == [s[0]] + s[1..];
    }
  }

  /** Every entry of InsertDesc(s, x) scores at most b when x and all of s do. */
  lemma {:induction false} InsertDescBounded(s: seq<Ranked>, x: Ranked, b: Score)
    requires x.1 <= b && forall k :: 0 <= k < |s| ==> s[k].1 <= b
    ensures forall k :: 0 <= k < |s| + 1 ==> InsertDesc(s, x)[k].1 <= b
  {
    if s != [] && s[0].1 >= x.1 {
      InsertDescBounded(s[1..], x, b);
    }
  }

  /** Inserting into a sorted list keeps it sorted. */
  lemma {:induction false} InsertDescSorted(s: seq<Ranked>, x: Ranked)
    requires SortedDesc(s)
    ensures SortedDesc(InsertDesc(s, x))
  {
    if s != [] && s[0].1 >= x.1 {
      InsertDescSorted(s[1..], x);
      InsertDescBounded(s[1..], x, s[0].1);
      var r := InsertDesc(s, x);
      assert forall k :: 1 <= k < |r| ==> r[k] == InsertDesc(s[1..], x)[k - 1];
    }
  }

  /** Python's `sorted(s, key=lambda p: p[1], reverse=True)`, built by inserting
      the entries one after another, last entry last. */
  function SortDesc(s: seq<Ranked>): (r: seq<Ranked>)
    ensures |r| == |s|
  {
    if s == [] then []
    else InsertDesc(SortDesc(s[..|s| - 1]), s[|s| - 1])
  }

  /** SortDesc is a permutation. */
  lemma {:induction false} SortDescPerm(s: seq<Ranked>)
    ensures multiset(SortDesc(s)) == multiset(s)
  {
    if s != [] {
      var t := s[..|s| - 1];
      SortDescPerm(t);
      InsertDescPerm(SortDesc(t), s[|s| - 1]);
      assert s == t + [s[|s| - 1]];
    }
  }

  /** The result of SortDesc is sorted. */
  lemma {:induction false} SortDescSorted(s: seq<Ranked>)
    ensures SortedDesc(SortDesc(s))
  {
    if s != [] {
      SortDescSorted(s[..|s| - 1]);
      InsertDescSorted(SortDesc(s[..|s| - 1]), s[|s| - 1]);
    }
  }

  /** The entries of s that score exactly v, in their order in s. */
  function FilterScore(s: seq<Ranked>, v: Score): seq<Ranked>
  {
    if s == [] then []
    else (if s[0].1 == v then [s[0]] else []) + FilterScore(s[1..], v)
  }

  /** FilterScore keeps exactly the entries of score v. */
  lemma {:induction false} FilterScoreMember(s: seq<Ranked>, v: Score, y: Ranked)
    ensures y in FilterScore(s, v) <==> y in s && y.1 == v
  {
    if s != [] {
      FilterScoreMember(s[1..], v, y);
      assert y in s <==> y == s[0] || y in s[1..];
    }
  }

  /** r is a stable descending sort of s: sorted, a permutation of s, and the
      entries of each score keep their relative order from s. This is what
      Python guarantees of `sorted(..., reverse=True)`. */
  ghost predicate IsStableSortDesc(s: seq<Ranked>, r: seq<Ranked>) {
    && SortedDesc(r)
    && multiset(r) == multiset(s)
    && forall v :: FilterScore(r, v) == FilterScore(s, v)
  }

  lemma {:induction false} FilterScoreAppend(a: seq<Ranked>, b: seq<Ranked>, v: Score)
    ensures FilterScore(a + b, v) == FilterScore(a, v) + FilterScore(b, v)
  {
    if a == [] {
      assert a + b == b;
    } else {
      var h := if a[0].1 == v then [a[0]] else [];
      calc {
        FilterScore(a + b, v);
        { assert (a + b)[0] == a[0]; }
        h + FilterScore((a + b)[1..], v);
        { assert (a + b)[1..] == a[1..] + b; }
        h + FilterScore(a[1..] + b, v);
        { FilterScoreAppend(a[1..], b, v); }
        h + (FilterScore(a[1..], v) + FilterScore(b, v));
        (h + FilterScore(a[1..], v)) + FilterScore(b, v);
      }
    }
  }

  /** Inserting into a sorted list puts x after every entry of its own score. */
  lemma {:induction false} InsertDescFilter(s: seq<Ranked>, x: Ranked, v: Score)
    requires SortedDesc(s)
    ensures FilterScore(InsertDesc(s, x), v) == FilterScore(s, v) + (if x.1 == v then [x] else [])
  {
    if s == [] {
      assert FilterScore(InsertDesc(s, x), v) == FilterScore([x], v);
    } else if s[0].1 >= x.1 {
      assert SortedDesc(s[1..]);
      InsertDescFilter(s[1..], x, v);
      InsertDescFilterBehind(s, x, v);
    } else {
      InsertDescFilterAhead(s, x, v);
    }
  }

  /** The step of InsertDescFilter where x goes behind the head. */
  lemma InsertDescFilterBehind(s: seq<Ranked>, x: Ranked, v: Score)
    requires s != [] && s[0].1 >= x.1
    requires FilterScore(InsertDesc(s[1..], x), v) == FilterScore(s[1..], v) + (if x.1 == v then [x] else [])
    ensures FilterScore(InsertDesc(s, x), v) == FilterScore(s, v) + (if x.1 == v then [x] else [])
  {
    var rest, tail := s[1..], if x.1 == v then [x] else [];
    calc {
      FilterScore(InsertDesc(s, x), v);
      FilterScore([s[0]] + InsertDesc(rest, x), v);
      { FilterScoreAppend([s[0]], InsertDesc(rest, x), v); }
      FilterScore([s[0]], v) + (FilterScore(rest, v) + tail);
      { FilterScoreAppend([s[0]], rest, v); assert s == [s[0]] + rest; }
      FilterScore(s, v) + tail;
    }
  }

  /** The step of InsertDescFilter where x goes in front of a sorted list. */
  lemma InsertDescFilterAhead(s: seq<Ranked>, x: Ranked, v: Score)
    requires SortedDesc(s) && s != [] && s[0].1 < x.1
    ensures FilterScore(InsertDesc(s, x), v) == FilterScore(s, v) + (if x.1 == v then [x] else [])
  {
    FilterScoreAppend([x], s, v);
    assert FilterScore(InsertDesc(s, x), v) == FilterScore([x], v) + FilterScore(s, v);
    if x.1 == v {
      NoneOfScore(s, v);
    }
  }

  /** A list whose entries all score less than v has none of score v. */
  lemma {:induction false} NoneOfScore(s: seq<Ranked>, v: Score)
    requires forall k :: 0 <= k < |s| ==> s[k].1 < v
    ensures FilterScore(s, v) == []
  {
    if s != [] {
      NoneOfScore(s[1..], v);
    }
  }

  /** SortDesc keeps the entries of each score in their original order. */
  lemma {:induction false} SortDescFilter(s: seq<Ranked>, v: Score)
    ensures FilterScore(SortDesc(s), v) == FilterScore(s, v)
  {
    if s != [] {
      var t, x := s[..|s| - 1], s[|s| - 1];
      var h := if x.1 == v then [x] else [];
      SortDescSorted(t);
      calc {
        FilterScore(SortDesc(s), v);
        FilterScore(InsertDesc(SortDesc(t), x), v);
        { InsertDescFilter(SortDesc(t), x, v); }
        FilterScore(SortDesc(t), v) + h;
        { SortDescFilter(t, v); }
        FilterScore(t, v) + h;
        { assert FilterScore([x], v) == h + FilterScore([], v); }
        FilterScore(t, v) + FilterScore([x], v);
        { FilterScoreAppend(t, [x], v); }
        FilterScore(t + [x], v);
        { assert s == t + [x]; }
        FilterScore(s, v);
      }
    }
  }

  /** SortDesc is a stable descending sort. */
  lemma SortDescIsStable(s: seq<Ranked>)
    ensures IsStableSortDesc(s, SortDesc(s))
  {
    SortDescSorted(s);
    SortDescPerm(s);
    forall v ensures FilterScore(SortDesc(s), v) == FilterScore(s, v) {
      SortDescFilter(s, v);
    }
  }

  /** The first entry of a sorted list scores at least as much as any entry. */
  lemma HeadIsBest(r: seq<Ranked>, y: Ranked)
    requires SortedDesc(r) && y in r
    ensures r[0].1 >= y.1
  {
    var i :| 0 <= i < |r| && r[i] == y;
  }

  /** Lists that agree score by score are both empty or both non-empty. */
  lemma EmptyAlike(r1: seq<Ranked>, r2: seq<Ranked>)
    requires forall v :: FilterScore(r1, v) == FilterScore(r2, v)
    ensures r1 == [] <==> r2 == []
  {
    if r1 != [] {
      FilterScoreMember(r1, r1[0].1, r1[0]);
      FilterScoreMember(r2, r1[0].1, r1[0]);
    }
    if r2 != [] {
      FilterScoreMember(r2, r2[0].1, r2[0]);
      FilterScoreMember(r1, r2[0].1, r2[0]);
    }
  }

  /** Two sorted lists that agree score by score are equal. */
  lemma {:induction false} SameFiltersSame(r1: seq<Ranked>, r2: seq<Ranked>)
    requires SortedDesc(r1) && SortedDesc(r2)
    requires forall v :: FilterScore(r1, v) == FilterScore(r2, v)
    ensures r1 == r2
    decreases |r1| + |r2|
  {
    EmptyAlike(r1, r2);
    if r1 != [] {
      var a, b := r1[0], r2[0];
      assert a.1 == b.1 by {
        FilterScoreMember(r1, a.1, a);
        FilterScoreMember(r2, a.1, a);
        HeadIsBest(r2, a);
        FilterScoreMember(r2, b.1, b);
        FilterScoreMember(r1, b.1, b);
        HeadIsBest(r1, b);
      }
      assert FilterScore(r1, a.1)[0] == a && FilterScore(r2, a.1)[0] == b;
      assert a == b;
      forall v ensures FilterScore(r1[1..], v) == FilterScore(r2[1..], v) {
        var h := if a.1 == v then [a] else [];
        assert FilterScore(r1, v) == h + FilterScore(r1[1..], v);
        assert FilterScore(r2, v) == h + FilterScore(r2[1..], v);
        assert FilterScore(r1[1..], v) == (h + FilterScore(r1[1..], v))[|h|..];
        assert FilterScore(r2[1..], v) == (h + FilterScore(r2[1..], v))[|h|..];
      }
      SameFiltersSame(r1[1..], r2[1..]);
      assert r1 == [a] + r1[1..] && r2 == [b] + r2[1..];
    }
  }

  /** There is only one stable descending sort of a list, so SortDesc is the
      result of Python's sorted(..., reverse=True). */
  lemma StableSortUnique(s: seq<Ranked>, r: seq<Ranked>)
    requires IsStableSortDesc(s, r)
    ensures r == SortDesc(s)
  {
    SortDescIsStable(s);
    SameFiltersSame(r, SortDesc(s));
  }

  /** An entry scoring no more than everything in s goes to the end. */
  lemma {:induction false} InsertAfterAll(s: seq<Ranked>, x: Ranked)
    requires forall k :: 0 <= k < |s| ==> s[k].1 >= x.1
    ensures InsertDesc(s, x) == s + [x]
  {
    if s != [] {
      InsertAfterAll(s[1..], x);
      assert s == [s[0]] + s[1..];
    }
  }

  /** Sorting an already sorted list changes nothing. */
  lemma {:induction false} SortedIsFixpoint(s: seq<Ranked>)
    requires SortedDesc(s)
    ensures SortDesc(s) == s
  {
    if s != [] {
      var t, x := s[..|s| - 1], s[|s| - 1];
      SortedIsFixpoint(t);
      InsertAfterAll(t, x);
      assert s == t + [x];
    }
  }

  /** x is inserted at position j when the first j entries score at least x
      and the next one (if any) scores less. */
  lemma {:induction false} InsertDescAt(s: seq<Ranked>, x: Ranked, j: nat)
    requires j <= |s|
    requires forall k :: 0 <= k < j ==> s[k].1 >= x.1
    requires j < |s| ==> s[j].1 < x.1
    ensures InsertDesc(s, x) == s[..j] + [x] + s[j..]
  {
    if j == 0 {
      assert s[..0] == [] && s[0..] == s;
    } else {
      var t := s[1..];
      assert forall k :: 0 <= k < j - 1 ==> t[k] == s[k + 1];
      assert s[0].1 >= x.1;
      calc {
        InsertDesc(s, x);
        [s[0]] + InsertDesc(t, x);
        { InsertDescAt(t, x, j - 1); }
        [s[0]] + (t[..j - 1] + [x] + t[j - 1..]);
        { assert s[..j] == [s[0]] + t[..j - 1]; assert s[j..] == t[j - 1..]; }
        s[..j] + [x] + s[j..];
      }
    }
  }

  /** Appending a pair to a sorted list and re-sorting stably is the same as
      inserting the pair after every entry whose score is at least its own
      (and before all the others). */
  lemma AppendThenSort(s: seq<Ranked>, x: Ranked)
    requires SortedDesc(s)
    ensures SortDesc(s + [x]) == InsertDesc(s, x)
    ensures exists j :: 0 <= j <= |s|
              && (forall k :: 0 <= k < j ==> s[k].1 >= x.1)
              && (forall k :: j <= k < |s| ==> s[k].1 < x.1)
              && SortDesc(s + [x]) == s[..j] + [x] + s[j..]
  {
    assert (s + [x])[..|s|] == s;
    SortedIsFixpoint(s);
    var j := InsertPos(s, x);
    InsertDescAt(s, x, j);
  }

  /** The number of leading entries that score at least x. */
  function InsertPos(s: seq<Ranked>, x: Ranked): (j: nat)
    requires SortedDesc(s)
    ensures j <= |s|
    ensures forall k :: 0 <= k < j ==> s[k].1 >= x.1
    ensures forall k :: j <= k < |s| ==> s[k].1 < x.1
  {
    if s == [] || s[0].1 < x.1 then 0 else 1 + InsertPos(s[1..], x)
  }

  lemma TakeCons(y: Ranked, t: seq<Ranked>, n: nat)
    requires n > 0
    ensures Take([y] + t, n) == [y] + Take(t, n - 1)
  {
    assert ([y] + t)[1..] == t;
  }

  lemma TakeTake(s: seq<Ranked>, m: nat, n: nat)
    requires m <= n
    ensures Take(Take(s, n), m) == Take(s, m)
  {
  }

  /** Where x lands among the first n entries does not depend on the others. */
  lemma {:induction false} TakeInsert(s: seq<Ranked>, x: Ranked, n: nat)
    ensures Take(InsertDesc(s, x), n) == Take(InsertDesc(Take(s, n), x), n)
  {
    if s == [] {
      assert Take(s, n) == s;
    } else if n > 0 {
      var t := Take(s, n);
      assert s == [s[0]] + s[1..];
      TakeCons(s[0], s[1..], n);
      assert t[0] == s[0] && t[1..] == Take(s[1..], n - 1);
      if s[0].1 >= x.1 {
        TakeInsert(s[1..], x, n - 1);
        TakeCons(s[0], InsertDesc(s[1..], x), n);
        TakeCons(s[0], InsertDesc(Take(s[1..], n - 1), x), n);
      } else {
        TakeCons(x, s, n);
        TakeCons(x, t, n);
        TakeTake(s, n - 1, n);
      }
    }
  }

  /** A prefix of a sorted list is sorted. */
  lemma TakeSorted(s: seq<Ranked>, n: nat)
    requires SortedDesc(s)
    ensures SortedDesc(Take(s, n))
  {
  }

  /** The top-rated update of the indexer: append (key, score), re-sort
      descending (stably), keep the first 100. */
  function UpdateTopRated(list: seq<Ranked>, x: Ranked): seq<Ranked> {
    Take(SortDesc(list + [x]), Cap)
  }

  /** The updated list is bounded and sorted, holds only old entries and x, and
      holds all of them while the old list had room. */
  lemma UpdateTopRatedSpec(list: seq<Ranked>, x: Ranked)
    ensures var r := UpdateTopRated(list, x);
            && |r| <= Cap
            && SortedDesc(r)
            && multiset(r) <= multiset(list) + multiset{x}
            && (|list| < Cap ==> x in r && multiset(r) == multiset(list) + multiset{x})
  {
    var sorted := SortDesc(list + [x]);
    SortDescSorted(list + [x]);
    SortDescPerm(list + [x]);
    assert multiset(list + [x]) == multiset(list) + multiset{x};
    var r := Take(sorted, Cap);
    TakeSorted(sorted, Cap);
    assert multiset(sorted) == multiset(r) + multiset(sorted[|r|..]) by {
      assert sorted == r + sorted[|r|..];
    }
    assert |list| < Cap ==> r == sorted && x in multiset(r);
  }

  /** The bounded list stays the best 100 of everything inserted so far: updating
      the first 100 of a stable sort of e with x gives the first 100 of a stable
      sort of e + [x]. Entries cut off earlier could never have come back. */
  lemma UpdateKeepsBest(e: seq<Ranked>, x: Ranked)
    ensures UpdateTopRated(Take(SortDesc(e), Cap), x) == Take(SortDesc(e + [x]), Cap)
  {
    var t := Take(SortDesc(e), Cap);
    SortDescSorted(e);
    TakeSorted(SortDesc(e), Cap);
    AppendThenSort(t, x);
    TakeInsert(SortDesc(e), x, Cap);
    assert (e + [x])[..|e|] == e;
  }
}
