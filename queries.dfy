/** The query layer over the index (queries.py): titles of stored movies, point
    lookups, intersections of two membership lists, top-N from a ranked list
    (optionally restricted to a year), and counts. */
module Queries {
  import opened Common
  import opened PyValues
  import opened Ranking
  import opened Records
  import opened AggregateMovies

  // ---------------------------------------------------------------------------
  // load_title

  /** The stored object as a value: a str (stored text, or a str the client
      already decoded) goes through json.loads, any other decoded value is used
      as it is. None: json.loads raised. */
  function Decoded(data: StoredData, jsonLoads: string -> Option<Value>): Option<Value> {
    match JsonText(data)
    case Some(raw) => jsonLoads(raw)
    case None => Some(data.value)
  }

  /** load_title reads a str the client already decoded exactly like stored text. */
  lemma LoadTitleStrIsText(movies: map<string, StoredData>, key: string, s: string, jsonLoads: string -> Option<Value>)
    ensures LoadTitle(movies[key := Native(Str(s))], key, jsonLoads) == LoadTitle(movies[key := Text(s)], key, jsonLoads)
  {
    assert Decoded(Native(Str(s)), jsonLoads) == Decoded(Text(s), jsonLoads);
  }

  const NotFound := Str("Not Found")
  const UnknownTitle := Str("Unknown Title")
  const InvalidJson := Str("Invalid JSON")

  /** The title of the movie stored under key: its "title" field, "Unknown
      Title" when it has none, "Invalid JSON" when the object does not decode
      to a dict, "Not Found" when there is no object. */
  function LoadTitle(movies: map<string, StoredData>, key: string, jsonLoads: string -> Option<Value>): (title: Value)
    ensures key !in movies ==> title == NotFound
    ensures key in movies && (Decoded(movies[key], jsonLoads).None? || !Decoded(movies[key], jsonLoads).value.Dict?) ==>
              title == InvalidJson
    ensures key in movies && Decoded(movies[key], jsonLoads).Some? && Decoded(movies[key], jsonLoads).value.Dict? ==>
              var entries := Decoded(movies[key], jsonLoads).value.entries;
              && ((forall k :: 0 <= k < |entries| ==> entries[k].0 != "title") ==> title == UnknownTitle)
              && (forall k :: FirstAt(entries, "title", k) ==> title == entries[k].1)
  {
    if key !in movies then NotFound
    else
      match Decoded(movies[key], jsonLoads)
      case None => InvalidJson
      case Some(doc) =>
        if doc.Dict? then
          GetFieldFirst(doc.entries, "title", UnknownTitle);
          GetField(doc.entries, "title", UnknownTitle)
        else InvalidJson
  }

  /** `[load_title(mid) for mid in ids]`. */
  function Titles(movies: map<string, StoredData>, ids: seq<string>, jsonLoads: string -> Option<Value>): (titles: seq<Value>)
    ensures |titles| == |ids|
    ensures forall k :: 0 <= k < |ids| ==> titles[k] == LoadTitle(movies, ids[k], jsonLoads)
  {
    seq(|ids|, k requires 0 <= k < |ids| => LoadTitle(movies, ids[k], jsonLoads))
  }

  // ---------------------------------------------------------------------------
  // Point lookups: query_by_genre, query_by_actor, query_by_year

  /** The titles of the movies listed under name in one membership bucket, in
      list order. */
  function PointQuery(bucket: Membership, name: string, movies: map<string, StoredData>, jsonLoads: string -> Option<Value>): (titles: seq<Value>)
    ensures name !in bucket ==> titles == []
    ensures name in bucket ==> |titles| == |bucket[name]|
  {
    Titles(movies, Lookup(bucket, name), jsonLoads)
  }

  /** The keys filed under name in dimension d by the processed movies ms. */
  ghost function FiledKeys(ms: seq<Movie>, d: Dim, name: string): set<string> {
    set j | 0 <= j < |ms| && FiledAs(ms[j], d, name, ms[j].key) :: ms[j].key
  }

  /** On a rebuilt index, a membership list holds each key filed under its name
      exactly once. */
  lemma ListedExactlyOnce(ms: seq<Movie>, d: Dim, name: string)
    ensures Elements(Lookup(Bucket(IndexAll(ms), d), name)) == FiledKeys(ms, d, name)
    ensures |Lookup(Bucket(IndexAll(ms), d), name)| == |FiledKeys(ms, d, name)|
  {
    var list := Lookup(Bucket(IndexAll(ms), d), name);
    forall y ensures y in Elements(list) <==> y in FiledKeys(ms, d, name) {
      MembershipExact(ms, d, name, y);
      if y in FiledKeys(ms, d, name) {
        var j :| 0 <= j < |ms| && FiledAs(ms[j], d, name, ms[j].key) && ms[j].key == y;
      }
    }
    IndexAllWellFormed(ms);
    assert NoDup(list) by {
      match d
      case Genre =>
      case Actor =>
      case Year =>
    }
    NoDupCardinality(list);
  }

  /** On a rebuilt index, a point query returns one title per distinct movie key
      filed under the name. */
  lemma PointQueryCount(ms: seq<Movie>, d: Dim, name: string, movies: map<string, StoredData>, jsonLoads: string -> Option<Value>)
    ensures |PointQuery(Bucket(IndexAll(ms), d), name, movies, jsonLoads)| == |FiledKeys(ms, d, name)|
  {
    ListedExactlyOnce(ms, d, name);
  }

  // ---------------------------------------------------------------------------
  // Intersections: query_by_actor_and_genre, query_by_genre_and_year

  /** `set(a.get(ka).data or []).intersection(set(b.get(kb).data or []))`. */
  function Intersect(a: Membership, ka: string, b: Membership, kb: string): (ids: set<string>)
    ensures forall y :: y in ids <==> y in Lookup(a, ka) && y in Lookup(b, kb)
    ensures ka !in a || kb !in b ==> ids == {}
  {
    Elements(Lookup(a, ka)) * Elements(Lookup(b, kb))
  }

  /** The intersection query: the title of each id of the intersection (Python
      iterates the set in an unspecified order, so the titles are keyed by id). */
  function BothQuery(a: Membership, ka: string, b: Membership, kb: string,
                     movies: map<string, StoredData>, jsonLoads: string -> Option<Value>): (titles: map<string, Value>)
    ensures titles.Keys == Intersect(a, ka, b, kb)
    ensures forall y :: y in titles ==> titles[y] == LoadTitle(movies, y, jsonLoads)
  {
    map y | y in Intersect(a, ka, b, kb) :: LoadTitle(movies, y, jsonLoads)
  }

  /** On a rebuilt index, the intersection holds exactly the keys filed under
      both names (possibly by two records sharing one key). */
  lemma BothQueryExact(ms: seq<Movie>, d1: Dim, n1: string, d2: Dim, n2: string, y: string)
    ensures y in Intersect(Bucket(IndexAll(ms), d1), n1, Bucket(IndexAll(ms), d2), n2) <==>
              (exists j :: 0 <= j < |ms| && FiledAs(ms[j], d1, n1, y))
              && (exists j :: 0 <= j < |ms| && FiledAs(ms[j], d2, n2, y))
  {
    MembershipExact(ms, d1, n1, y);
    MembershipExact(ms, d2, n2, y);
  }

  // ---------------------------------------------------------------------------
  // Top-N: top_rated_by_genre, top_rated_by_genre_and_year

  /** `list.sort(key=lambda x: x[1], reverse=True)`: a stable in-place
      insertion sort by descending score. */
  method SortByScore(a: array<Ranked>)
    modifies a
    ensures a[..] == SortDesc(old(a[..]))
  {
    ghost var s := a[..];
    var i := 0;
    while i < a.Length
      invariant 0 <= i <= a.Length
      invariant a[..i] == SortDesc(s[..i])
      invariant a[i..] == s[i..]
    {
      ghost var sorted, x := a[..i], a[i];
      assert x == s[i];
      SortDescSorted(s[..i]);
      SortDescSnoc(s, i);
      var j := InsertLast(a, i);
      InsertPosition(sorted, x, j);
      assert a[..i + 1] == SortDesc(s[..i + 1]);
      i := i + 1;
    }
    assert s[..i] == s;
  }

  /** One pass of the insertion sort: a[i] moves left past the entries before
      it that score strictly less, and lands at the returned position. */
  method InsertLast(a: array<Ranked>, i: nat) returns (j: nat)
    requires i < a.Length
    modifies a
    ensures j <= i
    ensures a[..i + 1] == old(a[..i])[..j] + [old(a[i])] + old(a[..i])[j..]
    ensures a[i + 1..] == old(a[i + 1..])
    ensures j == 0 || old(a[..i])[j - 1].1 >= old(a[i]).1
    ensures forall k :: j <= k < i ==> old(a[..i])[k].1 < old(a[i]).1
  {
    ghost var before := a[..i];
    var x := a[i];
    j := i;
    while j > 0 && a[j - 1].1 < x.1
      invariant 0 <= j <= i
      invariant forall k :: 0 <= k < j ==> a[k] == before[k]
      invariant forall k :: j < k <= i ==> a[k] == before[k - 1]
      invariant forall k :: i < k < a.Length ==> a[k] == old(a[k])
      invariant forall k :: j <= k < i ==> before[k].1 < x.1
    {
      a[j] := a[j - 1];
      j := j - 1;
    }
    a[j] := x;
    InsertedAt(a[..i + 1], before, x, j);
    assert a[i + 1..] == old(a[i + 1..]) by {
      forall k | i + 1 <= k < a.Length ensures a[k] == old(a[k]) {
      }
    }
  }

  /** Sorting one more entry inserts it into the sorted prefix. */
  lemma SortDescSnoc(s: seq<Ranked>, i: nat)
    requires i < |s|
    ensures SortDesc(s[..i + 1]) == InsertDesc(SortDesc(s[..i]), s[i])
  {
    assert s[..i + 1][..i] == s[..i];
  }

  /** In a sorted list, x belongs after the entries up to j - 1 (which score at
      least x) and before those from j (which score less). */
  lemma InsertPosition(sorted: seq<Ranked>, x: Ranked, j: nat)
    requires SortedDesc(sorted) && j <= |sorted|
    requires j == 0 || sorted[j - 1].1 >= x.1
    requires forall k :: j <= k < |sorted| ==> sorted[k].1 < x.1
    ensures InsertDesc(sorted, x) == sorted[..j] + [x] + sorted[j..]
  {
    forall k | 0 <= k < j ensures sorted[k].1 >= x.1 {
      assert sorted[k].1 >= sorted[j - 1].1;
    }
    InsertDescAt(sorted, x, j);
  }

  /** A list that agrees with sorted before j, holds x at j, and agrees with
      sorted shifted right after j, is sorted with x inserted at j. */
  lemma InsertedAt(r: seq<Ranked>, sorted: seq<Ranked>, x: Ranked, j: nat)
    requires j <= |sorted| && |r| == |sorted| + 1
    requires forall k :: 0 <= k < j ==> r[k] == sorted[k]
    requires r[j] == x
    requires forall k :: j < k < |r| ==> r[k] == sorted[k - 1]
    ensures r == sorted[..j] + [x] + sorted[j..]
  {
  }

  /** `sorted-in-place(list)[:n]`: the n best entries, best first. */
  function TopN(list: seq<Ranked>, n: int): (r: seq<Ranked>)
    ensures 0 <= n ==> |r| == Min(n, |list|)
    ensures SortedDesc(r)
    ensures multiset(r) <= multiset(list)
    ensures SortedDesc(list) ==> r == PySlice(list, n)
  {
    var sorted := SortDesc(list);
    SortDescSorted(list);
    SortDescPerm(list);
    var r := PySlice(sorted, n);
    assert sorted == r + sorted[|r|..];
    assert multiset(sorted) == multiset(r) + multiset(sorted[|r|..]);
    assert SortedDesc(list) ==> r == PySlice(list, n) by {
      if SortedDesc(list) {
        SortedIsFixpoint(list);
      }
    }
    r
  }

  /** The movie keys of a ranked list. */
  function Ids(list: seq<Ranked>): (ids: seq<string>)
    ensures |ids| == |list|
    ensures forall k :: 0 <= k < |list| ==> ids[k] == list[k].0
  {
    seq(|list|, k requires 0 <= k < |list| => list[k].0)
  }

  /** top_rated_by_genre: copy the genre's ranked list, sort it in place, keep
      the first topN, and load their titles. */
  method TopRatedByGenre(topRated: TopRated, genre: string, topN: int,
                         movies: map<string, StoredData>, jsonLoads: string -> Option<Value>)
    returns (top: seq<Ranked>, titles: seq<Value>)
    ensures top == TopN(Lookup(topRated, genre), topN)
    ensures titles == Titles(movies, Ids(top), jsonLoads)
  {
    var scores := Lookup(topRated, genre);
    var a := new Ranked[|scores|](k requires 0 <= k < |scores| => scores[k]);
    assert a[..] == scores;
    SortByScore(a);
    top := PySlice(a[..], topN);
    titles := Titles(movies, Ids(top), jsonLoads);
  }

  /** `[(mid, score) for mid, score in list if mid in ids]`. */
  function KeepListed(list: seq<Ranked>, ids: set<string>): (r: seq<Ranked>)
    ensures |r| <= |list|
  {
    if list == [] then []
    else (if list[0].0 in ids then [list[0]] else []) + KeepListed(list[1..], ids)
  }

  /** The filter keeps exactly the entries whose key is listed. */
  lemma {:induction false} KeepListedMember(list: seq<Ranked>, ids: set<string>, y: Ranked)
    ensures y in KeepListed(list, ids) <==> y in list && y.0 in ids
  {
    if list != [] {
      KeepListedMember(list[1..], ids, y);
      assert y in list <==> y == list[0] || y in list[1..];
    }
  }

  /** The filter keeps the relative order of the ranked list: filtering a
      concatenation filters each part. */
  lemma {:induction false} KeepListedAppend(a: seq<Ranked>, b: seq<Ranked>, ids: set<string>)
    ensures KeepListed(a + b, ids) == KeepListed(a, ids) + KeepListed(b, ids)
  {
    if a == [] {
      assert a + b == b;
    } else {
      var h := if a[0].0 in ids then [a[0]] else [];
      calc {
        KeepListed(a + b, ids);
        { assert (a + b)[0] == a[0] && (a + b)[1..] == a[1..] + b; }
        h + KeepListed(a[1..] + b, ids);
        { KeepListedAppend(a[1..], b, ids); }
        h + (KeepListed(a[1..], ids) + KeepListed(b, ids));
        KeepListed(a, ids) + KeepListed(b, ids);
      }
    }
  }

  /** A sorted list stays sorted when filtered. */
  lemma {:induction false} KeepListedSorted(list: seq<Ranked>, ids: set<string>)
    requires SortedDesc(list)
    ensures SortedDesc(KeepListed(list, ids))
  {
    if list != [] {
      var rest := list[1..];
      KeepListedSorted(rest, ids);
      var r := KeepListed(list, ids);
      if list[0].0 in ids {
        forall k | 0 <= k < |KeepListed(rest, ids)| ensures KeepListed(rest, ids)[k].1 <= list[0].1 {
          var y := KeepListed(rest, ids)[k];
          KeepListedMember(rest, ids, y);
          var m :| 0 <= m < |rest| && rest[m] == y;
          assert list[m + 1] == y;
        }
        assert forall k :: 1 <= k < |r| ==> r[k] == KeepListed(rest, ids)[k - 1];
      }
    }
  }

  /** The top-N of the entries whose key is in ids. */
  lemma TopNListed(list: seq<Ranked>, ids: set<string>, n: int)
    ensures forall k :: 0 <= k < |TopN(KeepListed(list, ids), n)| ==> TopN(KeepListed(list, ids), n)[k].0 in ids
    ensures 0 <= n ==> |TopN(KeepListed(list, ids), n)| <= n
    ensures SortedDesc(list) ==> TopN(KeepListed(list, ids), n) == PySlice(KeepListed(list, ids), n)
  {
    var r := TopN(KeepListed(list, ids), n);
    forall k | 0 <= k < |r| ensures r[k].0 in ids {
      assert r[k] in multiset(KeepListed(list, ids));
      KeepListedMember(list, ids, r[k]);
    }
    if SortedDesc(list) {
      KeepListedSorted(list, ids);
    }
  }

  /** top_rated_by_genre_and_year: keep the genre's ranked entries whose key is
      listed under the year, sort them in place, keep the first topN, and load
      their titles. */
  method TopRatedByGenreAndYear(topRated: TopRated, year: Membership, genre: string, yearName: string, topN: int,
                                movies: map<string, StoredData>, jsonLoads: string -> Option<Value>)
    returns (top: seq<Ranked>, titles: seq<Value>)
    ensures top == TopN(KeepListed(Lookup(topRated, genre), Elements(Lookup(year, yearName))), topN)
    ensures titles == Titles(movies, Ids(top), jsonLoads)
  {
    var yearIds := Elements(Lookup(year, yearName));
    var allScores := Lookup(topRated, genre);
    var common := KeepListed(allScores, yearIds);
    var a := new Ranked[|common|](k requires 0 <= k < |common| => common[k]);
    assert a[..] == common;
    SortByScore(a);
    top := PySlice(a[..], topN);
    titles := Titles(movies, Ids(top), jsonLoads);
  }

  // ---------------------------------------------------------------------------
  // Counts

  /** count_movies_by_actor: `len(actor.get(name).data or [])`. */
  function CountMoviesByActor(actor: Membership, name: string): (n: nat)
    ensures name !in actor ==> n == 0
    ensures name in actor ==> n == |actor[name]|
  {
    |Lookup(actor, name)|
  }

  /** On a rebuilt index, the count is the number of distinct movie keys whose
      lead actor is name. */
  lemma CountMoviesByActorExact(ms: seq<Movie>, name: string)
    ensures CountMoviesByActor(IndexAll(ms).actor, name) == |FiledKeys(ms, Actor, name)|
  {
    ListedExactlyOnce(ms, Actor, name);
  }

  /** `sum(1 for _, score in scores if score >= min)`. */
  function CountAtLeast(scores: seq<Ranked>, min: Score): (n: nat)
    ensures n <= |scores|
  {
    if scores == [] then 0
    else CountAtLeast(scores[..|scores| - 1], min) + (if scores[|scores| - 1].1 >= min then 1 else 0)
  }

  /** The positions whose score reaches min. */
  function AtLeastAt(scores: seq<Ranked>, min: Score): set<nat> {
    set k: nat | k < |scores| && scores[k].1 >= min
  }

  /** The count is exactly the number of entries scoring at least min. */
  lemma {:induction false} CountAtLeastExact(scores: seq<Ranked>, min: Score)
    ensures CountAtLeast(scores, min) == |AtLeastAt(scores, min)|
  {
    if scores != [] {
      var init := scores[..|scores| - 1];
      var last := |scores| - 1;
      CountAtLeastExact(init, min);
      if scores[last].1 >= min {
        assert AtLeastAt(scores, min) == AtLeastAt(init, min) + {last};
      } else {
        assert AtLeastAt(scores, min) == AtLeastAt(init, min);
      }
    }
  }

  /** Raising the threshold never increases the count. */
  lemma {:induction false} CountAtLeastAntitone(scores: seq<Ranked>, lo: Score, hi: Score)
    requires lo <= hi
    ensures CountAtLeast(scores, hi) <= CountAtLeast(scores, lo)
  {
    if scores != [] {
      CountAtLeastAntitone(scores[..|scores| - 1], lo, hi);
    }
  }

  /** count_high_rated_action_movies: the entries of the "Action" ranked list
      scoring at least minRating. */
  function CountHighRatedAction(topRated: TopRated, minRating: Score): (n: nat)
    ensures n <= |Lookup(topRated, "Action")|
    ensures "Action" !in topRated ==> n == 0
  {
    CountAtLeast(Lookup(topRated, "Action"), minRating)
  }
}
