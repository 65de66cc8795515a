/** The secondary-index builder (aggregate_movies.py): it empties the `genre`,
    `actor`, `year` and `top_rated` buckets, then scans the `movies` bucket and,
    for each of the first 5000 records it can read, adds the record's key to the
    membership list of its lead actor, of each genre and of its year, and adds
    (key, score) to the bounded ranked list of each genre. */
module AggregateMovies {
  import opened Common
  import opened PyValues
  import opened Ranking
  import opened Records

  /** The scan stops once this many records were processed (`LIMIT`). */
  const Limit: nat := 5000

  /** A membership bucket: dimension value -> list of movie keys. */
  type Membership = map<string, seq<string>>

  /** The `top_rated` bucket: genre -> ranked list of (movie key, score). */
  type TopRated = map<string, seq<Ranked>>

  /** `bucket.get(key).data or []`: a missing key reads as the empty list. */
  function Lookup<T>(bucket: map<string, seq<T>>, key: string): (r: seq<T>)
    ensures key !in bucket ==> r == []
    ensures key in bucket ==> r == bucket[key]
  {
    if key in bucket then bucket[key] else []
  }

  /** Append k unless it is already there (`if movie_key not in existing: existing.append(movie_key)`). */
  function AddMember(s: seq<string>, k: string): seq<string> {
    if k in s then s else s + [k]
  }

  /** The list gains k, keeps its old entries in their places, gains nothing
      else, and never a duplicate. */
  lemma AddMemberSpec(s: seq<string>, k: string)
    ensures var r := AddMember(s, k);
            && k in r
            && |s| <= |r| <= |s| + 1 && r[..|s|] == s
            && (forall y :: y in r <==> y in s || y == k)
            && (NoDup(s) ==> NoDup(r))
  {
  }

  /** Read, add k, store back under key. */
  function AddTo(bucket: Membership, key: string, k: string): Membership {
    bucket[key := AddMember(Lookup(bucket, key), k)]
  }

  /** Add k under each non-empty name of names, in order (the `if genre:`,
      `if actor_clean:` and `if year:` guards skip the empty ones). */
  function AddUnder(bucket: Membership, names: seq<string>, k: string): Membership
  {
    if names == [] then bucket
    else
      var prev := AddUnder(bucket, names[..|names| - 1], k);
      var name := names[|names| - 1];
      if name != "" then AddTo(prev, name, k) else prev
  }

  /** Add entry to the ranked list of each non-empty genre of names, in order. */
  function RankUnder(top: TopRated, names: seq<string>, entry: Ranked): TopRated
  {
    if names == [] then top
    else
      var prev := RankUnder(top, names[..|names| - 1], entry);
      var name := names[|names| - 1];
      if name != "" then prev[name := UpdateTopRated(Lookup(prev, name), entry)] else prev
  }

  function OptionToSeq(o: Option<string>): seq<string> {
    if o.Some? then [o.value] else []
  }

  /** One step of AddUnder over a prefix of names. */
  lemma AddUnderStep(b: Membership, names: seq<string>, i: nat, k: string)
    requires i < |names|
    ensures AddUnder(b, names[..i + 1], k) ==
            if names[i] != "" then AddTo(AddUnder(b, names[..i], k), names[i], k) else AddUnder(b, names[..i], k)
  {
    assert names[..i + 1][..i] == names[..i];
  }

  /** One step of RankUnder over a prefix of names. */
  lemma RankUnderStep(t: TopRated, names: seq<string>, i: nat, entry: Ranked)
    requires i < |names|
    ensures var prev := RankUnder(t, names[..i], entry);
            RankUnder(t, names[..i + 1], entry) ==
              if names[i] != "" then prev[names[i] := UpdateTopRated(Lookup(prev, names[i]), entry)] else prev
  {
    assert names[..i + 1][..i] == names[..i];
  }

  /** Adding under an optional name: at most one update. */
  lemma AddUnderOption(b: Membership, o: Option<string>, k: string)
    ensures AddUnder(b, OptionToSeq(o), k) == if o.Some? && o.value != "" then AddTo(b, o.value, k) else b
  {
    if o.Some? {
      assert OptionToSeq(o)[..0] == [];
    }
  }

  /** The four index buckets. */
  datatype Index = Index(genre: Membership, actor: Membership, year: Membership, topRated: TopRated)

  const EmptyIndex := Index(map[], map[], map[], map[])

  /** The three membership dimensions. */
  datatype Dim = Genre | Actor | Year

  function Bucket(idx: Index, d: Dim): Membership {
    match d
    case Genre => idx.genre
    case Actor => idx.actor
    case Year => idx.year
  }

  /** The names a movie is filed under in a dimension. */
  function Names(m: Movie, d: Dim): seq<string> {
    match d
    case Genre => m.genres
    case Actor => OptionToSeq(m.actor)
    case Year => OptionToSeq(m.year)
  }

  /** All the writes for one processed movie. */
  function IndexMovie(idx: Index, m: Movie): Index {
    Index(
      AddUnder(idx.genre, m.genres, m.key),
      AddUnder(idx.actor, OptionToSeq(m.actor), m.key),
      AddUnder(idx.year, OptionToSeq(m.year), m.key),
      RankUnder(idx.topRated, m.genres, (m.key, m.score)))
  }

  /** The index after processing ms, in order, from empty buckets. */
  function IndexAll(ms: seq<Movie>): Index {
    if ms == [] then EmptyIndex
    else IndexMovie(IndexAll(ms[..|ms| - 1]), ms[|ms| - 1])
  }

  /** The records the scan reads successfully, in scan order: a key with no
      object, or whose object fails to parse, contributes nothing. */
  function Parsed(keys: seq<string>, movies: map<string, StoredData>, p: Parsers): seq<Movie> {
    if keys == [] then []
    else
      var prev := Parsed(keys[..|keys| - 1], movies, p);
      var key := keys[|keys| - 1];
      if key in movies && ParseMovie(movies[key], p).Ok? then prev + [ParseMovie(movies[key], p).value]
      else prev
  }

  /** The records a rebuild processes: the first Limit that parse. */
  function Accepted(keys: seq<string>, movies: map<string, StoredData>, p: Parsers): seq<Movie> {
    Take(Parsed(keys, movies, p), Limit)
  }

  // ---------------------------------------------------------------------------
  // The invariant the indexes keep

  ghost predicate NoDupLists(b: Membership) {
    forall key :: key in b ==> NoDup(b[key])
  }

  ghost predicate RankedLists(t: TopRated) {
    forall key :: key in t ==> SortedDesc(t[key]) && |t[key]| <= Cap
  }

  /** Membership lists hold no duplicates; ranked lists are sorted and bounded. */
  ghost predicate WellFormed(idx: Index) {
    NoDupLists(idx.genre) && NoDupLists(idx.actor) && NoDupLists(idx.year) && RankedLists(idx.topRated)
  }

  lemma AddToNoDup(b: Membership, name: string, k: string)
    requires NoDupLists(b)
    ensures NoDupLists(AddTo(b, name, k))
  {
    var b' := AddTo(b, name, k);
    AddMemberSpec(Lookup(b, name), k);
    forall key | key in b' ensures NoDup(b'[key]) {
      if key != name {
        assert b'[key] == b[key];
      }
    }
  }

  lemma {:induction false} AddUnderNoDup(b: Membership, names: seq<string>, k: string)
    requires NoDupLists(b)
    ensures NoDupLists(AddUnder(b, names, k))
  {
    if names != [] {
      var prev := AddUnder(b, names[..|names| - 1], k);
      AddUnderNoDup(b, names[..|names| - 1], k);
      AddToNoDup(prev, names[|names| - 1], k);
    }
  }

  lemma RankOneRanked(t: TopRated, name: string, entry: Ranked)
    requires RankedLists(t)
    ensures RankedLists(t[name := UpdateTopRated(Lookup(t, name), entry)])
  {
    var t' := t[name := UpdateTopRated(Lookup(t, name), entry)];
    UpdateTopRatedSpec(Lookup(t, name), entry);
    forall key | key in t' ensures SortedDesc(t'[key]) && |t'[key]| <= Cap {
      if key != name {
        assert t'[key] == t[key];
      }
    }
  }

  lemma {:induction false} RankUnderRanked(t: TopRated, names: seq<string>, entry: Ranked)
    requires RankedLists(t)
    ensures RankedLists(RankUnder(t, names, entry))
  {
    if names != [] {
      var prev := RankUnder(t, names[..|names| - 1], entry);
      RankUnderRanked(t, names[..|names| - 1], entry);
      RankOneRanked(prev, names[|names| - 1], entry);
    }
  }

  /** Processing a movie keeps the indexes well formed. */
  lemma IndexMoviePreserves(idx: Index, m: Movie)
    requires WellFormed(idx)
    ensures WellFormed(IndexMovie(idx, m))
  {
    AddUnderNoDup(idx.genre, m.genres, m.key);
    AddUnderNoDup(idx.actor, OptionToSeq(m.actor), m.key);
    AddUnderNoDup(idx.year, OptionToSeq(m.year), m.key);
    RankUnderRanked(idx.topRated, m.genres, (m.key, m.score));
  }

  /** Any sequence of processed movies leaves the indexes well formed. */
  lemma {:induction false} IndexAllWellFormed(ms: seq<Movie>)
    ensures WellFormed(IndexAll(ms))
  {
    if ms != [] {
      IndexAllWellFormed(ms[..|ms| - 1]);
      IndexMoviePreserves(IndexAll(ms[..|ms| - 1]), ms[|ms| - 1]);
    }
  }

  // ---------------------------------------------------------------------------
  // What the membership buckets hold

  /** The last name of the list decides the last update of list `name`. */
  lemma AddUnderLast(b: Membership, names: seq<string>, k: string, name: string)
    requires names != []
    ensures var prev := AddUnder(b, names[..|names| - 1], k);
            Lookup(AddUnder(b, names, k), name) ==
              if names[|names| - 1] == name && name != "" then AddMember(Lookup(prev, name), k) else Lookup(prev, name)
  {
  }

  /** After adding k under names, a list holds y exactly when it held it before
      or y is k and the list's name is one of the non-empty names. */
  lemma {:induction false} AddUnderMembers(b: Membership, names: seq<string>, k: string, name: string, y: string)
    ensures y in Lookup(AddUnder(b, names, k), name) <==>
            y in Lookup(b, name) || (y == k && name != "" && name in names)
  {
    if names != [] {
      var init := names[..|names| - 1];
      var last := names[|names| - 1];
      AddUnderMembers(b, init, k, name, y);
      AddUnderLast(b, names, k, name);
      if last == name && name != "" {
        AddMemberSpec(Lookup(AddUnder(b, init, k), name), k);
      }
      assert name in names <==> name in init || name == last by {
        assert names == init + [last];
      }
    }
  }

  /** Movie m is filed as y under name in dimension d. */
  predicate FiledAs(m: Movie, d: Dim, name: string, y: string) {
    m.key == y && name != "" && name in Names(m, d)
  }

  /** The last movie's writes to a dimension. */
  lemma BucketLast(ms: seq<Movie>, d: Dim)
    requires ms != []
    ensures Bucket(IndexAll(ms), d) == AddUnder(Bucket(IndexAll(ms[..|ms| - 1]), d), Names(ms[|ms| - 1], d), ms[|ms| - 1].key)
  {
  }

  lemma SomeFiledLast(ms: seq<Movie>, init: seq<Movie>, d: Dim, name: string, y: string)
    requires ms != [] && init == ms[..|ms| - 1]
    ensures (exists j :: 0 <= j < |ms| && FiledAs(ms[j], d, name, y)) <==>
            (exists j :: 0 <= j < |init| && FiledAs(init[j], d, name, y)) || FiledAs(ms[|ms| - 1], d, name, y)
  {
    if exists j :: 0 <= j < |init| && FiledAs(init[j], d, name, y) {
      var j :| 0 <= j < |init| && FiledAs(init[j], d, name, y);
      assert ms[j] == init[j];
    }
    if exists j :: 0 <= j < |ms| && FiledAs(ms[j], d, name, y) {
      var j :| 0 <= j < |ms| && FiledAs(ms[j], d, name, y);
      if j < |init| {
        assert init[j] == ms[j];
      }
    }
  }

  /** A membership list holds exactly the keys of the processed movies filed
      under that name: nothing is lost and nothing is invented. */
  lemma {:induction false} MembershipExact(ms: seq<Movie>, d: Dim, name: string, y: string)
    ensures y in Lookup(Bucket(IndexAll(ms), d), name) <==>
            exists j :: 0 <= j < |ms| && FiledAs(ms[j], d, name, y)
  {
    if ms != [] {
      var init, m := ms[..|ms| - 1], ms[|ms| - 1];
      MembershipExact(init, d, name, y);
      BucketLast(ms, d);
      AddUnderMembers(Bucket(IndexAll(init), d), Names(m, d), m.key, name, y);
      SomeFiledLast(ms, init, d, name, y);
    }
  }

  // ---------------------------------------------------------------------------
  // What the top-rated bucket holds

  /** The (key, score) pairs one movie contributes to genre g: one per
      occurrence of g among its genres (a repeated genre is ranked twice). */
  function GenreEntries(names: seq<string>, g: string, entry: Ranked): seq<Ranked> {
    if names == [] then []
    else GenreEntries(names[..|names| - 1], g, entry) + (if names[|names| - 1] == g && g != "" then [entry] else [])
  }

  /** All pairs offered to the ranked list of genre g, in scan order. */
  function Offered(ms: seq<Movie>, g: string): seq<Ranked> {
    if ms == [] then []
    else
      var m := ms[|ms| - 1];
      Offered(ms[..|ms| - 1], g) + GenreEntries(m.genres, g, (m.key, m.score))
  }

  /** The last name of the list decides the last update of genre g's list. */
  lemma RankUnderLast(t: TopRated, names: seq<string>, entry: Ranked, g: string)
    requires names != []
    ensures var prev := RankUnder(t, names[..|names| - 1], entry);
            Lookup(RankUnder(t, names, entry), g) ==
              if names[|names| - 1] == g && g != "" then UpdateTopRated(Lookup(prev, g), entry) else Lookup(prev, g)
  {
  }

  lemma GenreEntriesLast(e: seq<Ranked>, names: seq<string>, entry: Ranked, g: string)
    requires names != []
    ensures var before := e + GenreEntries(names[..|names| - 1], g, entry);
            e + GenreEntries(names, g, entry) == if names[|names| - 1] == g && g != "" then before + [entry] else before
  {
  }

  lemma {:induction false} RankUnderExact(t: TopRated, names: seq<string>, entry: Ranked, g: string, e: seq<Ranked>)
    requires Lookup(t, g) == Take(SortDesc(e), Cap)
    ensures Lookup(RankUnder(t, names, entry), g) == Take(SortDesc(e + GenreEntries(names, g, entry)), Cap)
  {
    if names != [] {
      var init := names[..|names| - 1];
      RankUnderExact(t, init, entry, g, e);
      RankUnderLast(t, names, entry, g);
      GenreEntriesLast(e, names, entry, g);
      if names[|names| - 1] == g && g != "" {
        UpdateKeepsBest(e + GenreEntries(init, g, entry), entry);
      }
    } else {
      assert e + [] == e;
    }
  }

  /** The ranked list of a genre is the first 100 of the stable descending sort
      of every pair offered to it, in scan order. */
  lemma {:induction false} TopRatedExact(ms: seq<Movie>, g: string)
    ensures Lookup(IndexAll(ms).topRated, g) == Take(SortDesc(Offered(ms, g)), Cap)
  {
    if ms != [] {
      var init, m := ms[..|ms| - 1], ms[|ms| - 1];
      TopRatedExact(init, g);
      RankUnderExact(IndexAll(init).topRated, m.genres, (m.key, m.score), g, Offered(init, g));
    }
  }

  /** While a genre has been offered at most 100 pairs, its ranked list holds
      every one of them. */
  lemma TopRatedComplete(ms: seq<Movie>, g: string)
    requires |Offered(ms, g)| <= Cap
    ensures multiset(Lookup(IndexAll(ms).topRated, g)) == multiset(Offered(ms, g))
  {
    TopRatedExact(ms, g);
    SortDescPerm(Offered(ms, g));
  }

  // ---------------------------------------------------------------------------
  // The scan

  /** The records read from a prefix of the keys are a prefix of those read from all. */
  lemma {:induction false} ParsedPrefix(keys: seq<string>, i: nat, movies: map<string, StoredData>, p: Parsers)
    requires i <= |keys|
    ensures |Parsed(keys[..i], movies, p)| <= |Parsed(keys, movies, p)|
    ensures Parsed(keys, movies, p)[..|Parsed(keys[..i], movies, p)|] == Parsed(keys[..i], movies, p)
  {
    if i < |keys| {
      var init := keys[..|keys| - 1];
      assert init[..i] == keys[..i];
      ParsedPrefix(init, i, movies, p);
    } else {
      assert keys[..i] == keys;
    }
  }

  /** One step of the scan. */
  lemma ParsedStep(keys: seq<string>, i: nat, movies: map<string, StoredData>, p: Parsers)
    requires i < |keys|
    ensures var prev := Parsed(keys[..i], movies, p);
            Parsed(keys[..i + 1], movies, p) ==
              if keys[i] in movies && ParseMovie(movies[keys[i]], p).Ok? then prev + [ParseMovie(movies[keys[i]], p).value]
              else prev
  {
    assert keys[..i + 1][..i] == keys[..i];
  }

  /** Processing one more movie. */
  lemma IndexAllAppend(ms: seq<Movie>, m: Movie)
    ensures IndexAll(ms + [m]) == IndexMovie(IndexAll(ms), m)
  {
    assert (ms + [m])[..|ms|] == ms;
  }

  /** A key whose object is missing or fails to parse changes nothing. */
  lemma SkipChangesNothing(keys: seq<string>, key: string, movies: map<string, StoredData>, p: Parsers)
    requires key !in movies || ParseMovie(movies[key], p).Err?
    ensures Accepted(keys + [key], movies, p) == Accepted(keys, movies, p)
  {
    assert (keys + [key])[..|keys|] == keys;
  }

  /** Bucket cleanup (`clean_bucket`): delete every key the bucket lists. */
  method CleanBucket<V>(bucket: map<string, V>) returns (cleaned: map<string, V>)
    ensures cleaned == map[]
  {
    cleaned := bucket;
    var keys := bucket.Keys;
    while keys != {}
      invariant cleaned.Keys <= keys
      decreases |keys|
    {
      var key :| key in keys;
      cleaned := cleaned - {key};
      keys := keys - {key};
    }
    assert cleaned.Keys == {};
  }

  /** The index buckets, updated in place by a rebuild. */
  class Indexer {
    var genre: Membership
    var actor: Membership
    var year: Membership
    var topRated: TopRated

    function State(): Index
      reads this
    {
      Index(genre, actor, year, topRated)
    }

    ghost predicate Valid()
      reads this
    {
      WellFormed(State())
    }

    /** Buckets as left by an earlier run, whatever they hold. */
    constructor (genre: Membership, actor: Membership, year: Membership, topRated: TopRated)
      ensures State() == Index(genre, actor, year, topRated)
    {
      this.genre, this.actor, this.year, this.topRated := genre, actor, year, topRated;
    }

    /** The cleanup at the start of aggregate_data: all four buckets emptied. */
    method ClearIndexes()
      modifies this
      ensures State() == EmptyIndex
      ensures Valid()
    {
      genre := CleanBucket(genre);
      actor := CleanBucket(actor);
      year := CleanBucket(year);
      topRated := CleanBucket(topRated);
    }

    /** The writes for one parsed movie: actor, then each genre (membership and
        ranked list), then year. */
    method AddMovie(m: Movie)
      modifies this
      ensures State() == IndexMovie(old(State()), m)
      ensures old(Valid()) ==> Valid()
    {
      FileActor(m);
      FileGenres(m.genres, m.key, (m.key, m.score));
      FileYear(m);
      if old(Valid()) {
        IndexMoviePreserves(old(State()), m);
      }
    }

    /** The actor block: file the key under the cleaned lead actor, if any. */
    method FileActor(m: Movie)
      modifies this
      ensures actor == AddUnder(old(actor), OptionToSeq(m.actor), m.key)
      ensures genre == old(genre) && year == old(year) && topRated == old(topRated)
    {
      AddUnderOption(actor, m.actor, m.key);
      if m.actor.Some? {
        var name := m.actor.value;
        if name != "" {
          var existing := Lookup(actor, name);
          if m.key !in existing {
            existing := existing + [m.key];
          }
          actor := actor[name := existing];
        }
      }
    }

    /** The genre loop: for each non-empty genre, file the key and offer
        (key, score) to the genre's ranked list. */
    method FileGenres(genres: seq<string>, key: string, entry: Ranked)
      modifies this
      ensures genre == AddUnder(old(genre), genres, key)
      ensures topRated == RankUnder(old(topRated), genres, entry)
      ensures actor == old(actor) && year == old(year)
    {
      var genre0, top0 := genre, topRated;
      var byGenre, top := genre0, top0;
      var i := 0;
      while i < |genres|
        invariant 0 <= i <= |genres|
        invariant byGenre == AddUnder(genre0, genres[..i], key)
        invariant top == RankUnder(top0, genres[..i], entry)
        invariant genre == genre0 && topRated == top0 && actor == old(actor) && year == old(year)
      {
        var name := genres[i];
        AddUnderStep(genre0, genres, i, key);
        RankUnderStep(top0, genres, i, entry);
        if name != "" {
          var members := Lookup(byGenre, name);
          if key !in members {
            members := members + [key];
          }
          byGenre := byGenre[name := members];
          var ranked := Lookup(top, name);
          ranked := ranked + [entry];
          ranked := Take(SortDesc(ranked), Cap);
          top := top[name := ranked];
        }
        i := i + 1;
      }
      assert genres[..i] == genres;
      genre, topRated := byGenre, top;
    }

    /** The year block: file the key under the normalised year, if any. */
    method FileYear(m: Movie)
      modifies this
      ensures year == AddUnder(old(year), OptionToSeq(m.year), m.key)
      ensures genre == old(genre) && actor == old(actor) && topRated == old(topRated)
    {
      AddUnderOption(year, m.year, m.key);
      if m.year.Some? {
        var name := m.year.value;
        if name != "" {
          var existing := Lookup(year, name);
          if m.key !in existing {
            existing := existing + [m.key];
          }
          year := year[name := existing];
        }
      }
    }

    /** aggregate_data: clean the four buckets, then scan the keys of the movies
        bucket, processing each record that exists and parses, until Limit records
        were processed. Returns the number processed. */
    method Rebuild(movies: map<string, StoredData>, keys: seq<string>, p: Parsers) returns (processed: nat)
      modifies this
      ensures processed == |Accepted(keys, movies, p)| && processed <= Limit
      ensures State() == IndexAll(Accepted(keys, movies, p))
      ensures Valid()
    {
      ClearIndexes();
      processed := 0;
      ghost var accepted: seq<Movie> := [];
      var i := 0;
      while i < |keys|
        invariant 0 <= i <= |keys|
        invariant accepted == Parsed(keys[..i], movies, p)
        invariant processed == |accepted| <= Limit
        invariant State() == IndexAll(accepted)
      {
        if processed >= Limit {
          break;
        }
        var key := keys[i];
        ParsedStep(keys, i, movies, p);
        if key in movies {
          var outcome := ParseMovie(movies[key], p);
          if outcome.Ok? {
            AddMovie(outcome.value);
            IndexAllAppend(accepted, outcome.value);
            accepted := accepted + [outcome.value];
            processed := processed + 1;
          }
        }
        i := i + 1;
      }
      ParsedPrefix(keys, i, movies, p);
      if i == |keys| {
        assert keys[..i] == keys;
      }
      IndexAllWellFormed(accepted);
    }
  }
}
