# Movie secondary indexes over Riak: a verified model

The modelled system keeps movie records in a Riak bucket `movies`. Each record is a JSON document stored under `movie:<id>`. Two programs work on it:

- **The index builder** (`aggregate_movies.py`) rebuilds four secondary-index buckets.
  - It empties `genre`, `actor`, `year` and `top_rated`.
  - It then scans the movie keys. For each of the first 5000 records it can read, it files the movie key under:
    - its lead actor (`Star1`, stripped);
    - each of its genres (`genres_list`, evaluated as a Python literal);
    - its normalised release year.
  - It also offers `(key, vote_average)` to a per-genre ranked list. That list is kept sorted by descending score and cut at 100 entries.
  - Records that fail to decode are skipped and not counted.
- **The query layer** (`queries.py`) reads those buckets. It offers:
  - point lookups by genre, actor or year;
  - the intersection of two lookups;
  - the top N of a genre's ranked list, optionally restricted to one year's movies;
  - two counts.
  - It turns each movie key into a title with `load_title`.

The project has six modules:

- `common.dfy` (`Common`): Option/Result, `Take`, Python's `s[:n]` (`PySlice`), and duplicate-freedom.
- `pyvalues.dfy` (`PyValues`): the decoded values, and the Python built-ins the builder applies to them:
  - truthiness and `dict.get`;
  - `str.strip()` over Python's Unicode whitespace;
  - `str.isdigit()` and `int()` on digit strings;
  - `str()` of an int, and `float()`.
- `ranking.dfy` (`Ranking`): Python's stable `sorted(..., reverse=True)` by score, and the bounded top-rated update.
  - `SortDesc` is defined by insertion.
  - It is proved to be *the* stable descending sort: sorted, a permutation, order kept within each score, and unique.
- `records.dfy` (`Records`): decoding one stored movie and normalising its year, actor and genres, with a reason for every skipped record.
- `aggregate.dfy` (`AggregateMovies`): the index builder.
  - The index is specified by functions over the sequence of processed movies (`IndexAll`, `Parsed`, `Accepted`).
  - The `Indexer` class holds the four buckets as `map` fields. Its `Rebuild` method is proved to produce exactly `IndexAll(Accepted(...))`.
- `queries.dfy` (`Queries`): the queries.
  - `list.sort` becomes an in-place insertion sort on an `array` (`SortByScore`), proved equal to `SortDesc`.
  - Cross lemmas relate the answers to the movies the builder processed.

Riak buckets are `map`s. The bucket key order that `get_keys()` yields is a parameter, a sequence of keys. `json.loads` and `ast.literal_eval` are parameters, as functions that give `None` where Python raises. Scores are real numbers.

## Model

| member | source | states |
|---|---|---|
| AggregateMovies.CleanBucket | aggregate_movies.py:14-17 | after deleting every listed key the bucket is empty |
| AggregateMovies.Indexer.ClearIndexes | aggregate_movies.py:20-25 | all four index buckets are empty afterwards, whatever they held, and so well formed |
| AggregateMovies.Indexer.Rebuild | aggregate_movies.py:19-107 | the count returned equals the number of accepted records and is at most 5000; the buckets equal the index of exactly the accepted records, whatever they held before; the buckets are well formed |
| AggregateMovies.Indexer.AddMovie | aggregate_movies.py:61-98 | one record's writes: actor, then each genre with its ranked list, then year; well-formed buckets stay well formed |
| AggregateMovies.Indexer.FileActor | aggregate_movies.py:61-70 | the key is filed under the cleaned lead actor when there is one; the other buckets are untouched |
| AggregateMovies.Indexer.FileGenres | aggregate_movies.py:72-89 | the genre loop files the key under each non-empty genre and offers (key, score) to that genre's ranked list, in genre order |
| AggregateMovies.Indexer.FileYear | aggregate_movies.py:91-98 | the key is filed under the normalised year when there is one |
| AggregateMovies.Lookup | aggregate_movies.py:66 | a missing bucket key reads as the empty list (`data or []`) |
| AggregateMovies.AddMemberSpec | aggregate_movies.py:65-70 | after add-if-absent the list contains the key, keeps every old entry in its old place, gains nothing else, and has no duplicate if it had none |
| AggregateMovies.AddUnderMembers | aggregate_movies.py:73-80 | after filing k under a list of names, list `name` holds y iff it held y before, or y is k and name is a non-empty member of the list |
| AggregateMovies.MembershipExact | aggregate_movies.py:61-98 | on the rebuilt index, y is listed under a name iff some processed movie with key y is filed under that name (non-empty) in that dimension |
| AggregateMovies.IndexMoviePreserves | aggregate_movies.py:61-98 | processing a record keeps every membership list duplicate-free and every ranked list sorted and at most 100 long |
| AggregateMovies.IndexAllWellFormed | aggregate_movies.py:31-105 | any sequence of processed records leaves the buckets well formed |
| AggregateMovies.RankUnderExact | aggregate_movies.py:72-89 | if a genre's list is the top 100 of the stable sort of e, it ends as the top 100 of the stable sort of e plus the pairs this record offers it |
| AggregateMovies.TopRatedExact | aggregate_movies.py:82-89 | on the rebuilt index, a genre's ranked list is the first 100 of the stable descending sort of every (key, score) offered to it, in scan order |
| AggregateMovies.TopRatedComplete | aggregate_movies.py:82-89 | while at most 100 pairs were offered to a genre, its ranked list holds every one of them |
| AggregateMovies.ParsedPrefix | aggregate_movies.py:31-37 | the records read from a prefix of the key order are a prefix of those read from all keys |
| AggregateMovies.SkipChangesNothing | aggregate_movies.py:35-37 | a key with no object, or whose record fails to decode, changes neither the count nor the index |
| Ranking.UpdateTopRatedSpec | aggregate_movies.py:83-89 | the updated list is at most 100 long and sorted by descending score; it holds only old entries and the new pair; while the old list had room it keeps all of them plus the new pair |
| Ranking.UpdateKeepsBest | aggregate_movies.py:83-89 | updating the top 100 of the stable sort of e with x gives the top 100 of the stable sort of e + [x] |
| Ranking.AppendThenSort | aggregate_movies.py:85-87 | appending a pair to a sorted list and re-sorting stably equals inserting it after every entry scoring at least as much, and before every entry scoring less |
| Ranking.SortDescIsStable | aggregate_movies.py:87 | SortDesc is a stable descending sort: sorted, a permutation, and for each score the entries keep their input order |
| Ranking.StableSortUnique | aggregate_movies.py:87 | any stable descending sort of a list equals SortDesc of it |
| Ranking.SortDescSorted | aggregate_movies.py:87 | the result of SortDesc is sorted by descending score |
| Ranking.SortDescPerm | aggregate_movies.py:87 | SortDesc is a permutation of its input |
| Ranking.SortedIsFixpoint | queries.py:77 | sorting a list that is already sorted changes nothing |
| Ranking.InsertDescFilter | aggregate_movies.py:87 | inserting into a sorted list puts the new pair after every entry of the same score |
| Records.ParseMovie | aggregate_movies.py:39-59 | the record is skipped exactly when its data is neither stored text nor an already-decoded str, json.loads raises on that string, the document is not a dict, or float() of vote_average (default 0) raises, each with its own reason; otherwise the movie holds "movie:" + str(id), float(vote_average), the normalised year, the cleaned Star1 and the genre names read from genres_list (default "[]") |
| Records.DecodedStrIsText | aggregate_movies.py:40 | an already-decoded str is parsed exactly like the same stored text |
| Records.DigitStringVoteAverage | aggregate_movies.py:42 | a vote_average given as a string of digits is accepted and scored as the number it spells |
| Records.MovieKey | aggregate_movies.py:59 | the key is "movie:" followed by str(id) |
| Records.MissingVoteAverageScoresZero | aggregate_movies.py:42 | a document without vote_average is accepted with score 0 |
| Records.NormalizeYear | aggregate_movies.py:43-49 | a year exists iff the raw value is a bool, int or float, or a string that is all ASCII digits once stripped; a year is never empty |
| Records.NormalizeDigitString | aggregate_movies.py:48-49 | a digit string normalises to its stripped digits without leading zeros |
| Records.NormalizeYearIdempotent | aggregate_movies.py:43-49 | a consistency fact the source does not rely on: normalising a normalised year (of a non-negative number or digit string) gives it back |
| Records.CleanActor | aggregate_movies.py:62-63 | an actor exists iff Star1 is a non-empty string; it is Star1 stripped, and stripped |
| Records.ParseGenres | aggregate_movies.py:52-57 | a genres_list that is None, a bool or a number, or a string whose literal_eval raises, gives no genres |
| Records.StripTruthyStripped | aggregate_movies.py:55 | every genre name is stripped |
| Records.StripTruthyFrom | aggregate_movies.py:55 | each genre name is str() of a truthy entry, stripped, taken from an entry at or after its own position |
| Records.StripTruthyComplete | aggregate_movies.py:55 | every truthy entry yields a genre name |
| PyValues.StripShape | aggregate_movies.py:48 | strip() leaves a contiguous piece of its input, cut only at whitespace |
| PyValues.StripIsStripped | aggregate_movies.py:63 | what strip() leaves neither begins nor ends with whitespace |
| PyValues.StripIdempotent | aggregate_movies.py:63 | a consistency fact the source does not rely on: stripping twice is stripping once |
| PyValues.DigitsOfValue | aggregate_movies.py:49 | str(int(t)) of a digit string t is t without its leading zeros |
| PyValues.DigitsRoundTrip | aggregate_movies.py:47 | int(str(n)) == n for a natural number n |
| PyValues.FloatOfDecimal | aggregate_movies.py:42 | float() reads back the decimal rendering of a natural number |
| PyValues.ToFloat | aggregate_movies.py:42 | float() fails on None, lists and dicts, and keeps ints and floats |
| PyValues.GetFieldFirst | queries.py:20 | dict.get returns the value of the entry of that name |
| Queries.LoadTitle | queries.py:13-23 | "Not Found" without an object; "Invalid JSON" when json.loads of a str fails or the decoded object is not a dict; otherwise the title field, or "Unknown Title" without one |
| Queries.LoadTitleStrIsText | queries.py:19 | a str the client already decoded is run through json.loads just like stored text |
| Queries.PointQuery | queries.py:27-49 | one title per listed key, in list order; none when the name is absent |
| Queries.PointQueryCount | queries.py:27-49 | on the rebuilt index, a point query returns one title per distinct key filed under the name |
| Queries.ListedExactlyOnce | queries.py:29-31 | on the rebuilt index, a membership list holds each key filed under its name exactly once |
| Queries.Intersect | queries.py:55-57 | the intersection holds exactly the keys listed under both names; a missing name gives the empty set |
| Queries.BothQuery | queries.py:53-69 | one title per key of the intersection |
| Queries.BothQueryExact | queries.py:53-69 | on the rebuilt index, a key is in the intersection iff it is filed under both names |
| Queries.SortByScore | queries.py:77 | the in-place sort leaves the array equal to SortDesc of its old contents |
| Queries.InsertLast | queries.py:77 | one insertion pass moves the last entry left past exactly the entries that score less |
| Queries.TopN | queries.py:76-78 | top_n pairs (or all, if fewer), sorted by descending score, drawn from the list; a prefix of the stored list when that is already sorted |
| Queries.TopRatedByGenre | queries.py:73-84 | the result is TopN of the genre's ranked list and its titles |
| Queries.KeepListedMember | queries.py:91 | the filter keeps exactly the pairs whose key is in the year set |
| Queries.KeepListedAppend | queries.py:91 | the filter keeps the relative order of the ranked list |
| Queries.TopNListed | queries.py:88-93 | every returned key is in the year set; at most top_n pairs; a prefix of the filtered list when the stored list is sorted |
| Queries.TopRatedByGenreAndYear | queries.py:86-102 | the result is TopN of the genre's pairs whose key is listed under the year |
| Queries.CountMoviesByActor | queries.py:106-110 | the length of the actor's list, 0 when absent |
| Queries.CountMoviesByActorExact | queries.py:108 | on the rebuilt index, the count is the number of distinct keys whose lead actor is the name |
| Queries.CountAtLeastExact | queries.py:116 | the count equals the number of entries scoring at least the threshold |
| Queries.CountAtLeastAntitone | queries.py:116 | raising the threshold never increases the count |
| Queries.CountHighRatedAction | queries.py:112-118 | counts within the "Action" list, 0 when it is absent |

## Left out

- Riak itself (the client, network and storage) is replaced by maps. The `get_keys()` order is a parameter. Deletion order inside `clean_bucket` is not observable in the model.
- `json.loads` and `ast.literal_eval` are parameters, not parsers. A dict's entries come in insertion order with distinct names. Sets and tuples from `literal_eval` are represented as lists.
- Floats are real numbers:
  - no rounding, NaN or infinity. In Python, `int()` of NaN or of infinity raises and the record is skipped; the model never meets such a year;
  - `str()` of a float, list or dict is the text carried by the value, not computed;
  - `float()` of a string reads only an optional sign and a plain decimal. Exponents, underscores, "inf" and "nan" read as failures.
- `str.isdigit()` and `int()` accept ASCII digits only. Python also accepts other Unicode decimal digits.
- Records.NormalizeYear: Python's `int()` and `str()` raise `ValueError` on integers of more than 4300 digits, the default limit of current CPython. A release_year that long makes Python skip the whole record. The model has no such limit and keeps the record with that year.
- Records.NormalizeYear: for a stripped release_year that Python's `isdigit()` accepts but `int()` rejects (superscripts such as "²", circled digits such as "①"), Python raises and skips the whole record, which is then neither indexed nor counted. The model instead keeps the record with no year. The set of such Unicode characters is not modelled.
- `load_title` decoding a `bytes` key: the model's keys are strings already.
- Timing, `print`, progress messages and the `__main__` drivers. The query functions print their results. The model returns them instead: titles, top pairs and counts.
- Python's Timsort: `sorted` and `list.sort` are modelled by their result, the unique stable descending sort. The in-place `list.sort` is an insertion sort with the same result.
- AggregateMovies.Indexer.FileGenres: builds the genre and ranked buckets in locals and stores them once after the loop. The source stores after every genre, which no one observes within one sequential run.
- AggregateMovies.Indexer.Rebuild: idempotence is not a separate lemma. It follows because the postcondition depends only on the movies, the key order and the parsers, not on what the buckets held.
- Queries.BothQuery: Python iterates the intersection set in an unspecified order, so the titles are keyed by movie key rather than listed.
- loading_dataset.py is not part of this model (CSV loading with pandas). Neither are the other analyses its data would allow.
