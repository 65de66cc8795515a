/** One movie as the indexer reads it from the primary `movies` bucket: the
    stored object, its decoding, and the normalisation of the fields the indexes
    are built from (aggregate_movies.py, the body of the `try` block). */
module Records {
  import opened Common
  import opened PyValues
  import opened Ranking

  /** The data of a stored Riak object: text still to be decoded by json.loads,
      or a value the client already decoded. */
  datatype StoredData = Text(raw: string) | Native(value: Value)

  /** The two parsers the source calls but this model does not define:
      json.loads and ast.literal_eval. None stands for "raises". */
  datatype Parsers = Parsers(jsonLoads: string -> Option<Value>, literalEval: string -> Option<Value>)

  /** Why a record was skipped (the `except` branch). */
  datatype Skip =
    | NotText        // json.loads was given something other than a string
    | BadJson        // json.loads raised
    | NotAnObject    // the document is not a dict, so movie.get raises
    | BadVoteAverage // float(movie.get("vote_average", 0)) raised

  /** The fields of one movie after normalisation. */
  datatype Movie = Movie(
    key: string,             // "movie:" + str(id)
    score: Score,            // float(vote_average), 0 when absent
    year: Option<string>,    // the normalised release year, if any
    actor: Option<string>,   // Star1 stripped, when Star1 is a non-empty string
    genres: seq<string>)     // each truthy genre entry, as str() then stripped

  /** The index key of a movie id: `f"movie:{movie_id}"`. */
  function MovieKey(id: Value): (k: string)
    ensures |k| >= 6 && k[..6] == "movie:" && k[6..] == StrOf(id)
  {
    "movie:" + StrOf(id)
  }

  /** The year normalisation: an int or float (a bool is an int) becomes
      str(int(v)); a string that is all digits once stripped becomes
      str(int(...)) of it; anything else gives no year. */
  function NormalizeYear(v: Value): (r: Option<string>)
    ensures r.Some? <==> v.Bool? || v.Int? || v.Float? || (v.Str? && IsDigits(Strip(v.s)))
    ensures r.Some? ==> r.value != ""
  {
    match v
    case Bool(b) => Some(if b then "1" else "0")
    case Int(i) => Some(Decimal(i))
    case Float(x, _) => Some(Decimal(Truncate(x)))
    case Str(s) =>
      var t := Strip(s);
      if IsDigits(t) then Some(Digits(DigitsValue(t))) else None
    case _ => None
  }

  /** A digit string keeps its digits and loses only its surrounding whitespace
      and its leading zeros. */
  lemma NormalizeDigitString(s: string)
    requires IsDigits(Strip(s))
    ensures NormalizeYear(Str(s)) == Some(DropLeadingZeros(Strip(s)))
  {
    DigitsOfValue(Strip(s));
  }

  /** The canonical digits of a number are a year string that normalises to itself. */
  lemma DigitsNormalizeToThemselves(n: nat)
    ensures NormalizeYear(Str(Digits(n))) == Some(Digits(n))
  {
    var y := Digits(n);
    assert IsStripped(y) by { assert IsDigit(y[0]) && IsDigit(y[|y| - 1]); }
    StrippedIsFixed(y);
    DigitsRoundTrip(n);
  }

  /** A normalised year is already normal: normalising it again changes nothing. */
  lemma NormalizeYearIdempotent(v: Value)
    requires NormalizeYear(v).Some?
    requires !v.Int? || v.i >= 0
    requires !v.Float? || v.x >= 0.0
    ensures NormalizeYear(Str(NormalizeYear(v).value)) == NormalizeYear(v)
  {
    if v.Bool? {
      DigitsNormalizeToThemselves(if v.b then 1 else 0);
    } else if v.Int? {
      DigitsNormalizeToThemselves(v.i);
    } else if v.Float? {
      DigitsNormalizeToThemselves(Truncate(v.x));
    } else {
      DigitsNormalizeToThemselves(DigitsValue(Strip(v.s)));
    }
  }

  /** The lead actor: Star1 when it is a truthy string, stripped. */
  function CleanActor(v: Value): (r: Option<string>)
    ensures r.Some? <==> v.Str? && v.s != ""
    ensures r.Some? ==> r.value == Strip(v.s) && IsStripped(r.value)
  {
    if v.Str? && v.s != "" then
      StripIsStripped(v.s);
      Some(Strip(v.s))
    else None
  }

  /** The entries a for-loop visits in a value: the items of a list, the
      characters of a string, the keys of a dict; None where Python raises
      because the value is not iterable. */
  function Iterate(v: Value): (r: Option<seq<Value>>)
    ensures r.None? <==> v.Null? || v.Bool? || v.Int? || v.Float?
  {
    match v
    case List(items, _) => Some(items)
    case Str(s) => Some(seq(|s|, k requires 0 <= k < |s| => Str([s[k]])))
    case Dict(entries, _) => Some(seq(|entries|, k requires 0 <= k < |entries| => Str(entries[k].0)))
    case _ => None
  }

  /** `[str(g).strip() for g in items if g]`. */
  function StripTruthy(items: seq<Value>): (r: seq<string>)
    ensures |r| <= |items|
  {
    if items == [] then []
    else (if Truthy(items[0]) then [Strip(StrOf(items[0]))] else []) + StripTruthy(items[1..])
  }

  /** Every genre name produced is stripped. */
  lemma {:induction false} StripTruthyStripped(items: seq<Value>)
    ensures forall k :: 0 <= k < |StripTruthy(items)| ==> IsStripped(StripTruthy(items)[k])
  {
    if items != [] {
      StripTruthyStripped(items[1..]);
      StripIsStripped(StrOf(items[0]));
    }
  }

  /** Each genre name comes from a truthy entry, and the entries are used in order. */
  lemma {:induction false} StripTruthyFrom(items: seq<Value>, k: nat)
    requires k < |StripTruthy(items)|
    ensures exists j :: k <= j < |items| && Truthy(items[j]) && StripTruthy(items)[k] == Strip(StrOf(items[j]))
  {
    var head := if Truthy(items[0]) then [Strip(StrOf(items[0]))] else [];
    var rest := StripTruthy(items[1..]);
    assert StripTruthy(items) == head + rest;
    if k < |head| {
      assert StripTruthy(items)[k] == Strip(StrOf(items[0]));
    } else {
      StripTruthyFrom(items[1..], k - |head|);
      var j :| k - |head| <= j < |items| - 1 && Truthy(items[1..][j]) && rest[k - |head|] == Strip(StrOf(items[1..][j]));
      assert StripTruthy(items)[k] == rest[k - |head|];
      assert items[j + 1] == items[1..][j];
    }
  }

  /** Every truthy entry gives a genre name. */
  lemma {:induction false} StripTruthyComplete(items: seq<Value>, j: nat)
    requires j < |items| && Truthy(items[j])
    ensures Strip(StrOf(items[j])) in StripTruthy(items)
  {
    if j > 0 {
      StripTruthyComplete(items[1..], j - 1);
      assert items[1..][j - 1] == items[j];
    }
  }

  /** The genre list: genres_list, evaluated with ast.literal_eval when it is a
      string, then iterated; any failure gives the empty list. */
  function ParseGenres(raw: Value, literalEval: string -> Option<Value>): (r: seq<string>)
    ensures raw.Null? || raw.Bool? || raw.Int? || raw.Float? ==> r == []
    ensures raw.Str? && literalEval(raw.s).None? ==> r == []
  {
    var evaluated := if raw.Str? then literalEval(raw.s) else Some(raw);
    match evaluated
    case None => []
    case Some(v) =>
      match Iterate(v)
      case None => []
      case Some(items) => StripTruthy(items)
  }

  /** The string json.loads is given: the stored text, or a str the client
      already decoded. None for any other decoded value, on which json.loads
      raises. */
  function JsonText(data: StoredData): (t: Option<string>)
    ensures t.Some? <==> data.Text? || data.value.Str?
  {
    match data
    case Text(raw) => Some(raw)
    case Native(v) => if v.Str? then Some(v.s) else None
  }

  /** Decoding and normalising one stored movie (aggregate_movies.py lines 40-59).
      Everything that raises there skips the record with a reason. */
  function ParseMovie(data: StoredData, p: Parsers): (r: Result<Movie, Skip>)
    ensures JsonText(data).None? ==> r == Err(NotText)
    ensures JsonText(data).Some? ==>
              var doc := p.jsonLoads(JsonText(data).value);
              && (doc.None? ==> r == Err(BadJson))
              && (doc.Some? && !doc.value.Dict? ==> r == Err(NotAnObject))
              && (doc.Some? && doc.value.Dict? && ToFloat(GetField(doc.value.entries, "vote_average", Int(0))).None?
                  ==> r == Err(BadVoteAverage))
              && (r.Ok? <==> doc.Some? && doc.value.Dict? && ToFloat(GetField(doc.value.entries, "vote_average", Int(0))).Some?)
    ensures r.Ok? ==>
              var fields := p.jsonLoads(JsonText(data).value).value.entries;
              r.value == Movie(
                MovieKey(GetField(fields, "id", Null)),
                ToFloat(GetField(fields, "vote_average", Int(0))).value,
                NormalizeYear(GetField(fields, "release_year", Null)),
                CleanActor(GetField(fields, "Star1", Null)),
                ParseGenres(GetField(fields, "genres_list", Str("[]")), p.literalEval))
    ensures r.Ok? ==> |r.value.key| >= 6 && r.value.key[..6] == "movie:"
    ensures r.Ok? ==> r.value.actor.Some? ==> IsStripped(r.value.actor.value)
  {
    match JsonText(data)
    case None => Err(NotText)
    case Some(raw) =>
      match p.jsonLoads(raw)
      case None => Err(BadJson)
      case Some(doc) =>
        if !doc.Dict? then Err(NotAnObject)
        else
          var fields := doc.entries;
          var id := GetField(fields, "id", Null);
          match ToFloat(GetField(fields, "vote_average", Int(0)))
          case None => Err(BadVoteAverage)
          case Some(score) =>
            Ok(Movie(
              MovieKey(id),
              score,
              NormalizeYear(GetField(fields, "release_year", Null)),
              CleanActor(GetField(fields, "Star1", Null)),
              ParseGenres(GetField(fields, "genres_list", Str("[]")), p.literalEval)))
  }

  /** A str the client already decoded is parsed exactly like stored text:
      json.loads is given the same string either way. */
  lemma DecodedStrIsText(s: string, p: Parsers)
    ensures ParseMovie(Native(Str(s)), p) == ParseMovie(Text(s), p)
  {
    assert JsonText(Native(Str(s))) == JsonText(Text(s));
  }

  /** A vote_average given as a string of digits is scored as the number it spells. */
  lemma DigitStringVoteAverage(data: StoredData, p: Parsers, n: nat, k: nat)
    requires JsonText(data).Some?
    requires p.jsonLoads(JsonText(data).value).Some? && p.jsonLoads(JsonText(data).value).value.Dict?
    requires FirstAt(p.jsonLoads(JsonText(data).value).value.entries, "vote_average", k)
    requires p.jsonLoads(JsonText(data).value).value.entries[k].1 == Str(Digits(n))
    ensures ParseMovie(data, p).Ok? && ParseMovie(data, p).value.score == n as real
  {
    GetFieldFirst(p.jsonLoads(JsonText(data).value).value.entries, "vote_average", Int(0));
    FloatOfDecimal(n);
  }

  /** A document without a vote_average is indexed with score 0. */
  lemma MissingVoteAverageScoresZero(data: StoredData, p: Parsers)
    requires JsonText(data).Some?
    requires p.jsonLoads(JsonText(data).value).Some? && p.jsonLoads(JsonText(data).value).value.Dict?
    requires forall k :: 0 <= k < |p.jsonLoads(JsonText(data).value).value.entries| ==>
               p.jsonLoads(JsonText(data).value).value.entries[k].0 != "vote_average"
    ensures ParseMovie(data, p).Ok? && ParseMovie(data, p).value.score == 0.0
  {
  }
}
