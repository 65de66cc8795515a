/** The Python values the indexer meets after json.loads or ast.literal_eval,
    and the built-in conversions it applies to them: truthiness, str(), strip(),
    isdigit(), int() and float(). */
module PyValues {
  import opened Common

  /** A decoded value. A float is a finite real number; Python's rendering of
      floats, lists and dicts by str() is not computed here, so those values
      carry the text str() gives them. A dict keeps its entries in insertion
      order (its keys are distinct, as in any Python dict). Tuples and sets that
      ast.literal_eval may build are represented as lists. */
  datatype Value =
    | Null
    | Bool(b: bool)
    | Int(i: int)
    | Float(x: real, repr: string)
    | Str(s: string)
    | List(items: seq<Value>, repr: string)
    | Dict(entries: seq<(string, Value)>, repr: string)

  /** Python truthiness (`if v:`). */
  predicate Truthy(v: Value) {
    match v
    case Null => false
    case Bool(b) => b
    case Int(i) => i != 0
    case Float(x, _) => x != 0.0
    case Str(s) => s != ""
    case List(items, _) => items != []
    case Dict(entries, _) => entries != []
  }

  /** `d.get(name, default)` on a dict given by its entries. */
  function GetField(entries: seq<(string, Value)>, name: string, default: Value): (r: Value)
    ensures (exists k :: 0 <= k < |entries| && entries[k].0 == name) || r == default
    ensures (forall k :: 0 <= k < |entries| ==> entries[k].0 != name) ==> r == default
  {
    if entries == [] then default
    else if entries[0].0 == name then entries[0].1
    else
      var r := GetField(entries[1..], name, default);
      assert forall k :: 0 <= k < |entries| - 1 ==> entries[1..][k] == entries[k + 1];
      r
  }

  /** Entry k is the first entry named name. */
  predicate FirstAt(entries: seq<(string, Value)>, name: string, k: int) {
    0 <= k < |entries| && entries[k].0 == name && forall k' :: 0 <= k' < k ==> entries[k'].0 != name
  }

  /** d.get reads the first entry of that name. */
  lemma {:induction false} GetFieldFirst(entries: seq<(string, Value)>, name: string, default: Value)
    ensures forall k :: FirstAt(entries, name, k) ==> GetField(entries, name, default) == entries[k].1
  {
    if entries != [] && entries[0].0 != name {
      var rest := entries[1..];
      GetFieldFirst(rest, name, default);
      forall k | FirstAt(entries, name, k) ensures GetField(entries, name, default) == entries[k].1 {
        assert FirstAt(rest, name, k - 1) by {
          forall k' | 0 <= k' < k - 1 ensures rest[k'].0 != name {
            assert rest[k'] == entries[k' + 1];
          }
        }
      }
    }
  }

  // ---------------------------------------------------------------------------
  // Whitespace and str.strip()

  /** The characters str.strip() removes: Python's Unicode whitespace. */
  predicate IsSpace(c: char) {
    || c == ' ' || ('\t' <= c <= '\r') || ('\U{1C}' <= c <= '\U{1F}')
    || c == '\U{85}' || c == '\U{A0}' || c == '\U{1680}'
    || ('\U{2000}' <= c <= '\U{200A}') || c == '\U{2028}' || c == '\U{2029}'
    || c == '\U{202F}' || c == '\U{205F}' || c == '\U{3000}'
  }

  /** The number of whitespace characters s begins with. */
  function LeadingSpaces(s: string): (i: nat)
    ensures i <= |s|
  {
    if s != [] && IsSpace(s[0]) then 1 + LeadingSpaces(s[1..]) else 0
  }

  /** Where the whitespace s ends with begins. */
  function TrailingStart(s: string): (j: nat)
    ensures j <= |s|
  {
    if s != [] && IsSpace(s[|s| - 1]) then TrailingStart(s[..|s| - 1]) else |s|
  }

  lemma {:induction false} LeadingSpacesSpec(s: string)
    ensures forall k :: 0 <= k < LeadingSpaces(s) ==> IsSpace(s[k])
    ensures LeadingSpaces(s) == |s| || !IsSpace(s[LeadingSpaces(s)])
  {
    if s != [] && IsSpace(s[0]) {
      var t := s[1..];
      LeadingSpacesSpec(t);
      forall k | 0 <= k < LeadingSpaces(s) ensures IsSpace(s[k]) {
        if k > 0 { assert s[k] == t[k - 1]; }
      }
      if LeadingSpaces(s) < |s| {
        assert s[LeadingSpaces(s)] == t[LeadingSpaces(t)];
      }
    }
  }

  lemma {:induction false} TrailingStartSpec(s: string)
    ensures forall k :: TrailingStart(s) <= k < |s| ==> IsSpace(s[k])
    ensures TrailingStart(s) == 0 || !IsSpace(s[TrailingStart(s) - 1])
  {
    if s != [] && IsSpace(s[|s| - 1]) {
      var t := s[..|s| - 1];
      TrailingStartSpec(t);
      forall k | TrailingStart(s) <= k < |s| ensures IsSpace(s[k]) {
        if k < |t| { assert s[k] == t[k]; }
      }
      if TrailingStart(s) > 0 {
        assert s[TrailingStart(s) - 1] == t[TrailingStart(t) - 1];
      }
    }
  }

  /** str.strip(): drop leading and trailing whitespace. */
  function Strip(s: string): string {
    var e := s[..TrailingStart(s)];
    e[LeadingSpaces(e)..]
  }

  /** A string is stripped when it neither begins nor ends with whitespace. */
  predicate IsStripped(s: string) {
    s == [] || (!IsSpace(s[0]) && !IsSpace(s[|s| - 1]))
  }

  /** strip() leaves a contiguous piece of its input, cut only at whitespace. */
  lemma StripShape(s: string)
    ensures exists i, j :: 0 <= i <= j <= |s| && Strip(s) == s[i..j]
              && (forall k :: 0 <= k < i ==> IsSpace(s[k]))
              && (forall k :: j <= k < |s| ==> IsSpace(s[k]))
  {
    var j := TrailingStart(s);
    var e := s[..j];
    var i := LeadingSpaces(e);
    TrailingStartSpec(s);
    LeadingSpacesSpec(e);
    assert Strip(s) == s[i..j];
    forall k | 0 <= k < i ensures IsSpace(s[k]) { assert s[k] == e[k]; }
  }

  /** What strip() leaves is stripped. */
  lemma StripIsStripped(s: string)
    ensures IsStripped(Strip(s))
  {
    var j := TrailingStart(s);
    var e := s[..j];
    var i := LeadingSpaces(e);
    TrailingStartSpec(s);
    LeadingSpacesSpec(e);
    var r := Strip(s);
    if r != [] {
      assert r[0] == e[i];
      assert r[|r| - 1] == s[j - 1];
    }
  }

  /** strip() is idempotent. */
  lemma StripIdempotent(s: string)
    ensures Strip(Strip(s)) == Strip(s)
  {
    StripIsStripped(s);
    StrippedIsFixed(Strip(s));
  }

  /** A stripped string is left as it is by strip(). */
  lemma StrippedIsFixed(t: string)
    requires IsStripped(t)
    ensures Strip(t) == t
  {
    assert TrailingStart(t) == |t|;
    assert t[..|t|] == t;
    assert LeadingSpaces(t) == 0;
  }

  // ---------------------------------------------------------------------------
  // Decimal digits: str.isdigit(), int() of a digit string, str() of an int

  predicate IsDigit(c: char) { '0' <= c <= '9' }

  /** str.isdigit() on the ASCII digits: non-empty and digits only. */
  predicate IsDigits(s: string) {
    |s| > 0 && forall k :: 0 <= k < |s| ==> IsDigit(s[k])
  }

  function DigitValue(c: char): nat
    requires IsDigit(c)
  {
    (c as int) - ('0' as int)
  }

  function DigitChar(d: nat): (c: char)
    requires d < 10
    ensures IsDigit(c) && DigitValue(c) == d
  {
    (('0' as int) + d) as char
  }

  /** The number a string of digits denotes (int() of it). */
  function DigitsValue(s: string): nat
    requires forall k :: 0 <= k < |s| ==> IsDigit(s[k])
  {
    if s == [] then 0 else DigitsValue(s[..|s| - 1]) * 10 + DigitValue(s[|s| - 1])
  }

  /** The canonical decimal digits of a natural number. */
  function Digits(n: nat): (r: string)
    ensures IsDigits(r)
  {
    if n < 10 then [DigitChar(n)] else Digits(n / 10) + [DigitChar(n % 10)]
  }

  /** str() of an int. */
  function Decimal(i: int): string {
    if i < 0 then "-" + Digits(-i) else Digits(i)
  }

  /** Reading back the digits of n gives n. */
  lemma {:induction false} DigitsRoundTrip(n: nat)
    ensures DigitsValue(Digits(n)) == n
  {
    if n >= 10 {
      DigitsRoundTrip(n / 10);
      var d := Digits(n);
      assert d[..|d| - 1] == Digits(n / 10);
    }
  }

  /** The canonical digits never start with a zero, except "0" itself. */
  lemma {:induction false} DigitsCanonical(n: nat)
    ensures HasNoLeadingZero(Digits(n))
  {
    if n >= 10 {
      DigitsCanonical(n / 10);
      assert Digits(n)[0] == Digits(n / 10)[0];
    }
  }

  predicate HasNoLeadingZero(s: string) {
    |s| > 0 && (s[0] != '0' || |s| == 1)
  }

  /** Drop leading zeros, keeping at least one digit. */
  function DropLeadingZeros(s: string): (r: string)
    requires IsDigits(s)
    ensures IsDigits(r) && HasNoLeadingZero(r)
    ensures |r| <= |s| && r == s[|s| - |r|..]
  {
    if |s| > 1 && s[0] == '0' then DropLeadingZeros(s[1..]) else s
  }

  /** A leading zero does not change the value of a digit string. */
  lemma {:induction false} LeadingZeroValue(t: string)
    requires forall k :: 0 <= k < |t| ==> IsDigit(t[k])
    ensures DigitsValue("0" + t) == DigitsValue(t)
  {
    if t != [] {
      var z := "0" + t;
      assert z[..|z| - 1] == "0" + t[..|t| - 1];
      LeadingZeroValue(t[..|t| - 1]);
    }
  }

  /** A digit string without a leading zero of length two or more is worth at least 10. */
  lemma {:induction false} NoLeadingZeroValue(s: string)
    requires IsDigits(s) && HasNoLeadingZero(s)
    ensures |s| > 1 ==> DigitsValue(s) >= 10
    ensures |s| == 1 ==> DigitsValue(s) == DigitValue(s[0])
    ensures DigitsValue(s) > 0 || s == "0"
  {
    if |s| > 1 {
      var t := s[..|s| - 1];
      NoLeadingZeroValue(t);
    }
  }

  /** int() then str() of a digit string is the string with its leading zeros dropped. */
  lemma {:induction false} DigitsOfValue(s: string)
    requires IsDigits(s)
    ensures Digits(DigitsValue(s)) == DropLeadingZeros(s)
  {
    if |s| > 1 && s[0] == '0' {
      LeadingZeroValue(s[1..]);
      assert s == "0" + s[1..];
      DigitsOfValue(s[1..]);
    } else {
      CanonicalDigits(s);
    }
  }

  /** A digit string without leading zero is the canonical rendering of its value. */
  lemma {:induction false} CanonicalDigits(s: string)
    requires IsDigits(s) && HasNoLeadingZero(s)
    ensures Digits(DigitsValue(s)) == s
  {
    if |s| > 1 {
      var t := s[..|s| - 1];
      NoLeadingZeroValue(t);
      CanonicalDigits(t);
      var n := DigitsValue(s);
      assert n / 10 == DigitsValue(t) && n % 10 == DigitValue(s[|s| - 1]);
      assert DigitChar(n % 10) == s[|s| - 1];
      assert s == t + [s[|s| - 1]];
    } else {
      assert DigitChar(DigitValue(s[0])) == s[0];
    }
  }

  // ---------------------------------------------------------------------------
  // int(), str(), float()

  /** int() of a finite float: truncation toward zero. */
  function Truncate(x: real): (r: int)
    ensures 0.0 <= x ==> 0 <= r && r as real <= x < r as real + 1.0
    ensures x < 0.0 ==> r <= 0 && r as real - 1.0 < x <= r as real
  {
    if 0.0 <= x then x.Floor else -((-x).Floor)
  }

  /** str() of a value. */
  function StrOf(v: Value): string {
    match v
    case Null => "None"
    case Bool(b) => if b then "True" else "False"
    case Int(i) => Decimal(i)
    case Float(_, repr) => repr
    case Str(s) => s
    case List(_, repr) => repr
    case Dict(_, repr) => repr
  }

  function Pow10(k: nat): (r: nat)
    ensures r > 0
  {
    if k == 0 then 1 else 10 * Pow10(k - 1)
  }

  predicate AllDigits(s: string) {
    forall k :: 0 <= k < |s| ==> IsDigit(s[k])
  }

  /** The value of an unsigned decimal literal `ddd`, `ddd.ddd`, `.ddd` or `ddd.`. */
  function UnsignedDecimal(t: string): Option<real> {
    if IsDigits(t) then Some(DigitsValue(t) as real)
    else if exists k :: 0 <= k < |t| && t[k] == '.' then
      var k :| 0 <= k < |t| && t[k] == '.';
      var whole, frac := t[..k], t[k + 1..];
      if AllDigits(whole) && AllDigits(frac) && |whole| + |frac| > 0 then
        Some(DigitsValue(whole) as real + DigitsValue(frac) as real / Pow10(|frac|) as real)
      else None
    else None
  }

  /** float() of a string: surrounding whitespace, an optional sign, then a
      plain decimal literal. */
  function ParseFloat(s: string): Option<real> {
    var t := Strip(s);
    if t != [] && (t[0] == '-' || t[0] == '+') then
      match UnsignedDecimal(t[1..])
      case None => None
      case Some(x) => Some(if t[0] == '-' then -x else x)
    else UnsignedDecimal(t)
  }

  /** float() of a value; None where Python raises. */
  function ToFloat(v: Value): (r: Option<real>)
    ensures v.Null? || v.List? || v.Dict? ==> r == None
    ensures v.Int? ==> r == Some(v.i as real)
    ensures v.Float? ==> r == Some(v.x)
  {
    match v
    case Null => None
    case Bool(b) => Some(if b then 1.0 else 0.0)
    case Int(i) => Some(i as real)
    case Float(x, _) => Some(x)
    case Str(s) => ParseFloat(s)
    case List(_, _) => None
    case Dict(_, _) => None
  }

  /** float() reads back the decimal rendering of an integer. */
  lemma FloatOfDecimal(n: nat)
    ensures ParseFloat(Digits(n)) == Some(n as real)
  {
    var d := Digits(n);
    DigitsRoundTrip(n);
    assert IsStripped(d) by { assert IsDigit(d[0]) && IsDigit(d[|d| - 1]); }
    StrippedIsFixed(d);
    assert d[0] != '-' && d[0] != '+' by { assert IsDigit(d[0]); }
    assert UnsignedDecimal(d) == Some(n as real);
  }
}
