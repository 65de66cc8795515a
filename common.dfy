/** Small helpers shared by the model: optional values, results with a reason,
    and the two ways the source cuts a list short. */
module Common {

  datatype Option<+T> = None | Some(value: T)

  datatype Result<+T, +E> = Ok(value: T) | Err(error: E)

  function Min(a: int, b: int): int { if a <= b then a else b }

  function Max(a: int, b: int): int { if a <= b then b else a }

  /** The first n elements of s, or all of s when it is shorter. */
  function Take<T>(s: seq<T>, n: nat): (r: seq<T>)
    ensures |r| == Min(n, |s|)
    ensures r == s[..|r|]
  {
    if |s| <= n then s else s[..n]
  }

  /** Python's slice s[:n] for any integer n: a negative n counts from the end. */
  function PySlice<T>(s: seq<T>, n: int): (r: seq<T>)
    ensures 0 <= n ==> |r| == Min(n, |s|)
    ensures n < 0 ==> |r| == Max(0, |s| + n)
    ensures r == s[..|r|]
  {
    if 0 <= n then Take(s, n)
    else if |s| + n <= 0 then []
    else s[..|s| + n]
  }

  /** No element occurs twice. */
  predicate NoDup<T(==)>(s: seq<T>) {
    forall i, j :: 0 <= i < j < |s| ==> s[i] != s[j]
  }

  /** The set of elements of s. */
  function Elements<T>(s: seq<T>): set<T> {
    set x | x in s
  }

  /** A sequence without repetitions has exactly as many elements as its set. */
  lemma {:induction false} NoDupCardinality<T>(s: seq<T>)
    requires NoDup(s)
    ensures |Elements(s)| == |s|
  {
    if s != [] {
      var t := s[..|s| - 1];
      var x := s[|s| - 1];
      assert NoDup(t);
      NoDupCardinality(t);
      assert s == t + [x];
      assert x !in t by {
        forall k | 0 <= k < |t| ensures t[k] != x {
          assert s[k] == t[k] && s[|s| - 1] == x;
        }
      }
      assert Elements(s) == Elements(t) + {x};
    }
  }
}
