/** Small shared vocabulary: an optional value, the stand-in for a Python value
    that may be `None` or a dictionary key that may be missing. */
module Common {

  datatype Option<+T> = None | Some(value: T) {
    function GetOr(default: T): T {
      match this
      case Some(v) => v
      case None => default
    }
  }

  /** True when no element occurs twice. */
  predicate NoDuplicates<T(==)>(s: seq<T>) {
    forall i, j :: 0 <= i < j < |s| ==> s[i] != s[j]
  }

  /** Sum of a sequence of integers, added from the left as Python's `sum` does. */
  function Sum(s: seq<int>): int {
    if s == [] then 0 else Sum(s[..|s| - 1]) + s[|s| - 1]
  }

  lemma {:induction false} SumNonNegative(s: seq<int>)
    requires forall i :: 0 <= i < |s| ==> s[i] >= 0
    ensures Sum(s) >= 0
  {
    if s != [] {
      SumNonNegative(s[..|s| - 1]);
    }
  }

  /** The set of a sequence's elements. */
  function Elements<T>(s: seq<T>): set<T> {
    set x | x in s
  }

  lemma ElementsConcat<T>(a: seq<T>, b: seq<T>)
    ensures Elements(a + b) == Elements(a) + Elements(b)
  {
  }

  /** One more element of a prefix. */
  lemma TakeSnoc<T>(s: seq<T>, i: nat)
    requires i < |s|
    ensures s[..i + 1] == s[..i] + [s[i]]
  {
  }

  lemma ConcatAssoc<T>(a: seq<T>, b: seq<T>, c: seq<T>)
    ensures (a + b) + c == a + (b + c)
  {
  }

  function Max(a: int, b: int): int {
    if a >= b then a else b
  }

  /** The largest element of s, or 0 for the empty sequence (a running maximum that
      starts at 0). */
  function MaxOf(s: seq<int>): int {
    if |s| == 0 then 0 else Max(MaxOf(s[..|s| - 1]), s[|s| - 1])
  }

  /** Extending the sequence by one element takes the larger of the two. */
  lemma MaxOfSnoc(s: seq<int>, x: int)
    ensures MaxOf(s + [x]) == Max(MaxOf(s), x)
  {
    assert (s + [x])[..|s|] == s;
  }

  /** Every element is at most the maximum. */
  lemma {:induction false} MaxOfBound(s: seq<int>, i: nat)
    requires i < |s|
    ensures s[i] <= MaxOf(s)
  {
    if i < |s| - 1 {
      MaxOfBound(s[..|s| - 1], i);
    }
  }

  /** Over non-negative elements the maximum is one of them. */
  lemma {:induction false} MaxOfAttained(s: seq<int>) returns (i: nat)
    requires |s| > 0
    requires forall k :: 0 <= k < |s| ==> s[k] >= 0
    ensures i < |s| && MaxOf(s) == s[i]
  {
    if |s| == 1 {
      i := 0;
    } else {
      var p := s[..|s| - 1];
      var j := MaxOfAttained(p);
      i := if MaxOf(p) >= s[|s| - 1] then j else |s| - 1;
    }
  }
}
