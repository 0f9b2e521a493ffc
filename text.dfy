/** Strings as Python handles them in the layout scripts: code-point ordering,
    `str.split`, `str(int)`, `int(str)`, `startswith` and slicing. */
module Text {
  import opened Common

  // ---------------------------------------------------------------------------
  // Ordering: Python compares strings code point by code point.

  predicate LexLess(a: string, b: string) {
    if a == [] then b != []
    else if b == [] then false
    else if a[0] < b[0] then true
    else if a[0] == b[0] then LexLess(a[1..], b[1..])
    else false
  }

  predicate LexLe(a: string, b: string) {
    a == b || LexLess(a, b)
  }

  lemma {:induction false} LexLessIrreflexive(a: string)
    ensures !LexLess(a, a)
  {
    if a != [] {
      LexLessIrreflexive(a[1..]);
    }
  }

  lemma {:induction false} LexLessAsymmetric(a: string, b: string)
    requires LexLess(a, b)
    ensures !LexLess(b, a)
  {
    if a != [] && b != [] && a[0] == b[0] {
      LexLessAsymmetric(a[1..], b[1..]);
    }
  }

  lemma {:induction false} LexLessTransitive(a: string, b: string, c: string)
    requires LexLess(a, b) && LexLess(b, c)
    ensures LexLess(a, c)
  {
    if a != [] && b != [] && c != [] && a[0] == b[0] && b[0] == c[0] {
      LexLessTransitive(a[1..], b[1..], c[1..]);
    }
  }

  /** Two different strings are always ordered one way or the other. */
  lemma {:induction false} LexLessTotal(a: string, b: string)
    requires a != b
    ensures LexLess(a, b) || LexLess(b, a)
  {
    if a != [] && b != [] && a[0] == b[0] {
      assert a == [a[0]] + a[1..] && b == [b[0]] + b[1..];
      LexLessTotal(a[1..], b[1..]);
    }
  }

  // ---------------------------------------------------------------------------
  // Prefixes and slices.

  predicate StartsWith(s: string, prefix: string) {
    |prefix| <= |s| && s[..|prefix|] == prefix
  }

  /** Python's `s[:n]` for n >= 0: the first n characters, or all of a shorter string. */
  function Take(s: string, n: nat): (r: string)
    ensures |r| == if |s| < n then |s| else n
    ensures StartsWith(s, r)
  {
    if |s| <= n then s else s[..n]
  }

  // ---------------------------------------------------------------------------
  // `s.split(c)` for a one-character separator.

  function Split(s: string, c: char): (parts: seq<string>)
    ensures |parts| >= 1
    ensures forall k :: 0 <= k < |parts| ==> c !in parts[k]
    ensures c !in s ==> parts == [s]
    ensures c in s <==> |parts| >= 2
    decreases |s|
  {
    if s == [] then [""]
    else
      var rest := Split(s[1..], c);
      if s[0] == c then [""] + rest
      else
        assert s == [s[0]] + s[1..];
        assert c in s <==> c in s[1..];
        [[s[0]] + rest[0]] + rest[1..]
  }

  /** The first piece of `s.split(c)` is everything before the first separator. */
  lemma {:induction false} SplitFirst(s: string, c: char)
    ensures StartsWith(s, Split(s, c)[0])
    ensures |Split(s, c)[0]| == |s| || s[|Split(s, c)[0]|] == c
  {
    if s != [] && s[0] != c {
      SplitFirst(s[1..], c);
    }
  }

  /** The last piece of `s.split(c)` is everything after the last separator. */
  lemma {:induction false} SplitLast(s: string, c: char)
    ensures var last := Split(s, c)[|Split(s, c)| - 1];
      && |last| <= |s|
      && s[|s| - |last|..] == last
      && (|last| == |s| || s[|s| - |last| - 1] == c)
  {
    if s != [] {
      SplitLast(s[1..], c);
      var rest := Split(s[1..], c);
      var last := rest[|rest| - 1];
      if s[0] != c && |rest| == 1 {
        assert Split(s, c) == [[s[0]] + rest[0]];
        assert s == [s[0]] + s[1..];
      } else {
        assert Split(s, c)[|Split(s, c)| - 1] == last;
        assert s[|s| - |last|..] == s[1..][|s| - 1 - |last|..];
      }
    }
  }

  // ---------------------------------------------------------------------------
  // Decimal text: `str(n)` and `int(s)`.

  function DigitChar(d: nat): char
    requires d < 10
  {
    ('0' as int + d) as char
  }

  predicate IsDigit(ch: char) {
    '0' <= ch <= '9'
  }

  function DigitValue(ch: char): nat
    requires IsDigit(ch)
  {
    (ch as int - '0' as int) as nat
  }

  /** `str(n)` for a natural number: decimal digits, no leading zero. */
  function NatToString(n: nat): (s: string)
    ensures |s| >= 1
  {
    if n < 10 then [DigitChar(n)] else NatToString(n / 10) + [DigitChar(n % 10)]
  }

  /** `str(n)` is all decimal digits, with no leading zero unless n is 0. */
  lemma {:induction false} NatToStringDigits(n: nat)
    ensures AllDigits(NatToString(n))
    ensures NatToString(n)[0] != '0' || n == 0
  {
    if n >= 10 {
      NatToStringDigits(n / 10);
    }
  }

  /** `str(n)` for any integer. */
  function IntToString(n: int): (s: string)
    ensures |s| >= 1
  {
    if n < 0 then "-" + NatToString(-n) else NatToString(n)
  }

  predicate AllDigits(s: string) {
    forall k :: 0 <= k < |s| ==> IsDigit(s[k])
  }

  /** Value of a run of decimal digits, most significant first. */
  function DigitsValue(s: string): nat
    requires AllDigits(s)
  {
    if s == [] then 0 else DigitsValue(s[..|s| - 1]) * 10 + DigitValue(s[|s| - 1])
  }

  /** `int(s)`: an optional sign followed by at least one decimal digit; anything
      else is the ValueError that Python raises, here `None`. */
  function ParseInt(s: string): (r: Option<int>)
    ensures r.Some? ==> |s| >= 1
  {
    if |s| >= 2 && (s[0] == '-' || s[0] == '+') && AllDigits(s[1..]) then
      var v: int := DigitsValue(s[1..]);
      Some(if s[0] == '-' then -v else v)
    else if |s| >= 1 && AllDigits(s) then Some(DigitsValue(s))
    else None
  }

  lemma {:induction false} DigitsValueOfNatToString(n: nat)
    ensures AllDigits(NatToString(n)) && DigitsValue(NatToString(n)) == n
  {
    var s := NatToString(n);
    if n >= 10 {
      DigitsValueOfNatToString(n / 10);
      assert s[..|s| - 1] == NatToString(n / 10);
    }
  }

  /** `int(str(n)) == n`. */
  lemma {:induction false} ParseIntOfIntToString(n: int)
    ensures ParseInt(IntToString(n)) == Some(n)
  {
    var s := IntToString(n);
    if n < 0 {
      var t := NatToString(-n);
      DigitsValueOfNatToString(-n);
      assert s == "-" + t;
      assert s[1..] == t;
      assert |s| >= 2 && s[0] == '-' && AllDigits(s[1..]);
    } else {
      var t := NatToString(n);
      DigitsValueOfNatToString(n);
      assert s == t;
      assert IsDigit(s[0]);
      assert !(s[0] == '-' || s[0] == '+');
    }
  }

  // ---------------------------------------------------------------------------
  // Single quotes inside a WIQL string literal are written twice.

  function CountChar(s: string, c: char): nat {
    if s == [] then 0 else (if s[0] == c then 1 else 0) + CountChar(s[1..], c)
  }

  /** `s.replace("'", "''")`. */
  function EscapeQuotes(s: string): (r: string)
    ensures |r| == |s| + CountChar(s, '\'')
  {
    if s == [] then []
    else (if s[0] == '\'' then "''" else [s[0]]) + EscapeQuotes(s[1..])
  }

  /** How a WIQL reader recovers the text of a quoted literal: a doubled quote
      stands for one quote, and a lone quote would end the literal. */
  function UnescapeQuotes(r: string): Option<string>
  {
    if r == [] then Some([])
    else if r[0] == '\'' then
      if |r| >= 2 && r[1] == '\'' then
        match UnescapeQuotes(r[2..])
        case Some(t) => Some(['\''] + t)
        case None => None
      else None
    else
      match UnescapeQuotes(r[1..])
      case Some(t) => Some([r[0]] + t)
      case None => None
  }

  /** Escaping loses nothing and leaves no lone quote that would end the literal early. */
  lemma {:induction false} UnescapeEscape(s: string)
    ensures UnescapeQuotes(EscapeQuotes(s)) == Some(s)
  {
    if s != [] {
      UnescapeEscape(s[1..]);
      var r := EscapeQuotes(s);
      if s[0] == '\'' {
        assert r[2..] == EscapeQuotes(s[1..]);
      } else {
        assert r[1..] == EscapeQuotes(s[1..]);
      }
      assert s == [s[0]] + s[1..];
    }
  }
}
