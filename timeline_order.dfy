/** The iteration axis of gen-timeline.py: which iterations get a column, in
    which order, their labels and date text, and the colour track of each. */
module TimelineOrder {
  import opened Common
  import opened Text
  import opened Collections
  import opened WorkItems

  /** The "iterations" map: path to dates, in the map's key order. */
  type Iterations = seq<(string, IterDates)>

  // ---------------------------------------------------------------------------
  // Ordering.

  type SortKey = (string, string, string)

  /** `iter_sort_key(path, iterations)`: start, finish and path, with a missing
      entry or date read as "". */
  function KeyOf(iters: Iterations, path: string): SortKey {
    var info := Lookup(iters, path).GetOr(IterDates(None, None));
    (info.start.GetOr(""), info.finish.GetOr(""), path)
  }

  /** Python's tuple comparison: the first component that differs decides. */
  predicate KeyLess(a: SortKey, b: SortKey) {
    || LexLess(a.0, b.0)
    || (a.0 == b.0 && LexLess(a.1, b.1))
    || (a.0 == b.0 && a.1 == b.1 && LexLess(a.2, b.2))
  }

  predicate KeyLe(a: SortKey, b: SortKey) {
    a == b || KeyLess(a, b)
  }

  lemma KeyLessIrreflexive(a: SortKey)
    ensures !KeyLess(a, a)
  {
    LexLessIrreflexive(a.0);
    LexLessIrreflexive(a.1);
    LexLessIrreflexive(a.2);
  }

  lemma KeyLessTransitive(a: SortKey, b: SortKey, c: SortKey)
    requires KeyLess(a, b) && KeyLess(b, c)
    ensures KeyLess(a, c)
  {
    if LexLess(a.0, b.0) && LexLess(b.0, c.0) {
      LexLessTransitive(a.0, b.0, c.0);
    } else if a.0 == b.0 && b.0 == c.0 {
      if LexLess(a.1, b.1) && LexLess(b.1, c.1) {
        LexLessTransitive(a.1, b.1, c.1);
      } else if a.1 == b.1 && b.1 == c.1 {
        LexLessTransitive(a.2, b.2, c.2);
      }
    }
  }

  lemma KeyLessAsymmetric(a: SortKey, b: SortKey)
    requires KeyLess(a, b)
    ensures !KeyLess(b, a)
  {
    if KeyLess(b, a) {
      KeyLessTransitive(a, b, a);
      KeyLessIrreflexive(a);
    }
  }

  /** Two different keys are ordered one way or the other. */
  lemma KeyLessTotal(a: SortKey, b: SortKey)
    requires a != b
    ensures KeyLess(a, b) || KeyLess(b, a)
  {
    if a.0 != b.0 {
      LexLessTotal(a.0, b.0);
    } else if a.1 != b.1 {
      LexLessTotal(a.1, b.1);
    } else {
      LexLessTotal(a.2, b.2);
    }
  }

  /** The key ends with the path, so different paths never tie: the key order is a
      strict total order on paths. */
  lemma PathsOrdered(iters: Iterations, p: string, q: string)
    requires p != q
    ensures KeyLess(KeyOf(iters, p), KeyOf(iters, q)) != KeyLess(KeyOf(iters, q), KeyOf(iters, p))
  {
    KeyLessTotal(KeyOf(iters, p), KeyOf(iters, q));
    if KeyLess(KeyOf(iters, p), KeyOf(iters, q)) {
      KeyLessAsymmetric(KeyOf(iters, p), KeyOf(iters, q));
    }
  }

  predicate SortedByKey(iters: Iterations, ps: seq<string>) {
    forall i, j :: 0 <= i < j < |ps| ==> KeyLe(KeyOf(iters, ps[i]), KeyOf(iters, ps[j]))
  }

  lemma SortedTail(iters: Iterations, a: seq<string>)
    requires SortedByKey(iters, a) && a != []
    ensures SortedByKey(iters, a[1..])
  {
    forall i, j | 0 <= i < j < |a| - 1
      ensures KeyLe(KeyOf(iters, a[1..][i]), KeyOf(iters, a[1..][j]))
    {
      assert a[1..][i] == a[i + 1] && a[1..][j] == a[j + 1];
    }
  }

  /** A path whose key is below the head of a sorted list is below all of it. */
  lemma BelowHead(iters: Iterations, ps: seq<string>, p: string)
    requires SortedByKey(iters, ps) && ps != [] && KeyLess(KeyOf(iters, p), KeyOf(iters, ps[0]))
    ensures SortedByKey(iters, [p] + ps)
  {
    forall j | 0 <= j < |ps| ensures KeyLe(KeyOf(iters, p), KeyOf(iters, ps[j])) {
      if j > 0 && KeyOf(iters, ps[0]) != KeyOf(iters, ps[j]) {
        KeyLessTransitive(KeyOf(iters, p), KeyOf(iters, ps[0]), KeyOf(iters, ps[j]));
      }
    }
    assert forall j :: 0 < j < |[p] + ps| ==> ([p] + ps)[j] == ps[j - 1];
  }

  /** The head of a sorted list stays first when p, not below it, goes into the
      rest. */
  lemma AboveHead(iters: Iterations, ps: seq<string>, p: string, rest: seq<string>)
    requires SortedByKey(iters, ps) && ps != [] && !KeyLess(KeyOf(iters, p), KeyOf(iters, ps[0]))
    requires SortedByKey(iters, rest) && multiset(rest) == multiset(ps[1..]) + multiset{p}
    ensures SortedByKey(iters, [ps[0]] + rest)
  {
    assert KeyLe(KeyOf(iters, ps[0]), KeyOf(iters, p)) by {
      if KeyOf(iters, p) != KeyOf(iters, ps[0]) {
        KeyLessTotal(KeyOf(iters, p), KeyOf(iters, ps[0]));
      }
    }
    forall y | y in rest ensures KeyLe(KeyOf(iters, ps[0]), KeyOf(iters, y)) {
      assert y in multiset(rest);
      if y != p {
        assert y in multiset(ps[1..]);
        var j :| 0 <= j < |ps[1..]| && ps[1..][j] == y;
        assert ps[j + 1] == y;
      }
    }
    assert forall j :: 0 < j < |[ps[0]] + rest| ==> ([ps[0]] + rest)[j] == rest[j - 1];
  }

  function InsertByKey(iters: Iterations, ps: seq<string>, p: string): (r: seq<string>)
    requires SortedByKey(iters, ps)
    ensures SortedByKey(iters, r)
    ensures multiset(r) == multiset(ps) + multiset{p}
  {
    if ps == [] then [p]
    else if KeyLess(KeyOf(iters, p), KeyOf(iters, ps[0])) then
      BelowHead(iters, ps, p);
      [p] + ps
    else
      SortedTail(iters, ps);
      var rest := InsertByKey(iters, ps[1..], p);
      AboveHead(iters, ps, p, rest);
      assert ps == [ps[0]] + ps[1..];
      [ps[0]] + rest
  }

  /** `sorted(ps, key=...)`, built by insertion; by SortedByKeyUnique every sort
      of these paths by this key gives the same list. */
  function SortByKey(iters: Iterations, ps: seq<string>): (r: seq<string>)
    ensures SortedByKey(iters, r)
    ensures multiset(r) == multiset(ps)
  {
    if ps == [] then []
    else
      assert ps == ps[..|ps| - 1] + [ps[|ps| - 1]];
      InsertByKey(iters, SortByKey(iters, ps[..|ps| - 1]), ps[|ps| - 1])
  }

  /** The first element of a sorted list has the least key. */
  lemma SortedHeadLeast(iters: Iterations, a: seq<string>, x: string)
    requires SortedByKey(iters, a) && x in a
    ensures KeyLe(KeyOf(iters, a[0]), KeyOf(iters, x))
  {
    var i :| 0 <= i < |a| && a[i] == x;
  }

  /** Two sorted arrangements of the same paths start with the same path. */
  lemma SortedHeadsEqual(iters: Iterations, a: seq<string>, b: seq<string>)
    requires SortedByKey(iters, a) && SortedByKey(iters, b)
    requires multiset(a) == multiset(b) && a != []
    ensures b != [] && a[0] == b[0]
  {
    assert a[0] in multiset(b) && b[0] in multiset(a);
    SortedHeadLeast(iters, b, a[0]);
    SortedHeadLeast(iters, a, b[0]);
    if KeyOf(iters, a[0]) != KeyOf(iters, b[0]) {
      KeyLessAsymmetric(KeyOf(iters, a[0]), KeyOf(iters, b[0]));
    }
  }

  lemma MultisetTails(a: seq<string>, b: seq<string>)
    requires a != [] && b != [] && a[0] == b[0] && multiset(a) == multiset(b)
    ensures multiset(a[1..]) == multiset(b[1..])
  {
    assert a == [a[0]] + a[1..] && b == [b[0]] + b[1..];
    assert multiset(a[1..]) == multiset(a) - multiset{a[0]};
    assert multiset(b[1..]) == multiset(b) - multiset{b[0]};
  }

  /** The list sorted by this key is determined by its elements: two sorted
      arrangements of the same paths are equal. */
  lemma {:induction false} SortedByKeyUnique(iters: Iterations, a: seq<string>, b: seq<string>)
    requires SortedByKey(iters, a) && SortedByKey(iters, b)
    requires multiset(a) == multiset(b)
    ensures a == b
  {
    if a == [] {
      assert |multiset(b)| == 0;
    } else {
      SortedHeadsEqual(iters, a, b);
      MultisetTails(a, b);
      SortedTail(iters, a);
      SortedTail(iters, b);
      SortedByKeyUnique(iters, a[1..], b[1..]);
      assert a == [a[0]] + a[1..] && b == [b[0]] + b[1..];
    }
  }

  /** `[k for k, v in iterations.items() if "start" in v]`. */
  function DatedPaths(iters: Iterations): (ps: seq<string>)
    ensures forall i :: 0 <= i < |iters| && iters[i].1.start.Some? ==> iters[i].0 in ps
    ensures forall p :: p in ps ==> exists i :: 0 <= i < |iters| && iters[i].0 == p && iters[i].1.start.Some?
  {
    if iters == [] then []
    else
      var last := iters[|iters| - 1];
      var rest := DatedPaths(iters[..|iters| - 1]);
      assert forall i :: 0 <= i < |iters| - 1 ==> iters[..|iters| - 1][i] == iters[i];
      rest + (if last.1.start.Some? then [last.0] else [])
  }

  /** `iter_order`: the dated paths sorted by `iter_sort_key`. */
  function IterOrder(iters: Iterations): seq<string> {
    SortByKey(iters, DatedPaths(iters))
  }

  /** The iteration order holds exactly the iterations with a start date, each as
      often as the map lists it, ascending by (start, finish, path). */
  lemma IterOrderSpec(iters: Iterations)
    ensures SortedByKey(iters, IterOrder(iters))
    ensures multiset(IterOrder(iters)) == multiset(DatedPaths(iters))
    ensures forall p :: p in IterOrder(iters) <==>
      exists i :: 0 <= i < |iters| && iters[i].0 == p && iters[i].1.start.Some?
  {
    var r := IterOrder(iters);
    forall p
      ensures p in r <==> exists i :: 0 <= i < |iters| && iters[i].0 == p && iters[i].1.start.Some?
    {
      assert p in r <==> p in multiset(r);
      assert p in DatedPaths(iters) <==> p in multiset(DatedPaths(iters));
    }
  }

  // ---------------------------------------------------------------------------
  // Labels.

  /** `iter_label`: the last backslash-separated segment. */
  function IterLabel(path: string): (last: string)
    ensures '\\' !in last
    ensures '\\' !in path ==> last == path
  {
    Split(path, '\\')[|Split(path, '\\')| - 1]
  }

  /** `iter_track`: the first backslash-separated segment. */
  function IterTrack(path: string): (track: string)
    ensures '\\' !in track
    ensures '\\' !in path ==> track == path
  {
    Split(path, '\\')[0]
  }

  /** The label is what follows the last backslash. */
  lemma IterLabelIsSuffix(path: string)
    ensures |IterLabel(path)| <= |path|
    ensures path[|path| - |IterLabel(path)|..] == IterLabel(path)
    ensures |IterLabel(path)| == |path| || path[|path| - |IterLabel(path)| - 1] == '\\'
  {
    SplitLast(path, '\\');
  }

  /** The track is what precedes the first backslash. */
  lemma IterTrackIsPrefix(path: string)
    ensures StartsWith(path, IterTrack(path))
    ensures |IterTrack(path)| == |path| || path[|IterTrack(path)|] == '\\'
  {
    SplitFirst(path, '\\');
  }

  const MONTHS: seq<string> := ["Jan", "Feb", "Mar", "Apr", "May", "Jun",
                                "Jul", "Aug", "Sep", "Oct", "Nov", "Dec"]

  /** `months[i]` as Python indexes a list: a negative i counts from the end;
      outside -12..11 it is the IndexError, None. */
  function MonthAt(i: int): (r: Option<string>)
    ensures r.Some? <==> -12 <= i < 12
    ensures 0 <= i < 12 ==> r == Some(MONTHS[i])
  {
    if 0 <= i < 12 then Some(MONTHS[i])
    else if -12 <= i < 0 then Some(MONTHS[12 + i])
    else None
  }

  /** `format_date`: the month's name and the day number, or None where Python
      raises (too few parts, a part that is not a number, a month out of range). */
  function FormatDate(iso: string): Option<string> {
    var parts := Split(iso, '-');
    if |parts| < 3 then None
    else
      var month, day := ParseInt(parts[1]), ParseInt(parts[2]);
      if month.None? || day.None? || MonthAt(month.value - 1).None? then None
      else Some(MonthAt(month.value - 1).value + " " + IntToString(day.value))
  }

  /** Decimal digits hold no sign. */
  lemma DigitsUnsigned(s: string)
    requires AllDigits(s)
    ensures '-' !in s && (|s| >= 1 ==> s[0] != '+')
  {
  }

  lemma {:induction false} SplitAtFirst(a: string, b: string, c: char)
    requires c !in a
    ensures Split(a + [c] + b, c) == [a] + Split(b, c)
  {
    if a == [] {
      assert a + [c] + b == [c] + b;
      assert ([c] + b)[0] == c && ([c] + b)[1..] == b;
    } else {
      var s := a + [c] + b;
      assert s[0] == a[0] != c;
      assert s[1..] == a[1..] + [c] + b;
      SplitAtFirst(a[1..], b, c);
      var rest := Split(s[1..], c);
      assert rest[0] == a[1..] && rest[1..] == Split(b, c);
      assert [s[0]] + rest[0] == a;
    }
  }

  lemma SplitThree(y: string, m: string, d: string)
    requires '-' !in y && '-' !in m && '-' !in d
    ensures Split(y + "-" + m + "-" + d, '-') == [y, m, d]
  {
    SplitAtFirst(m, d, '-');
    assert y + "-" + m + "-" + d == y + ['-'] + (m + ['-'] + d);
    SplitAtFirst(y, m + ['-'] + d, '-');
  }

  /** `int` of plain decimal digits is their value. */
  lemma ParseDigits(s: string)
    requires |s| >= 1 && AllDigits(s)
    ensures ParseInt(s) == Some(DigitsValue(s))
  {
    DigitsUnsigned(s);
  }

  /** A date written year-month-day with a month from 1 to 12 reads as the
      month's name, a space and the day without leading zeros. */
  lemma FormatIsoDate(y: string, m: string, d: string)
    requires '-' !in y
    requires |m| >= 1 && AllDigits(m) && 1 <= DigitsValue(m) <= 12
    requires |d| >= 1 && AllDigits(d)
    ensures FormatDate(y + "-" + m + "-" + d) == Some(MONTHS[DigitsValue(m) - 1] + " " + NatToString(DigitsValue(d)))
  {
    DigitsUnsigned(m);
    DigitsUnsigned(d);
    SplitThree(y, m, d);
    ParseDigits(m);
    ParseDigits(d);
  }

  lemma TwoDigits(s: string)
    requires |s| == 2 && AllDigits(s)
    ensures DigitsValue(s) == DigitValue(s[0]) * 10 + DigitValue(s[1])
  {
    var h := s[..1];
    assert h[..0] == [] && h[0] == s[0] && s[..|s| - 1] == h;
    assert DigitsValue(h) == DigitValue(s[0]);
  }

  lemma ExampleDateParts(iso: string) returns (y: string, m: string, d: string)
    requires iso == "2026-01-16"
    ensures iso == y + "-" + m + "-" + d && '-' !in y
    ensures |m| >= 1 && AllDigits(m) && DigitsValue(m) == 1
    ensures |d| >= 1 && AllDigits(d) && DigitsValue(d) == 16
  {
    y, m, d := iso[..4], iso[5..7], iso[8..];
    assert iso == y + "-" + m + "-" + d;
    assert m[0] == '0' && m[1] == '1' && d[0] == '1' && d[1] == '6' && |m| == |d| == 2;
    TwoDigits(m);
    TwoDigits(d);
  }

  /** The example of `format_date`'s own documentation. */
  lemma FormatDateExample(iso: string)
    requires iso == "2026-01-16"
    ensures FormatDate(iso) == Some("Jan 16")
  {
    var y, m, d := ExampleDateParts(iso);
    FormatIsoDate(y, m, d);
    assert NatToString(16) == NatToString(1) + [DigitChar(6)] == "16";
    assert MONTHS[0] + " " + "16" == "Jan 16";
  }

  // ---------------------------------------------------------------------------
  // Colour tracks.

  const TRACK_COLOURS := 4

  function TrackNames(order: seq<string>): (ts: seq<string>)
    ensures |ts| == |order| && forall i :: 0 <= i < |order| ==> ts[i] == IterTrack(order[i])
  {
    seq(|order|, i requires 0 <= i < |order| => IterTrack(order[i]))
  }

  /** Dedupe of a prefix is a prefix of Dedupe, so positions in first-seen order
      do not change as more elements are seen. */
  lemma {:induction false} DedupePrefix(s: seq<string>, n: nat, x: string)
    requires n <= |s| && x in s[..n]
    ensures x in Dedupe(s) && IndexOf(Dedupe(s[..n]), x) == IndexOf(Dedupe(s), x)
    decreases |s| - n
  {
    if n < |s| {
      assert s[..n + 1] == s[..n] + [s[n]];
      DedupeSnoc(s[..n], s[n]);
      DedupePrefix(s, n + 1, x);
    } else {
      assert s[..n] == s;
    }
  }

  /** The `seen_tracks` dict after seeing the distinct tracks ds in order: each
      track mapped to the number of tracks seen before it. */
  function SeenIndex(ds: seq<string>): map<string, nat> {
    if ds == [] then map[]
    else SeenIndex(ds[..|ds| - 1])[ds[|ds| - 1] := |ds| - 1]
  }

  lemma {:induction false} SeenIndexSpec(ds: seq<string>)
    requires NoDuplicates(ds)
    ensures forall t :: t in SeenIndex(ds) <==> t in ds
    ensures forall t :: t in ds ==> SeenIndex(ds)[t] == IndexOf(ds, t)
    ensures |SeenIndex(ds)| == |ds|
  {
    if ds != [] {
      var p, t := ds[..|ds| - 1], ds[|ds| - 1];
      assert ds == p + [t];
      SeenIndexSpec(p);
      assert t !in p;
      assert SeenIndex(p).Keys !! {t};
    }
  }

  /** For each element, its position among the distinct elements in order of
      first appearance. */
  function FirstSeenIndices(s: seq<string>): (ks: seq<nat>)
    ensures |ks| == |s|
  {
    if s == [] then []
    else FirstSeenIndices(s[..|s| - 1]) + [IndexOf(Dedupe(s), s[|s| - 1])]
  }

  lemma {:induction false} FirstSeenIndicesSpec(s: seq<string>, j: nat)
    requires j < |s|
    ensures s[j] in Dedupe(s) && FirstSeenIndices(s)[j] == IndexOf(Dedupe(s), s[j])
  {
    if j < |s| - 1 {
      var p := s[..|s| - 1];
      FirstSeenIndicesSpec(p, j);
      assert p[..|p|] == p && s[..|p|] == p;
      DedupePrefix(s, |p|, s[j]);
    }
  }

  /** Seeing a new track adds it with the number of tracks seen before it. */
  lemma SeenSnoc(ds: seq<string>, t: string)
    requires NoDuplicates(ds) && t !in ds
    ensures t !in SeenIndex(ds)
    ensures SeenIndex(ds + [t]) == SeenIndex(ds)[t := |SeenIndex(ds)|]
  {
    assert (ds + [t])[..|ds|] == ds;
    SeenIndexSpec(ds);
  }

  lemma SeenAt(ds: seq<string>, t: string)
    requires NoDuplicates(ds) && t in ds
    ensures t in SeenIndex(ds) && SeenIndex(ds)[t] == IndexOf(ds, t)
  {
    SeenIndexSpec(ds);
  }

  lemma FirstSeenSnoc(names: seq<string>, i: nat)
    requires i < |names|
    ensures names[i] in Dedupe(names[..i + 1])
    ensures FirstSeenIndices(names[..i + 1]) ==
      FirstSeenIndices(names[..i]) + [IndexOf(Dedupe(names[..i + 1]), names[i])]
  {
    var s := names[..i + 1];
    assert s[..i] == names[..i] && s[i] == names[i] && names[i] in s;
  }

  /** One step of the track loop: a new track is numbered by how many were seen
      before it; a known track keeps its number. */
  lemma TrackStep(names: seq<string>, i: nat, seen: map<string, nat>, tracks: seq<nat>)
    requires i < |names|
    requires seen == SeenIndex(Dedupe(names[..i])) && tracks == FirstSeenIndices(names[..i])
    ensures names[i] in seen ==>
      seen == SeenIndex(Dedupe(names[..i + 1])) && tracks + [seen[names[i]]] == FirstSeenIndices(names[..i + 1])
    ensures names[i] !in seen ==>
      seen[names[i] := |seen|] == SeenIndex(Dedupe(names[..i + 1])) &&
      tracks + [|seen|] == FirstSeenIndices(names[..i + 1])
  {
    var t := names[i];
    var ds := Dedupe(names[..i]);
    var ds' := Dedupe(names[..i + 1]);
    TakeSnoc(names, i);
    DedupeSnoc(names[..i], t);
    assert ds' == if t in ds then ds else ds + [t];
    FirstSeenSnoc(names, i);
    SeenAt(ds', t);
    if t in ds {
      SeenAt(ds, t);
    } else {
      SeenSnoc(ds, t);
    }
  }

  /** The track loop of `generate_page`: each iteration's track number is the
      position of its track among the tracks in order of first appearance. */
  method AssignTracks(order: seq<string>) returns (tracks: seq<nat>)
    ensures |tracks| == |order|
    ensures forall i :: 0 <= i < |order| ==>
      IterTrack(order[i]) in Dedupe(TrackNames(order)) &&
      tracks[i] == IndexOf(Dedupe(TrackNames(order)), IterTrack(order[i]))
  {
    ghost var names := TrackNames(order);
    tracks := [];
    var seen: map<string, nat> := map[];
    for i := 0 to |order|
      invariant seen == SeenIndex(Dedupe(names[..i]))
      invariant tracks == FirstSeenIndices(names[..i])
    {
      var t := IterTrack(order[i]);
      TrackStep(names, i, seen, tracks);
      if t !in seen {
        seen := seen[t := |seen|];
      }
      tracks := tracks + [seen[t]];
    }
    assert names[..|order|] == names;
    forall i | 0 <= i < |order|
      ensures IterTrack(order[i]) in Dedupe(names) && tracks[i] == IndexOf(Dedupe(names), IterTrack(order[i]))
    {
      FirstSeenIndicesSpec(names, i);
    }
  }

  /** The header colour of a track: `tracks[i] % len(TRACK_COLOURS)`. */
  function TrackColour(track: nat): (c: nat)
    ensures c < TRACK_COLOURS
    ensures track < TRACK_COLOURS ==> c == track
  {
    track % TRACK_COLOURS
  }
}
