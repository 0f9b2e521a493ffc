/** `compute_section`: the layout data of one group of initiatives. Rows are the
    group's areas in first-seen order, columns are the epics that have features or
    orphan PBIs, numbered left to right across the initiatives; each cell of the
    grid holds the features and orphans of one epic in one area, and each row is
    as tall as its fullest cell. */
module HierarchySection {
  import opened Common
  import opened Collections
  import opened WorkItems
  import opened HierarchyMetrics

  /** The single row of a group without any area. */
  const NO_AREA := "(No area)"

  // ---------------------------------------------------------------------------
  // Rows: the areas of the group.

  /** The rows of a group: every area met while visiting, per initiative and epic,
      the features and then the orphans, each kept at its first occurrence. */
  function GroupAreas(group: seq<Initiative>): (areas: seq<string>)
  {
    var a := Dedupe(InitiativesAreas(group));
    if a == [] then [NO_AREA] else a
  }

  /** The rows are never empty and never repeat an area. */
  lemma {:induction false} GroupAreasDistinct(group: seq<Initiative>)
    ensures |GroupAreas(group)| >= 1 && NoDuplicates(GroupAreas(group))
  {
  }

  /** An area is a row exactly when an initiative of the group uses it on a feature
      or an orphan; "(No area)" is the only row when none does. */
  lemma {:induction false} GroupAreasMembers(group: seq<Initiative>, a: string)
    ensures InitiativesAreas(group) != [] ==>
      (a in GroupAreas(group) <==> exists j :: 0 <= j < |group| && a in EpicsAreas(group[j].epics))
    ensures InitiativesAreas(group) == [] ==> GroupAreas(group) == [NO_AREA]
    ensures GroupAreas(group) == [NO_AREA] && NO_AREA !in InitiativesAreas(group) ==>
      forall j, e :: 0 <= j < |group| && e in group[j].epics ==> !HasContent(e)
  {
    InitiativesAreasMembers(group, a);
    InitiativesAreasEmpty(group);
  }

  /** Rows keep first-seen order: an earlier row's area is met before a later one's. */
  lemma {:induction false} GroupAreasFirstSeen(group: seq<Initiative>, p: nat, q: nat)
    requires InitiativesAreas(group) != [] && p < q < |GroupAreas(group)|
    ensures Members(InitiativesAreas(group), GroupAreas(group)[p]) != []
    ensures Members(InitiativesAreas(group), GroupAreas(group)[q]) != []
    ensures Members(InitiativesAreas(group), GroupAreas(group)[p])[0]
          < Members(InitiativesAreas(group), GroupAreas(group)[q])[0]
  {
    FirstMembersAscending(InitiativesAreas(group), p, q);
  }

  /** One more area seen: the `if area not in seen` step of the discovery loop. */
  lemma {:induction false} SeenStep(visited: seq<string>, area: string, areas: seq<string>, seen: set<string>)
    requires areas == Dedupe(visited) && seen == Elements(areas)
    ensures area in seen ==> Dedupe(visited + [area]) == areas
    ensures area !in seen ==>
      Dedupe(visited + [area]) == areas + [area] && Elements(areas + [area]) == seen + {area}
  {
    DedupeSnoc(visited, area);
    assert area in seen <==> area in areas;
    if area !in seen {
      ElementsConcat(areas, [area]);
      assert Elements([area]) == {area};
    }
  }

  /** The area discovery loop of `compute_section` for one epic: its features'
      areas, then its orphans', each added to `areas` when not yet seen. */
  method DiscoverEpicAreas(epic: Epic, areas0: seq<string>, seen0: set<string>, ghost visited0: seq<string>)
    returns (areas: seq<string>, seen: set<string>, ghost visited: seq<string>)
    requires areas0 == Dedupe(visited0) && seen0 == Elements(areas0)
    ensures visited == visited0 + EpicAreas(epic)
    ensures areas == Dedupe(visited) && seen == Elements(areas)
  {
    areas, seen, visited := areas0, seen0, visited0;
    for j := 0 to |epic.features|
      invariant visited == visited0 + FeatureAreas(epic.features[..j])
      invariant areas == Dedupe(visited) && seen == Elements(areas)
    {
      var area := epic.features[j].area;
      SeenStep(visited, area, areas, seen);
      if area !in seen {
        areas := areas + [area];
        seen := seen + {area};
      }
      FeatureAreasSnoc(epic.features, j);
      ConcatAssoc(visited0, FeatureAreas(epic.features[..j]), [area]);
      visited := visited + [area];
    }
    assert epic.features[..|epic.features|] == epic.features;
    ghost var mid := visited;
    for j := 0 to |epic.orphans|
      invariant visited == mid + PbiAreas(epic.orphans[..j])
      invariant areas == Dedupe(visited) && seen == Elements(areas)
    {
      var area := epic.orphans[j].area;
      SeenStep(visited, area, areas, seen);
      if area !in seen {
        areas := areas + [area];
        seen := seen + {area};
      }
      PbiAreasSnoc(epic.orphans, j);
      ConcatAssoc(mid, PbiAreas(epic.orphans[..j]), [area]);
      visited := visited + [area];
    }
    assert epic.orphans[..|epic.orphans|] == epic.orphans;
    ConcatAssoc(visited0, FeatureAreas(epic.features), PbiAreas(epic.orphans));
  }

  /** The area discovery loop of `compute_section`. */
  method DiscoverAreas(group: seq<Initiative>) returns (areas: seq<string>)
    ensures areas == GroupAreas(group)
  {
    areas := [];
    var seen: set<string> := {};
    ghost var visited: seq<string> := [];
    for i := 0 to |group|
      invariant visited == InitiativesAreas(group[..i])
      invariant areas == Dedupe(visited) && seen == Elements(areas)
    {
      var epics := group[i].epics;
      ghost var before := visited;
      for e := 0 to |epics|
        invariant visited == before + EpicsAreas(epics[..e])
        invariant areas == Dedupe(visited) && seen == Elements(areas)
      {
        ghost var start := visited;
        areas, seen, visited := DiscoverEpicAreas(epics[e], areas, seen, visited);
        EpicsAreasSnoc(epics, e);
        ConcatAssoc(before, EpicsAreas(epics[..e]), EpicAreas(epics[e]));
      }
      assert epics[..|epics|] == epics;
      InitiativesAreasSnoc(group, i);
    }
    assert group[..|group|] == group;
    if areas == [] {
      areas := [NO_AREA];
    }
  }

  // ---------------------------------------------------------------------------
  // Columns: the epics with content, numbered across the group.

  /** `[e for e in init["epics"] if e.get("features") or e.get("orphan_pbis")]`. */
  function ContentEpics(es: seq<Epic>): (r: seq<Epic>)
    ensures forall e :: e in r <==> e in es && HasContent(e)
    ensures |r| <= |es|
  {
    if es == [] then []
    else
      var p := ContentEpics(es[..|es| - 1]);
      assert es == es[..|es| - 1] + [es[|es| - 1]];
      if HasContent(es[|es| - 1]) then p + [es[|es| - 1]] else p
  }

  /** One column of the flattened grid: `(init, epic, gi)`. */
  datatype FlatEpic = FlatEpic(init: Initiative, epic: Epic, col: nat)

  /** The columns of one initiative's epics, numbered from `start`. */
  function Columns(init: Initiative, es: seq<Epic>, start: nat): (cs: seq<FlatEpic>)
    ensures |cs| == |es|
  {
    seq(|es|, k requires 0 <= k < |es| => FlatEpic(init, es[k], start + k))
  }

  /** The columns of a group: each initiative's epics with content, in order. */
  function FlatSpec(group: seq<Initiative>): (flat: seq<FlatEpic>)
  {
    if group == [] then []
    else
      var n := |group|;
      var p := FlatSpec(group[..n - 1]);
      p + Columns(group[n - 1], ContentEpics(group[n - 1].epics), |p|)
  }

  /** Column k is numbered k and holds an epic with content of an initiative of the
      group. */
  lemma {:induction false} FlatColumn(group: seq<Initiative>, k: nat)
    requires k < |FlatSpec(group)|
    ensures FlatSpec(group)[k].col == k && HasContent(FlatSpec(group)[k].epic)
    ensures FlatSpec(group)[k].init in group && FlatSpec(group)[k].epic in FlatSpec(group)[k].init.epics
  {
    var n := |group|;
    var p := group[..n - 1];
    FlatLast(group);
    if k < |FlatSpec(p)| {
      FlatColumn(p, k);
      assert FlatSpec(group)[k] == FlatSpec(p)[k];
      assert FlatSpec(p)[k].init in p;
    } else {
      var es := ContentEpics(group[n - 1].epics);
      assert FlatSpec(group)[k] == FlatEpic(group[n - 1], es[k - |FlatSpec(p)|], k);
      assert es[k - |FlatSpec(p)|] in es;
    }
  }

  /** The first column of initiative j. */
  function Start(group: seq<Initiative>, j: nat): nat
    requires j <= |group|
  {
    |FlatSpec(group[..j])|
  }

  lemma {:induction false} FlatSnoc(group: seq<Initiative>, j: nat)
    requires j < |group|
    ensures FlatSpec(group[..j + 1])
      == FlatSpec(group[..j]) + Columns(group[j], ContentEpics(group[j].epics), Start(group, j))
    ensures Start(group, j + 1) == Start(group, j) + |ContentEpics(group[j].epics)|
  {
    assert group[..j + 1][..j] == group[..j];
  }

  /** The columns of a prefix of the group are a prefix of the group's columns. */
  lemma {:induction false} FlatPrefix(group: seq<Initiative>, j: nat)
    requires j <= |group|
    ensures Start(group, j) <= |FlatSpec(group)|
    ensures FlatSpec(group)[..Start(group, j)] == FlatSpec(group[..j])
    decreases |group| - j
  {
    if j == |group| {
      assert group[..j] == group;
    } else {
      FlatPrefix(group, j + 1);
      FlatSnoc(group, j);
      var f := FlatSpec(group[..j + 1]);
      assert f[..Start(group, j)] == FlatSpec(group[..j]);
    }
  }

  /** Initiative j owns exactly the columns Start(j) .. Start(j + 1) - 1, and they
      are its epics with content, in order. */
  lemma {:induction false} InitiativeColumns(group: seq<Initiative>, j: nat)
    requires j < |group|
    ensures Start(group, j) <= Start(group, j + 1) <= |FlatSpec(group)|
    ensures FlatSpec(group)[Start(group, j)..Start(group, j + 1)]
      == Columns(group[j], ContentEpics(group[j].epics), Start(group, j))
  {
    FlatPrefix(group, j + 1);
    FlatSnoc(group, j);
    var full := FlatSpec(group);
    var s, t := Start(group, j), Start(group, j + 1);
    assert full[s..t] == full[..t][s..t];
  }

  /** Later initiatives start at later columns. */
  lemma {:induction false} StartMonotone(group: seq<Initiative>, j1: nat, j2: nat)
    requires j1 <= j2 <= |group|
    ensures Start(group, j1) <= Start(group, j2)
  {
    FlatPrefix(group[..j2], j1);
    assert group[..j2][..j1] == group[..j1];
  }

  /** The columns s .. t - 1 as an inclusive range, none when empty. */
  function Span(s: nat, t: nat): (r: Option<(nat, nat)>)
    ensures r.None? <==> t <= s
    ensures r.Some? ==> r.value.0 == s && r.value.1 == t - 1
  {
    if t <= s then None else Some((s, t - 1))
  }

  /** The last initiative's first and last column. */
  function LastRange(group: seq<Initiative>): (r: (nat, nat))
    requires group != [] && |ContentEpics(group[|group| - 1].epics)| > 0
    ensures r.0 == |FlatSpec(group[..|group| - 1])|
    ensures r.1 == r.0 + |ContentEpics(group[|group| - 1].epics)| - 1
  {
    var start := |FlatSpec(group[..|group| - 1])|;
    (start, start + |ContentEpics(group[|group| - 1].epics)| - 1)
  }

  /** `init_ranges`: initiative id to its first and last column, written for every
      initiative with at least one column (a repeated id keeps its first place in
      the dict and takes the later range). */
  function RangesSpec(group: seq<Initiative>): seq<(int, (nat, nat))>
  {
    if group == [] then []
    else
      var n := |group|;
      var p := RangesSpec(group[..n - 1]);
      var count := |ContentEpics(group[n - 1].epics)|;
      if count == 0 then p
      else
        Put(p, group[n - 1].id, LastRange(group))
  }

  /** The last initiative's columns come after all the others'. */
  lemma {:induction false} FlatLast(group: seq<Initiative>)
    requires group != []
    ensures FlatSpec(group) == FlatSpec(group[..|group| - 1])
      + Columns(group[|group| - 1], ContentEpics(group[|group| - 1].epics), |FlatSpec(group[..|group| - 1])|)
  {
  }

  lemma {:induction false} RangesLast(group: seq<Initiative>)
    requires group != [] && |ContentEpics(group[|group| - 1].epics)| > 0
    ensures var p, count := group[..|group| - 1], |ContentEpics(group[|group| - 1].epics)|;
      RangesSpec(group) == Put(RangesSpec(p), group[|group| - 1].id, LastRange(group))
  {
  }

  lemma {:induction false} RangesSkip(group: seq<Initiative>)
    requires group != [] && |ContentEpics(group[|group| - 1].epics)| == 0
    ensures RangesSpec(group) == RangesSpec(group[..|group| - 1])
  {
  }

  /** Every range is a non-empty interval of existing columns, all of them columns of
      an initiative with that id. */
  lemma {:induction false} RangesCover(group: seq<Initiative>, id: int, s: nat, e: nat)
    requires (id, (s, e)) in RangesSpec(group)
    ensures s <= e < |FlatSpec(group)|
    ensures forall c :: s <= c <= e ==> FlatSpec(group)[c].init.id == id
  {
    var n := |group|;
    var p := group[..n - 1];
    var count := |ContentEpics(group[n - 1].epics)|;
    assert group[..n - 1] == p;
    FlatLast(group);
    if count == 0 {
      assert RangesSpec(group) == RangesSpec(p);
      RangesCover(p, id, s, e);
      CoverOld(group, s, e);
    } else {
      var entry: (int, (nat, nat)) := (group[n - 1].id, LastRange(group));
      RangesLast(group);
      PutMembers(RangesSpec(p), entry.0, entry.1, (id, (s, e)));
      if (id, (s, e)) in RangesSpec(p) {
        RangesCover(p, id, s, e);
        CoverOld(group, s, e);
      } else {
        CoverNew(group, s, e);
      }
    }
  }

  lemma {:induction false} CoverOld(group: seq<Initiative>, s: nat, e: nat)
    requires group != [] && s <= e < |FlatSpec(group[..|group| - 1])|
    ensures e < |FlatSpec(group)|
    ensures forall c :: s <= c <= e ==> FlatSpec(group)[c] == FlatSpec(group[..|group| - 1])[c]
  {
    FlatLast(group);
  }

  lemma {:induction false} CoverNew(group: seq<Initiative>, s: nat, e: nat)
    requires group != []
    requires s == |FlatSpec(group[..|group| - 1])| <= e < s + |ContentEpics(group[|group| - 1].epics)|
    ensures e < |FlatSpec(group)|
    ensures forall c :: s <= c <= e ==> FlatSpec(group)[c].init == group[|group| - 1]
  {
    FlatLast(group);
  }

  /** No two initiatives of the group share an id. */
  predicate DistinctIds(group: seq<Initiative>) {
    forall a, b :: 0 <= a < b < |group| ==> group[a].id != group[b].id
  }

  /** Only ids of initiatives with columns have a range: returns such an initiative. */
  lemma {:induction false} RangesKeys(group: seq<Initiative>, id: int) returns (j: nat)
    requires Lookup(RangesSpec(group), id).Some?
    ensures j < |group| && group[j].id == id && |ContentEpics(group[j].epics)| > 0
  {
    var n := |group|;
    var p := group[..n - 1];
    var count := |ContentEpics(group[n - 1].epics)|;
    if count == 0 {
      RangesSkip(group);
    } else {
      var range := LastRange(group);
      RangesLast(group);
      PutLookup(RangesSpec(p), group[n - 1].id, range, id);
    }
    if count != 0 && id == group[n - 1].id {
      j := n - 1;
    } else {
      assert Lookup(RangesSpec(p), id).Some?;
      j := RangesKeys(p, id);
      assert group[j] == p[j];
    }
  }

  /** The last initiative's entry: its range when it has columns, none otherwise. */
  lemma {:induction false} RangeOfLast(group: seq<Initiative>)
    requires DistinctIds(group) && group != []
    ensures Lookup(RangesSpec(group), group[|group| - 1].id)
      == if |ContentEpics(group[|group| - 1].epics)| == 0 then None else Some(LastRange(group))
  {
    var n := |group|;
    var p := group[..n - 1];
    var id := group[n - 1].id;
    var count := |ContentEpics(group[n - 1].epics)|;
    if count == 0 {
      RangesSkip(group);
      if Lookup(RangesSpec(p), id).Some? {
        var j' := RangesKeys(p, id);
        assert false;
      }
    } else {
      var range := LastRange(group);
      RangesLast(group);
      PutLookup(RangesSpec(p), id, range, id);
    }
  }

  /** An earlier initiative's entry is the one it had before the last initiative. */
  lemma {:induction false} RangeOfEarlier(group: seq<Initiative>, j: nat)
    requires DistinctIds(group) && j < |group| - 1
    ensures Lookup(RangesSpec(group), group[j].id) == Lookup(RangesSpec(group[..|group| - 1]), group[j].id)
  {
    var n := |group|;
    var p := group[..n - 1];
    var count := |ContentEpics(group[n - 1].epics)|;
    assert group[j].id != group[n - 1].id;
    if count == 0 {
      RangesSkip(group);
    } else {
      var range := LastRange(group);
      RangesLast(group);
      PutLookup(RangesSpec(p), group[n - 1].id, range, group[j].id);
    }
  }

  /** Column numbering of initiative j is the same in a longer prefix of the group. */
  lemma {:induction false} StartPrefix(group: seq<Initiative>, m: nat, j: nat)
    requires j <= m <= |group|
    ensures Start(group[..m], j) == Start(group, j)
  {
    assert group[..m][..j] == group[..j];
  }

  lemma {:induction false} DistinctPrefix(group: seq<Initiative>, m: nat)
    requires DistinctIds(group) && m <= |group|
    ensures DistinctIds(group[..m])
  {
    var p := group[..m];
    forall a, b | 0 <= a < b < |p| ensures p[a].id != p[b].id {
      assert p[a] == group[a] && p[b] == group[b];
    }
  }

  /** Initiative j's columns end where initiative j + 1's begin. */
  lemma {:induction false} StartStep(group: seq<Initiative>, j: nat)
    requires j < |group|
    ensures Start(group, j + 1) == Start(group, j) + |ContentEpics(group[j].epics)|
  {
    FlatSnoc(group, j);
  }

  lemma {:induction false} RangeOfLastSpan(group: seq<Initiative>)
    requires DistinctIds(group) && group != []
    ensures var j := |group| - 1;
      Lookup(RangesSpec(group), group[j].id) == Span(Start(group, j), Start(group, j + 1))
  {
    var j := |group| - 1;
    RangeOfLast(group);
    StartStep(group, j);
    assert Start(group, j) == |FlatSpec(group[..j])|;
  }

  lemma {:induction false} RangeOfEarlierSpan(group: seq<Initiative>, j: nat)
    requires DistinctIds(group) && j < |group| - 1
    ensures Lookup(RangesSpec(group), group[j].id) == Span(Start(group, j), Start(group, j + 1))
    decreases |group|, 0
  {
    var p := group[..|group| - 1];
    DistinctPrefix(group, |group| - 1);
    RangeOfInitiative(p, j);
    assert p[j] == group[j];
    RangeOfEarlier(group, j);
    StartPrefix(group, |group| - 1, j);
    StartPrefix(group, |group| - 1, j + 1);
  }

  /** With distinct ids, `init_ranges[id]` is initiative j's first and last column,
      and an initiative without columns has no entry. */
  lemma {:induction false} RangeOfInitiative(group: seq<Initiative>, j: nat)
    requires DistinctIds(group) && j < |group|
    ensures Start(group, j + 1) == Start(group, j) + |ContentEpics(group[j].epics)|
    ensures Lookup(RangesSpec(group), group[j].id) == Span(Start(group, j), Start(group, j + 1))
    decreases |group|, 1
  {
    StartStep(group, j);
    if j == |group| - 1 {
      RangeOfLastSpan(group);
    } else {
      RangeOfEarlierSpan(group, j);
    }
  }

  /** Ranges of different initiatives do not overlap: an earlier initiative's last
      column comes before a later one's first. */
  lemma {:induction false} RangesDisjoint(group: seq<Initiative>, j1: nat, j2: nat, r1: (nat, nat), r2: (nat, nat))
    requires DistinctIds(group) && j1 < j2 < |group|
    requires Lookup(RangesSpec(group), group[j1].id) == Some(r1)
    requires Lookup(RangesSpec(group), group[j2].id) == Some(r2)
    ensures r1.0 <= r1.1 < r2.0 <= r2.1
  {
    RangeOfInitiative(group, j1);
    RangeOfInitiative(group, j2);
    StartMonotone(group, j1 + 1, j2);
    FlatPrefix(group, j2 + 1);
  }

  lemma {:induction false} ColumnsSnoc(init: Initiative, es: seq<Epic>, start: nat, k: nat)
    requires k < |es|
    ensures Columns(init, es[..k + 1], start) == Columns(init, es[..k], start) + [FlatEpic(init, es[k], start + k)]
  {
  }

  /** One initiative without columns changes neither the columns nor the ranges. */
  lemma {:induction false} FlattenSkip(group: seq<Initiative>, i: nat)
    requires i < |group| && |ContentEpics(group[i].epics)| == 0
    ensures FlatSpec(group[..i + 1]) == FlatSpec(group[..i])
    ensures RangesSpec(group[..i + 1]) == RangesSpec(group[..i])
  {
    var g := group[..i + 1];
    assert g[..|g| - 1] == group[..i] && g[|g| - 1] == group[i];
    FlatLast(g);
    RangesSkip(g);
  }

  /** One initiative with columns appends them and records their range. */
  lemma {:induction false} FlattenStep(group: seq<Initiative>, i: nat)
    requires i < |group| && |ContentEpics(group[i].epics)| > 0
    ensures var es, start := ContentEpics(group[i].epics), |FlatSpec(group[..i])|;
      FlatSpec(group[..i + 1]) == FlatSpec(group[..i]) + Columns(group[i], es, start)
    ensures var es, start := ContentEpics(group[i].epics), |FlatSpec(group[..i])|;
      var range: (nat, nat) := (start, start + |es| - 1);
      RangesSpec(group[..i + 1]) == Put(RangesSpec(group[..i]), group[i].id, range)
  {
    var g := group[..i + 1];
    assert g[..|g| - 1] == group[..i] && g[|g| - 1] == group[i];
    FlatLast(g);
    RangesLast(g);
  }

  /** The inner loop: `flat_epics.append((init, epic, gi))` for each epic, numbering
      from `start`. */
  method AppendColumns(flat0: seq<FlatEpic>, init: Initiative, epics: seq<Epic>, start: nat)
    returns (flat: seq<FlatEpic>, gi: nat)
    ensures flat == flat0 + Columns(init, epics, start) && gi == start + |epics|
  {
    flat, gi := flat0, start;
    for k := 0 to |epics|
      invariant flat == flat0 + Columns(init, epics[..k], start) && gi == start + k
    {
      ColumnsSnoc(init, epics, start, k);
      flat := flat + [FlatEpic(init, epics[k], gi)];
      gi := gi + 1;
    }
    assert epics[..|epics|] == epics;
  }

  /** The flattening loop of `compute_section`: `flat_epics` and `init_ranges`. */
  method FlattenEpics(group: seq<Initiative>) returns (flat: seq<FlatEpic>, ranges: seq<(int, (nat, nat))>)
    ensures flat == FlatSpec(group) && ranges == RangesSpec(group)
  {
    flat, ranges := [], [];
    var gi: nat := 0;
    for i := 0 to |group|
      invariant flat == FlatSpec(group[..i]) && ranges == RangesSpec(group[..i]) && gi == |flat|
    {
      var init := group[i];
      var epics := ContentEpics(init.epics);
      if |epics| == 0 {
        FlattenSkip(group, i);
        continue;
      }
      var start := gi;
      flat, gi := AppendColumns(flat, init, epics, start);
      var range: (nat, nat) := (start, gi - 1);
      ranges := Put(ranges, init.id, range);
      FlattenStep(group, i);
    }
    assert group[..|group|] == group;
  }
}
