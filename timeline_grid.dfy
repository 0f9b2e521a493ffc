/** The data side of `gen-timeline.py`: which PBIs are scheduled, which area
    rows the timeline has, which cell (area row, iteration column) each PBI is
    filed under, and how tall each area row must be to hold its fullest cell. */
module TimelineGrid {
  import opened Common
  import opened Collections
  import opened WorkItems
  import opened TimelineOrder

  const PBI_H := 28
  const PBI_GAP := 6
  const CELL_PAD_TOP := 12
  const CELL_PAD_BOTTOM := 12
  const MIN_ROW_H := 60

  // ---------------------------------------------------------------------------
  // Scheduled PBIs (`collect_scheduled_pbis`).

  /** `dated`: the iterations whose entry has a start date. */
  function DatedSet(iters: Iterations): set<string> {
    Elements(DatedPaths(iters))
  }

  /** `pbi.get("iteration") in dated`: a PBI without an iteration is never
      scheduled. */
  predicate IsScheduled(p: Pbi, dated: set<string>) {
    p.iteration.Some? && p.iteration.value in dated
  }

  /** The scheduled PBIs of ps, in the order of ps. */
  function ScheduledOf(ps: seq<Pbi>, dated: set<string>): (r: seq<Pbi>)
    ensures |r| <= |ps|
  {
    if ps == [] then []
    else ScheduledOf(ps[..|ps| - 1], dated) + (if IsScheduled(ps[|ps| - 1], dated) then [ps[|ps| - 1]] else [])
  }

  /** The filter keeps exactly the scheduled PBIs. */
  lemma {:induction false} ScheduledMembers(ps: seq<Pbi>, dated: set<string>, p: Pbi)
    ensures p in ScheduledOf(ps, dated) <==> p in ps && IsScheduled(p, dated)
  {
    if ps != [] {
      var q := ps[..|ps| - 1];
      ScheduledMembers(q, dated, p);
      assert ps == q + [ps[|ps| - 1]];
    }
  }

  /** Filtering a concatenation filters each part. */
  lemma {:induction false} ScheduledConcat(a: seq<Pbi>, b: seq<Pbi>, dated: set<string>)
    ensures ScheduledOf(a + b, dated) == ScheduledOf(a, dated) + ScheduledOf(b, dated)
  {
    if b == [] {
      assert a + b == a;
    } else {
      var b' := b[..|b| - 1];
      assert (a + b)[..|a + b| - 1] == a + b';
      ScheduledConcat(a, b', dated);
    }
  }

  /** The two innermost loops of `collect_scheduled_pbis` (over a feature's PBIs
      and over an epic's orphan PBIs): append the scheduled ones to acc. */
  method AppendScheduled(acc: seq<Pbi>, ps: seq<Pbi>, dated: set<string>) returns (r: seq<Pbi>)
    ensures r == acc + ScheduledOf(ps, dated)
  {
    r := acc;
    for l := 0 to |ps|
      invariant r == acc + ScheduledOf(ps[..l], dated)
    {
      var p := ps[l];
      assert ps[..l + 1][..l] == ps[..l];
      if p.iteration.Some? && p.iteration.value in dated {
        r := r + [p];
      }
    }
    assert ps[..|ps|] == ps;
  }

  /** The loop step of the feature loop. */
  lemma ScheduledFeaturesStep(acc: seq<Pbi>, fs: seq<Feature>, k: nat, dated: set<string>, r0: seq<Pbi>, r1: seq<Pbi>)
    requires k < |fs|
    requires r0 == acc + ScheduledOf(FeaturesPbis(fs[..k]), dated)
    requires r1 == r0 + ScheduledOf(fs[k].pbis, dated)
    ensures r1 == acc + ScheduledOf(FeaturesPbis(fs[..k + 1]), dated)
  {
    FeaturesPbisSnoc(fs, k);
    ScheduledConcat(FeaturesPbis(fs[..k]), fs[k].pbis, dated);
    ConcatAssoc(acc, ScheduledOf(FeaturesPbis(fs[..k]), dated), ScheduledOf(fs[k].pbis, dated));
  }

  /** The feature loop of `collect_scheduled_pbis`: the scheduled PBIs of each
      feature in turn, appended to acc. */
  method AppendScheduledFeatures(acc: seq<Pbi>, fs: seq<Feature>, dated: set<string>) returns (r: seq<Pbi>)
    ensures r == acc + ScheduledOf(FeaturesPbis(fs), dated)
  {
    r := acc;
    for k := 0 to |fs|
      invariant r == acc + ScheduledOf(FeaturesPbis(fs[..k]), dated)
    {
      var r1 := AppendScheduled(r, fs[k].pbis, dated);
      ScheduledFeaturesStep(acc, fs, k, dated, r, r1);
      r := r1;
    }
    assert fs[..|fs|] == fs;
  }

  /** One more epic: its features' scheduled PBIs, then its orphans'. */
  lemma ScheduledEpicsSnoc(es: seq<Epic>, j: nat, dated: set<string>)
    requires j < |es|
    ensures ScheduledOf(EpicsPbis(es[..j + 1]), dated) ==
      ScheduledOf(EpicsPbis(es[..j]), dated) +
      (ScheduledOf(FeaturesPbis(es[j].features), dated) + ScheduledOf(es[j].orphans, dated))
  {
    EpicsPbisSnoc(es, j);
    ScheduledConcat(FeaturesPbis(es[j].features), es[j].orphans, dated);
    ScheduledConcat(EpicsPbis(es[..j]), EpicPbis(es[j]), dated);
  }

  /** The loop step of the epic loop, with the two partial results. */
  lemma ScheduledEpicsStep(acc: seq<Pbi>, es: seq<Epic>, j: nat, dated: set<string>,
                           r0: seq<Pbi>, r1: seq<Pbi>, r2: seq<Pbi>)
    requires j < |es|
    requires r0 == acc + ScheduledOf(EpicsPbis(es[..j]), dated)
    requires r1 == r0 + ScheduledOf(FeaturesPbis(es[j].features), dated)
    requires r2 == r1 + ScheduledOf(es[j].orphans, dated)
    ensures r2 == acc + ScheduledOf(EpicsPbis(es[..j + 1]), dated)
  {
    var a := ScheduledOf(EpicsPbis(es[..j]), dated);
    var f := ScheduledOf(FeaturesPbis(es[j].features), dated);
    var o := ScheduledOf(es[j].orphans, dated);
    ScheduledEpicsSnoc(es, j, dated);
    ConcatAssoc(acc, a, f);
    ConcatAssoc(acc, a + f, o);
    ConcatAssoc(a, f, o);
  }

  /** The epic loop of `collect_scheduled_pbis`: per epic, the scheduled PBIs of
      its features and then of its orphans. */
  method AppendScheduledEpics(acc: seq<Pbi>, es: seq<Epic>, dated: set<string>) returns (r: seq<Pbi>)
    ensures r == acc + ScheduledOf(EpicsPbis(es), dated)
  {
    r := acc;
    for j := 0 to |es|
      invariant r == acc + ScheduledOf(EpicsPbis(es[..j]), dated)
    {
      var r1 := AppendScheduledFeatures(r, es[j].features, dated);
      var r2 := AppendScheduled(r1, es[j].orphans, dated);
      ScheduledEpicsStep(acc, es, j, dated, r, r1, r2);
      r := r2;
    }
    assert es[..|es|] == es;
  }

  /** `collect_scheduled_pbis`: every PBI in a dated iteration, per initiative,
      per epic, each feature's PBIs and then the epic's orphans. */
  method CollectScheduledPbis(inits: seq<Initiative>, iters: Iterations) returns (pbis: seq<Pbi>)
    ensures pbis == ScheduledOf(InitiativesPbis(inits), DatedSet(iters))
  {
    var dated := DatedSet(iters);
    pbis := [];
    for i := 0 to |inits|
      invariant pbis == ScheduledOf(InitiativesPbis(inits[..i]), dated)
    {
      pbis := AppendScheduledEpics(pbis, inits[i].epics, dated);
      InitiativesPbisSnoc(inits, i);
      ScheduledConcat(InitiativesPbis(inits[..i]), EpicsPbis(inits[i].epics), dated);
    }
    assert inits[..|inits|] == inits;
  }

  // ---------------------------------------------------------------------------
  // Area rows (`discover_areas`).

  /** `discover_areas`: the distinct areas of the PBIs, in ascending order. */
  function TimelineAreas(pbis: seq<Pbi>): (areas: seq<string>)
    ensures StrictlySorted(areas)
    ensures forall a :: a in areas <==> exists p :: p in pbis && p.area == a
  {
    var r := SortedUnique(PbiAreas(pbis));
    assert forall a :: a in r <==> exists p :: p in pbis && p.area == a by {
      forall a
        ensures a in r <==> exists p :: p in pbis && p.area == a
      {
        PbiAreasMembers(pbis, a);
      }
    }
    r
  }

  // ---------------------------------------------------------------------------
  // The grid (`build_grid`).

  /** `iter_idx.get(path)` where `iter_idx = {path: i for i, path in
      enumerate(iter_order)}`: a later occurrence of a path overwrites an earlier
      one, so this is the last position. */
  function IterIndex(order: seq<string>, path: string): (r: Option<nat>)
    ensures r.None? <==> path !in order
    ensures r.Some? ==> r.value < |order| && order[r.value] == path
    ensures r.Some? ==> forall j :: r.value < j < |order| ==> order[j] != path
  {
    if order == [] then None
    else if order[|order| - 1] == path then Some(|order| - 1)
    else
      assert forall j :: 0 <= j < |order| - 1 ==> order[..|order| - 1][j] == order[j];
      assert order == order[..|order| - 1] + [order[|order| - 1]];
      IterIndex(order[..|order| - 1], path)
  }

  /** A cell key: the area row and the iteration column. */
  type CellKey = (string, nat)

  type Grid = map<CellKey, seq<Pbi>>

  /** `grid.get(key, [])`. */
  function CellOf(grid: Grid, key: CellKey): seq<Pbi> {
    if key in grid then grid[key] else []
  }

  /** The cell `build_grid` files p under, if any: its area's row and its
      iteration's column, when both exist. */
  function Slot(p: Pbi, order: seq<string>, areas: seq<string>): Option<CellKey> {
    if p.iteration.None? then None
    else
      match IterIndex(order, p.iteration.value)
      case None => None
      case Some(ii) => if p.area in areas then Some((p.area, ii)) else None
  }

  /** The PBIs of the cell at key: those filed under it, in input order. */
  function CellSpec(pbis: seq<Pbi>, order: seq<string>, areas: seq<string>, key: CellKey): (c: seq<Pbi>)
    ensures forall p :: p in c <==> p in pbis && Slot(p, order, areas) == Some(key)
  {
    if pbis == [] then []
    else
      var q := pbis[..|pbis| - 1];
      var p := pbis[|pbis| - 1];
      assert pbis == q + [p];
      CellSpec(q, order, areas, key) + (if Slot(p, order, areas) == Some(key) then [p] else [])
  }

  lemma CellSpecSnoc(pbis: seq<Pbi>, i: nat, order: seq<string>, areas: seq<string>)
    requires i < |pbis|
    ensures forall key :: (CellSpec(pbis[..i + 1], order, areas, key) ==
      CellSpec(pbis[..i], order, areas, key) + if Slot(pbis[i], order, areas) == Some(key) then [pbis[i]] else [])
  {
    assert pbis[..i + 1][..i] == pbis[..i];
  }

  /** The state of `build_grid` after the first i PBIs. */
  ghost predicate Filed(grid: Grid, pbis: seq<Pbi>, i: nat, order: seq<string>, areas: seq<string>)
    requires i <= |pbis|
  {
    && (forall key :: CellOf(grid, key) == CellSpec(pbis[..i], order, areas, key))
    && (forall key :: key in grid ==> grid[key] != [])
  }

  /** A PBI without a cell leaves the grid as it is. */
  lemma GridSkip(grid: Grid, pbis: seq<Pbi>, i: nat, order: seq<string>, areas: seq<string>)
    requires i < |pbis| && Slot(pbis[i], order, areas).None? && Filed(grid, pbis, i, order, areas)
    ensures Filed(grid, pbis, i + 1, order, areas)
  {
    CellSpecSnoc(pbis, i, order, areas);
  }

  /** A PBI with a cell is appended to that cell. */
  lemma GridFile(grid: Grid, pbis: seq<Pbi>, i: nat, order: seq<string>, areas: seq<string>, key0: CellKey)
    requires i < |pbis| && Slot(pbis[i], order, areas) == Some(key0) && Filed(grid, pbis, i, order, areas)
    ensures Filed(grid[key0 := CellOf(grid, key0) + [pbis[i]]], pbis, i + 1, order, areas)
  {
    CellSpecSnoc(pbis, i, order, areas);
  }

  /** `build_grid`: each PBI is appended to the cell of its area and iteration;
      a cell exists only once a PBI is filed under it. */
  method BuildGrid(pbis: seq<Pbi>, order: seq<string>, areas: seq<string>) returns (grid: Grid)
    ensures forall key :: CellOf(grid, key) == CellSpec(pbis, order, areas, key)
    ensures forall key :: key in grid ==> grid[key] != []
  {
    grid := map[];
    for i := 0 to |pbis|
      invariant Filed(grid, pbis, i, order, areas)
    {
      var p := pbis[i];
      var ii := if p.iteration.Some? then IterIndex(order, p.iteration.value) else None;
      if ii.Some? && p.area in areas {
        var key := (p.area, ii.value);
        GridFile(grid, pbis, i, order, areas, key);
        grid := grid[key := CellOf(grid, key) + [p]];
      } else {
        GridSkip(grid, pbis, i, order, areas);
      }
    }
    assert pbis[..|pbis|] == pbis;
  }

  /** Every scheduled PBI lands in exactly one cell: the row of its area and the
      column at which its iteration stands in the iteration order. */
  lemma ScheduledPbiPlaced(iters: Iterations, pbis: seq<Pbi>, p: Pbi)
    requires p in pbis && IsScheduled(p, DatedSet(iters))
    ensures IterIndex(IterOrder(iters), p.iteration.value).Some?
    ensures forall key :: p in CellSpec(pbis, IterOrder(iters), TimelineAreas(pbis), key) <==>
      key == (p.area, IterIndex(IterOrder(iters), p.iteration.value).value)
  {
    IterOrderSpec(iters);
    assert p.iteration.value in IterOrder(iters);
    assert p.area in TimelineAreas(pbis);
  }

  // ---------------------------------------------------------------------------
  // Row heights (`calc_row_heights`).

  /** The number of PBIs in each of the first n cells of an area's row. */
  function RowCounts(grid: Grid, area: string, n: nat): (cs: seq<int>)
    ensures |cs| == n
    ensures forall ii :: 0 <= ii < n ==> cs[ii] == |CellOf(grid, (area, ii))|
  {
    seq(n, (ii: int) requires 0 <= ii => |CellOf(grid, (area, ii as nat))|)
  }

  /** Height of the cards of a cell holding n PBIs, with padding above and below;
      an empty cell needs none. */
  function ContentH(n: int): int {
    if n > 0 then CELL_PAD_TOP + n * (PBI_H + PBI_GAP) - PBI_GAP + CELL_PAD_BOTTOM else 0
  }

  /** The height of an area's row over the first n iteration columns: enough for
      its fullest cell, and never below MIN_ROW_H. */
  function RowHeight(grid: Grid, area: string, n: nat): int {
    Max(ContentH(MaxOf(RowCounts(grid, area, n))), MIN_ROW_H)
  }

  /** The inner loop of `calc_row_heights`: the size of the fullest cell. */
  method FullestCell(grid: Grid, area: string, numIters: nat) returns (maxPbis: int)
    ensures maxPbis == MaxOf(RowCounts(grid, area, numIters))
  {
    ghost var counts := RowCounts(grid, area, numIters);
    maxPbis := 0;
    for ii := 0 to numIters
      invariant maxPbis == MaxOf(counts[..ii])
    {
      var n := |CellOf(grid, (area, ii))|;
      TakeSnoc(counts, ii);
      MaxOfSnoc(counts[..ii], counts[ii]);
      maxPbis := Max(maxPbis, n);
    }
    assert counts[..numIters] == counts;
  }

  /** `calc_row_heights`: one height per area, in the order of areas. */
  method CalcRowHeights(areas: seq<string>, numIters: nat, grid: Grid) returns (hs: seq<int>)
    ensures |hs| == |areas|
    ensures forall i :: 0 <= i < |areas| ==> hs[i] == RowHeight(grid, areas[i], numIters)
  {
    hs := [];
    for i := 0 to |areas|
      invariant |hs| == i
      invariant forall j :: 0 <= j < i ==> hs[j] == RowHeight(grid, areas[j], numIters)
    {
      var maxPbis := FullestCell(grid, areas[i], numIters);
      var contentH := if maxPbis > 0 then CELL_PAD_TOP + maxPbis * (PBI_H + PBI_GAP) - PBI_GAP + CELL_PAD_BOTTOM else 0;
      hs := hs + [Max(contentH, MIN_ROW_H)];
    }
  }

  /** A row is at least MIN_ROW_H tall and holds every cell of its first n
      columns: the cards of each cell, with their padding, fit in the row. */
  lemma RowHoldsCells(grid: Grid, area: string, n: nat, ii: nat)
    requires ii < n
    ensures RowHeight(grid, area, n) >= MIN_ROW_H
    ensures ContentH(|CellOf(grid, (area, ii))|) <= RowHeight(grid, area, n)
  {
    MaxOfBound(RowCounts(grid, area, n), ii);
  }

  /** No row is taller than it needs to be: it is MIN_ROW_H tall, or exactly as
      tall as one of its cells needs. */
  lemma RowHeightTight(grid: Grid, area: string, n: nat)
    ensures RowHeight(grid, area, n) == MIN_ROW_H ||
      exists ii :: 0 <= ii < n && RowHeight(grid, area, n) == ContentH(|CellOf(grid, (area, ii))|)
  {
    var cs := RowCounts(grid, area, n);
    if n > 0 && RowHeight(grid, area, n) != MIN_ROW_H {
      var ii := MaxOfAttained(cs);
      assert RowHeight(grid, area, n) == ContentH(|CellOf(grid, (area, ii))|);
    }
  }
}
