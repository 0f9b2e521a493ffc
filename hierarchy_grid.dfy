/** The area × epic grid of one section of the hierarchy diagram and the sizes
    derived from it: `compute_section` from the grid onwards. */
module HierarchyGrid {
  import opened Common
  import opened WorkItems
  import opened HierarchyMetrics
  import opened HierarchySection

  // ---------------------------------------------------------------------------
  // Cells and the grid.

  /** One grid cell, `{"features": [...], "orphans": [...]}`. */
  datatype Cell = Cell(features: seq<Feature>, orphans: seq<Pbi>)

  const EMPTY_CELL := Cell([], [])

  /** `grid`: (area, column) to cell. It is only ever read through `grid.get`, so
      its insertion order is not part of the model. */
  type Grid = map<(string, nat), Cell>

  /** The features of a list that sit in the given area, in order. */
  function FeaturesIn(fs: seq<Feature>, area: string): (r: seq<Feature>)
    ensures |r| <= |fs|
  {
    if fs == [] then []
    else
      var p := FeaturesIn(fs[..|fs| - 1], area);
      if fs[|fs| - 1].area == area then p + [fs[|fs| - 1]] else p
  }

  /** The PBIs of a list that sit in the given area, in order. */
  function OrphansIn(ps: seq<Pbi>, area: string): (r: seq<Pbi>)
    ensures |r| <= |ps|
  {
    if ps == [] then []
    else
      var p := OrphansIn(ps[..|ps| - 1], area);
      if ps[|ps| - 1].area == area then p + [ps[|ps| - 1]] else p
  }

  /** A feature is in the filtered list exactly when it is in the area. */
  lemma {:induction false} FeaturesInMembers(fs: seq<Feature>, area: string, f: Feature)
    ensures f in FeaturesIn(fs, area) <==> f in fs && f.area == area
  {
    if fs != [] {
      var n := |fs|;
      FeaturesInMembers(fs[..n - 1], area, f);
      assert fs == fs[..n - 1] + [fs[n - 1]];
    }
  }

  /** An orphan PBI is in the filtered list exactly when it is in the area. */
  lemma {:induction false} OrphansInMembers(ps: seq<Pbi>, area: string, p: Pbi)
    ensures p in OrphansIn(ps, area) <==> p in ps && p.area == area
  {
    if ps != [] {
      var n := |ps|;
      OrphansInMembers(ps[..n - 1], area, p);
      assert ps == ps[..n - 1] + [ps[n - 1]];
    }
  }

  /** The cell of an epic's column in one area row. */
  function CellOf(e: Epic, area: string): Cell {
    Cell(FeaturesIn(e.features, area), OrphansIn(e.orphans, area))
  }

  /** The cell the columns call for at (area, c): empty beyond the last column. */
  function CellAt(flat: seq<FlatEpic>, area: string, c: nat): Cell {
    if c < |flat| then CellOf(flat[c].epic, area) else EMPTY_CELL
  }

  /** `grid.get((area, c), {"features": [], "orphans": []})`. */
  function GetCell(grid: Grid, area: string, c: nat): Cell {
    if (area, c) in grid then grid[(area, c)] else EMPTY_CELL
  }

  /** Every column is numbered by its position. */
  predicate Numbered(flat: seq<FlatEpic>) {
    forall k :: 0 <= k < |flat| ==> flat[k].col == k
  }

  lemma FlatNumbered(group: seq<Initiative>)
    ensures Numbered(FlatSpec(group))
  {
    forall k | 0 <= k < |FlatSpec(group)| ensures FlatSpec(group)[k].col == k {
      FlatColumn(group, k);
    }
  }

  /** The grid holds exactly the cells the columns call for, and only non-empty
      cells are stored (`setdefault` runs only just before an append). */
  ghost predicate GridOf(grid: Grid, flat: seq<FlatEpic>) {
    (forall area: string, c: nat :: GetCell(grid, area, c) == CellAt(flat, area, c))
    && (forall key :: key in grid ==> grid[key] != EMPTY_CELL)
  }

  /** The cell of column k part-way through the loop: the first nf features and no
      orphans of its epic. */
  function PartialCell(e: Epic, area: string, nf: nat, no: nat): Cell
    requires nf <= |e.features| && no <= |e.orphans|
  {
    Cell(FeaturesIn(e.features[..nf], area), OrphansIn(e.orphans[..no], area))
  }

  /** The grid after columns 0 .. k - 1 and part of column k. */
  ghost predicate GridAt(grid: Grid, flat: seq<FlatEpic>, k: nat, nf: nat, no: nat)
    requires k < |flat| ==> nf <= |flat[k].epic.features| && no <= |flat[k].epic.orphans|
  {
    (forall area: string, c: nat :: GetCell(grid, area, c) ==
      if c < k then CellAt(flat, area, c)
      else if c == k && k < |flat| then PartialCell(flat[k].epic, area, nf, no)
      else EMPTY_CELL)
    && (forall key :: key in grid ==> grid[key] != EMPTY_CELL)
  }

  /** `grid.setdefault(key, ...)["features"].append(feat)`. */
  function AddFeature(grid: Grid, area: string, c: nat, f: Feature): Grid {
    var cell := GetCell(grid, area, c);
    grid[(area, c) := Cell(cell.features + [f], cell.orphans)]
  }

  /** `grid.setdefault(key, ...)["orphans"].append(opbi)`. */
  function AddOrphan(grid: Grid, area: string, c: nat, p: Pbi): Grid {
    var cell := GetCell(grid, area, c);
    grid[(area, c) := Cell(cell.features, cell.orphans + [p])]
  }

  lemma FeaturesInSnoc(fs: seq<Feature>, area: string, i: nat)
    requires i < |fs|
    ensures FeaturesIn(fs[..i + 1], area)
      == FeaturesIn(fs[..i], area) + if fs[i].area == area then [fs[i]] else []
  {
    assert fs[..i + 1][..i] == fs[..i];
  }

  lemma OrphansInSnoc(ps: seq<Pbi>, area: string, i: nat)
    requires i < |ps|
    ensures OrphansIn(ps[..i + 1], area)
      == OrphansIn(ps[..i], area) + if ps[i].area == area then [ps[i]] else []
  {
    assert ps[..i + 1][..i] == ps[..i];
  }

  /** Adding the next feature of column k moves the loop state one feature on. */
  lemma {:induction false} AddFeatureStep(grid: Grid, flat: seq<FlatEpic>, k: nat, nf: nat)
    requires k < |flat| && nf < |flat[k].epic.features|
    requires GridAt(grid, flat, k, nf, 0)
    ensures var f := flat[k].epic.features[nf];
      GridAt(AddFeature(grid, f.area, k, f), flat, k, nf + 1, 0)
  {
    var e := flat[k].epic;
    var f := e.features[nf];
    var g := AddFeature(grid, f.area, k, f);
    forall area: string, c: nat
      ensures GetCell(g, area, c) ==
        if c < k then CellAt(flat, area, c)
        else if c == k && k < |flat| then PartialCell(e, area, nf + 1, 0)
        else EMPTY_CELL
    {
      FeaturesInSnoc(e.features, area, nf);
      assert GetCell(grid, area, c) ==
        if c < k then CellAt(flat, area, c)
        else if c == k && k < |flat| then PartialCell(e, area, nf, 0)
        else EMPTY_CELL;
    }
  }

  /** Adding the next orphan PBI of column k moves the loop state one orphan on. */
  lemma {:induction false} AddOrphanStep(grid: Grid, flat: seq<FlatEpic>, k: nat, no: nat)
    requires k < |flat| && no < |flat[k].epic.orphans|
    requires GridAt(grid, flat, k, |flat[k].epic.features|, no)
    ensures var p := flat[k].epic.orphans[no];
      GridAt(AddOrphan(grid, p.area, k, p), flat, k, |flat[k].epic.features|, no + 1)
  {
    var e := flat[k].epic;
    var p := e.orphans[no];
    var g := AddOrphan(grid, p.area, k, p);
    var nf := |e.features|;
    forall area: string, c: nat
      ensures GetCell(g, area, c) ==
        if c < k then CellAt(flat, area, c)
        else if c == k && k < |flat| then PartialCell(e, area, nf, no + 1)
        else EMPTY_CELL
    {
      OrphansInSnoc(e.orphans, area, no);
      assert GetCell(grid, area, c) ==
        if c < k then CellAt(flat, area, c)
        else if c == k && k < |flat| then PartialCell(e, area, nf, no)
        else EMPTY_CELL;
    }
  }

  /** A finished column holds the whole cell of its epic. */
  lemma {:induction false} ColumnDone(grid: Grid, flat: seq<FlatEpic>, k: nat)
    requires k < |flat|
    requires GridAt(grid, flat, k, |flat[k].epic.features|, |flat[k].epic.orphans|)
    ensures GridAt(grid, flat, k + 1, 0, 0)
  {
    var e := flat[k].epic;
    assert e.features[..|e.features|] == e.features && e.orphans[..|e.orphans|] == e.orphans;
    forall area: string, c: nat
      ensures GetCell(grid, area, c) ==
        if c < k + 1 then CellAt(flat, area, c)
        else if c == k + 1 && k + 1 < |flat| then PartialCell(flat[k + 1].epic, area, 0, 0)
        else EMPTY_CELL
    {
      assert GetCell(grid, area, c) ==
        if c < k then CellAt(flat, area, c)
        else if c == k && k < |flat| then PartialCell(e, area, |e.features|, |e.orphans|)
        else EMPTY_CELL;
    }
  }

  /** The grid-building loop of `compute_section`. */
  method BuildGrid(flat: seq<FlatEpic>) returns (grid: Grid)
    requires Numbered(flat)
    ensures GridOf(grid, flat)
  {
    grid := map[];
    for k := 0 to |flat|
      invariant GridAt(grid, flat, k, 0, 0)
    {
      var epic, gi := flat[k].epic, flat[k].col;
      for nf := 0 to |epic.features|
        invariant GridAt(grid, flat, k, nf, 0)
      {
        var feat := epic.features[nf];
        AddFeatureStep(grid, flat, k, nf);
        grid := AddFeature(grid, feat.area, gi, feat);
      }
      for no := 0 to |epic.orphans|
        invariant GridAt(grid, flat, k, |epic.features|, no)
      {
        var opbi := epic.orphans[no];
        AddOrphanStep(grid, flat, k, no);
        grid := AddOrphan(grid, opbi.area, gi, opbi);
      }
      ColumnDone(grid, flat, k);
    }
    forall area: string, c: nat ensures GetCell(grid, area, c) == CellAt(flat, area, c) {
      assert GetCell(grid, area, c) ==
        if c < |flat| then CellAt(flat, area, c) else EMPTY_CELL;
    }
  }

  // ---------------------------------------------------------------------------
  // Heights.

  /** A feature box: `feat_height(len(pbis), feat_label_h(title, id))`. */
  function FeatureBoxH(f: Feature): (h: int)
    ensures h >= ONE_LINE_LABEL_H + FEAT_PAD_BOTTOM - PBI_GAP
  {
    FeatHeight(|f.pbis|, FeatLabelH(f.title, f.id))
  }

  /** An orphan PBI box with its bottom padding. */
  const ORPHAN_BOX_H := PBI_H + FEAT_PAD_BOTTOM

  /** Total height of a list of feature boxes. */
  function SumFeatureH(fs: seq<Feature>): int {
    if fs == [] then 0 else SumFeatureH(fs[..|fs| - 1]) + FeatureBoxH(fs[|fs| - 1])
  }

  /** Content height of a cell: its feature boxes, then its orphan boxes, stacked
      with FEAT_GAP between two consecutive boxes. */
  function CellH(c: Cell): int {
    var n := |c.features| + |c.orphans|;
    if n == 0 then 0
    else SumFeatureH(c.features) + ORPHAN_BOX_H * |c.orphans| + FEAT_GAP * (n - 1)
  }

  /** Every box is at least 28 high, so a cell is empty exactly when its content
      height is 0 and otherwise at least as high as its boxes. */
  lemma {:induction false} SumFeatureHBound(fs: seq<Feature>)
    ensures SumFeatureH(fs) >= (ONE_LINE_LABEL_H + FEAT_PAD_BOTTOM - PBI_GAP) * |fs|
  {
    if fs != [] {
      SumFeatureHBound(fs[..|fs| - 1]);
    }
  }

  lemma CellHPositive(c: Cell)
    ensures CellH(c) >= 0
    ensures CellH(c) == 0 <==> c == EMPTY_CELL
  {
    SumFeatureHBound(c.features);
  }

  lemma SumFeatureHSnoc(fs: seq<Feature>, i: nat)
    requires i < |fs|
    ensures SumFeatureH(fs[..i + 1]) == SumFeatureH(fs[..i]) + FeatureBoxH(fs[i])
  {
    assert fs[..i + 1][..i] == fs[..i];
  }

  /** One more feature box: a gap unless it is the first box, then its height. */
  lemma {:induction false} FeatureStepH(fs: seq<Feature>, i: nat, h: int)
    requires i < |fs| && h == CellH(Cell(fs[..i], []))
    ensures CellH(Cell(fs[..i + 1], []))
      == (if h > 0 then h + FEAT_GAP else h) + FeatHeight(|fs[i].pbis|, FeatLabelH(fs[i].title, fs[i].id))
  {
    CellHPositive(Cell(fs[..i], []));
    SumFeatureHSnoc(fs, i);
  }

  /** One more orphan box: a gap unless it is the first box, then its height. */
  lemma {:induction false} OrphanStepH(fs: seq<Feature>, ps: seq<Pbi>, i: nat, h: int)
    requires i < |ps| && h == CellH(Cell(fs, ps[..i]))
    ensures CellH(Cell(fs, ps[..i + 1])) == (if h > 0 then h + FEAT_GAP else h) + PBI_H + FEAT_PAD_BOTTOM
  {
    CellHPositive(Cell(fs, ps[..i]));
  }

  /** The feature half of the content-height loop of `compute_section`. */
  method FeaturesContentH(fs: seq<Feature>) returns (h: int)
    ensures h == CellH(Cell(fs, []))
  {
    h := 0;
    for i := 0 to |fs|
      invariant h == CellH(Cell(fs[..i], []))
    {
      var feat := fs[i];
      FeatureStepH(fs, i, h);
      if h > 0 {
        h := h + FEAT_GAP;
      }
      var lh := FeatLabelH(feat.title, feat.id);
      h := h + FeatHeight(|feat.pbis|, lh);
    }
    assert fs[..|fs|] == fs;
  }

  /** The content-height loop of `compute_section` for one cell: each box after
      the first adds FEAT_GAP, then its own height. */
  method CellContentH(c: Cell) returns (h: int)
    ensures h == CellH(c)
  {
    h := FeaturesContentH(c.features);
    assert c.orphans[..0] == [];
    for i := 0 to |c.orphans|
      invariant h == CellH(Cell(c.features, c.orphans[..i]))
    {
      OrphanStepH(c.features, c.orphans, i, h);
      if h > 0 {
        h := h + FEAT_GAP;
      }
      h := h + PBI_H + FEAT_PAD_BOTTOM;
    }
    assert c.orphans[..|c.orphans|] == c.orphans;
  }

  // ---------------------------------------------------------------------------
  // Rows and the grid size.

  /** `num_epics = max(len(flat_epics), 1)`. */
  function NumEpics(flat: seq<FlatEpic>): (n: nat)
    ensures n >= 1 && n >= |flat|
  {
    if |flat| > 1 then |flat| else 1
  }

  /** The content heights of one area row, column by column. */
  function CellHeights(flat: seq<FlatEpic>, area: string): (hs: seq<int>)
    ensures |hs| == NumEpics(flat)
    ensures forall ei :: 0 <= ei < |hs| ==> hs[ei] == CellH(CellAt(flat, area, ei))
  {
    seq(NumEpics(flat), ei requires 0 <= ei < NumEpics(flat) => CellH(CellAt(flat, area, ei)))
  }

  /** `row_heights[area]`: the tallest cell plus the top and bottom padding, and
      never less than MIN_ROW_H. */
  function RowH(flat: seq<FlatEpic>, area: string): int {
    Max(MaxOf(CellHeights(flat, area)) + CELL_PAD_TOP * 2, MIN_ROW_H)
  }

  /** A row is at least MIN_ROW_H high and fits every cell of its area with the
      padding above and below. */
  lemma RowHBounds(flat: seq<FlatEpic>, area: string, ei: nat)
    requires ei < NumEpics(flat)
    ensures RowH(flat, area) >= MIN_ROW_H
    ensures RowH(flat, area) >= CellH(CellAt(flat, area, ei)) + CELL_PAD_TOP * 2
  {
    MaxOfBound(CellHeights(flat, area), ei);
  }

  /** A row is no taller than it has to be: it is MIN_ROW_H or exactly fits its
      tallest cell. */
  lemma RowHTight(flat: seq<FlatEpic>, area: string) returns (ei: nat)
    ensures ei < NumEpics(flat)
    ensures RowH(flat, area) == MIN_ROW_H || RowH(flat, area) == CellH(CellAt(flat, area, ei)) + CELL_PAD_TOP * 2
  {
    var hs := CellHeights(flat, area);
    forall k | 0 <= k < |hs|
      ensures hs[k] >= 0
    {
      CellHPositive(CellAt(flat, area, k));
    }
    ei := MaxOfAttained(hs);
  }

  /** A grid built from the columns answers every `get` as the columns call for. */
  lemma GetCellOf(grid: Grid, flat: seq<FlatEpic>, area: string, c: nat)
    requires GridOf(grid, flat)
    ensures GetCell(grid, area, c) == CellAt(flat, area, c)
  {
  }

  /** The row-height loop of `compute_section`: one height per area, in area order
      (`row_heights[areas[i]]`). */
  /** `row_heights[area]`: the tallest cell of the row over all columns, plus
      the padding, and never less than MIN_ROW_H. */
  method AreaRowH(area: string, grid: Grid, ghost flat: seq<FlatEpic>, numEpics: nat) returns (rh: int)
    requires GridOf(grid, flat) && numEpics == NumEpics(flat)
    ensures rh == RowH(flat, area)
  {
    ghost var cellHs := CellHeights(flat, area);
    var maxH := 0;
    for ei := 0 to numEpics
      invariant maxH == MaxOf(cellHs[..ei])
    {
      GetCellOf(grid, flat, area, ei);
      var h := CellContentH(GetCell(grid, area, ei));
      assert h == cellHs[ei];
      TakeSnoc(cellHs, ei);
      MaxOfSnoc(cellHs[..ei], h);
      maxH := Max(maxH, h);
    }
    assert cellHs[..numEpics] == cellHs;
    rh := Max(maxH + CELL_PAD_TOP * 2, MIN_ROW_H);
  }

  method RowHeights(areas: seq<string>, grid: Grid, ghost flat: seq<FlatEpic>, numEpics: nat)
    returns (hs: seq<int>)
    requires GridOf(grid, flat) && numEpics == NumEpics(flat)
    ensures |hs| == |areas|
    ensures forall i :: 0 <= i < |areas| ==> hs[i] == RowH(flat, areas[i])
  {
    hs := [];
    for i := 0 to |areas|
      invariant |hs| == i
      invariant forall j :: 0 <= j < i ==> hs[j] == RowH(flat, areas[j])
    {
      var rh := AreaRowH(areas[i], grid, flat, numEpics);
      hs := hs + [rh];
    }
  }

  /** `grid_w`: the columns side by side with COL_GAP between them. */
  function GridW(flat: seq<FlatEpic>): int {
    NumEpics(flat) * (COL_W + COL_GAP) - COL_GAP
  }

  /** The grid reaches exactly the right edge of its last column. */
  lemma GridWCoversColumns(flat: seq<FlatEpic>)
    ensures COL_START_X + GridW(flat) == ColX(NumEpics(flat) - 1) + COL_W
    ensures forall c: nat :: c < NumEpics(flat) ==> ColX(c) + COL_W <= COL_START_X + GridW(flat)
  {
  }

  /** `grid_h`: the rows one under another with ROW_GAP between them. */
  function GridH(hs: seq<int>): int {
    Sum(hs) + ROW_GAP * Max(|hs| - 1, 0)
  }

  // ---------------------------------------------------------------------------
  // The section.

  /** The dict `compute_section` returns. `row_heights` is kept in area order; the
      areas are distinct, so it is the same mapping. */
  datatype Section = Section(
    initiatives: seq<Initiative>,
    areas: seq<string>,
    flat: seq<FlatEpic>,
    ranges: seq<(int, (nat, nat))>,
    grid: Grid,
    gridW: int,
    rowHeights: seq<int>,
    gridH: int,
    totalH: int)

  /** What `compute_section(group)` returns, field by field. */
  ghost predicate SectionOf(sec: Section, group: seq<Initiative>) {
    && sec.initiatives == group
    && sec.areas == GroupAreas(group)
    && sec.flat == FlatSpec(group)
    && sec.ranges == RangesSpec(group)
    && GridOf(sec.grid, sec.flat)
    && sec.gridW == GridW(sec.flat)
    && |sec.rowHeights| == |sec.areas|
    && (forall i :: 0 <= i < |sec.areas| ==> sec.rowHeights[i] == RowH(sec.flat, sec.areas[i]))
    && sec.gridH == GridH(sec.rowHeights)
    && sec.totalH == SEC_GRID_Y + sec.gridH
  }

  /** `compute_section`. */
  method ComputeSection(group: seq<Initiative>) returns (sec: Section)
    ensures SectionOf(sec, group)
  {
    var areas := DiscoverAreas(group);
    var flat, ranges := FlattenEpics(group);
    var numEpics := NumEpics(flat);
    var gridW := numEpics * (COL_W + COL_GAP) - COL_GAP;
    FlatNumbered(group);
    var grid := BuildGrid(flat);
    var hs := RowHeights(areas, grid, flat, numEpics);
    var gridH := Sum(hs) + ROW_GAP * Max(|areas| - 1, 0);
    sec := Section(group, areas, flat, ranges, grid, gridW, hs, gridH, SEC_GRID_Y + gridH);
  }
}
