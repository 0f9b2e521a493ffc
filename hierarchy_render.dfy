/** `render_section`: the boxes one section of the hierarchy diagram draws. The
    `cell_fn(id, text, style, x, y, w, h)` callback is modelled as appending a box
    record (what it is, and its geometry) to a sequence. */
module HierarchyRender {
  import opened Common
  import opened Collections
  import opened WorkItems
  import opened HierarchyMetrics
  import opened HierarchySection
  import opened HierarchyGrid
  import opened Geometry

  /** What a drawn cell is; its id and style follow from this. Area ids carry the
      section index, as in `s{si}_area_...`. */
  datatype BoxKind =
    | InitiativeBar(id: int)
    | EpicHeader(id: int)
    | AreaLabel(section: nat, area: string)
    | AreaLane(section: nat, area: string)
    | EpicLane(id: int)
    | FeatureCard(id: int)
    | PbiCard(id: int)

  // ---------------------------------------------------------------------------
  // Initiative bars.

  /** The bar over columns r.0 .. r.1. */
  function InitBar(id: int, r: (nat, nat), secY: int): Box<BoxKind> {
    Box(InitiativeBar(id), ColX(r.0), secY + SEC_INIT_Y,
        (r.1 - r.0 + 1) * (COL_W + COL_GAP) - COL_GAP, INIT_BAR_H)
  }

  /** The bar of one initiative, or nothing when it has no range. */
  function BarOf(init: Initiative, ranges: seq<(int, (nat, nat))>, secY: int): seq<Box<BoxKind>> {
    match Lookup(ranges, init.id)
    case None => []
    case Some(r) => [InitBar(init.id, r, secY)]
  }

  /** The bars of the first n initiatives, in order. */
  function InitBars(inits: seq<Initiative>, ranges: seq<(int, (nat, nat))>, secY: int, n: nat): seq<Box<BoxKind>>
    requires n <= |inits|
  {
    if n == 0 then [] else InitBars(inits, ranges, secY, n - 1) + BarOf(inits[n - 1], ranges, secY)
  }

  lemma InitBarsStep(inits: seq<Initiative>, ranges: seq<(int, (nat, nat))>, secY: int, i: nat)
    requires i < |inits|
    ensures InitBars(inits, ranges, secY, i + 1) == InitBars(inits, ranges, secY, i) + BarOf(inits[i], ranges, secY)
  {
  }

  method RenderInitBars(inits: seq<Initiative>, ranges: seq<(int, (nat, nat))>, secY: int)
    returns (boxes: seq<Box<BoxKind>>)
    ensures boxes == InitBars(inits, ranges, secY, |inits|)
  {
    boxes := [];
    for i := 0 to |inits|
      invariant boxes == InitBars(inits, ranges, secY, i)
    {
      var init := inits[i];
      var r := Lookup(ranges, init.id);
      InitBarsStep(inits, ranges, secY, i);
      if r.None? {
        continue;
      }
      var startCol, endCol := r.value.0, r.value.1;
      var x := COL_START_X + startCol * (COL_W + COL_GAP);
      var w := (endCol - startCol + 1) * (COL_W + COL_GAP) - COL_GAP;
      boxes := boxes + [Box(InitiativeBar(init.id), x, secY + SEC_INIT_Y, w, INIT_BAR_H)];
    }
  }

  /** In a section, an initiative with columns gets one bar, from the left edge of
      its first column to the right edge of its last, over every one of its
      columns; an initiative without columns gets none. */
  lemma InitBarCovers(group: seq<Initiative>, j: nat, secY: int)
    requires DistinctIds(group) && j < |group|
    ensures |ContentEpics(group[j].epics)| == 0 ==> BarOf(group[j], RangesSpec(group), secY) == []
    ensures |ContentEpics(group[j].epics)| > 0 ==>
      var bar := InitBar(group[j].id, (Start(group, j), Start(group, j + 1) - 1), secY);
      && BarOf(group[j], RangesSpec(group), secY) == [bar]
      && bar.x == ColX(Start(group, j))
      && bar.x + bar.w == ColX(Start(group, j + 1) - 1) + COL_W
      && forall c: nat :: Start(group, j) <= c < Start(group, j + 1) ==>
           bar.x <= ColX(c) && ColX(c) + COL_W <= bar.x + bar.w
  {
    RangeOfInitiative(group, j);
  }

  /** Bars of different initiatives of a section do not overlap. */
  lemma InitBarsDisjoint(group: seq<Initiative>, j1: nat, j2: nat, secY: int)
    requires DistinctIds(group) && j1 < j2 < |group|
    requires |ContentEpics(group[j1].epics)| > 0 && |ContentEpics(group[j2].epics)| > 0
    ensures var b1 := BarOf(group[j1], RangesSpec(group), secY);
      var b2 := BarOf(group[j2], RangesSpec(group), secY);
      |b1| == 1 && |b2| == 1 && b1[0].x + b1[0].w < b2[0].x
  {
    RangeOfInitiative(group, j1);
    RangeOfInitiative(group, j2);
    var r1 := Lookup(RangesSpec(group), group[j1].id).value;
    var r2 := Lookup(RangesSpec(group), group[j2].id).value;
    RangesDisjoint(group, j1, j2, r1, r2);
  }

  // ---------------------------------------------------------------------------
  // Epic headers and epic lanes.

  function HeaderOf(e: FlatEpic, secY: int): Box<BoxKind> {
    Box(EpicHeader(e.epic.id), ColX(e.col), secY + SEC_EPIC_Y, COL_W, EPIC_HEADER_H)
  }

  /** One header per column, in column order. */
  function EpicHeaders(flat: seq<FlatEpic>, secY: int): (bs: seq<Box<BoxKind>>)
    ensures |bs| == |flat|
  {
    seq(|flat|, k requires 0 <= k < |flat| => HeaderOf(flat[k], secY))
  }

  method RenderEpicHeaders(flat: seq<FlatEpic>, secY: int) returns (boxes: seq<Box<BoxKind>>)
    ensures boxes == EpicHeaders(flat, secY)
  {
    boxes := [];
    for k := 0 to |flat|
      invariant |boxes| == k
      invariant forall j :: 0 <= j < k ==> boxes[j] == HeaderOf(flat[j], secY)
    {
      var x := COL_START_X + flat[k].col * (COL_W + COL_GAP);
      boxes := boxes + [Box(EpicHeader(flat[k].epic.id), x, secY + SEC_EPIC_Y, COL_W, EPIC_HEADER_H)];
    }
  }

  /** A column lane reaches LANE_EXTEND_V above and below the grid. */
  function LaneOf(e: FlatEpic, gridTop: int, gridH: int): Box<BoxKind> {
    Box(EpicLane(e.epic.id), ColX(e.col), gridTop - LANE_EXTEND_V, COL_W, gridH + LANE_EXTEND_V * 2)
  }

  function EpicLanes(flat: seq<FlatEpic>, gridTop: int, gridH: int): (bs: seq<Box<BoxKind>>)
    ensures |bs| == |flat|
  {
    seq(|flat|, k requires 0 <= k < |flat| => LaneOf(flat[k], gridTop, gridH))
  }

  method RenderEpicLanes(flat: seq<FlatEpic>, gridTop: int, gridH: int) returns (boxes: seq<Box<BoxKind>>)
    ensures boxes == EpicLanes(flat, gridTop, gridH)
  {
    var elaneTop := gridTop - LANE_EXTEND_V;
    var elaneH := gridH + LANE_EXTEND_V * 2;
    boxes := [];
    for k := 0 to |flat|
      invariant |boxes| == k
      invariant forall j :: 0 <= j < k ==> boxes[j] == LaneOf(flat[j], gridTop, gridH)
    {
      var x := COL_START_X + flat[k].col * (COL_W + COL_GAP);
      boxes := boxes + [Box(EpicLane(flat[k].epic.id), x, elaneTop, COL_W, elaneH)];
    }
  }

  // ---------------------------------------------------------------------------
  // Row positions.

  /** `row_y[areas[i]]`: the rows above, each followed by ROW_GAP. */
  function RowY(top: int, hs: seq<int>, i: nat): int
    requires i <= |hs|
  {
    top + Sum(hs[..i]) + ROW_GAP * i
  }

  function RowYs(top: int, hs: seq<int>): (ys: seq<int>)
    ensures |ys| == |hs|
  {
    seq(|hs|, i requires 0 <= i < |hs| => RowY(top, hs, i))
  }

  lemma RowYStep(top: int, hs: seq<int>, i: nat)
    requires i < |hs|
    ensures RowY(top, hs, i + 1) == RowY(top, hs, i) + hs[i] + ROW_GAP
  {
    assert hs[..i + 1][..i] == hs[..i];
  }

  /** The `cy` loop of `render_section`; `bottom` is where `cy` ends up. */
  method RowTops(top: int, hs: seq<int>) returns (ys: seq<int>, bottom: int)
    ensures ys == RowYs(top, hs)
    ensures bottom == top + GridH(hs)
  {
    ys := [];
    var cy := top;
    for i := 0 to |hs|
      invariant |ys| == i
      invariant forall j :: 0 <= j < i ==> ys[j] == RowY(top, hs, j)
      invariant cy + (if 0 < i == |hs| then ROW_GAP else 0) == RowY(top, hs, i)
    {
      ys := ys + [cy];
      RowYStep(top, hs, i);
      cy := cy + hs[i];
      if i < |hs| - 1 {
        cy := cy + ROW_GAP;
      }
    }
    bottom := cy;
    assert hs[..|hs|] == hs;
  }

  /** Rows of non-negative height follow each other in order, ROW_GAP apart, and
      the last one ends at the bottom of the grid. */
  lemma {:induction false} RowsStacked(top: int, hs: seq<int>, i: nat, j: nat)
    requires forall k :: 0 <= k < |hs| ==> hs[k] >= 0
    requires i < j <= |hs|
    ensures RowY(top, hs, i) + hs[i] + ROW_GAP <= RowY(top, hs, j)
    ensures j == |hs| ==> RowY(top, hs, j - 1) + hs[j - 1] == top + GridH(hs)
    decreases j
  {
    RowYStep(top, hs, j - 1);
    if i < j - 1 {
      RowsStacked(top, hs, i, j - 1);
    }
    if j == |hs| {
      assert hs[..j] == hs;
    }
  }

  // ---------------------------------------------------------------------------
  // Area labels and lanes.

  /** An area's label, centred on its row, and its lane across the whole grid. */
  function AreaPair(area: string, y: int, h: int, gridW: int, si: nat): seq<Box<BoxKind>> {
    [Box(AreaLabel(si, area), AREA_LABEL_X, y + h / 2 - 20, AREA_LABEL_W, 40),
     Box(AreaLane(si, area), COL_START_X - LANE_EXTEND_H, y, gridW + LANE_EXTEND_H * 2, h)]
  }

  function AreaBoxes(areas: seq<string>, ys: seq<int>, hs: seq<int>, gridW: int, si: nat, n: nat): seq<Box<BoxKind>>
    requires n <= |areas| == |ys| == |hs|
  {
    if n == 0 then []
    else AreaBoxes(areas, ys, hs, gridW, si, n - 1) + AreaPair(areas[n - 1], ys[n - 1], hs[n - 1], gridW, si)
  }

  method RenderAreas(areas: seq<string>, ys: seq<int>, hs: seq<int>, gridW: int, si: nat)
    returns (boxes: seq<Box<BoxKind>>)
    requires |areas| == |ys| == |hs|
    ensures boxes == AreaBoxes(areas, ys, hs, gridW, si, |areas|)
  {
    var laneLeft := COL_START_X - LANE_EXTEND_H;
    var laneW := gridW + LANE_EXTEND_H * 2;
    boxes := [];
    for i := 0 to |areas|
      invariant boxes == AreaBoxes(areas, ys, hs, gridW, si, i)
    {
      var y, h := ys[i], hs[i];
      boxes := boxes + [Box(AreaLabel(si, areas[i]), AREA_LABEL_X, y + h / 2 - 20, AREA_LABEL_W, 40)];
      boxes := boxes + [Box(AreaLane(si, areas[i]), laneLeft, y, laneW, h)];
    }
  }

  /** In a row at least 40 high the label stays within the row, and the lane
      spans every column of the grid, LANE_EXTEND_H beyond each side. */
  lemma AreaPairFits(area: string, y: int, h: int, flat: seq<FlatEpic>, si: nat)
    requires h >= 40
    ensures var ps := AreaPair(area, y, h, GridW(flat), si);
      && y <= ps[0].y && ps[0].y + ps[0].h <= y + h
      && ps[1].y == y && ps[1].h == h
      && forall c: nat :: c < NumEpics(flat) ==>
           ps[1].x + LANE_EXTEND_H <= ColX(c) && ColX(c) + COL_W + LANE_EXTEND_H <= ps[1].x + ps[1].w
  {
    GridWCoversColumns(flat);
  }

  /** Every row of non-negative height lies between the top and the bottom of the grid. */
  lemma RowWithinGrid(top: int, hs: seq<int>, i: nat)
    requires forall k :: 0 <= k < |hs| ==> hs[k] >= 0
    requires i < |hs|
    ensures top <= RowY(top, hs, i) && RowY(top, hs, i) + hs[i] <= top + GridH(hs)
  {
    RowsStacked(top, hs, |hs| - 1, |hs|);
    if i < |hs| - 1 {
      RowsStacked(top, hs, i, |hs| - 1);
    }
    SumNonNegative(hs[..i]);
  }

  /** The column lanes reach LANE_EXTEND_V beyond the first and the last row. */
  lemma LanesSpanRows(e: FlatEpic, top: int, hs: seq<int>, i: nat)
    requires forall k :: 0 <= k < |hs| ==> hs[k] >= 0
    requires i < |hs|
    ensures var lane := LaneOf(e, top, GridH(hs));
      lane.y + LANE_EXTEND_V <= RowY(top, hs, i) && RowY(top, hs, i) + hs[i] + LANE_EXTEND_V <= lane.y + lane.h
  {
    RowWithinGrid(top, hs, i);
  }

  // ---------------------------------------------------------------------------
  // Features and PBIs inside one cell.

  /** The PBI at position pi of a feature whose label ends at labelBottom. */
  function PbiInFeature(p: Pbi, colX: int, labelBottom: int, pi: nat): Box<BoxKind> {
    Box(PbiCard(p.id), colX + FEAT_INSET + PBI_INSET, labelBottom + pi * (PBI_H + PBI_GAP),
        COL_W - FEAT_INSET * 2 - PBI_INSET * 2, PBI_H)
  }

  /** A feature's box at y followed by its PBIs' boxes, stacked under its label. */
  function FeatureBoxes(f: Feature, colX: int, y: int): (bs: seq<Box<BoxKind>>)
    ensures |bs| == |f.pbis| + 1
  {
    var lh := FeatLabelH(f.title, f.id);
    [Box(FeatureCard(f.id), colX + FEAT_INSET, y, COL_W - FEAT_INSET * 2, FeatureBoxH(f))]
      + seq(|f.pbis|, pi requires 0 <= pi < |f.pbis| => PbiInFeature(f.pbis[pi], colX, y + lh, pi))
  }

  /** The boxes of one feature; `fh` is its height, by which `cell_y` moves on. */
  method RenderFeature(feat: Feature, colX: int, cellY: int) returns (boxes: seq<Box<BoxKind>>, fh: int)
    ensures boxes == FeatureBoxes(feat, colX, cellY)
    ensures fh == FeatureBoxH(feat)
  {
    var lh := FeatLabelH(feat.title, feat.id);
    fh := FeatHeight(|feat.pbis|, lh);
    var fx := colX + FEAT_INSET;
    var fw := COL_W - FEAT_INSET * 2;
    boxes := [Box(FeatureCard(feat.id), fx, cellY, fw, fh)];
    for pi := 0 to |feat.pbis|
      invariant |boxes| == pi + 1 && boxes[0] == Box(FeatureCard(feat.id), fx, cellY, fw, fh)
      invariant forall j :: 0 <= j < pi ==> boxes[j + 1] == PbiInFeature(feat.pbis[j], colX, cellY + lh, j)
    {
      var px := fx + PBI_INSET;
      var py := cellY + lh + pi * (PBI_H + PBI_GAP);
      var pw := fw - PBI_INSET * 2;
      boxes := boxes + [Box(PbiCard(feat.pbis[pi].id), px, py, pw, PBI_H)];
    }
  }

  /** Every PBI box lies inside its feature's box, under the label, and the last
      one ends exactly FEAT_PAD_BOTTOM above the feature's bottom. */
  lemma FeatureBoxesFit(f: Feature, colX: int, y: int)
    ensures var bs := FeatureBoxes(f, colX, y);
      && Inside(bs[0], colX, y, colX + COL_W, y + FeatureBoxH(f))
      && (forall k :: 1 <= k < |bs| ==>
            Inside(bs[k], bs[0].x, y + FeatLabelH(f.title, f.id), bs[0].x + bs[0].w,
                   y + FeatureBoxH(f) - FEAT_PAD_BOTTOM))
      && (|f.pbis| > 0 ==> bs[|bs| - 1].y + bs[|bs| - 1].h == bs[0].y + bs[0].h - FEAT_PAD_BOTTOM)
  {
    var bs := FeatureBoxes(f, colX, y);
    var lh := FeatLabelH(f.title, f.id);
    forall k | 1 <= k < |bs|
      ensures Inside(bs[k], bs[0].x, y + lh, bs[0].x + bs[0].w, y + FeatureBoxH(f) - FEAT_PAD_BOTTOM)
    {
      PbiInsideFeature(|f.pbis|, lh, k - 1);
    }
    if |f.pbis| > 0 {
      PbiInsideFeature(|f.pbis|, lh, |f.pbis| - 1);
    }
  }

  /** `cell_y` before the k-th feature of a cell that starts at y0: each feature
      moves it down by its box and FEAT_GAP. */
  function FeatTop(fs: seq<Feature>, k: nat, y0: int): (t: int)
    requires k <= |fs|
    ensures t >= y0
  {
    if k == 0 then y0 else FeatTop(fs, k - 1, y0) + FeatureBoxH(fs[k - 1]) + FEAT_GAP
  }

  /** `cell_y` after k features is y0 plus their heights and k gaps. */
  lemma {:induction false} FeatTopSum(fs: seq<Feature>, k: nat, y0: int)
    requires k <= |fs|
    ensures FeatTop(fs, k, y0) == y0 + SumFeatureH(fs[..k]) + FEAT_GAP * k
  {
    if k > 0 {
      FeatTopSum(fs, k - 1, y0);
      SumFeatureHSnoc(fs, k - 1);
    }
  }

  /** The boxes of the first n features of a cell starting at y0. */
  function FeaturesBoxes(fs: seq<Feature>, colX: int, y0: int, n: nat): seq<Box<BoxKind>>
    requires n <= |fs|
  {
    if n == 0 then []
    else FeaturesBoxes(fs, colX, y0, n - 1) + FeatureBoxes(fs[n - 1], colX, FeatTop(fs, n - 1, y0))
  }

  /** An orphan PBI's box, 5 below the `cell_y` it is drawn at. */
  function OrphanBox(p: Pbi, colX: int, cellY: int): Box<BoxKind> {
    Box(PbiCard(p.id), colX + FEAT_INSET + PBI_INSET, cellY + 5,
        COL_W - (FEAT_INSET + PBI_INSET) * 2, PBI_H)
  }

  /** Each orphan advances `cell_y` by its slot and the gap. */
  const ORPHAN_STEP := PBI_H + FEAT_PAD_BOTTOM + FEAT_GAP

  /** The boxes of the first n orphans, the first one at `cell_y` == y1. */
  function OrphansBoxes(ps: seq<Pbi>, colX: int, y1: int, n: nat): seq<Box<BoxKind>>
    requires n <= |ps|
  {
    if n == 0 then []
    else OrphansBoxes(ps, colX, y1, n - 1) + [OrphanBox(ps[n - 1], colX, y1 + (n - 1) * ORPHAN_STEP)]
  }

  /** Everything drawn for one cell whose content starts at y0: the features, then
      the orphans below them. */
  function CellBoxes(c: Cell, colX: int, y0: int): seq<Box<BoxKind>> {
    FeaturesBoxes(c.features, colX, y0, |c.features|)
      + OrphansBoxes(c.orphans, colX, FeatTop(c.features, |c.features|, y0), |c.orphans|)
  }

  /** The `for feat in cell_data["features"]` loop; `cellY` is where it leaves `cell_y`. */
  method RenderFeatures(fs: seq<Feature>, colX: int, y0: int) returns (boxes: seq<Box<BoxKind>>, cellY: int)
    ensures boxes == FeaturesBoxes(fs, colX, y0, |fs|)
    ensures cellY == FeatTop(fs, |fs|, y0)
  {
    boxes := [];
    cellY := y0;
    for i := 0 to |fs|
      invariant boxes == FeaturesBoxes(fs, colX, y0, i)
      invariant cellY == FeatTop(fs, i, y0)
    {
      var fb, fh := RenderFeature(fs[i], colX, cellY);
      boxes := boxes + fb;
      cellY := cellY + fh + FEAT_GAP;
    }
  }

  /** The `for opbi in cell_data["orphans"]` loop, starting at `cell_y` == y1. */
  method RenderOrphans(ps: seq<Pbi>, colX: int, y1: int) returns (boxes: seq<Box<BoxKind>>)
    ensures boxes == OrphansBoxes(ps, colX, y1, |ps|)
  {
    boxes := [];
    var cellY := y1;
    for i := 0 to |ps|
      invariant boxes == OrphansBoxes(ps, colX, y1, i)
      invariant cellY == y1 + i * ORPHAN_STEP
    {
      var px := colX + FEAT_INSET + PBI_INSET;
      var py := cellY + 5;
      var pw := COL_W - (FEAT_INSET + PBI_INSET) * 2;
      boxes := boxes + [Box(PbiCard(ps[i].id), px, py, pw, PBI_H)];
      cellY := cellY + PBI_H + FEAT_PAD_BOTTOM + FEAT_GAP;
    }
  }

  /** The body of the `for area in areas` loop: one cell's features, then its
      orphans from where the features left `cell_y`. */
  method RenderCell(c: Cell, colX: int, y0: int) returns (boxes: seq<Box<BoxKind>>)
    ensures boxes == CellBoxes(c, colX, y0)
  {
    var featureBoxes, cellY := RenderFeatures(c.features, colX, y0);
    var orphanBoxes := RenderOrphans(c.orphans, colX, cellY);
    boxes := featureBoxes + orphanBoxes;
  }

  /** Features drawn one after another never overlap: each ends at least FEAT_GAP
      above the next. */
  lemma {:induction false} FeaturesStacked(fs: seq<Feature>, y0: int, k1: nat, k2: nat)
    requires k1 < k2 <= |fs|
    ensures FeatTop(fs, k1, y0) + FeatureBoxH(fs[k1]) + FEAT_GAP <= FeatTop(fs, k2, y0)
  {
    FeatTopMono(fs, y0, k1 + 1, k2);
  }

  /** `cell_y` only grows from one feature to the next. */
  lemma {:induction false} FeatTopMono(fs: seq<Feature>, y0: int, a: nat, b: nat)
    requires a <= b <= |fs|
    ensures FeatTop(fs, a, y0) <= FeatTop(fs, b, y0)
    decreases b
  {
    if a < b {
      FeatTopMono(fs, y0, a, b - 1);
    }
  }

  /** All of one feature's boxes lie within its own box's rows of the column. */
  lemma FeatureBoxesInside(f: Feature, colX: int, y: int)
    ensures AllInside(FeatureBoxes(f, colX, y), colX, y, colX + COL_W, y + FeatureBoxH(f))
  {
    var bs := FeatureBoxes(f, colX, y);
    FeatureBoxesFit(f, colX, y);
    forall b | b in bs
      ensures Inside(b, colX, y, colX + COL_W, y + FeatureBoxH(f))
    {
      var k :| 0 <= k < |bs| && bs[k] == b;
    }
  }

  lemma {:induction false} FeaturesBoxesFit(fs: seq<Feature>, colX: int, y0: int, n: nat)
    requires 0 < n <= |fs|
    ensures forall b :: b in FeaturesBoxes(fs, colX, y0, n) ==>
      Inside(b, colX, y0, colX + COL_W, FeatTop(fs, n, y0) - FEAT_GAP)
  {
    var y := FeatTop(fs, n - 1, y0);
    var bottom := FeatTop(fs, n, y0) - FEAT_GAP;
    var front := FeaturesBoxes(fs, colX, y0, n - 1);
    var last := FeatureBoxes(fs[n - 1], colX, y);
    FeatureBoxesInside(fs[n - 1], colX, y);
    AllInsideWiden(last, colX, y, colX + COL_W, y + FeatureBoxH(fs[n - 1]), colX, y0, colX + COL_W, bottom);
    if n > 1 {
      FeaturesBoxesFit(fs, colX, y0, n - 1);
      assert AllInside(front, colX, y0, colX + COL_W, y - FEAT_GAP);
      AllInsideWiden(front, colX, y0, colX + COL_W, y - FEAT_GAP, colX, y0, colX + COL_W, bottom);
    }
    AllInsideConcat(front, last, colX, y0, colX + COL_W, bottom);
    assert FeaturesBoxes(fs, colX, y0, n) == front + last;
  }

  lemma {:induction false} OrphansBoxesFit(ps: seq<Pbi>, colX: int, y1: int, n: nat)
    requires 0 < n <= |ps|
    ensures forall b :: b in OrphansBoxes(ps, colX, y1, n) ==>
      Inside(b, colX, y1, colX + COL_W, y1 + n * ORPHAN_STEP - FEAT_GAP)
  {
    if n > 1 {
      OrphansBoxesFit(ps, colX, y1, n - 1);
    }
  }

  /** The features of a cell end FEAT_GAP above where its orphans start, and the
      last orphan ends at the bottom of the cell's content. */
  lemma CellExtent(c: Cell, y0: int)
    ensures FeatTop(c.features, |c.features|, y0) == y0 + SumFeatureH(c.features) + FEAT_GAP * |c.features|
    ensures |c.features| > 0 ==> FeatTop(c.features, |c.features|, y0) - FEAT_GAP <= y0 + CellH(c)
    ensures |c.orphans| > 0 ==>
      FeatTop(c.features, |c.features|, y0) + |c.orphans| * ORPHAN_STEP - FEAT_GAP == y0 + CellH(c)
  {
    var nf, no := |c.features|, |c.orphans|;
    var sum := SumFeatureH(c.features);
    FeatTopSum(c.features, nf, y0);
    assert c.features[..nf] == c.features;
    assert FeatTop(c.features, nf, y0) == y0 + sum + FEAT_GAP * nf;
    assert CellH(c) == if nf + no == 0 then 0 else sum + ORPHAN_BOX_H * no + FEAT_GAP * (nf + no - 1);
  }

  /** Everything drawn for a cell lies in its column and within the cell's content
      height below y0. */
  lemma CellBoxesFit(c: Cell, colX: int, y0: int)
    ensures AllInside(CellBoxes(c, colX, y0), colX, y0, colX + COL_W, y0 + CellH(c))
  {
    var nf, no := |c.features|, |c.orphans|;
    var y1 := FeatTop(c.features, nf, y0);
    var fbs := FeaturesBoxes(c.features, colX, y0, nf);
    var obs := OrphansBoxes(c.orphans, colX, y1, no);
    CellExtent(c, y0);
    SumFeatureHBound(c.features);
    if nf > 0 {
      FeaturesBoxesFit(c.features, colX, y0, nf);
    }
    if no > 0 {
      OrphansBoxesFit(c.orphans, colX, y1, no);
    }
    forall b | b in fbs + obs
      ensures Inside(b, colX, y0, colX + COL_W, y0 + CellH(c))
    {
      if b in fbs {
        assert nf > 0;
      } else {
        assert b in obs && no > 0;
      }
    }
  }

  // ---------------------------------------------------------------------------
  // The grid of cells and the whole section.

  /** Column gi's cells, area by area, for the first m areas; the content of row i
      starts CELL_PAD_TOP below ys[i]. A missing cell draws nothing. */
  function ColumnBoxes(grid: Grid, areas: seq<string>, ys: seq<int>, gi: nat, m: nat): seq<Box<BoxKind>>
    requires m <= |areas| == |ys|
  {
    if m == 0 then []
    else
      ColumnBoxes(grid, areas, ys, gi, m - 1)
        + CellBoxes(GetCell(grid, areas[m - 1], gi), ColX(gi), ys[m - 1] + CELL_PAD_TOP)
  }

  /** The cells of the first n columns, column by column. */
  function CellsBoxes(grid: Grid, areas: seq<string>, ys: seq<int>, flat: seq<FlatEpic>, n: nat): seq<Box<BoxKind>>
    requires n <= |flat| && |areas| == |ys|
  {
    if n == 0 then []
    else CellsBoxes(grid, areas, ys, flat, n - 1) + ColumnBoxes(grid, areas, ys, flat[n - 1].col, |areas|)
  }

  lemma ColumnBoxesStep(grid: Grid, areas: seq<string>, ys: seq<int>, gi: nat, m: nat)
    requires m < |areas| == |ys|
    ensures ColumnBoxes(grid, areas, ys, gi, m + 1) ==
      ColumnBoxes(grid, areas, ys, gi, m) + CellBoxes(GetCell(grid, areas[m], gi), ColX(gi), ys[m] + CELL_PAD_TOP)
  {
  }

  lemma CellsBoxesStep(grid: Grid, areas: seq<string>, ys: seq<int>, flat: seq<FlatEpic>, n: nat)
    requires n < |flat| && |areas| == |ys|
    ensures CellsBoxes(grid, areas, ys, flat, n + 1) ==
      CellsBoxes(grid, areas, ys, flat, n) + ColumnBoxes(grid, areas, ys, flat[n].col, |areas|)
  {
  }

  method RenderColumn(grid: Grid, areas: seq<string>, ys: seq<int>, gi: nat) returns (boxes: seq<Box<BoxKind>>)
    requires |areas| == |ys|
    ensures boxes == ColumnBoxes(grid, areas, ys, gi, |areas|)
  {
    var colX := ColX(gi);
    boxes := [];
    for i := 0 to |areas|
      invariant boxes == ColumnBoxes(grid, areas, ys, gi, i)
    {
      var cellData := GetCell(grid, areas[i], gi);
      var cellY := ys[i] + CELL_PAD_TOP;
      var cb := RenderCell(cellData, colX, cellY);
      ColumnBoxesStep(grid, areas, ys, gi, i);
      boxes := boxes + cb;
    }
  }

  method RenderCells(grid: Grid, areas: seq<string>, ys: seq<int>, flat: seq<FlatEpic>) returns (boxes: seq<Box<BoxKind>>)
    requires |areas| == |ys|
    ensures boxes == CellsBoxes(grid, areas, ys, flat, |flat|)
  {
    boxes := [];
    for k := 0 to |flat|
      invariant boxes == CellsBoxes(grid, areas, ys, flat, k)
    {
      var cb := RenderColumn(grid, areas, ys, flat[k].col);
      CellsBoxesStep(grid, areas, ys, flat, k);
      boxes := boxes + cb;
    }
  }

  /** Everything `render_section` draws for a section at secY, in drawing order. */
  function SectionBoxes(sec: Section, secY: int, si: nat): seq<Box<BoxKind>>
    requires |sec.rowHeights| == |sec.areas|
  {
    var gridTop := secY + SEC_GRID_Y;
    var ys := RowYs(gridTop, sec.rowHeights);
    InitBars(sec.initiatives, sec.ranges, secY, |sec.initiatives|)
      + EpicHeaders(sec.flat, secY)
      + AreaBoxes(sec.areas, ys, sec.rowHeights, sec.gridW, si, |sec.areas|)
      + EpicLanes(sec.flat, gridTop, sec.gridH)
      + CellsBoxes(sec.grid, sec.areas, ys, sec.flat, |sec.flat|)
  }

  /** `render_section(cell_fn, sec, sec_y, si)`. The row heights are kept in area
      order, one per area, as `compute_section` makes them. */
  method RenderSection(sec: Section, secY: int, si: nat) returns (boxes: seq<Box<BoxKind>>)
    requires |sec.rowHeights| == |sec.areas|
    ensures boxes == SectionBoxes(sec, secY, si)
  {
    var bars := RenderInitBars(sec.initiatives, sec.ranges, secY);
    var headers := RenderEpicHeaders(sec.flat, secY);
    var gridTop := secY + SEC_GRID_Y;
    var ys, _ := RowTops(gridTop, sec.rowHeights);
    var areaBoxes := RenderAreas(sec.areas, ys, sec.rowHeights, sec.gridW, si);
    var lanes := RenderEpicLanes(sec.flat, gridTop, sec.gridH);
    var cells := RenderCells(sec.grid, sec.areas, ys, sec.flat);
    boxes := bars + headers + areaBoxes + lanes + cells;
  }

  /** A row at least CELL_PAD_TOP * 2 taller than a cell's content holds it with
      that padding above and below. */
  lemma CellFitsRow(c: Cell, colX: int, rowY: int, rowH: int)
    requires rowH >= CellH(c) + CELL_PAD_TOP * 2
    ensures AllInside(CellBoxes(c, colX, rowY + CELL_PAD_TOP), colX, rowY + CELL_PAD_TOP,
                      colX + COL_W, rowY + rowH - CELL_PAD_TOP)
  {
    CellBoxesFit(c, colX, rowY + CELL_PAD_TOP);
  }

  /** What drawing needs from a section's sizes: one height per area, and every
      row tall enough for each of its cells, with CELL_PAD_TOP above and below. */
  ghost predicate RowsHoldCells(sec: Section) {
    && |sec.rowHeights| == |sec.areas|
    && forall k: nat, i :: k < NumEpics(sec.flat) && 0 <= i < |sec.areas| ==>
         sec.rowHeights[i] >= CellH(GetCell(sec.grid, sec.areas[i], k)) + CELL_PAD_TOP * 2
  }

  /** The sizes `compute_section` gives a section are ones its rows can be drawn with. */
  lemma SectionRowsHoldCells(sec: Section, group: seq<Initiative>)
    requires SectionOf(sec, group)
    ensures RowsHoldCells(sec)
  {
    forall k: nat, i | k < NumEpics(sec.flat) && 0 <= i < |sec.areas|
      ensures sec.rowHeights[i] >= CellH(GetCell(sec.grid, sec.areas[i], k)) + CELL_PAD_TOP * 2
    {
      GetCellOf(sec.grid, sec.flat, sec.areas[i], k);
      RowHBounds(sec.flat, sec.areas[i], k);
    }
  }

  /** In a section whose rows hold their cells, everything drawn for the cell of
      column k and area i, with the row's top at rowY, stays inside that column and
      inside the row, CELL_PAD_TOP clear of its top and bottom: nothing overflows
      its row. */
  lemma CellInRow(sec: Section, rowY: int, k: nat, i: nat)
    requires RowsHoldCells(sec)
    requires k < NumEpics(sec.flat) && i < |sec.areas|
    ensures AllInside(CellBoxes(GetCell(sec.grid, sec.areas[i], k), ColX(k), rowY + CELL_PAD_TOP),
                      ColX(k), rowY + CELL_PAD_TOP, ColX(k) + COL_W, rowY + sec.rowHeights[i] - CELL_PAD_TOP)
  {
    CellFitsRow(GetCell(sec.grid, sec.areas[i], k), ColX(k), rowY, sec.rowHeights[i]);
  }

  // ---------------------------------------------------------------------------
  // The extent of a drawn section.

  /** Everything a section at secY draws lies between the area labels' left edge,
      LANE_EXTEND_H right of its grid, secY, and LANE_EXTEND_V below its grid. */
  function SectionRight(sec: Section): int {
    COL_START_X + sec.gridW + LANE_EXTEND_H
  }

  function SectionBottom(sec: Section, secY: int): int {
    secY + sec.totalH + LANE_EXTEND_V
  }

  /** The facts about a computed section that its drawing relies on. */
  ghost predicate Drawable(sec: Section) {
    && RowsHoldCells(sec)
    && Numbered(sec.flat)
    && (forall p :: p in sec.ranges ==> p.1.0 <= p.1.1 < |sec.flat|)
    && (forall i :: 0 <= i < |sec.rowHeights| ==> sec.rowHeights[i] >= MIN_ROW_H)
    && sec.gridW == GridW(sec.flat)
    && sec.gridH == GridH(sec.rowHeights)
    && sec.totalH == SEC_GRID_Y + sec.gridH
  }

  lemma SectionDrawable(sec: Section, group: seq<Initiative>)
    requires SectionOf(sec, group)
    ensures Drawable(sec)
  {
    SectionRowsHoldCells(sec, group);
    FlatNumbered(group);
    forall p | p in sec.ranges
      ensures p.1.0 <= p.1.1 < |sec.flat|
    {
      RangesCover(group, p.0, p.1.0, p.1.1);
    }
  }

  /** A grid of non-negative rows is never negative in height. */
  lemma GridHNonNegative(hs: seq<int>)
    requires forall k :: 0 <= k < |hs| ==> hs[k] >= 0
    ensures GridH(hs) >= 0
  {
    SumNonNegative(hs);
  }

  /** Column c of a grid with n columns lies within the grid's width. */
  lemma ColumnInGrid(flat: seq<FlatEpic>, c: nat)
    requires c < NumEpics(flat)
    ensures COL_START_X <= ColX(c) && ColX(c) + COL_W <= COL_START_X + GridW(flat)
  {
    GridWCoversColumns(flat);
  }

  /** One initiative's bar, if any, lies within the section. */
  lemma BarWithin(sec: Section, secY: int, init: Initiative)
    requires forall p :: p in sec.ranges ==> p.1.0 <= p.1.1 < |sec.flat|
    requires sec.gridW == GridW(sec.flat) && sec.totalH >= SEC_GRID_Y
    ensures AllInside(BarOf(init, sec.ranges, secY), AREA_LABEL_X, secY, SectionRight(sec), SectionBottom(sec, secY))
  {
    var r := Lookup(sec.ranges, init.id);
    if r.Some? {
      assert (init.id, r.value) in sec.ranges;
      ColumnInGrid(sec.flat, r.value.1);
    }
  }

  lemma {:induction false} InitBarsWithin(sec: Section, secY: int, n: nat)
    requires n <= |sec.initiatives|
    requires forall p :: p in sec.ranges ==> p.1.0 <= p.1.1 < |sec.flat|
    requires sec.gridW == GridW(sec.flat) && sec.totalH >= SEC_GRID_Y
    ensures AllInside(InitBars(sec.initiatives, sec.ranges, secY, n),
                      AREA_LABEL_X, secY, SectionRight(sec), SectionBottom(sec, secY))
  {
    if n > 0 {
      InitBarsWithin(sec, secY, n - 1);
      BarWithin(sec, secY, sec.initiatives[n - 1]);
      AllInsideConcat(InitBars(sec.initiatives, sec.ranges, secY, n - 1), BarOf(sec.initiatives[n - 1], sec.ranges, secY),
                      AREA_LABEL_X, secY, SectionRight(sec), SectionBottom(sec, secY));
    }
  }

  lemma HeadersWithin(sec: Section, secY: int)
    requires Numbered(sec.flat)
    requires sec.gridW == GridW(sec.flat) && sec.totalH >= SEC_GRID_Y
    ensures AllInside(EpicHeaders(sec.flat, secY), AREA_LABEL_X, secY, SectionRight(sec), SectionBottom(sec, secY))
  {
    var hs := EpicHeaders(sec.flat, secY);
    forall k | 0 <= k < |hs|
      ensures Inside(hs[k], AREA_LABEL_X, secY, SectionRight(sec), SectionBottom(sec, secY))
    {
      ColumnInGrid(sec.flat, k);
    }
  }

  lemma LanesWithin(sec: Section, secY: int)
    requires Numbered(sec.flat)
    requires sec.gridW == GridW(sec.flat) && sec.totalH == SEC_GRID_Y + sec.gridH && sec.gridH >= 0
    ensures AllInside(EpicLanes(sec.flat, secY + SEC_GRID_Y, sec.gridH),
                      AREA_LABEL_X, secY, SectionRight(sec), SectionBottom(sec, secY))
  {
    var ls := EpicLanes(sec.flat, secY + SEC_GRID_Y, sec.gridH);
    forall k | 0 <= k < |ls|
      ensures Inside(ls[k], AREA_LABEL_X, secY, SectionRight(sec), SectionBottom(sec, secY))
    {
      ColumnInGrid(sec.flat, k);
    }
  }

  lemma {:induction false} AreaBoxesWithin(sec: Section, secY: int, si: nat, n: nat)
    requires |sec.rowHeights| == |sec.areas| && n <= |sec.areas|
    requires forall i :: 0 <= i < |sec.rowHeights| ==> sec.rowHeights[i] >= MIN_ROW_H
    requires sec.gridW == GridW(sec.flat)
    requires sec.gridH == GridH(sec.rowHeights) && sec.totalH == SEC_GRID_Y + sec.gridH
    ensures AllInside(AreaBoxes(sec.areas, RowYs(secY + SEC_GRID_Y, sec.rowHeights), sec.rowHeights, sec.gridW, si, n),
                      AREA_LABEL_X, secY, SectionRight(sec), SectionBottom(sec, secY))
  {
    if n > 0 {
      AreaBoxesWithin(sec, secY, si, n - 1);
      RowWithinGrid(secY + SEC_GRID_Y, sec.rowHeights, n - 1);
      ColumnInGrid(sec.flat, 0);
    }
  }

  lemma CellWithin(sec: Section, secY: int, rowY: int, k: nat, i: nat)
    requires RowsHoldCells(sec) && k < NumEpics(sec.flat) && i < |sec.areas|
    requires forall i :: 0 <= i < |sec.rowHeights| ==> sec.rowHeights[i] >= MIN_ROW_H
    requires sec.gridW == GridW(sec.flat) && sec.gridH == GridH(sec.rowHeights)
    requires sec.totalH == SEC_GRID_Y + sec.gridH
    requires rowY == RowY(secY + SEC_GRID_Y, sec.rowHeights, i)
    ensures AllInside(CellBoxes(GetCell(sec.grid, sec.areas[i], k), ColX(k), rowY + CELL_PAD_TOP),
                      AREA_LABEL_X, secY, SectionRight(sec), SectionBottom(sec, secY))
  {
    CellInRow(sec, rowY, k, i);
    RowWithinGrid(secY + SEC_GRID_Y, sec.rowHeights, i);
    ColumnInGrid(sec.flat, k);
  }

  /** A column lies in a rectangle when each of its first m cells does. */
  lemma {:induction false} ColumnBoxesWithin(grid: Grid, areas: seq<string>, ys: seq<int>, k: nat, m: nat,
                                             left: int, top: int, right: int, bottom: int)
    requires m <= |areas| == |ys|
    requires forall i :: 0 <= i < m ==>
      AllInside(CellBoxes(GetCell(grid, areas[i], k), ColX(k), ys[i] + CELL_PAD_TOP), left, top, right, bottom)
    ensures AllInside(ColumnBoxes(grid, areas, ys, k, m), left, top, right, bottom)
  {
    if m > 0 {
      ColumnBoxesWithin(grid, areas, ys, k, m - 1, left, top, right, bottom);
      AllInsideConcat(ColumnBoxes(grid, areas, ys, k, m - 1),
                      CellBoxes(GetCell(grid, areas[m - 1], k), ColX(k), ys[m - 1] + CELL_PAD_TOP),
                      left, top, right, bottom);
    }
  }

  lemma ColumnWithin(sec: Section, secY: int, k: nat)
    requires RowsHoldCells(sec) && k < NumEpics(sec.flat)
    requires forall i :: 0 <= i < |sec.rowHeights| ==> sec.rowHeights[i] >= MIN_ROW_H
    requires sec.gridW == GridW(sec.flat) && sec.gridH == GridH(sec.rowHeights)
    requires sec.totalH == SEC_GRID_Y + sec.gridH
    ensures AllInside(ColumnBoxes(sec.grid, sec.areas, RowYs(secY + SEC_GRID_Y, sec.rowHeights), k, |sec.areas|),
                      AREA_LABEL_X, secY, SectionRight(sec), SectionBottom(sec, secY))
  {
    var ys := RowYs(secY + SEC_GRID_Y, sec.rowHeights);
    forall i | 0 <= i < |sec.areas|
      ensures AllInside(CellBoxes(GetCell(sec.grid, sec.areas[i], k), ColX(k), ys[i] + CELL_PAD_TOP),
                        AREA_LABEL_X, secY, SectionRight(sec), SectionBottom(sec, secY))
    {
      CellWithin(sec, secY, ys[i], k, i);
    }
    ColumnBoxesWithin(sec.grid, sec.areas, ys, k, |sec.areas|, AREA_LABEL_X, secY, SectionRight(sec), SectionBottom(sec, secY));
  }


  /** The cells of the first n columns lie in a rectangle when each column does. */
  lemma {:induction false} CellsBoxesWithin(grid: Grid, areas: seq<string>, ys: seq<int>, flat: seq<FlatEpic>, n: nat,
                                            left: int, top: int, right: int, bottom: int)
    requires n <= |flat| && |areas| == |ys|
    requires forall k :: 0 <= k < n ==>
      AllInside(ColumnBoxes(grid, areas, ys, flat[k].col, |areas|), left, top, right, bottom)
    ensures AllInside(CellsBoxes(grid, areas, ys, flat, n), left, top, right, bottom)
  {
    if n > 0 {
      CellsBoxesWithin(grid, areas, ys, flat, n - 1, left, top, right, bottom);
      AllInsideConcat(CellsBoxes(grid, areas, ys, flat, n - 1),
                      ColumnBoxes(grid, areas, ys, flat[n - 1].col, |areas|),
                      left, top, right, bottom);
    }
  }

  lemma CellsWithin(sec: Section, secY: int)
    requires RowsHoldCells(sec) && Numbered(sec.flat)
    requires forall i :: 0 <= i < |sec.rowHeights| ==> sec.rowHeights[i] >= MIN_ROW_H
    requires sec.gridW == GridW(sec.flat) && sec.gridH == GridH(sec.rowHeights)
    requires sec.totalH == SEC_GRID_Y + sec.gridH
    ensures AllInside(CellsBoxes(sec.grid, sec.areas, RowYs(secY + SEC_GRID_Y, sec.rowHeights), sec.flat, |sec.flat|),
                      AREA_LABEL_X, secY, SectionRight(sec), SectionBottom(sec, secY))
  {
    var ys := RowYs(secY + SEC_GRID_Y, sec.rowHeights);
    forall k | 0 <= k < |sec.flat|
      ensures AllInside(ColumnBoxes(sec.grid, sec.areas, ys, sec.flat[k].col, |sec.areas|),
                        AREA_LABEL_X, secY, SectionRight(sec), SectionBottom(sec, secY))
    {
      ColumnWithin(sec, secY, sec.flat[k].col);
    }
    CellsBoxesWithin(sec.grid, sec.areas, ys, sec.flat, |sec.flat|,
                     AREA_LABEL_X, secY, SectionRight(sec), SectionBottom(sec, secY));
  }

  /** Everything `render_section` draws for a computed section at secY lies in the
      band from secY down to LANE_EXTEND_V below its grid, and between the area
      labels' left edge and LANE_EXTEND_H right of the grid. */
  lemma SectionBoxesWithin(sec: Section, secY: int, si: nat)
    requires Drawable(sec)
    ensures AllInside(SectionBoxes(sec, secY, si), AREA_LABEL_X, secY, SectionRight(sec), SectionBottom(sec, secY))
  {
    var top := secY + SEC_GRID_Y;
    var ys := RowYs(top, sec.rowHeights);
    var l, t, r, b := AREA_LABEL_X, secY, SectionRight(sec), SectionBottom(sec, secY);
    GridHNonNegative(sec.rowHeights);
    var bars := InitBars(sec.initiatives, sec.ranges, secY, |sec.initiatives|);
    var headers := EpicHeaders(sec.flat, secY);
    var areaBoxes := AreaBoxes(sec.areas, ys, sec.rowHeights, sec.gridW, si, |sec.areas|);
    var lanes := EpicLanes(sec.flat, top, sec.gridH);
    var cells := CellsBoxes(sec.grid, sec.areas, ys, sec.flat, |sec.flat|);
    InitBarsWithin(sec, secY, |sec.initiatives|);
    HeadersWithin(sec, secY);
    AreaBoxesWithin(sec, secY, si, |sec.areas|);
    LanesWithin(sec, secY);
    CellsWithin(sec, secY);
    AllInsideConcat(bars, headers, l, t, r, b);
    AllInsideConcat(bars + headers, areaBoxes, l, t, r, b);
    AllInsideConcat(bars + headers + areaBoxes, lanes, l, t, r, b);
    AllInsideConcat(bars + headers + areaBoxes + lanes, cells, l, t, r, b);
  }
}
