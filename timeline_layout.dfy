/** The geometry of the timeline page (`generate_page` in `gen-timeline.py`):
    where each area row starts, how wide and tall the page is, and the iteration
    headers, iteration lanes, area labels, area lanes and PBI cards it draws. The
    `cell(...)` helper is modelled as appending a box (what it stands for and its
    geometry) to a sequence. */
module TimelineLayout {
  import opened Common
  import opened Collections
  import opened WorkItems
  import opened Geometry
  import opened TimelineOrder
  import opened TimelineGrid

  const COL_W := 230
  const COL_GAP := 20
  const ROW_GAP := 20
  const COL_START_X := 270
  const PBI_INSET := 8
  const AREA_LABEL_X := 100
  const AREA_LABEL_W := 140
  const AREA_LABEL_H := 40
  const LANE_EXTEND_H := 30
  const LANE_EXTEND_V := 23
  const HEADER_Y := 105
  const HEADER_H := 50
  const GRID_Y := 180
  const LEGEND_GAP := 22
  const LEGEND_W := 800
  const LEGEND_H := 100
  const PAGE_MIN_W := 1200
  const PAGE_MIN_H := 800
  const PAGE_MARGIN_R := 100
  const PAGE_MARGIN_B := 50
  const AXIS_Y := 80
  const AXIS_H := 20

  // ---------------------------------------------------------------------------
  // Row positions.

  /** The top of the i-th area row: the rows before it and a gap after each. */
  function RowTop(hs: seq<int>, i: nat): int
    requires i <= |hs|
  {
    GRID_Y + Sum(hs[..i]) + ROW_GAP * i
  }

  /** `total_grid_h`: the rows and the gaps between them. */
  function GridH(hs: seq<int>): int {
    if hs == [] then 0 else Sum(hs) + ROW_GAP * (|hs| - 1)
  }

  lemma RowTopStep(hs: seq<int>, i: nat)
    requires i < |hs|
    ensures RowTop(hs, i + 1) == RowTop(hs, i) + hs[i] + ROW_GAP
  {
    assert hs[..i + 1][..i] == hs[..i];
  }

  /** The row-position loop of `generate_page`: each row starts where the one
      before it ended plus ROW_GAP, the first at GRID_Y. */
  method RowTops(hs: seq<int>) returns (ys: seq<int>, totalGridH: int)
    ensures |ys| == |hs|
    ensures forall i :: 0 <= i < |hs| ==> ys[i] == RowTop(hs, i)
    ensures totalGridH == GridH(hs)
  {
    ys := [];
    var cy := GRID_Y;
    for i := 0 to |hs|
      invariant |ys| == i
      invariant forall j :: 0 <= j < i ==> ys[j] == RowTop(hs, j)
      invariant cy == if 0 < i == |hs| then RowTop(hs, i) - ROW_GAP else RowTop(hs, i)
    {
      RowTopStep(hs, i);
      ys := ys + [cy];
      cy := cy + hs[i];
      if i < |hs| - 1 {
        cy := cy + ROW_GAP;
      }
    }
    totalGridH := cy - GRID_Y;
    assert hs[..|hs|] == hs;
  }

  /** Over rows of non-negative height, a later row never starts above an
      earlier one. */
  lemma {:induction false} RowTopMonotone(hs: seq<int>, i: nat, j: nat)
    requires i <= j <= |hs|
    requires forall k :: 0 <= k < |hs| ==> hs[k] >= 0
    ensures RowTop(hs, i) <= RowTop(hs, j)
  {
    if i < j {
      RowTopMonotone(hs, i, j - 1);
      RowTopStep(hs, j - 1);
    }
  }

  /** Rows are stacked in area order and never overlap: each later row starts
      at least ROW_GAP below the end of an earlier one. */
  lemma RowsStacked(hs: seq<int>, i: nat, j: nat)
    requires i < j < |hs|
    requires forall k :: 0 <= k < |hs| ==> hs[k] >= 0
    ensures RowTop(hs, i) + hs[i] + ROW_GAP <= RowTop(hs, j)
  {
    RowTopStep(hs, i);
    RowTopMonotone(hs, i + 1, j);
  }

  /** Every row lies within the grid: from GRID_Y down to GRID_Y + total_grid_h. */
  lemma RowInGrid(hs: seq<int>, i: nat)
    requires i < |hs|
    requires forall k :: 0 <= k < |hs| ==> hs[k] >= 0
    ensures GRID_Y <= RowTop(hs, i)
    ensures RowTop(hs, i) + hs[i] <= GRID_Y + GridH(hs)
  {
    RowTopMonotone(hs, 0, i);
    RowTopStep(hs, i);
    RowTopMonotone(hs, i + 1, |hs|);
    assert hs[..|hs|] == hs;
  }

  // ---------------------------------------------------------------------------
  // Columns and the page.

  /** Left edge of iteration column i. */
  function ColX(i: int): int {
    COL_START_X + i * (COL_W + COL_GAP)
  }

  /** `grid_w`: n columns and the gaps between them. */
  function GridW(n: nat): int {
    n * (COL_W + COL_GAP) - COL_GAP
  }

  /** `legend_y`: below the iteration lanes, which reach LANE_EXTEND_V past the
      grid. */
  function LegendY(hs: seq<int>): int {
    GRID_Y + GridH(hs) + LANE_EXTEND_V + LEGEND_GAP
  }

  function PageW(n: nat): int {
    Max(COL_START_X + GridW(n) + PAGE_MARGIN_R, PAGE_MIN_W)
  }

  function PageH(hs: seq<int>): int {
    Max(LegendY(hs) + LEGEND_H + PAGE_MARGIN_B, PAGE_MIN_H)
  }

  /** Columns sit side by side: each ends COL_GAP before the next begins, and the
      last one ends at the grid's right edge. */
  lemma ColumnsAdjacent(n: nat, i: nat)
    requires i < n
    ensures ColX(i) + COL_W + COL_GAP == ColX(i + 1)
    ensures COL_START_X <= ColX(i) && ColX(i) + COL_W <= COL_START_X + GridW(n)
  {
  }

  // ---------------------------------------------------------------------------
  // What is drawn.

  /** What a drawn cell stands for; its id and style follow from this. */
  datatype BoxKind =
    | IterHeader(index: nat, text: string, dates: Option<string>, colour: nat)
    | IterLane(index: nat)
    | AreaLabel(area: string)
    | AreaLane(area: string)
    | PbiCard(id: int)

  /** The date line of an iteration header: the formatted start and finish
      joined by an en dash. None where the script raises instead: a missing
      finish date, or a date `format_date` cannot read. */
  function DateRange(d: IterDates): Option<string> {
    if d.start.None? || d.finish.None? then None
    else
      var s := FormatDate(d.start.value);
      var f := FormatDate(d.finish.value);
      if s.Some? && f.Some? then Some(s.value + " \U{2013} " + f.value) else None
  }

  /** The header of column i: the iteration's last path segment, its dates, and
      the colour of its track. */
  function HeaderBox(iters: Iterations, order: seq<string>, tracks: seq<nat>, i: nat): Box<BoxKind>
    requires i < |order| && i < |tracks|
  {
    var dates := DateRange(Lookup(iters, order[i]).GetOr(IterDates(None, None)));
    Box(IterHeader(i, IterLabel(order[i]), dates, TrackColour(tracks[i])), ColX(i), HEADER_Y, COL_W, HEADER_H)
  }

  function Headers(iters: Iterations, order: seq<string>, tracks: seq<nat>, n: nat): seq<Box<BoxKind>>
    requires n <= |order| && n <= |tracks|
  {
    if n == 0 then [] else Headers(iters, order, tracks, n - 1) + [HeaderBox(iters, order, tracks, n - 1)]
  }

  /** The lane of column i, reaching LANE_EXTEND_V above and below the grid. */
  function IterLaneBox(i: nat, gridH: int): Box<BoxKind> {
    Box(IterLane(i), ColX(i), GRID_Y - LANE_EXTEND_V, COL_W, gridH + LANE_EXTEND_V * 2)
  }

  function IterLanes(gridH: int, n: nat): seq<Box<BoxKind>> {
    if n == 0 then [] else IterLanes(gridH, n - 1) + [IterLaneBox(n - 1, gridH)]
  }

  /** An area's label, centred on its row, and its lane, reaching LANE_EXTEND_H
      past the grid on both sides. */
  function AreaRow(area: string, y: int, h: int, gridW: int): seq<Box<BoxKind>> {
    [Box(AreaLabel(area), AREA_LABEL_X, y + h / 2 - AREA_LABEL_H / 2, AREA_LABEL_W, AREA_LABEL_H),
     Box(AreaLane(area), COL_START_X - LANE_EXTEND_H, y, gridW + LANE_EXTEND_H * 2, h)]
  }

  function AreaRows(areas: seq<string>, ys: seq<int>, hs: seq<int>, gridW: int, n: nat): seq<Box<BoxKind>>
    requires n <= |areas| && n <= |ys| && n <= |hs|
  {
    if n == 0 then []
    else AreaRows(areas, ys, hs, gridW, n - 1) + AreaRow(areas[n - 1], ys[n - 1], hs[n - 1], gridW)
  }

  /** The k-th card of a cell: inset from the column's sides, below the cell's top
      padding, one card height plus PBI_GAP below the previous card. */
  function CardBox(p: Pbi, colX: int, rowY: int, k: nat): Box<BoxKind> {
    Box(PbiCard(p.id), colX + PBI_INSET, rowY + CELL_PAD_TOP + k * (PBI_H + PBI_GAP),
        COL_W - PBI_INSET * 2, PBI_H)
  }

  function CellCards(ps: seq<Pbi>, colX: int, rowY: int, n: nat): seq<Box<BoxKind>>
    requires n <= |ps|
  {
    if n == 0 then [] else CellCards(ps, colX, rowY, n - 1) + [CardBox(ps[n - 1], colX, rowY, n - 1)]
  }

  /** The cards of column ii, for the first m areas. */
  function ColumnCards(grid: Grid, areas: seq<string>, ys: seq<int>, ii: nat, m: nat): seq<Box<BoxKind>>
    requires m <= |areas| && m <= |ys|
  {
    if m == 0 then []
    else
      var ps := CellOf(grid, (areas[m - 1], ii));
      ColumnCards(grid, areas, ys, ii, m - 1) + CellCards(ps, ColX(ii), ys[m - 1], |ps|)
  }

  /** The cards of the first n columns. */
  function Cards(grid: Grid, areas: seq<string>, ys: seq<int>, n: nat): seq<Box<BoxKind>>
    requires |areas| <= |ys|
  {
    if n == 0 then [] else Cards(grid, areas, ys, n - 1) + ColumnCards(grid, areas, ys, n - 1, |areas|)
  }

  /** Everything `generate_page` draws between the titles and the legend, in the
      order it draws them. */
  function Drawing(iters: Iterations, order: seq<string>, tracks: seq<nat>, areas: seq<string>,
                   ys: seq<int>, hs: seq<int>, grid: Grid): seq<Box<BoxKind>>
    requires |tracks| == |order| && |ys| == |areas| && |hs| == |areas|
  {
    Headers(iters, order, tracks, |order|) + IterLanes(GridH(hs), |order|) +
    AreaRows(areas, ys, hs, GridW(|order|), |areas|) + Cards(grid, areas, ys, |order|)
  }

  /** The cells `generate_page` draws around the grid, in its order: the title
      and subtitle sized to `grid_w`, the "Iterations" axis header over the
      columns, and the rotated header centred on `total_grid_h`. */
  function PageChrome(n: nat, hs: seq<int>): seq<Box<Chrome>> {
    [TitleBox(GridW(n)), SubtitleBox(GridW(n)), Box(AxisHeader, COL_START_X, AXIS_Y, GridW(n), AXIS_H),
     AreaHeaderBox(GRID_Y, GridH(hs))]
  }

  /** The title and subtitle end above the axis header; the axis header spans
      exactly the iteration columns and ends above their headers; the rotated
      header lies on the page left of the area labels, its centre within the
      grid's height. */
  lemma ChromePlaced(n: nat, hs: seq<int>)
    requires n > 0
    requires forall k :: 0 <= k < |hs| ==> hs[k] >= 0
    ensures var c := PageChrome(n, hs);
      c[0].y + c[0].h <= c[2].y && c[1].y + c[1].h <= c[2].y &&
      c[2].x == ColX(0) && c[2].x + c[2].w == ColX(n - 1) + COL_W && c[2].y + c[2].h <= HEADER_Y &&
      Inside(c[3], 0, 0, AREA_LABEL_X, PageH(hs)) &&
      GRID_Y <= c[3].y + c[3].h / 2 <= GRID_Y + GridH(hs)
  {
    SumNonNegative(hs);
    AreaHeaderCentred(GRID_Y, GridH(hs));
  }

  /** The title or the subtitle always ends past the page's width: with up to
      three columns the subtitle's minimum width reaches 50 past the minimum page
      width, and from four columns on the title reaches 30 past the grid's right
      margin. */
  lemma TitlesPastPage(n: nat)
    requires n > 0
    ensures n <= 3 ==> SubtitleBox(GridW(n)).x + SubtitleBox(GridW(n)).w == PageW(n) + 50
    ensures n >= 4 ==> TitleBox(GridW(n)).x + TitleBox(GridW(n)).w == PageW(n) + 30
  {
  }

  // ---------------------------------------------------------------------------
  // The drawing loops.

  method RenderHeaders(iters: Iterations, order: seq<string>, tracks: seq<nat>) returns (boxes: seq<Box<BoxKind>>)
    requires |tracks| == |order|
    ensures boxes == Headers(iters, order, tracks, |order|)
  {
    boxes := [];
    for i := 0 to |order|
      invariant boxes == Headers(iters, order, tracks, i)
    {
      var path := order[i];
      var info := Lookup(iters, path).GetOr(IterDates(None, None));
      var dates := DateRange(info);
      var colour := tracks[i] % TRACK_COLOURS;
      boxes := boxes + [Box(IterHeader(i, IterLabel(path), dates, colour), COL_START_X + i * (COL_W + COL_GAP), HEADER_Y, COL_W, HEADER_H)];
    }
  }

  method RenderIterLanes(numIters: nat, totalGridH: int) returns (boxes: seq<Box<BoxKind>>)
    ensures boxes == IterLanes(totalGridH, numIters)
  {
    boxes := [];
    var laneTop := GRID_Y - LANE_EXTEND_V;
    var laneH := totalGridH + LANE_EXTEND_V * 2;
    for i := 0 to numIters
      invariant boxes == IterLanes(totalGridH, i)
    {
      boxes := boxes + [Box(IterLane(i), COL_START_X + i * (COL_W + COL_GAP), laneTop, COL_W, laneH)];
    }
  }

  method RenderAreaRows(areas: seq<string>, ys: seq<int>, hs: seq<int>, gridW: int) returns (boxes: seq<Box<BoxKind>>)
    requires |ys| == |areas| && |hs| == |areas|
    ensures boxes == AreaRows(areas, ys, hs, gridW, |areas|)
  {
    boxes := [];
    var laneLeft := COL_START_X - LANE_EXTEND_H;
    var laneW := gridW + LANE_EXTEND_H * 2;
    for i := 0 to |areas|
      invariant boxes == AreaRows(areas, ys, hs, gridW, i)
    {
      var y := ys[i];
      var h := hs[i];
      boxes := boxes + [Box(AreaLabel(areas[i]), AREA_LABEL_X, y + h / 2 - 20, AREA_LABEL_W, 40)];
      boxes := boxes + [Box(AreaLane(areas[i]), laneLeft, y, laneW, h)];
    }
  }

  /** The innermost loop of the PBI drawing: the cards of one cell. */
  method RenderCell(ps: seq<Pbi>, colX: int, rowY: int) returns (boxes: seq<Box<BoxKind>>)
    ensures boxes == CellCards(ps, colX, rowY, |ps|)
  {
    boxes := [];
    var pw := COL_W - PBI_INSET * 2;
    for pi := 0 to |ps|
      invariant boxes == CellCards(ps, colX, rowY, pi)
    {
      var py := rowY + CELL_PAD_TOP + pi * (PBI_H + PBI_GAP);
      boxes := boxes + [Box(PbiCard(ps[pi].id), colX + PBI_INSET, py, pw, PBI_H)];
    }
  }

  lemma ColumnCardsStep(grid: Grid, areas: seq<string>, ys: seq<int>, ii: nat, a: nat)
    requires a < |areas| && a < |ys|
    ensures ColumnCards(grid, areas, ys, ii, a + 1) ==
            ColumnCards(grid, areas, ys, ii, a) + CellCards(CellOf(grid, (areas[a], ii)), ColX(ii), ys[a], |CellOf(grid, (areas[a], ii))|)
  {
  }

  /** The area loop of the PBI drawing: the cards of column ii, row by row. */
  method RenderColumn(grid: Grid, areas: seq<string>, ys: seq<int>, ii: nat) returns (boxes: seq<Box<BoxKind>>)
    requires |ys| == |areas|
    ensures boxes == ColumnCards(grid, areas, ys, ii, |areas|)
  {
    boxes := [];
    var colX := ColX(ii);
    for a := 0 to |areas|
      invariant boxes == ColumnCards(grid, areas, ys, ii, a)
    {
      var cards := RenderCell(CellOf(grid, (areas[a], ii)), colX, ys[a]);
      ColumnCardsStep(grid, areas, ys, ii, a);
      boxes := boxes + cards;
    }
  }

  /** The PBI drawing loops: per iteration column, per area row, the cell's
      cards. */
  method RenderCards(grid: Grid, areas: seq<string>, ys: seq<int>, numIters: nat) returns (boxes: seq<Box<BoxKind>>)
    requires |ys| == |areas|
    ensures boxes == Cards(grid, areas, ys, numIters)
  {
    boxes := [];
    for ii := 0 to numIters
      invariant boxes == Cards(grid, areas, ys, ii)
    {
      var column := RenderColumn(grid, areas, ys, ii);
      boxes := boxes + column;
    }
  }

  // ---------------------------------------------------------------------------
  // Where the boxes land.

  /** Every card of a cell lies in its column, inset by PBI_INSET, and inside its
      row's padding, provided the row is as tall as the cell needs. */
  lemma {:induction false} CellCardsWithin(ps: seq<Pbi>, colX: int, rowY: int, h: int, n: nat)
    requires n <= |ps|
    requires ContentH(|ps|) <= h
    ensures AllInside(CellCards(ps, colX, rowY, n), colX + PBI_INSET, rowY + CELL_PAD_TOP,
                      colX + COL_W - PBI_INSET, rowY + h - CELL_PAD_BOTTOM)
  {
    if n > 0 {
      CellCardsWithin(ps, colX, rowY, h, n - 1);
      var b := CardBox(ps[n - 1], colX, rowY, n - 1);
      assert b.y + b.h == rowY + CELL_PAD_TOP + n * (PBI_H + PBI_GAP) - PBI_GAP;
      assert Inside(b, colX + PBI_INSET, rowY + CELL_PAD_TOP, colX + COL_W - PBI_INSET, rowY + h - CELL_PAD_BOTTOM);
    }
  }

  /** The row heights and positions `generate_page` computes for a grid of n
      columns. */
  predicate Laid(grid: Grid, areas: seq<string>, ys: seq<int>, hs: seq<int>, n: nat) {
    |ys| == |areas| && |hs| == |areas| &&
    (forall a :: 0 <= a < |areas| ==> hs[a] == RowHeight(grid, areas[a], n)) &&
    (forall a :: 0 <= a < |areas| ==> ys[a] == RowTop(hs, a))
  }

  lemma LaidRowsFit(grid: Grid, areas: seq<string>, ys: seq<int>, hs: seq<int>, n: nat)
    requires Laid(grid, areas, ys, hs, n) && n > 0
    ensures forall a :: 0 <= a < |hs| ==> hs[a] >= MIN_ROW_H
  {
    forall a | 0 <= a < |hs|
      ensures hs[a] >= MIN_ROW_H
    {
      RowHoldsCells(grid, areas[a], n, 0);
    }
  }

  /** The cards of cell (areas[a], ii), ii < n, lie in column ii and within the
      grid. */
  lemma CellInGrid(grid: Grid, areas: seq<string>, ys: seq<int>, hs: seq<int>, n: nat, ii: nat, a: nat)
    requires Laid(grid, areas, ys, hs, n) && ii < n && a < |areas|
    ensures AllInside(CellCards(CellOf(grid, (areas[a], ii)), ColX(ii), ys[a], |CellOf(grid, (areas[a], ii))|),
                      ColX(ii) + PBI_INSET, GRID_Y, ColX(ii) + COL_W - PBI_INSET, GRID_Y + GridH(hs))
  {
    var ps := CellOf(grid, (areas[a], ii));
    RowHoldsCells(grid, areas[a], n, ii);
    CellCardsWithin(ps, ColX(ii), ys[a], hs[a], |ps|);
    LaidRowsFit(grid, areas, ys, hs, n);
    RowInGrid(hs, a);
    AllInsideWiden(CellCards(ps, ColX(ii), ys[a], |ps|),
                   ColX(ii) + PBI_INSET, ys[a] + CELL_PAD_TOP, ColX(ii) + COL_W - PBI_INSET, ys[a] + hs[a] - CELL_PAD_BOTTOM,
                   ColX(ii) + PBI_INSET, GRID_Y, ColX(ii) + COL_W - PBI_INSET, GRID_Y + GridH(hs));
  }

  /** A column's cards lie in a rectangle when each of its cells' cards do. */
  lemma {:induction false} ColumnCardsWithin(grid: Grid, areas: seq<string>, ys: seq<int>, ii: nat, m: nat,
                                             left: int, top: int, right: int, bottom: int)
    requires m <= |areas| && |ys| == |areas|
    requires forall a :: 0 <= a < m ==>
      AllInside(CellCards(CellOf(grid, (areas[a], ii)), ColX(ii), ys[a], |CellOf(grid, (areas[a], ii))|), left, top, right, bottom)
    ensures AllInside(ColumnCards(grid, areas, ys, ii, m), left, top, right, bottom)
  {
    if m > 0 {
      ColumnCardsWithin(grid, areas, ys, ii, m - 1, left, top, right, bottom);
      AllInsideConcat(ColumnCards(grid, areas, ys, ii, m - 1),
                      CellCards(CellOf(grid, (areas[m - 1], ii)), ColX(ii), ys[m - 1], |CellOf(grid, (areas[m - 1], ii))|),
                      left, top, right, bottom);
    }
  }

  /** The cards of column ii < n lie within the grid. */
  lemma ColumnInGrid(grid: Grid, areas: seq<string>, ys: seq<int>, hs: seq<int>, n: nat, ii: nat)
    requires Laid(grid, areas, ys, hs, n) && ii < n
    ensures AllInside(ColumnCards(grid, areas, ys, ii, |areas|), COL_START_X, GRID_Y,
                      COL_START_X + GridW(n), GRID_Y + GridH(hs))
  {
    var left, right := ColX(ii) + PBI_INSET, ColX(ii) + COL_W - PBI_INSET;
    forall a | 0 <= a < |areas|
      ensures AllInside(CellCards(CellOf(grid, (areas[a], ii)), ColX(ii), ys[a], |CellOf(grid, (areas[a], ii))|),
                        left, GRID_Y, right, GRID_Y + GridH(hs))
    {
      CellInGrid(grid, areas, ys, hs, n, ii, a);
    }
    ColumnCardsWithin(grid, areas, ys, ii, |areas|, left, GRID_Y, right, GRID_Y + GridH(hs));
    ColumnsAdjacent(n, ii);
    AllInsideWiden(ColumnCards(grid, areas, ys, ii, |areas|), left, GRID_Y, right, GRID_Y + GridH(hs),
                   COL_START_X, GRID_Y, COL_START_X + GridW(n), GRID_Y + GridH(hs));
  }

  /** All cards lie in a rectangle when each column's cards do. */
  lemma {:induction false} CardsWithin(grid: Grid, areas: seq<string>, ys: seq<int>, k: nat,
                                       left: int, top: int, right: int, bottom: int)
    requires |areas| <= |ys|
    requires forall ii :: 0 <= ii < k ==> AllInside(ColumnCards(grid, areas, ys, ii, |areas|), left, top, right, bottom)
    ensures AllInside(Cards(grid, areas, ys, k), left, top, right, bottom)
  {
    if k > 0 {
      CardsWithin(grid, areas, ys, k - 1, left, top, right, bottom);
      AllInsideConcat(Cards(grid, areas, ys, k - 1), ColumnCards(grid, areas, ys, k - 1, |areas|), left, top, right, bottom);
    }
  }

  lemma {:induction false} HeadersWithin(iters: Iterations, order: seq<string>, tracks: seq<nat>, k: nat)
    requires |tracks| == |order| && k <= |order|
    ensures AllInside(Headers(iters, order, tracks, k), COL_START_X, HEADER_Y,
                      COL_START_X + GridW(|order|), HEADER_Y + HEADER_H)
  {
    if k > 0 {
      HeadersWithin(iters, order, tracks, k - 1);
      ColumnsAdjacent(|order|, k - 1);
    }
  }

  lemma {:induction false} IterLanesWithin(gridH: int, n: nat, k: nat)
    requires k <= n
    ensures AllInside(IterLanes(gridH, k), COL_START_X, GRID_Y - LANE_EXTEND_V,
                      COL_START_X + GridW(n), GRID_Y + gridH + LANE_EXTEND_V)
  {
    if k > 0 {
      IterLanesWithin(gridH, n, k - 1);
      ColumnsAdjacent(n, k - 1);
    }
  }

  /** An area's label lies inside its row (the row is at least as tall as the
      label), its lane spans the grid's columns plus LANE_EXTEND_H on each side,
      and the row lies within the grid. */
  lemma AreaRowWithin(grid: Grid, areas: seq<string>, ys: seq<int>, hs: seq<int>, n: nat, a: nat)
    requires Laid(grid, areas, ys, hs, n) && n > 0 && a < |areas|
    ensures AllInside(AreaRow(areas[a], ys[a], hs[a], GridW(n)), AREA_LABEL_X, ys[a],
                      COL_START_X + GridW(n) + LANE_EXTEND_H, ys[a] + hs[a])
    ensures GRID_Y <= ys[a] && ys[a] + hs[a] <= GRID_Y + GridH(hs)
  {
    RowHoldsCells(grid, areas[a], n, 0);
    LaidRowsFit(grid, areas, ys, hs, n);
    RowInGrid(hs, a);
  }

  /** All area rows lie in a rectangle when each one does. */
  lemma {:induction false} AreaRowsWithin(areas: seq<string>, ys: seq<int>, hs: seq<int>, gridW: int, k: nat,
                                          left: int, top: int, right: int, bottom: int)
    requires k <= |areas| && k <= |ys| && k <= |hs|
    requires forall a :: 0 <= a < k ==> AllInside(AreaRow(areas[a], ys[a], hs[a], gridW), left, top, right, bottom)
    ensures AllInside(AreaRows(areas, ys, hs, gridW, k), left, top, right, bottom)
  {
    if k > 0 {
      AreaRowsWithin(areas, ys, hs, gridW, k - 1, left, top, right, bottom);
      AllInsideConcat(AreaRows(areas, ys, hs, gridW, k - 1), AreaRow(areas[k - 1], ys[k - 1], hs[k - 1], gridW),
                      left, top, right, bottom);
    }
  }

  /** Everything drawn lies on the page: right of the area labels' column, below
      the header line, left of the page's right margin (less the lane overhang)
      and above the legend, which in turn fits the page. */
  lemma DrawingWithinPage(iters: Iterations, order: seq<string>, tracks: seq<nat>, areas: seq<string>,
                          ys: seq<int>, hs: seq<int>, grid: Grid)
    requires |tracks| == |order| && |order| > 0
    requires Laid(grid, areas, ys, hs, |order|)
    ensures AllInside(Drawing(iters, order, tracks, areas, ys, hs, grid), AREA_LABEL_X, HEADER_Y,
                      PageW(|order|) - PAGE_MARGIN_R + LANE_EXTEND_H, LegendY(hs) - LEGEND_GAP)
    ensures COL_START_X + LEGEND_W <= PageW(|order|)
    ensures LegendY(hs) + LEGEND_H + PAGE_MARGIN_B <= PageH(hs)
  {
    var n := |order|;
    var right := PageW(n) - PAGE_MARGIN_R + LANE_EXTEND_H;
    var bottom := LegendY(hs) - LEGEND_GAP;
    LaidRowsFit(grid, areas, ys, hs, n);
    SumNonNegative(hs);
    HeadersWithin(iters, order, tracks, n);
    AllInsideWiden(Headers(iters, order, tracks, n), COL_START_X, HEADER_Y, COL_START_X + GridW(n), HEADER_Y + HEADER_H,
                   AREA_LABEL_X, HEADER_Y, right, bottom);
    IterLanesWithin(GridH(hs), n, n);
    AllInsideWiden(IterLanes(GridH(hs), n), COL_START_X, GRID_Y - LANE_EXTEND_V, COL_START_X + GridW(n), GRID_Y + GridH(hs) + LANE_EXTEND_V,
                   AREA_LABEL_X, HEADER_Y, right, bottom);
    forall a | 0 <= a < |areas|
      ensures AllInside(AreaRow(areas[a], ys[a], hs[a], GridW(n)), AREA_LABEL_X, HEADER_Y, right, bottom)
    {
      AreaRowWithin(grid, areas, ys, hs, n, a);
      AllInsideWiden(AreaRow(areas[a], ys[a], hs[a], GridW(n)),
                     AREA_LABEL_X, ys[a], COL_START_X + GridW(n) + LANE_EXTEND_H, ys[a] + hs[a],
                     AREA_LABEL_X, HEADER_Y, right, bottom);
    }
    AreaRowsWithin(areas, ys, hs, GridW(n), |areas|, AREA_LABEL_X, HEADER_Y, right, bottom);
    forall ii | 0 <= ii < n
      ensures AllInside(ColumnCards(grid, areas, ys, ii, |areas|), AREA_LABEL_X, HEADER_Y, right, bottom)
    {
      ColumnInGrid(grid, areas, ys, hs, n, ii);
      AllInsideWiden(ColumnCards(grid, areas, ys, ii, |areas|), COL_START_X, GRID_Y, COL_START_X + GridW(n), GRID_Y + GridH(hs),
                     AREA_LABEL_X, HEADER_Y, right, bottom);
    }
    CardsWithin(grid, areas, ys, n, AREA_LABEL_X, HEADER_Y, right, bottom);
    AllInsideConcat(Headers(iters, order, tracks, n), IterLanes(GridH(hs), n), AREA_LABEL_X, HEADER_Y, right, bottom);
    AllInsideConcat(Headers(iters, order, tracks, n) + IterLanes(GridH(hs), n), AreaRows(areas, ys, hs, GridW(n), |areas|),
                    AREA_LABEL_X, HEADER_Y, right, bottom);
    AllInsideConcat(Headers(iters, order, tracks, n) + IterLanes(GridH(hs), n) + AreaRows(areas, ys, hs, GridW(n), |areas|),
                    Cards(grid, areas, ys, n), AREA_LABEL_X, HEADER_Y, right, bottom);
  }

  // ---------------------------------------------------------------------------
  // Every scheduled PBI gets a card.

  lemma {:induction false} CellCardsHas(ps: seq<Pbi>, colX: int, rowY: int, n: nat, k: nat)
    requires k < n <= |ps|
    ensures CardBox(ps[k], colX, rowY, k) in CellCards(ps, colX, rowY, n)
  {
    if k < n - 1 {
      CellCardsHas(ps, colX, rowY, n - 1, k);
    }
  }

  lemma {:induction false} ColumnCardsHas(grid: Grid, areas: seq<string>, ys: seq<int>, ii: nat, m: nat, a: nat,
                                          b: Box<BoxKind>)
    requires a < m <= |areas| && m <= |ys|
    requires b in CellCards(CellOf(grid, (areas[a], ii)), ColX(ii), ys[a], |CellOf(grid, (areas[a], ii))|)
    ensures b in ColumnCards(grid, areas, ys, ii, m)
  {
    if a < m - 1 {
      ColumnCardsHas(grid, areas, ys, ii, m - 1, a, b);
    }
  }

  lemma {:induction false} CardsHas(grid: Grid, areas: seq<string>, ys: seq<int>, k: nat, ii: nat, b: Box<BoxKind>)
    requires |areas| <= |ys| && ii < k
    requires b in ColumnCards(grid, areas, ys, ii, |areas|)
    ensures b in Cards(grid, areas, ys, k)
  {
    if ii < k - 1 {
      CardsHas(grid, areas, ys, k - 1, ii, b);
    }
  }

  /** The k-th PBI of cell (areas[a], ii), ii < n, is drawn in column ii and
      inside row a. */
  lemma CardInCell(grid: Grid, areas: seq<string>, ys: seq<int>, hs: seq<int>, n: nat, ii: nat, a: nat, k: nat)
    requires Laid(grid, areas, ys, hs, n) && ii < n && a < |areas| && k < |CellOf(grid, (areas[a], ii))|
    ensures CardBox(CellOf(grid, (areas[a], ii))[k], ColX(ii), ys[a], k) in Cards(grid, areas, ys, n)
    ensures ys[a] <= CardBox(CellOf(grid, (areas[a], ii))[k], ColX(ii), ys[a], k).y
    ensures CardBox(CellOf(grid, (areas[a], ii))[k], ColX(ii), ys[a], k).y + PBI_H <= ys[a] + hs[a]
  {
    var cell := CellOf(grid, (areas[a], ii));
    var b := CardBox(cell[k], ColX(ii), ys[a], k);
    CellCardsHas(cell, ColX(ii), ys[a], |cell|, k);
    RowHoldsCells(grid, areas[a], n, ii);
    CellCardsWithin(cell, ColX(ii), ys[a], hs[a], |cell|);
    ColumnCardsHas(grid, areas, ys, ii, |areas|, a, b);
    CardsHas(grid, areas, ys, n, ii, b);
  }

  // ---------------------------------------------------------------------------
  // The page.

  /** What `generate_page` computes besides the XML text: the area rows, the
      iteration order and tracks, the grid, the row heights and tops, the grid
      height, the drawn boxes and the page size. */
  datatype Page = Page(areas: seq<string>, order: seq<string>, tracks: seq<nat>, grid: Grid,
                       rowHeights: seq<int>, rowYs: seq<int>, gridH: int,
                       boxes: seq<Box<BoxKind>>, chrome: seq<Box<Chrome>>, width: int, height: int)

  /** The rows, columns and colour tracks of a page for the scheduled PBIs pbis:
      the distinct areas in ascending order, the dated iterations in the
      order of `iter_sort_key`, and each column's track numbered by first
      appearance. */
  predicate Ordered(iters: Iterations, pbis: seq<Pbi>, pg: Page) {
    pg.areas == TimelineAreas(pbis) && pg.order == IterOrder(iters) &&
    |pg.tracks| == |pg.order| &&
    forall i :: 0 <= i < |pg.order| ==>
      IterTrack(pg.order[i]) in Dedupe(TrackNames(pg.order)) &&
      pg.tracks[i] == IndexOf(Dedupe(TrackNames(pg.order)), IterTrack(pg.order[i]))
  }

  /** Each cell of the page's grid holds the PBIs filed under it. */
  ghost predicate Filed(pbis: seq<Pbi>, pg: Page) {
    forall key :: CellOf(pg.grid, key) == CellSpec(pbis, pg.order, pg.areas, key)
  }

  /** The page's rows are as tall as their fullest cells and stacked from
      GRID_Y; the grid height and page size follow from them. */
  predicate Measured(pg: Page) {
    Laid(pg.grid, pg.areas, pg.rowYs, pg.rowHeights, |pg.order|) &&
    pg.gridH == GridH(pg.rowHeights) &&
    pg.width == PageW(|pg.order|) && pg.height == PageH(pg.rowHeights)
  }

  /** The page's boxes are the headers, lanes, area rows and cards, in drawing
      order, and its chrome the cells around them. */
  predicate Drawn(iters: Iterations, pg: Page) {
    |pg.tracks| == |pg.order| && |pg.rowYs| == |pg.areas| && |pg.rowHeights| == |pg.areas| &&
    pg.boxes == Drawing(iters, pg.order, pg.tracks, pg.areas, pg.rowYs, pg.rowHeights, pg.grid) &&
    pg.chrome == PageChrome(|pg.order|, pg.rowHeights)
  }

  /** The row heights and the row-position loop of `generate_page`. */
  method MeasureRows(grid: Grid, areas: seq<string>, numIters: nat) returns (hs: seq<int>, ys: seq<int>, gridH: int)
    ensures Laid(grid, areas, ys, hs, numIters) && gridH == GridH(hs)
  {
    hs := CalcRowHeights(areas, numIters, grid);
    ys, gridH := RowTops(hs);
  }

  /** The layout part of `generate_page` for the scheduled PBIs pbis: rows,
      columns, tracks, grid, row positions, boxes and page size. */
  method LayOutPage(pbis: seq<Pbi>, iters: Iterations) returns (pg: Page)
    ensures Ordered(iters, pbis, pg) && Filed(pbis, pg)
    ensures Measured(pg) && Drawn(iters, pg)
  {
    var areas := TimelineAreas(pbis);
    var order := IterOrder(iters);
    var numIters := |order|;
    var grid := BuildGrid(pbis, order, areas);
    var rowHeights, rowYs, totalGridH := MeasureRows(grid, areas, numIters);
    var tracks := AssignTracks(order);
    var gridW := numIters * (COL_W + COL_GAP) - COL_GAP;
    var legendY := GRID_Y + totalGridH + LANE_EXTEND_V + LEGEND_GAP;
    var pageW := Max(COL_START_X + gridW + PAGE_MARGIN_R, PAGE_MIN_W);
    var pageH := Max(legendY + LEGEND_H + PAGE_MARGIN_B, PAGE_MIN_H);
    var chrome := [TitleBox(gridW), SubtitleBox(gridW), Box(AxisHeader, COL_START_X, AXIS_Y, gridW, AXIS_H),
                   AreaHeaderBox(GRID_Y, totalGridH)];
    var headers := RenderHeaders(iters, order, tracks);
    var lanes := RenderIterLanes(numIters, totalGridH);
    var rows := RenderAreaRows(areas, rowYs, rowHeights, gridW);
    var cards := RenderCards(grid, areas, rowYs, numIters);
    pg := Page(areas, order, tracks, grid, rowHeights, rowYs, totalGridH,
               headers + lanes + rows + cards, chrome, pageW, pageH);
  }

  /** `generate_page` without the XML: None when no PBI is scheduled, otherwise
      the laid-out page. */
  method GeneratePage(inits: seq<Initiative>, iters: Iterations) returns (page: Option<Page>)
    ensures page.None? <==> ScheduledOf(InitiativesPbis(inits), DatedSet(iters)) == []
    ensures page.Some? ==> Ordered(iters, ScheduledOf(InitiativesPbis(inits), DatedSet(iters)), page.value)
    ensures page.Some? ==> Filed(ScheduledOf(InitiativesPbis(inits), DatedSet(iters)), page.value)
    ensures page.Some? ==> Measured(page.value)
    ensures page.Some? ==> Drawn(iters, page.value)
  {
    var pbis := CollectScheduledPbis(inits, iters);
    if pbis == [] {
      return None;
    }
    var pg := LayOutPage(pbis, iters);
    page := Some(pg);
  }

  /** A page with a scheduled PBI has at least one iteration column. */
  lemma PageHasColumns(iters: Iterations, pbis: seq<Pbi>, pg: Page, p: Pbi)
    requires Ordered(iters, pbis, pg)
    requires p in pbis && IsScheduled(p, DatedSet(iters))
    ensures |pg.order| > 0
  {
    ScheduledPbiPlaced(iters, pbis, p);
  }

  /** Where a scheduled PBI is filed on the page: column ii (its iteration's),
      row a (its area's), k-th in that cell. */
  lemma PbiCell(iters: Iterations, pbis: seq<Pbi>, pg: Page, p: Pbi) returns (ii: nat, a: nat, k: nat)
    requires Ordered(iters, pbis, pg) && Filed(pbis, pg)
    requires p in pbis && IsScheduled(p, DatedSet(iters))
    ensures p.area in pg.areas && IterIndex(pg.order, p.iteration.value).Some?
    ensures ii == IterIndex(pg.order, p.iteration.value).value && ii < |pg.order|
    ensures a == IndexOf(pg.areas, p.area)
    ensures k < |CellOf(pg.grid, (pg.areas[a], ii))| && CellOf(pg.grid, (pg.areas[a], ii))[k] == p
  {
    ScheduledPbiPlaced(iters, pbis, p);
    ii := IterIndex(pg.order, p.iteration.value).value;
    a := IndexOf(pg.areas, p.area);
    var cell := CellOf(pg.grid, (p.area, ii));
    assert p in cell;
    k :| 0 <= k < |cell| && cell[k] == p;
  }

  /** The k-th card of cell (areas[a], ii) is among the page's boxes, inside
      row a. */
  lemma PageCard(iters: Iterations, pg: Page, ii: nat, a: nat, k: nat)
    requires Measured(pg) && Drawn(iters, pg)
    requires ii < |pg.order| && a < |pg.areas| && k < |CellOf(pg.grid, (pg.areas[a], ii))|
    ensures CardBox(CellOf(pg.grid, (pg.areas[a], ii))[k], ColX(ii), pg.rowYs[a], k) in pg.boxes
    ensures pg.rowYs[a] <= CardBox(CellOf(pg.grid, (pg.areas[a], ii))[k], ColX(ii), pg.rowYs[a], k).y
    ensures CardBox(CellOf(pg.grid, (pg.areas[a], ii))[k], ColX(ii), pg.rowYs[a], k).y + PBI_H <= pg.rowYs[a] + pg.rowHeights[a]
  {
    CardInCell(pg.grid, pg.areas, pg.rowYs, pg.rowHeights, |pg.order|, ii, a, k);
  }

  /** Every scheduled PBI is drawn as a card in the column of its iteration and
      inside the row of its area. */
  lemma EveryScheduledPbiDrawn(iters: Iterations, pbis: seq<Pbi>, pg: Page, p: Pbi)
    requires Ordered(iters, pbis, pg) && Filed(pbis, pg) && Measured(pg) && Drawn(iters, pg)
    requires p in pbis && IsScheduled(p, DatedSet(iters))
    ensures p.area in pg.areas && IterIndex(pg.order, p.iteration.value).Some?
    ensures exists b :: (b in pg.boxes && b.kind == PbiCard(p.id) &&
      b.x == ColX(IterIndex(pg.order, p.iteration.value).value) + PBI_INSET &&
      pg.rowYs[IndexOf(pg.areas, p.area)] <= b.y &&
      b.y + b.h <= pg.rowYs[IndexOf(pg.areas, p.area)] + pg.rowHeights[IndexOf(pg.areas, p.area)])
  {
    var ii, a, k := PbiCell(iters, pbis, pg, p);
    CardOfPbi(iters, pg, p, ii, a, k);
  }

  /** The PBI filed k-th in cell (areas[a], ii) is drawn as a card in column ii,
      inside row a. */
  lemma CardOfPbi(iters: Iterations, pg: Page, p: Pbi, ii: nat, a: nat, k: nat)
    requires Measured(pg) && Drawn(iters, pg)
    requires ii < |pg.order| && a < |pg.areas|
    requires k < |CellOf(pg.grid, (pg.areas[a], ii))| && CellOf(pg.grid, (pg.areas[a], ii))[k] == p
    ensures exists b :: (b in pg.boxes && b.kind == PbiCard(p.id) && b.x == ColX(ii) + PBI_INSET &&
      pg.rowYs[a] <= b.y && b.y + b.h <= pg.rowYs[a] + pg.rowHeights[a])
  {
    PageCard(iters, pg, ii, a, k);
    var b := CardBox(p, ColX(ii), pg.rowYs[a], k);
    assert b in pg.boxes;
  }

  /** On a laid-out page with at least one column every grid box lies right of
      the area labels' column, below the header line, within the page's right
      margin (less the lane overhang) and above the legend, and the legend fits
      the page. */
  lemma DrawnWithinPage(iters: Iterations, pg: Page)
    requires Measured(pg) && Drawn(iters, pg) && |pg.order| > 0
    ensures AllInside(pg.boxes, AREA_LABEL_X, HEADER_Y, pg.width - PAGE_MARGIN_R + LANE_EXTEND_H,
                      GRID_Y + pg.gridH + LANE_EXTEND_V)
    ensures COL_START_X + LEGEND_W <= pg.width
    ensures GRID_Y + pg.gridH + LANE_EXTEND_V + LEGEND_GAP + LEGEND_H + PAGE_MARGIN_B <= pg.height
  {
    DrawingWithinPage(iters, pg.order, pg.tracks, pg.areas, pg.rowYs, pg.rowHeights, pg.grid);
  }

  /** The grid boxes of a generated page (one with a scheduled PBI) lie within
      its own bounds. */
  lemma GeneratedWithinPage(iters: Iterations, pbis: seq<Pbi>, pg: Page, p: Pbi)
    requires Ordered(iters, pbis, pg) && Measured(pg) && Drawn(iters, pg)
    requires p in pbis && IsScheduled(p, DatedSet(iters))
    ensures AllInside(pg.boxes, AREA_LABEL_X, HEADER_Y, pg.width - PAGE_MARGIN_R + LANE_EXTEND_H,
                      GRID_Y + pg.gridH + LANE_EXTEND_V)
    ensures COL_START_X + LEGEND_W <= pg.width
    ensures GRID_Y + pg.gridH + LANE_EXTEND_V + LEGEND_GAP + LEGEND_H + PAGE_MARGIN_B <= pg.height
  {
    PageHasColumns(iters, pbis, pg, p);
    DrawnWithinPage(iters, pg);
  }

  /** With at least one column, the axis header and the rotated header lie
      within the page, but the title or the subtitle ends past its width. */
  lemma ChromeOnPage(n: nat, hs: seq<int>)
    requires n > 0
    requires forall k :: 0 <= k < |hs| ==> hs[k] >= 0
    ensures AllInside(PageChrome(n, hs)[2..], 0, 0, PageW(n), PageH(hs))
    ensures TitleBox(GridW(n)).x + TitleBox(GridW(n)).w > PageW(n) ||
            SubtitleBox(GridW(n)).x + SubtitleBox(GridW(n)).w > PageW(n)
  {
    ChromePlaced(n, hs);
    TitlesPastPage(n);
  }

  /** On a generated page the axis header and the rotated header lie within the
      page, but the title or the subtitle ends past its width. */
  lemma GeneratedChrome(iters: Iterations, pbis: seq<Pbi>, pg: Page, p: Pbi)
    requires Ordered(iters, pbis, pg) && Measured(pg) && Drawn(iters, pg)
    requires p in pbis && IsScheduled(p, DatedSet(iters))
    ensures AllInside(pg.chrome[2..], 0, 0, pg.width, pg.height)
    ensures pg.chrome[0].x + pg.chrome[0].w > pg.width || pg.chrome[1].x + pg.chrome[1].w > pg.width
  {
    PageHasColumns(iters, pbis, pg, p);
    LaidRowsFit(pg.grid, pg.areas, pg.rowYs, pg.rowHeights, |pg.order|);
    ChromeOnPage(|pg.order|, pg.rowHeights);
  }
}
