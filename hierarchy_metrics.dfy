/** Layout constants of the hierarchy diagram and the two sizing formulas that
    everything else builds on: the estimated height of a feature's title label and
    the height of a feature box holding n PBIs. All lengths are drawing units. */
module HierarchyMetrics {
  import opened Text

  const COL_W := 195
  const COL_GAP := 25
  const ROW_GAP := 20
  const COL_START_X := 270
  const PBI_H := 28
  const PBI_GAP := 6
  const FEAT_LABEL_LINE_H := 14
  const FEAT_LABEL_PAD := 6
  const FEAT_PAD_BOTTOM := 8
  const FEAT_GAP := 10
  const FEAT_INSET := 5
  const PBI_INSET := 8
  const CELL_PAD_TOP := 12
  const AREA_LABEL_X := 100
  const AREA_LABEL_W := 140
  const LANE_EXTEND_H := 30
  const LANE_EXTEND_V := 23
  const MIN_ROW_H := 90
  const INIT_BAR_H := 30
  const SECTION_GAP := 50
  const TITLE_AREA_H := 75
  const SEC_INIT_Y := 0
  const SEC_EPIC_Y := INIT_BAR_H + 5
  const SEC_GRID_Y := INIT_BAR_H + 5 + 48
  const EPIC_HEADER_H := 38
  const LEGEND_H := 130

  /** Label height used when no label height is passed: one line of text. */
  const ONE_LINE_LABEL_H := FEAT_LABEL_PAD * 2 + FEAT_LABEL_LINE_H

  /** The label text of a feature box, `f"#{feat_id} {title}"`. */
  function FeatureText(title: string, id: int): (t: string)
    ensures |t| >= 3
  {
    "#" + IntToString(id) + " " + title
  }

  /** ceil(u / d) for a positive divisor, counted one full line at a time. */
  function CeilDiv(u: int, d: nat): (q: nat)
    requires d > 0
    decreases u
  {
    if u <= 0 then 0 else 1 + CeilDiv(u - d, d)
  }

  /** CeilDiv is the ceiling: the smallest q with u <= d * q. */
  lemma {:induction false} CeilDivBounds(u: nat, d: nat)
    requires d > 0
    ensures d * (CeilDiv(u, d) - 1) < u <= d * CeilDiv(u, d) || (u == 0 && CeilDiv(u, d) == 0)
  {
    if u > d {
      CeilDivBounds(u - d, d);
    }
  }

  /** More characters never need fewer lines. */
  lemma {:induction false} CeilDivMonotone(u1: int, u2: int, d: nat)
    requires d > 0 && u1 <= u2
    ensures CeilDiv(u1, d) <= CeilDiv(u2, d)
    decreases u2
  {
    if u1 > 0 {
      CeilDivMonotone(u1 - d, u2 - d, d);
    }
  }

  /** Number of wrapped lines for a text of n characters in a 169-unit wide box
      at 5.5 units per character: ceil(n / (169 / 5.5)) == ceil(11 n / 338). */
  function LabelLines(n: nat): (lines: nat) {
    CeilDiv(11 * n, 338)
  }

  /** `feat_label_h`: padding, then one 14-unit line per wrapped line, then padding. */
  function FeatLabelH(title: string, id: int): (h: int)
    ensures h >= ONE_LINE_LABEL_H
  {
    FEAT_LABEL_PAD + LabelLines(|FeatureText(title, id)|) * FEAT_LABEL_LINE_H + FEAT_LABEL_PAD
  }

  /** The label has room for exactly as many 14-unit lines as the text needs: one
      line fewer would not hold its characters. */
  lemma FeatLabelHLines(title: string, id: int)
    ensures (FeatLabelH(title, id) - 2 * FEAT_LABEL_PAD) % FEAT_LABEL_LINE_H == 0
    ensures var lines := (FeatLabelH(title, id) - 2 * FEAT_LABEL_PAD) / FEAT_LABEL_LINE_H;
      338 * (lines - 1) < 11 * |FeatureText(title, id)| <= 338 * lines
  {
    CeilDivBounds(11 * |FeatureText(title, id)|, 338);
  }

  /** A longer title never gets a shorter label. */
  lemma FeatLabelHMonotone(t1: string, t2: string, id: int)
    requires |t1| <= |t2|
    ensures FeatLabelH(t1, id) <= FeatLabelH(t2, id)
  {
    CeilDivMonotone(11 * |FeatureText(t1, id)|, 11 * |FeatureText(t2, id)|, 338);
  }

  /** A label text of at most 30 characters fits on one line, so it gets exactly the
      default one-line height. */
  lemma ShortLabelIsOneLine(title: string, id: int)
    requires |FeatureText(title, id)| <= 30
    ensures FeatLabelH(title, id) == ONE_LINE_LABEL_H
  {
    CeilDivBounds(11 * |FeatureText(title, id)|, 338);
  }

  /** `feat_height(num_pbis, label_h)`: the label, then the PBIs stacked with gaps,
      then the bottom padding. */
  function FeatHeight(numPbis: nat, labelH: int): (h: int)
    ensures h >= labelH + FEAT_PAD_BOTTOM - PBI_GAP
  {
    labelH + numPbis * (PBI_H + PBI_GAP) - PBI_GAP + FEAT_PAD_BOTTOM
  }

  /** Each extra PBI makes the feature box exactly one PBI slot (34) taller. */
  lemma FeatHeightStep(numPbis: nat, labelH: int)
    ensures FeatHeight(numPbis + 1, labelH) == FeatHeight(numPbis, labelH) + PBI_H + PBI_GAP
  {
  }

  /** The PBI at position pi inside a feature starts below the label and ends at least
      FEAT_PAD_BOTTOM above the feature's bottom; the last one ends exactly there. */
  lemma PbiInsideFeature(numPbis: nat, labelH: int, pi: nat)
    requires pi < numPbis
    ensures labelH <= labelH + pi * (PBI_H + PBI_GAP)
    ensures labelH + pi * (PBI_H + PBI_GAP) + PBI_H <= FeatHeight(numPbis, labelH) - FEAT_PAD_BOTTOM
    ensures pi == numPbis - 1 ==>
      labelH + pi * (PBI_H + PBI_GAP) + PBI_H == FeatHeight(numPbis, labelH) - FEAT_PAD_BOTTOM
  {
  }

  /** Left edge of grid column gi. */
  function ColX(gi: nat): int {
    COL_START_X + gi * (COL_W + COL_GAP)
  }

  /** Columns are COL_GAP apart: no two column boxes of width COL_W overlap. */
  lemma ColumnsDisjoint(i: nat, j: nat)
    requires i < j
    ensures ColX(i) + COL_W + COL_GAP <= ColX(j)
  {
  }
}
