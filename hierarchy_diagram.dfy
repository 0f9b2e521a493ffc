/** `generate_diagram` of gen-hierarchy.py without its XML: the sections of the
    initiative groups, the empty ones dropped, stacked one under another from the
    title area down, and the page sized to the widest grid and the legend. */
module HierarchyDiagram {
  import opened Common
  import opened WorkItems
  import opened HierarchyMetrics
  import opened HierarchySection
  import opened HierarchyGroups
  import opened HierarchyGrid
  import opened Geometry
  import opened HierarchyRender

  /** Width of the page before any section is known. */
  const PAGE_MIN_W := 1200
  const PAGE_MIN_H := 800
  /** Margin kept to the right of the widest grid. */
  const PAGE_MARGIN_R := 100
  /** Margin kept under the legend. */
  const PAGE_MARGIN_B := 50

  // ---------------------------------------------------------------------------
  // Sections of the groups.

  /** All indices of a group name an initiative. */
  predicate IndicesIn(groups: seq<seq<nat>>, n: nat) {
    forall k, j :: 0 <= k < |groups| && 0 <= j < |groups[k]| ==> groups[k][j] < n
  }

  /** The initiatives of one group, in the group's order. */
  function GroupInits(inits: seq<Initiative>, idx: seq<nat>): (g: seq<Initiative>)
    requires forall j :: 0 <= j < |idx| ==> idx[j] < |inits|
    ensures |g| == |idx| && forall j :: 0 <= j < |idx| ==> g[j] == inits[idx[j]]
  {
    seq(|idx|, j requires 0 <= j < |idx| => inits[idx[j]])
  }

  /** `kept` lists, in increasing order, the groups among the first k whose
      section has an epic column, and sections[j] is the section of group kept[j]
      (so every kept section has an epic column). */
  ghost predicate KeptSections(inits: seq<Initiative>, groups: seq<seq<nat>>, k: nat,
                               sections: seq<Section>, kept: seq<nat>)
    requires IndicesIn(groups, |inits|) && k <= |groups|
  {
    && |kept| == |sections|
    && (forall a, b :: 0 <= a < b < |kept| ==> kept[a] < kept[b])
    && (forall j :: 0 <= j < |kept| ==>
          kept[j] < k && SectionOf(sections[j], GroupInits(inits, groups[kept[j]])))
    && (forall q :: 0 <= q < k ==> (q in kept <==> FlatSpec(GroupInits(inits, groups[q])) != []))
    && (forall j :: 0 <= j < |sections| ==> sections[j].flat != [])
  }

  /** A group whose section has an epic column is kept. */
  lemma KeptGrow(inits: seq<Initiative>, groups: seq<seq<nat>>, k: nat,
                 sections: seq<Section>, kept: seq<nat>, sec: Section)
    requires IndicesIn(groups, |inits|) && k < |groups|
    requires KeptSections(inits, groups, k, sections, kept)
    requires SectionOf(sec, GroupInits(inits, groups[k])) && sec.flat != []
    ensures KeptSections(inits, groups, k + 1, sections + [sec], kept + [k])
  {
    SectionsSnoc(inits, groups, k, sections, kept, sec);
    KeptMembers(inits, groups, k, kept);
  }

  /** Appending group k's section keeps sections[j] the section of group kept[j]. */
  lemma SectionsSnoc(inits: seq<Initiative>, groups: seq<seq<nat>>, k: nat,
                     sections: seq<Section>, kept: seq<nat>, sec: Section)
    requires IndicesIn(groups, |inits|) && k < |groups| && |kept| == |sections|
    requires forall j :: 0 <= j < |kept| ==>
               kept[j] < k && SectionOf(sections[j], GroupInits(inits, groups[kept[j]]))
    requires SectionOf(sec, GroupInits(inits, groups[k]))
    ensures forall j :: 0 <= j < |kept| + 1 ==>
              (kept + [k])[j] < k + 1 && SectionOf((sections + [sec])[j], GroupInits(inits, groups[(kept + [k])[j]]))
  {
    forall j | 0 <= j < |kept| + 1
      ensures (kept + [k])[j] < k + 1 && SectionOf((sections + [sec])[j], GroupInits(inits, groups[(kept + [k])[j]]))
    {
      if j < |kept| {
        assert (kept + [k])[j] == kept[j] && (sections + [sec])[j] == sections[j];
      }
    }
  }

  /** Growing kept by k keeps "q is kept iff its section has an epic column"
      for every q up to k, when k's section has one. */
  lemma KeptMembers(inits: seq<Initiative>, groups: seq<seq<nat>>, k: nat, kept: seq<nat>)
    requires IndicesIn(groups, |inits|) && k < |groups|
    requires forall q :: 0 <= q < k ==> (q in kept <==> FlatSpec(GroupInits(inits, groups[q])) != [])
    requires FlatSpec(GroupInits(inits, groups[k])) != []
    ensures forall q :: 0 <= q < k + 1 ==> (q in kept + [k] <==> FlatSpec(GroupInits(inits, groups[q])) != [])
  {
    forall q | 0 <= q < k + 1
      ensures q in kept + [k] <==> FlatSpec(GroupInits(inits, groups[q])) != []
    {
      if q < k {
        assert q in kept + [k] <==> q in kept;
      } else {
        assert q in kept + [k];
      }
    }
  }

  /** A group whose section has no epic column is dropped. */
  lemma KeptDrop(inits: seq<Initiative>, groups: seq<seq<nat>>, k: nat,
                 sections: seq<Section>, kept: seq<nat>, sec: Section)
    requires IndicesIn(groups, |inits|) && k < |groups|
    requires KeptSections(inits, groups, k, sections, kept)
    requires SectionOf(sec, GroupInits(inits, groups[k])) && sec.flat == []
    ensures KeptSections(inits, groups, k + 1, sections, kept)
  {
    forall q | 0 <= q < k + 1
      ensures q in kept <==> FlatSpec(GroupInits(inits, groups[q])) != []
    {
      if q == k {
        assert k !in kept;
      }
    }
  }

  /** `[compute_section(g) for g in groups]` followed by the filter that drops the
      sections with no epic column (one pass: `compute_section` has no effects).
      `kept` names each section's group. */
  method ComputeSections(inits: seq<Initiative>, groups: seq<seq<nat>>)
    returns (sections: seq<Section>, ghost kept: seq<nat>)
    requires IndicesIn(groups, |inits|)
    ensures KeptSections(inits, groups, |groups|, sections, kept)
    ensures forall j :: 0 <= j < |sections| ==> sections[j].flat != []
  {
    sections, kept := [], [];
    for k := 0 to |groups|
      invariant KeptSections(inits, groups, k, sections, kept)
    {
      sections, kept := KeepSection(inits, groups, k, sections, kept);
    }
  }

  /** One turn of the section loop: group k's section is computed and kept
      when it has an epic column. */
  method KeepSection(inits: seq<Initiative>, groups: seq<seq<nat>>, k: nat,
                     sections: seq<Section>, ghost kept: seq<nat>)
    returns (sections': seq<Section>, ghost kept': seq<nat>)
    requires IndicesIn(groups, |inits|) && k < |groups|
    requires KeptSections(inits, groups, k, sections, kept)
    ensures KeptSections(inits, groups, k + 1, sections', kept')
  {
    var sec := ComputeSection(GroupInits(inits, groups[k]));
    if sec.flat != [] {
      KeptGrow(inits, groups, k, sections, kept, sec);
      sections', kept' := sections + [sec], kept + [k];
    } else {
      KeptDrop(inits, groups, k, sections, kept, sec);
      sections', kept' := sections, kept;
    }
  }

  // ---------------------------------------------------------------------------
  // Stacking.

  /** The `cy` reached after stacking secs: TITLE_AREA_H plus, for every section,
      its total_h and SECTION_GAP. Section i starts at StackY(secs[..i]); the legend
      at StackY(secs). */
  function StackY(secs: seq<Section>): int {
    if secs == [] then TITLE_AREA_H
    else StackY(secs[..|secs| - 1]) + secs[|secs| - 1].totalH + SECTION_GAP
  }

  lemma StackYStep(secs: seq<Section>, i: nat)
    requires i < |secs|
    ensures StackY(secs[..i + 1]) == StackY(secs[..i]) + secs[i].totalH + SECTION_GAP
  {
    assert secs[..i + 1][..i] == secs[..i];
  }

  /** The stacking loop of `generate_diagram`. */
  method StackSections(secs: seq<Section>) returns (ys: seq<int>, legendY: int)
    ensures |ys| == |secs|
    ensures forall i :: 0 <= i < |secs| ==> ys[i] == StackY(secs[..i])
    ensures legendY == StackY(secs)
  {
    ys := [];
    var cy := TITLE_AREA_H;
    for i := 0 to |secs|
      invariant |ys| == i
      invariant forall j :: 0 <= j < i ==> ys[j] == StackY(secs[..j])
      invariant cy == StackY(secs[..i])
    {
      ys := ys + [cy];
      StackYStep(secs, i);
      cy := cy + secs[i].totalH + SECTION_GAP;
    }
    assert secs[..|secs|] == secs;
    legendY := cy;
  }

  /** A drawable section is at least as tall as its header band. */
  lemma TotalHAtLeastHeader(sec: Section)
    requires Drawable(sec)
    ensures sec.totalH >= SEC_GRID_Y
  {
    GridHNonNegative(sec.rowHeights);
  }

  /** Every section further down the stack starts SECTION_GAP per section lower. */
  lemma {:induction false} StackGrows(secs: seq<Section>, i: nat, j: nat)
    requires i <= j <= |secs|
    requires forall k :: 0 <= k < |secs| ==> Drawable(secs[k])
    ensures StackY(secs[..i]) + (j - i) * SECTION_GAP <= StackY(secs[..j])
  {
    if i < j {
      StackGrows(secs, i, j - 1);
      StackYStep(secs, j - 1);
      TotalHAtLeastHeader(secs[j - 1]);
    }
  }

  /** Section i, lanes included, ends SECTION_GAP - LANE_EXTEND_V above where
      any later section, or the legend, starts. */
  lemma SectionsStacked(secs: seq<Section>, i: nat, j: nat)
    requires i < j <= |secs|
    requires forall k :: 0 <= k < |secs| ==> Drawable(secs[k])
    ensures SectionBottom(secs[i], StackY(secs[..i])) + SECTION_GAP - LANE_EXTEND_V <= StackY(secs[..j])
  {
    StackYStep(secs, i);
    StackGrows(secs, i + 1, j);
  }

  // ---------------------------------------------------------------------------
  // Page size.

  /** `max(s["grid_w"] for s in sections)` of a non-empty list. */
  function WidestGrid(secs: seq<Section>): int
    requires secs != []
  {
    if |secs| == 1 then secs[0].gridW
    else Max(WidestGrid(secs[..|secs| - 1]), secs[|secs| - 1].gridW)
  }

  lemma {:induction false} WidestGridBound(secs: seq<Section>, i: nat)
    requires i < |secs|
    ensures secs[i].gridW <= WidestGrid(secs)
  {
    if i < |secs| - 1 {
      WidestGridBound(secs[..|secs| - 1], i);
    }
  }

  lemma {:induction false} WidestGridAttained(secs: seq<Section>) returns (i: nat)
    requires secs != []
    ensures i < |secs| && WidestGrid(secs) == secs[i].gridW
  {
    if |secs| == 1 {
      i := 0;
    } else {
      var j := WidestGridAttained(secs[..|secs| - 1]);
      i := if WidestGrid(secs[..|secs| - 1]) >= secs[|secs| - 1].gridW then j else |secs| - 1;
    }
  }

  /** `max_grid_w`: the widest grid, or one column's width when there is no section. */
  function MaxGridW(secs: seq<Section>): int {
    if secs == [] then COL_W else WidestGrid(secs)
  }

  function PageW(secs: seq<Section>): int {
    Max(COL_START_X + MaxGridW(secs) + PAGE_MARGIN_R, PAGE_MIN_W)
  }

  function PageH(legendY: int): int {
    Max(legendY + LEGEND_H + PAGE_MARGIN_B, PAGE_MIN_H)
  }

  /** The page is PAGE_MIN_W wide unless the widest grid needs more, and then it
      is exactly as wide as that grid plus the margins. */
  lemma PageWTight(secs: seq<Section>) returns (i: nat)
    requires secs != []
    ensures i < |secs|
    ensures PageW(secs) >= PAGE_MIN_W
    ensures PageW(secs) == PAGE_MIN_W || PageW(secs) == COL_START_X + secs[i].gridW + PAGE_MARGIN_R
    ensures forall k :: 0 <= k < |secs| ==> COL_START_X + secs[k].gridW + PAGE_MARGIN_R <= PageW(secs)
  {
    i := WidestGridAttained(secs);
    forall k | 0 <= k < |secs|
      ensures COL_START_X + secs[k].gridW + PAGE_MARGIN_R <= PageW(secs)
    {
      WidestGridBound(secs, k);
    }
  }

  /** Without sections the page has its minimum size. */
  lemma EmptyPage()
    ensures PageW([]) == PAGE_MIN_W
    ensures PageH(StackY([])) == PAGE_MIN_H
  {
  }

  /** The page is tall enough for the legend under the last section. */
  lemma PageHoldsLegend(legendY: int)
    ensures PageH(legendY) >= legendY + LEGEND_H + PAGE_MARGIN_B
    ensures PageH(legendY) >= PAGE_MIN_H
    ensures PageH(legendY) == PAGE_MIN_H || PageH(legendY) == legendY + LEGEND_H + PAGE_MARGIN_B
  {
  }

  /** The cells `generate_diagram` draws around the sections, in its order: the
      title and subtitle sized to `max_grid_w`, and the rotated header centred
      on `total_content_h`, the height of the stacked sections. */
  function PageChrome(secs: seq<Section>): seq<Box<Chrome>> {
    [TitleBox(MaxGridW(secs)), SubtitleBox(MaxGridW(secs)),
     AreaHeaderBox(TITLE_AREA_H, StackY(secs) - TITLE_AREA_H)]
  }

  /** The title and subtitle end above the title area's bottom, where the first
      section starts; the rotated header lies on the page left of the area
      labels, its centre within the stacked sections. */
  lemma ChromePlaced(secs: seq<Section>)
    requires forall k :: 0 <= k < |secs| ==> Drawable(secs[k])
    ensures var c := PageChrome(secs);
      c[0].y + c[0].h <= TITLE_AREA_H && c[1].y + c[1].h <= TITLE_AREA_H &&
      Inside(c[2], 0, 0, AREA_LABEL_X, PageH(StackY(secs))) &&
      TITLE_AREA_H <= c[2].y + c[2].h / 2 <= StackY(secs)
  {
    StackGrows(secs, 0, |secs|);
    assert secs[..0] == [] && secs[..|secs|] == secs;
    AreaHeaderCentred(TITLE_AREA_H, StackY(secs) - TITLE_AREA_H);
  }

  /** The title or the subtitle always ends past the page's width: while the
      title keeps its minimum width (`max_grid_w` at most 800) the subtitle's
      minimum width reaches 50 past the minimum page width, and beyond that the
      title is wider than the right margin allows. */
  lemma TitlesPastPage(secs: seq<Section>)
    ensures MaxGridW(secs) <= 800 ==> SubtitleBox(MaxGridW(secs)).x + SubtitleBox(MaxGridW(secs)).w == PageW(secs) + 50
    ensures MaxGridW(secs) > 800 ==> TitleBox(MaxGridW(secs)).x + TitleBox(MaxGridW(secs)).w > PageW(secs)
  {
  }

  // ---------------------------------------------------------------------------
  // Drawing.

  predicate Aligned(secs: seq<Section>) {
    forall k :: 0 <= k < |secs| ==> |secs[k].rowHeights| == |secs[k].areas|
  }

  /** The records of `render_section(cell, sec, sec_y, si)` for the first n
      sections, in order. */
  function DiagramBoxes(secs: seq<Section>, ys: seq<int>, n: nat): seq<Box<BoxKind>>
    requires n <= |secs| == |ys| && Aligned(secs)
  {
    if n == 0 then []
    else DiagramBoxes(secs, ys, n - 1) + SectionBoxes(secs[n - 1], ys[n - 1], n - 1)
  }

  lemma DiagramBoxesStep(secs: seq<Section>, ys: seq<int>, n: nat)
    requires n < |secs| == |ys| && Aligned(secs)
    ensures DiagramBoxes(secs, ys, n + 1) == DiagramBoxes(secs, ys, n) + SectionBoxes(secs[n], ys[n], n)
  {
  }

  /** The last loop of `generate_diagram`. */
  method RenderSections(secs: seq<Section>, ys: seq<int>) returns (boxes: seq<Box<BoxKind>>)
    requires |secs| == |ys| && Aligned(secs)
    ensures boxes == DiagramBoxes(secs, ys, |secs|)
  {
    boxes := [];
    for si := 0 to |secs|
      invariant boxes == DiagramBoxes(secs, ys, si)
    {
      boxes := AppendSection(secs, ys, si, boxes);
    }
  }

  /** One turn of the last loop of `generate_diagram`: the records of section si
      appended to those of the sections before it. */
  method AppendSection(secs: seq<Section>, ys: seq<int>, si: nat, boxes: seq<Box<BoxKind>>)
    returns (boxes': seq<Box<BoxKind>>)
    requires si < |secs| == |ys| && Aligned(secs)
    requires boxes == DiagramBoxes(secs, ys, si)
    ensures boxes' == DiagramBoxes(secs, ys, si + 1)
  {
    var sb := RenderSection(secs[si], ys[si], si);
    DiagramBoxesStep(secs, ys, si);
    boxes' := boxes + sb;
  }

  /** Section si, placed by the stacking, lies in its own horizontal band: from
      its y down to SECTION_GAP - LANE_EXTEND_V above the next section's y, and
      at most PAGE_MARGIN_R - LANE_EXTEND_H from the page's right edge. */
  lemma SectionInBand(secs: seq<Section>, si: nat)
    requires si < |secs| && Aligned(secs)
    requires forall k :: 0 <= k < |secs| ==> Drawable(secs[k])
    ensures AllInside(SectionBoxes(secs[si], StackY(secs[..si]), si),
                      AREA_LABEL_X, StackY(secs[..si]),
                      PageW(secs) - PAGE_MARGIN_R + LANE_EXTEND_H,
                      StackY(secs[..si + 1]) - SECTION_GAP + LANE_EXTEND_V)
  {
    var y := StackY(secs[..si]);
    SectionBoxesWithin(secs[si], y, si);
    StackYStep(secs, si);
    var _ := PageWTight(secs);
    AllInsideWiden(SectionBoxes(secs[si], y, si),
                   AREA_LABEL_X, y, SectionRight(secs[si]), SectionBottom(secs[si], y),
                   AREA_LABEL_X, y, PageW(secs) - PAGE_MARGIN_R + LANE_EXTEND_H,
                   StackY(secs[..si + 1]) - SECTION_GAP + LANE_EXTEND_V);
  }

  /** The bands of two sections do not meet. */
  lemma BandsDisjoint(secs: seq<Section>, i: nat, j: nat)
    requires i < j < |secs|
    requires forall k :: 0 <= k < |secs| ==> Drawable(secs[k])
    ensures StackY(secs[..i + 1]) - SECTION_GAP + LANE_EXTEND_V < StackY(secs[..j])
  {
    StackGrows(secs, i + 1, j);
  }

  /** Section n - 1's band lies between the title area and the last section's
      band. */
  lemma BandInPage(secs: seq<Section>, ys: seq<int>, n: nat)
    requires 0 < n <= |secs| == |ys|
    requires forall k :: 0 <= k < |secs| ==> Drawable(secs[k])
    requires forall k :: 0 <= k < |secs| ==> ys[k] == StackY(secs[..k])
    ensures TITLE_AREA_H <= ys[n - 1]
    ensures StackY(secs[..n]) <= StackY(secs)
  {
    StackGrows(secs, 0, n - 1);
    assert secs[..0] == [];
    StackGrows(secs, n, |secs|);
    assert secs[..|secs|] == secs;
  }

  /** Everything drawn for the first n sections lies under the title area, above
      the legend and inside the page's width. */
  lemma {:induction false} DiagramWithinPage(secs: seq<Section>, ys: seq<int>, n: nat)
    requires n <= |secs| == |ys| && Aligned(secs)
    requires forall k :: 0 <= k < |secs| ==> Drawable(secs[k])
    requires forall k :: 0 <= k < |secs| ==> ys[k] == StackY(secs[..k])
    ensures AllInside(DiagramBoxes(secs, ys, n), AREA_LABEL_X, TITLE_AREA_H,
                      PageW(secs) - PAGE_MARGIN_R + LANE_EXTEND_H, StackY(secs) - SECTION_GAP + LANE_EXTEND_V)
  {
    if n > 0 {
      var l, t, r, b := AREA_LABEL_X, TITLE_AREA_H, PageW(secs) - PAGE_MARGIN_R + LANE_EXTEND_H,
                        StackY(secs) - SECTION_GAP + LANE_EXTEND_V;
      var last := SectionBoxes(secs[n - 1], ys[n - 1], n - 1);
      DiagramWithinPage(secs, ys, n - 1);
      SectionInBand(secs, n - 1);
      BandInPage(secs, ys, n);
      AllInsideWiden(last, l, ys[n - 1], r, StackY(secs[..n]) - SECTION_GAP + LANE_EXTEND_V, l, t, r, b);
      AllInsideConcat(DiagramBoxes(secs, ys, n - 1), last, l, t, r, b);
      DiagramBoxesStep(secs, ys, n - 1);
    }
  }

  /** `generate_diagram` without the XML: the groups (the connected components of
      area sharing), their non-empty sections,
      the sections' y offsets, every record `render_section` emits, the cells
      around the sections, and the page size. */
  method GenerateDiagram(inits: seq<Initiative>)
    returns (groups: seq<seq<nat>>, sections: seq<Section>, ghost kept: seq<nat>,
             ys: seq<int>, boxes: seq<Box<BoxKind>>, chrome: seq<Box<Chrome>>, pageW: int, pageH: int)
    ensures IsPartition(groups, |inits|) && InOriginalOrder(groups)
    ensures SharingClosed(inits, groups) && MembersConnected(inits, groups)
    ensures KeptSections(inits, groups, |groups|, sections, kept)
    ensures forall j :: 0 <= j < |sections| ==> sections[j].flat != [] && Drawable(sections[j])
    ensures |ys| == |sections| && forall i :: 0 <= i < |sections| ==> ys[i] == StackY(sections[..i])
    ensures Aligned(sections) && boxes == DiagramBoxes(sections, ys, |sections|)
    ensures pageW == PageW(sections) && pageH == PageH(StackY(sections))
    ensures chrome == PageChrome(sections)
  {
    groups := FindInitiativeGroups(inits);
    sections, kept := ComputeSections(inits, groups);
    forall j | 0 <= j < |sections|
      ensures Drawable(sections[j])
    {
      SectionDrawable(sections[j], GroupInits(inits, groups[kept[j]]));
    }
    var legendY;
    ys, legendY := StackSections(sections);
    var maxGridW := if sections == [] then COL_W else WidestGrid(sections);
    pageW := Max(COL_START_X + maxGridW + PAGE_MARGIN_R, PAGE_MIN_W);
    pageH := Max(legendY + LEGEND_H + PAGE_MARGIN_B, PAGE_MIN_H);
    chrome := [TitleBox(maxGridW), SubtitleBox(maxGridW), AreaHeaderBox(TITLE_AREA_H, legendY - TITLE_AREA_H)];
    boxes := RenderSections(sections, ys);
  }
}
