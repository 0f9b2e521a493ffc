/** Placed rectangles, the cells both diagram scripts emit, and the containment
    facts the layout lemmas are stated with. */
module Geometry {
  import opened Common

  /** A drawn cell: what it stands for (K), its top-left corner and its size. */
  datatype Box<K> = Box(kind: K, x: int, y: int, w: int, h: int)

  /** b lies inside the rectangle from (left, top) to (right, bottom). */
  predicate Inside<K>(b: Box<K>, left: int, top: int, right: int, bottom: int) {
    left <= b.x && b.x + b.w <= right && top <= b.y && b.y + b.h <= bottom
  }

  /** Every box of bs lies inside the rectangle. */
  predicate AllInside<K(==)>(bs: seq<Box<K>>, left: int, top: int, right: int, bottom: int) {
    forall b :: b in bs ==> Inside(b, left, top, right, bottom)
  }

  lemma AllInsideConcat<K>(a: seq<Box<K>>, b: seq<Box<K>>, left: int, top: int, right: int, bottom: int)
    requires AllInside(a, left, top, right, bottom) && AllInside(b, left, top, right, bottom)
    ensures AllInside(a + b, left, top, right, bottom)
  {
  }

  /** A box inside a rectangle is inside any rectangle around that one. */
  lemma AllInsideWiden<K>(bs: seq<Box<K>>, left: int, top: int, right: int, bottom: int,
                          left': int, top': int, right': int, bottom': int)
    requires AllInside(bs, left, top, right, bottom)
    requires left' <= left && top' <= top && right <= right' && bottom <= bottom'
    ensures AllInside(bs, left', top', right', bottom')
  {
  }

  // ---------------------------------------------------------------------------
  // The cells both scripts draw around their grids.

  /** The page furniture outside the grid: the title, the subtitle, the
      iteration axis header (timeline only) and the rotated "Area Paths" header.
      Their texts (project name, extraction date) are not modelled. */
  datatype Chrome = Title | Subtitle | AxisHeader | AreaHeader

  /** The title: 100 wider than the widest grid, but at least 900. */
  function TitleBox(gridW: int): Box<Chrome> {
    Box(Title, 300, 15, Max(gridW + 100, 900), 35)
  }

  /** The subtitle: 100 wider than the widest grid, but at least 1000. */
  function SubtitleBox(gridW: int): Box<Chrome> {
    Box(Subtitle, 250, 48, Max(gridW + 100, 1000), 25)
  }

  /** The rotated 80-by-80 header in the left margin, centred on content that
      starts at top and is contentH high (`contentH // 2`: Python's floor
      division and Dafny's agree for a positive divisor). */
  function AreaHeaderBox(top: int, contentH: int): Box<Chrome> {
    Box(AreaHeader, 15, top + contentH / 2 - 40, 80, 80)
  }

  /** The rotated header's centre lies within the content it is centred on, and
      the header itself ends 5 left of x 100, where both scripts put the area
      labels. */
  lemma AreaHeaderCentred(top: int, contentH: int)
    requires contentH >= 0
    ensures var b := AreaHeaderBox(top, contentH);
      top <= b.y + b.h / 2 <= top + contentH && b.x + b.w + 5 == 100
  {
  }

  // ---------------------------------------------------------------------------
  // Area cell ids.

  /** One character of an area's cell id: ASCII letters lowered, a space turned
      into `_`, and a backslash too when slashes is set. */
  function IdChar(c: char, slashes: bool): char {
    if 'A' <= c <= 'Z' then (c as int + 32) as char
    else if c == ' ' || (slashes && c == '\\') then '_'
    else c
  }

  /** The suffix the scripts give an area's label and lane cells: the area
      lowered (ASCII letters only) with its spaces replaced by underscores; the
      timeline also replaces backslashes (slashes set), the hierarchy diagram
      keeps them. */
  function AreaCellId(area: string, slashes: bool): (r: string)
    ensures |r| == |area|
    ensures forall i :: 0 <= i < |r| ==> r[i] != ' ' && !('A' <= r[i] <= 'Z')
    ensures slashes ==> forall i :: 0 <= i < |r| ==> r[i] != '\\'
  {
    seq(|area|, i requires 0 <= i < |area| => IdChar(area[i], slashes))
  }

  /** The id map is not one-to-one in either script: two different areas can
      get the same cell id. */
  lemma AreaCellIdCollides(slashes: bool)
    ensures "Web App" != "web_app" && AreaCellId("Web App", slashes) == AreaCellId("web_app", slashes)
  {
    assert "Web App"[0] != "web_app"[0];
    assert AreaCellId("Web App", slashes) == "web_app";
    assert AreaCellId("web_app", slashes) == "web_app";
  }
}
