/** The work-item records the extractor receives from Azure DevOps, and the small
    text operations it applies to them: child links, project-prefixed paths and the
    WIQL title search used when an item is named rather than numbered. */
module ExtractRefs {
  import opened Common
  import opened Text

  const FORWARD_LINK := "System.LinkTypes.Hierarchy-Forward"

  /** One entry of an item's "relations": its "rel" (which may be missing) and "url". */
  datatype Relation = Relation(rel: Option<string>, url: string)

  /** The "fields" of a work item that the extractor reads. */
  datatype Fields = Fields(title: string, state: string, workItemType: string, areaPath: string, iterationPath: string)

  /** A work item as the REST API returns it; "relations" may be absent or null. */
  datatype RawItem = RawItem(id: int, fields: Fields, relations: Option<seq<Relation>>)

  // ---------------------------------------------------------------------------
  // Child links.

  /** `url.split("/")[-1]`: everything after the last slash. */
  function LastSegment(url: string): (seg: string)
    ensures '/' !in seg
    ensures |seg| <= |url| && url[|url| - |seg|..] == seg
    ensures |seg| == |url| || url[|url| - |seg| - 1] == '/'
  {
    SplitLast(url, '/');
    var parts := Split(url, '/');
    parts[|parts| - 1]
  }

  /** The segment after the last slash of `base + "/" + tail` is `tail` itself. */
  lemma LastSegmentOfJoin(base: string, tail: string)
    requires '/' !in tail
    ensures LastSegment(base + "/" + tail) == tail
  {
    var url := base + "/" + tail;
    var seg := LastSegment(url);
    assert url[|url| - |tail| - 1] == '/';
    assert url[|url| - |tail|..] == tail;
  }

  predicate IsForward(r: Relation) {
    r.rel == Some(FORWARD_LINK)
  }

  /** `item.get("relations") or []`. */
  function RelationsOf(item: RawItem): seq<Relation> {
    item.relations.GetOr([])
  }

  /** Every forward link ends in a number; `int(...)` raises on any other. */
  predicate LinksParse(rels: seq<Relation>) {
    forall k :: 0 <= k < |rels| && IsForward(rels[k]) ==> ParseInt(LastSegment(rels[k].url)).Some?
  }

  predicate WellLinked(item: RawItem) {
    LinksParse(RelationsOf(item))
  }

  function LinkedId(r: Relation): int
    requires ParseInt(LastSegment(r.url)).Some?
  {
    ParseInt(LastSegment(r.url)).value
  }

  /** The ids of the forward links among `rels`, in relation order. */
  function LinkIds(rels: seq<Relation>): (ids: seq<int>)
    requires LinksParse(rels)
    ensures |ids| <= |rels|
  {
    if rels == [] then []
    else
      var r := rels[|rels| - 1];
      var front := LinkIds(rels[..|rels| - 1]);
      if IsForward(r) then front + [LinkedId(r)] else front
  }

  /** Collecting links distributes over a split of the relation list. */
  lemma {:induction false} LinkIdsConcat(a: seq<Relation>, b: seq<Relation>)
    requires LinksParse(a + b)
    ensures LinksParse(a) && LinksParse(b)
    ensures LinkIds(a + b) == LinkIds(a) + LinkIds(b)
  {
    forall k | 0 <= k < |a| && IsForward(a[k])
      ensures ParseInt(LastSegment(a[k].url)).Some?
    {
      assert a[k] == (a + b)[k];
    }
    forall k | 0 <= k < |b| && IsForward(b[k])
      ensures ParseInt(LastSegment(b[k].url)).Some?
    {
      assert b[k] == (a + b)[|a| + k];
    }
    if b == [] {
      assert a + b == a;
    } else {
      var b' := b[..|b| - 1];
      assert (a + b)[..|a + b| - 1] == a + b';
      assert (a + b)[|a + b| - 1] == b[|b| - 1];
      LinkIdsConcat(a, b');
      var r := b[|b| - 1];
      if IsForward(r) {
        assert LinkIds(a + b) == (LinkIds(a) + LinkIds(b')) + [LinkedId(r)];
      } else {
        assert LinkIds(a + b) == LinkIds(a) + LinkIds(b');
      }
    }
  }

  /** `get_child_ids`. */
  function ChildIds(item: RawItem): (ids: seq<int>)
    requires WellLinked(item)
    ensures item.relations.None? ==> ids == []
  {
    LinkIds(RelationsOf(item))
  }

  /** An id is a child exactly when some forward link of the item ends in it. */
  lemma {:induction false} LinkIdsMembers(rels: seq<Relation>, id: int)
    requires LinksParse(rels)
    ensures id in LinkIds(rels) <==>
      exists k :: 0 <= k < |rels| && IsForward(rels[k]) && LinkedId(rels[k]) == id
  {
    if id in LinkIds(rels) {
      var k := LinkIdSource(rels, id);
    }
    if exists k :: 0 <= k < |rels| && IsForward(rels[k]) && LinkedId(rels[k]) == id {
      var k :| 0 <= k < |rels| && IsForward(rels[k]) && LinkedId(rels[k]) == id;
      ForwardLinkCollected(rels, k);
    }
  }

  /** Every collected id comes from a forward link: returns its position. */
  lemma {:induction false} LinkIdSource(rels: seq<Relation>, id: int) returns (k: nat)
    requires LinksParse(rels) && id in LinkIds(rels)
    ensures k < |rels| && IsForward(rels[k]) && LinkedId(rels[k]) == id
  {
    var n := |rels| - 1;
    var front := rels[..n];
    assert forall j :: 0 <= j < n ==> front[j] == rels[j];
    if id in LinkIds(front) {
      k := LinkIdSource(front, id);
    } else {
      k := n;
    }
  }

  /** Every forward link's id is collected. */
  lemma {:induction false} ForwardLinkCollected(rels: seq<Relation>, k: nat)
    requires LinksParse(rels) && k < |rels| && IsForward(rels[k])
    ensures LinkedId(rels[k]) in LinkIds(rels)
  {
    var n := |rels| - 1;
    var front := rels[..n];
    assert forall j :: 0 <= j < n ==> front[j] == rels[j];
    if k < n {
      ForwardLinkCollected(front, k);
    }
  }

  /** A link whose URL ends in `/<n>` names child n. */
  lemma LinkedIdOfUrl(base: string, n: int)
    ensures LastSegment(base + "/" + IntToString(n)) == IntToString(n)
    ensures ParseInt(LastSegment(base + "/" + IntToString(n))) == Some(n)
  {
    var s := IntToString(n);
    NatToStringDigits(if n < 0 then -n else n);
    if n < 0 {
      assert s == "-" + NatToString(-n);
      assert forall k :: 1 <= k < |s| ==> s[k] == NatToString(-n)[k - 1];
    }
    assert '/' !in s;
    LastSegmentOfJoin(base, s);
    ParseIntOfIntToString(n);
  }

  // ---------------------------------------------------------------------------
  // Project prefixes.

  /** `strip_project`: drops one leading `project\` from an area or iteration path. */
  function StripProject(path: string, project: string): (r: string)
    ensures StartsWith(path, project + "\\") ==> path == project + "\\" + r
    ensures r == path <==> !StartsWith(path, project + "\\")
  {
    var prefix := project + "\\";
    if StartsWith(path, prefix) then
      assert path == prefix + path[|prefix|..];
      path[|prefix|..]
    else path
  }

  /** Only the one prefix goes, even when what follows starts with it again. */
  lemma StripOnce(project: string, rest: string)
    ensures StripProject(project + "\\" + rest, project) == rest
  {
    var prefix := project + "\\";
    assert (prefix + rest)[..|prefix|] == prefix;
  }

  /** The project's own root path has no prefix to strip. */
  lemma StripBareProject(project: string)
    ensures StripProject(project, project) == project
  {
  }

  // ---------------------------------------------------------------------------
  // `resolve_id`: a number, or a title search.

  /** How an item is looked up: by its number, or by a WIQL query on its title. */
  datatype ItemRef = ById(id: int) | ByTitle(wiql: string)

  const QUERY_HEAD := "SELECT [System.Id] FROM WorkItems WHERE [System.Title] = "
  const QUERY_TAIL := " AND [System.State] <> 'Removed'"

  /** The query text: the title inside quotes, each quote in it doubled. */
  function TitleQuery(title: string): string {
    QUERY_HEAD + "'" + EscapeQuotes(title) + "'" + QUERY_TAIL
  }

  /** `resolve_id` up to the network call: `int(name_or_id)` or else the query. */
  function ResolveRef(nameOrId: string): (r: ItemRef)
    ensures r.ById? <==> ParseInt(nameOrId).Some?
    ensures r.ById? ==> ParseInt(nameOrId) == Some(r.id)
    ensures r.ByTitle? ==> r.wiql == TitleQuery(nameOrId)
  {
    match ParseInt(nameOrId)
    case Some(n) => ById(n)
    case None => ByTitle(TitleQuery(nameOrId))
  }

  /** The number's own decimal text resolves to that number. */
  lemma ResolveNumber(n: int)
    ensures ResolveRef(IntToString(n)) == ById(n)
  {
    ParseIntOfIntToString(n);
  }

  /** Between the opening quote and the closing one, the query holds a literal that
      reads back as the title: a quote in the title cannot end the literal early. */
  lemma TitleLiteralReadsBack(title: string)
    ensures var q := TitleQuery(title);
      && |q| == |QUERY_HEAD| + |EscapeQuotes(title)| + 2 + |QUERY_TAIL|
      && q[|QUERY_HEAD|] == '\''
      && q[|q| - |QUERY_TAIL| - 1] == '\''
      && UnescapeQuotes(q[|QUERY_HEAD| + 1..|q| - |QUERY_TAIL| - 1]) == Some(title)
  {
    var e := EscapeQuotes(title);
    var q := TitleQuery(title);
    assert q == QUERY_HEAD + "'" + e + "'" + QUERY_TAIL;
    assert q[|QUERY_HEAD| + 1..|q| - |QUERY_TAIL| - 1] == e;
    UnescapeEscape(title);
  }
}
