/** `extract`: from a root work item down through epics and features to PBIs, the
    initiative record the generators read. The four `get_work_items` replies are
    parameters; everything the script does with them is modelled. */
module ExtractTree {
  import opened Common
  import opened WorkItems
  import opened ExtractRefs
  import opened ExtractLinks
  import opened ExtractAreas

  // ---------------------------------------------------------------------------
  // Output records.

  function ExportFeature(feat: RawItem, pbiGroups: map<int, seq<RawItem>>, project: string): Feature {
    var ps := ExportPbis(GroupOf(pbiGroups, feat.id), project);
    Feature(feat.id, feat.fields.title, FeatureArea(feat, ps, project), ps)
  }

  function ExportFeatures(feats: seq<RawItem>, pbiGroups: map<int, seq<RawItem>>, project: string): (fs: seq<Feature>)
    ensures |fs| == |feats|
    ensures forall k :: 0 <= k < |feats| ==> fs[k] == ExportFeature(feats[k], pbiGroups, project)
  {
    if feats == [] then []
    else ExportFeatures(feats[..|feats| - 1], pbiGroups, project) + [ExportFeature(feats[|feats| - 1], pbiGroups, project)]
  }

  /** The three groupings an epic's record is assembled from. */
  datatype Grouping = Grouping(featsByEpic: map<int, seq<RawItem>>, orphansByEpic: map<int, seq<RawItem>>,
                               pbisByFeat: map<int, seq<RawItem>>)

  function ExportEpic(epic: RawItem, g: Grouping, project: string): Epic {
    Epic(epic.id, epic.fields.title,
         ExportFeatures(GroupOf(g.featsByEpic, epic.id), g.pbisByFeat, project),
         ExportPbis(GroupOf(g.orphansByEpic, epic.id), project))
  }

  function ExportEpics(epics: seq<RawItem>, g: Grouping, project: string): (es: seq<Epic>)
    ensures |es| == |epics|
    ensures forall k :: 0 <= k < |epics| ==> es[k] == ExportEpic(epics[k], g, project)
  {
    if epics == [] then []
    else ExportEpics(epics[..|epics| - 1], g, project) + [ExportEpic(epics[|epics| - 1], g, project)]
  }

  // ---------------------------------------------------------------------------
  // The assembly loops.

  /** One feature: its PBI records, and its area with the fallback to the PBIs'. */
  method AssembleFeature(feat: RawItem, members: seq<RawItem>, project: string) returns (f: Feature)
    ensures f.id == feat.id && f.title == feat.fields.title
    ensures f.pbis == ExportPbis(members, project)
    ensures f.area == FeatureArea(feat, f.pbis, project)
  {
    var area := StripProject(feat.fields.areaPath, project);
    var pbisOut: seq<Pbi> := [];
    var pbiAreas: seq<string> := [];
    var i := 0;
    while i < |members|
      invariant 0 <= i <= |members|
      invariant pbisOut == ExportPbis(members[..i], project)
      invariant pbiAreas == RealAreas(pbisOut, project)
    {
      assert members[..i + 1][..i] == members[..i];
      var p := ExportPbi(members[i], project);
      assert (pbisOut + [p])[..|pbisOut|] == pbisOut;
      pbisOut := pbisOut + [p];
      if p.area != project {
        pbiAreas := pbiAreas + [p.area];
      }
      i := i + 1;
    }
    assert members[..|members|] == members;
    if area == project && pbiAreas != [] {
      area := MostCommon(pbiAreas);
    }
    f := Feature(feat.id, feat.fields.title, area, pbisOut);
  }

  lemma ExportFeaturesSnoc(feats: seq<RawItem>, i: nat, pbiGroups: map<int, seq<RawItem>>, project: string)
    requires i < |feats|
    ensures ExportFeatures(feats[..i + 1], pbiGroups, project) ==
      ExportFeatures(feats[..i], pbiGroups, project) + [ExportFeature(feats[i], pbiGroups, project)]
  {
    assert feats[..i + 1][..i] == feats[..i];
  }

  method AssembleEpic(epic: RawItem, g: Grouping, project: string) returns (e: Epic)
    ensures e == ExportEpic(epic, g, project)
  {
    var feats := GroupOf(g.featsByEpic, epic.id);
    var featsOut: seq<Feature> := [];
    var i := 0;
    while i < |feats|
      invariant 0 <= i <= |feats|
      invariant featsOut == ExportFeatures(feats[..i], g.pbisByFeat, project)
    {
      var f := AssembleFeature(feats[i], GroupOf(g.pbisByFeat, feats[i].id), project);
      assert f == ExportFeature(feats[i], g.pbisByFeat, project);
      ExportFeaturesSnoc(feats, i, g.pbisByFeat, project);
      featsOut := featsOut + [f];
      i := i + 1;
    }
    assert feats[..|feats|] == feats;
    var orphansOut := ExportPbis(GroupOf(g.orphansByEpic, epic.id), project);
    e := Epic(epic.id, epic.fields.title, featsOut, orphansOut);
  }

  /** `for epic in epic_items`: one record per fetched epic, in fetch order. */
  method AssembleEpics(epics: seq<RawItem>, g: Grouping, project: string) returns (es: seq<Epic>)
    ensures es == ExportEpics(epics, g, project)
  {
    es := [];
    var i := 0;
    while i < |epics|
      invariant 0 <= i <= |epics|
      invariant es == ExportEpics(epics[..i], g, project)
    {
      assert epics[..i + 1][..i] == epics[..i];
      var e := AssembleEpic(epics[i], g, project);
      es := es + [e];
      i := i + 1;
    }
    assert epics[..|epics|] == epics;
  }

  // ---------------------------------------------------------------------------
  // The whole walk.

  /** What the REST API answered to the four `get_work_items` calls: the root, its
      epics, their children (level 2) and the features' children (level 3). */
  datatype Replies = Replies(roots: seq<RawItem>, epics: seq<RawItem>, level2: seq<RawItem>, level3: seq<RawItem>)

  /** The links `extract` parses past the root all end in a number: those of
      every epic (the level-2 loop) and of every live level-2 Feature (the level-3
      loop). Orphans, removed items and extra roots are never parsed. */
  predicate Linked(rp: Replies) {
    AllLinked(rp.epics) && AllLinked(Features(rp))
  }

  /** `get_work_items(ids) if ids else []`. */
  function Fetched(ids: seq<int>, reply: seq<RawItem>): seq<RawItem> {
    if ids != [] then reply else []
  }

  /** Level 2 without the removed items. */
  function Level2(rp: Replies): seq<RawItem>
    requires AllLinked(rp.epics)
  {
    Sift(Fetched(AllChildIds(rp.epics), rp.level2), Live)
  }

  function Features(rp: Replies): seq<RawItem>
    requires AllLinked(rp.epics)
  {
    Sift(Level2(rp), FeatureType)
  }

  function Orphans(rp: Replies): seq<RawItem>
    requires AllLinked(rp.epics)
  {
    Sift(Level2(rp), OtherType)
  }

  /** Level 3 without the removed items. */
  function Level3(rp: Replies): seq<RawItem>
    requires Linked(rp)
  {
    Sift(Fetched(AllChildIds(Features(rp)), rp.level3), Live)
  }

  function EpicOf(rp: Replies): map<int, int>
    requires AllLinked(rp.epics)
  {
    ParentLinks(rp.epics)
  }

  function FeatureOf(rp: Replies): map<int, int>
    requires Linked(rp)
  {
    ParentLinks(Features(rp))
  }

  function GroupingOf(rp: Replies): Grouping
    requires Linked(rp)
  {
    Grouping(Groups(Features(rp), EpicOf(rp)), Groups(Orphans(rp), EpicOf(rp)), Groups(Level3(rp), FeatureOf(rp)))
  }

  /** How `extract` ends: it exits when the root item is not found, `int(...)`
      raises ValueError on a parsed link that does not end in a number, and
      otherwise it returns the initiative. */
  datatype Outcome = RootMissing | BadLink | Extracted(initiative: Initiative)

  /** The outcome of `extract` once the replies are known. */
  function Hierarchy(rootId: int, project: string, rp: Replies): (r: Outcome)
    ensures r.RootMissing? <==> rp.roots == []
    ensures r.BadLink? <==>
      (rp.roots != [] && (!WellLinked(rp.roots[0]) || (ChildIds(rp.roots[0]) != [] && !Linked(rp))))
    ensures r.Extracted? ==> r.initiative.id == rootId && r.initiative.title == rp.roots[0].fields.title
    ensures r.Extracted? && ChildIds(rp.roots[0]) == [] ==> r.initiative.epics == []
    ensures r.Extracted? && ChildIds(rp.roots[0]) != [] ==> |r.initiative.epics| == |rp.epics|
    ensures r.Extracted? && ChildIds(rp.roots[0]) != [] ==>
      forall k :: 0 <= k < |rp.epics| ==>
        r.initiative.epics[k].id == rp.epics[k].id && r.initiative.epics[k].title == rp.epics[k].fields.title
  {
    if rp.roots == [] then RootMissing
    else
      var root := rp.roots[0];
      if !WellLinked(root) then BadLink
      else if ChildIds(root) == [] then Extracted(Initiative(rootId, root.fields.title, []))
      else if !Linked(rp) then BadLink
      else Extracted(Initiative(rootId, root.fields.title, ExportEpics(rp.epics, GroupingOf(rp), project)))
  }

  /** A malformed link on an item the script never parses changes nothing: an
      orphan's, a removed item's or a second root's links do not matter. */
  lemma UnparsedLinksIgnored(rootId: int, project: string, rp: Replies, rp': Replies)
    requires rp.roots != [] && rp'.roots != [] && rp'.roots[0] == rp.roots[0]
    requires rp'.epics == rp.epics && rp'.level3 == rp.level3
    requires AllLinked(rp.epics) ==> Features(rp') == Features(rp) && Orphans(rp') == Orphans(rp)
    ensures Hierarchy(rootId, project, rp') == Hierarchy(rootId, project, rp)
  {
  }

  /** `extract(root_id, project, org_url)` once the replies are known. */
  method Extract(rootId: int, project: string, rp: Replies) returns (r: Outcome)
    ensures r == Hierarchy(rootId, project, rp)
  {
    if rp.roots == [] {
      return RootMissing;
    }
    var root := rp.roots[0];
    if !WellLinked(root) {
      return BadLink;
    }
    var epicIds := ChildIds(root);
    if epicIds == [] {
      return Extracted(Initiative(rootId, root.fields.title, []));
    }
    var epicItems := rp.epics;
    if !AllLinked(epicItems) {
      return BadLink;
    }

    var level2Ids, level2Parent := LinkChildren(epicItems);
    var level2Items := if level2Ids != [] then rp.level2 else [];
    level2Items := Sift(level2Items, Live);
    var features := Sift(level2Items, FeatureType);
    var orphans := Sift(level2Items, OtherType);
    assert features == Features(rp);
    if !AllLinked(features) {
      return BadLink;
    }

    var level3Ids, level3Parent := LinkChildren(features);
    var level3Items := if level3Ids != [] then rp.level3 else [];
    level3Items := Sift(level3Items, Live);

    var pbisByFeat := GroupByParent(level3Items, level3Parent);
    var featsByEpic := GroupByParent(features, level2Parent);
    var orphansByEpic := GroupByParent(orphans, level2Parent);

    var epicsOut := AssembleEpics(epicItems, Grouping(featsByEpic, orphansByEpic, pbisByFeat), project);
    r := Extracted(Initiative(rootId, root.fields.title, epicsOut));
  }

  // ---------------------------------------------------------------------------
  // Where each fetched item ends up.

  /** What lands in a group: a level item with the group's parent recorded for it. */
  lemma InGroup(items: seq<RawItem>, parent: map<int, int>, pid: int, it: RawItem)
    ensures it in GroupOf(Groups(items, parent), pid) <==> it in items && ChildOf(it, parent, pid)
  {
    GroupsLookup(items, parent, pid);
    ChildrenOfMembers(items, parent, pid, it);
  }

  /** A fetched level-2 item is live and listed by some epic exactly when the
      script keeps it in level 2. */
  lemma Level2Members(rp: Replies, it: RawItem)
    requires Linked(rp)
    ensures it in Level2(rp) && it.id in EpicOf(rp) <==>
      it in rp.level2 && it.fields.state != REMOVED && it.id in EpicOf(rp)
  {
    var ids := AllChildIds(rp.epics);
    SiftMembers(Fetched(ids, rp.level2), Live, it);
    ParentLinksKeys(rp.epics, it.id);
  }

  /** The features under epic k are the live level-2 Features whose recorded epic
      is epic k. */
  lemma EpicFeatureSources(rp: Replies, k: nat, it: RawItem)
    requires Linked(rp) && k < |rp.epics|
    ensures it in GroupOf(GroupingOf(rp).featsByEpic, rp.epics[k].id) <==>
      && it in rp.level2 && it.fields.state != REMOVED && it.fields.workItemType == FEATURE
      && ChildOf(it, EpicOf(rp), rp.epics[k].id)
  {
    InGroup(Features(rp), EpicOf(rp), rp.epics[k].id, it);
    SiftMembers(Level2(rp), FeatureType, it);
    Level2Members(rp, it);
  }

  /** The orphans under epic k are the live level-2 items of any other type whose
      recorded epic is epic k. */
  lemma EpicOrphanSources(rp: Replies, k: nat, it: RawItem)
    requires Linked(rp) && k < |rp.epics|
    ensures it in GroupOf(GroupingOf(rp).orphansByEpic, rp.epics[k].id) <==>
      && it in rp.level2 && it.fields.state != REMOVED && it.fields.workItemType != FEATURE
      && ChildOf(it, EpicOf(rp), rp.epics[k].id)
  {
    InGroup(Orphans(rp), EpicOf(rp), rp.epics[k].id, it);
    SiftMembers(Level2(rp), OtherType, it);
    Level2Members(rp, it);
  }

  /** The PBIs under a feature are the live level-3 items whose recorded feature
      is that feature. */
  lemma FeaturePbiSources(rp: Replies, fid: int, it: RawItem)
    requires Linked(rp)
    ensures it in GroupOf(GroupingOf(rp).pbisByFeat, fid) <==>
      it in rp.level3 && it.fields.state != REMOVED && ChildOf(it, FeatureOf(rp), fid)
  {
    InGroup(Level3(rp), FeatureOf(rp), fid, it);
    SiftMembers(Fetched(AllChildIds(Features(rp)), rp.level3), Live, it);
    ParentLinksKeys(Features(rp), it.id);
  }

  /** Every live level-2 Feature whose recorded epic is epic k is written, as a
      feature record, under epic k. */
  lemma FeaturePlaced(rootId: int, project: string, rp: Replies, k: nat, it: RawItem)
    requires Linked(rp) && rp.roots != [] && WellLinked(rp.roots[0]) && ChildIds(rp.roots[0]) != []
    requires k < |rp.epics|
    requires it in rp.level2 && it.fields.state != REMOVED && it.fields.workItemType == FEATURE
    requires ChildOf(it, EpicOf(rp), rp.epics[k].id)
    ensures ExportFeature(it, GroupingOf(rp).pbisByFeat, project) in Hierarchy(rootId, project, rp).initiative.epics[k].features
  {
    EpicFeatureSources(rp, k, it);
    var feats := GroupOf(GroupingOf(rp).featsByEpic, rp.epics[k].id);
    var j :| 0 <= j < |feats| && feats[j] == it;
    assert Hierarchy(rootId, project, rp).initiative.epics[k].features[j] == ExportFeature(it, GroupingOf(rp).pbisByFeat, project);
  }

  /** And every feature record under epic k comes from such an item. */
  lemma FeatureFrom(rootId: int, project: string, rp: Replies, k: nat, f: Feature)
    requires Linked(rp) && rp.roots != [] && WellLinked(rp.roots[0]) && ChildIds(rp.roots[0]) != []
    requires k < |rp.epics|
    requires f in Hierarchy(rootId, project, rp).initiative.epics[k].features
    ensures exists it :: (it in rp.level2 && it.fields.state != REMOVED && it.fields.workItemType == FEATURE
      && ChildOf(it, EpicOf(rp), rp.epics[k].id) && f == ExportFeature(it, GroupingOf(rp).pbisByFeat, project))
  {
    var fs := Hierarchy(rootId, project, rp).initiative.epics[k].features;
    var feats := GroupOf(GroupingOf(rp).featsByEpic, rp.epics[k].id);
    var j :| 0 <= j < |fs| && fs[j] == f;
    EpicFeatureSources(rp, k, feats[j]);
  }

  /** Every live level-2 item of another type whose recorded epic is epic k is
      written as an orphan of epic k. */
  lemma OrphanPlaced(rootId: int, project: string, rp: Replies, k: nat, it: RawItem)
    requires Linked(rp) && rp.roots != [] && WellLinked(rp.roots[0]) && ChildIds(rp.roots[0]) != []
    requires k < |rp.epics|
    requires it in rp.level2 && it.fields.state != REMOVED && it.fields.workItemType != FEATURE
    requires ChildOf(it, EpicOf(rp), rp.epics[k].id)
    ensures ExportPbi(it, project) in Hierarchy(rootId, project, rp).initiative.epics[k].orphans
  {
    EpicOrphanSources(rp, k, it);
    var os := GroupOf(GroupingOf(rp).orphansByEpic, rp.epics[k].id);
    var j :| 0 <= j < |os| && os[j] == it;
    assert Hierarchy(rootId, project, rp).initiative.epics[k].orphans[j] == ExportPbi(it, project);
  }

  /** And every orphan record under epic k comes from such an item. */
  lemma OrphanFrom(rootId: int, project: string, rp: Replies, k: nat, p: Pbi)
    requires Linked(rp) && rp.roots != [] && WellLinked(rp.roots[0]) && ChildIds(rp.roots[0]) != []
    requires k < |rp.epics|
    requires p in Hierarchy(rootId, project, rp).initiative.epics[k].orphans
    ensures exists it :: (it in rp.level2 && it.fields.state != REMOVED && it.fields.workItemType != FEATURE
      && ChildOf(it, EpicOf(rp), rp.epics[k].id) && p == ExportPbi(it, project))
  {
    var ps := Hierarchy(rootId, project, rp).initiative.epics[k].orphans;
    var os := GroupOf(GroupingOf(rp).orphansByEpic, rp.epics[k].id);
    var j :| 0 <= j < |ps| && ps[j] == p;
    EpicOrphanSources(rp, k, os[j]);
  }

  /** A feature's PBI records are exactly those of the live level-3 items whose
      recorded feature it is. */
  lemma PbiPlaced(project: string, rp: Replies, feat: RawItem, it: RawItem)
    requires Linked(rp)
    requires it in rp.level3 && it.fields.state != REMOVED && ChildOf(it, FeatureOf(rp), feat.id)
    ensures ExportPbi(it, project) in ExportFeature(feat, GroupingOf(rp).pbisByFeat, project).pbis
  {
    FeaturePbiSources(rp, feat.id, it);
    var ms := GroupOf(GroupingOf(rp).pbisByFeat, feat.id);
    var j :| 0 <= j < |ms| && ms[j] == it;
    assert ExportFeature(feat, GroupingOf(rp).pbisByFeat, project).pbis[j] == ExportPbi(it, project);
  }

  lemma PbiFrom(project: string, rp: Replies, feat: RawItem, p: Pbi)
    requires Linked(rp)
    requires p in ExportFeature(feat, GroupingOf(rp).pbisByFeat, project).pbis
    ensures exists it :: (it in rp.level3 && it.fields.state != REMOVED && ChildOf(it, FeatureOf(rp), feat.id)
      && p == ExportPbi(it, project))
  {
    var ps := ExportFeature(feat, GroupingOf(rp).pbisByFeat, project).pbis;
    var ms := GroupOf(GroupingOf(rp).pbisByFeat, feat.id);
    var j :| 0 <= j < |ps| && ps[j] == p;
    FeaturePbiSources(rp, feat.id, ms[j]);
  }
}
