/** The extractor's output records for PBIs, and the area a feature is given:
    its own area with the project prefix stripped, or, when that is the project
    root, the area most of its PBIs share. */
module ExtractAreas {
  import opened Common
  import opened Collections
  import opened WorkItems
  import opened ExtractRefs

  // ---------------------------------------------------------------------------
  // `Counter(xs).most_common(1)[0][0]`.

  function Count(xs: seq<string>, x: string): nat {
    multiset(xs)[x]
  }

  /** The position, among `cands`, of the first candidate with the highest count:
      a later candidate replaces the leader only with a strictly higher count. */
  function LeaderIndex(cands: seq<string>, xs: seq<string>): (j: nat)
    requires cands != []
    ensures j < |cands|
  {
    if |cands| == 1 then 0
    else
      var b := LeaderIndex(cands[..|cands| - 1], xs);
      if Count(xs, cands[|cands| - 1]) > Count(xs, cands[b]) then |cands| - 1 else b
  }

  /** The leader's count is the highest, and every candidate before it counts less. */
  lemma {:induction false} LeaderBest(cands: seq<string>, xs: seq<string>)
    requires cands != []
    ensures forall i :: 0 <= i < |cands| ==> Count(xs, cands[i]) <= Count(xs, cands[LeaderIndex(cands, xs)])
    ensures forall i :: 0 <= i < LeaderIndex(cands, xs) ==> Count(xs, cands[i]) < Count(xs, cands[LeaderIndex(cands, xs)])
  {
    if |cands| > 1 {
      var front := cands[..|cands| - 1];
      LeaderBest(front, xs);
      assert forall i :: 0 <= i < |front| ==> front[i] == cands[i];
    }
  }

  /** A candidate that ties with the leader does not come before it. */
  lemma LeaderFirstOfTies(cands: seq<string>, xs: seq<string>, q: nat)
    requires q < |cands|
    requires Count(xs, cands[q]) == Count(xs, cands[LeaderIndex(cands, xs)])
    ensures LeaderIndex(cands, xs) <= q
  {
    LeaderBest(cands, xs);
  }

  /** A Counter lists its keys in first-seen order, and `most_common(1)` takes the
      first key of highest count. */
  function MostCommon(xs: seq<string>): (r: string)
    requires xs != []
    ensures r in xs
  {
    assert xs[0] in Dedupe(xs);
    Dedupe(xs)[LeaderIndex(Dedupe(xs), xs)]
  }

  /** No value occurs more often than the chosen one. */
  lemma MostCommonIsMost(xs: seq<string>, y: string)
    requires xs != [] && y in xs
    ensures Count(xs, y) <= Count(xs, MostCommon(xs))
  {
    var d := Dedupe(xs);
    assert xs[0] in d;
    LeaderBest(d, xs);
    assert d[IndexOf(d, y)] == y;
  }

  /** Of the values that occur equally often, the chosen one is seen first. */
  lemma MostCommonFirstSeen(xs: seq<string>, y: string)
    requires xs != [] && y in xs
    requires Count(xs, y) == Count(xs, MostCommon(xs))
    ensures Members(xs, MostCommon(xs)) != [] && Members(xs, y) != []
    ensures Members(xs, MostCommon(xs))[0] <= Members(xs, y)[0]
  {
    var d := Dedupe(xs);
    assert xs[0] in d;
    var p := LeaderIndex(d, xs);
    var q := IndexOf(d, y);
    LeaderFirstOfTies(d, xs, q);
    assert IndexOf(xs, y) in Members(xs, y);
    assert IndexOf(xs, d[p]) in Members(xs, d[p]);
    assert MostCommon(xs) == d[p] && y == d[q];
    if p < q {
      FirstMembersAscending(xs, p, q);
    } else {
      assert p == q;
    }
  }

  // ---------------------------------------------------------------------------
  // PBI records and the feature area.

  /** The record written for a PBI or an orphan item. */
  function ExportPbi(it: RawItem, project: string): Pbi {
    Pbi(it.id, it.fields.title, StripProject(it.fields.areaPath, project),
        Some(StripProject(it.fields.iterationPath, project)))
  }

  /** One record per item, in order. */
  function ExportPbis(items: seq<RawItem>, project: string): (ps: seq<Pbi>)
    ensures |ps| == |items|
    ensures forall k :: 0 <= k < |items| ==> ps[k] == ExportPbi(items[k], project)
  {
    if items == [] then []
    else ExportPbis(items[..|items| - 1], project) + [ExportPbi(items[|items| - 1], project)]
  }

  /** `pbi_areas`: the PBI areas, in order, that are not the project root. */
  function RealAreas(ps: seq<Pbi>, project: string): (r: seq<string>)
    ensures |r| <= |ps|
  {
    if ps == [] then []
    else
      var front := RealAreas(ps[..|ps| - 1], project);
      if ps[|ps| - 1].area != project then front + [ps[|ps| - 1].area] else front
  }

  lemma {:induction false} RealAreasMembers(ps: seq<Pbi>, project: string, a: string)
    ensures a in RealAreas(ps, project) <==> a != project && exists k :: 0 <= k < |ps| && ps[k].area == a
  {
    if ps != [] {
      var front := ps[..|ps| - 1];
      RealAreasMembers(front, project, a);
      assert forall k :: 0 <= k < |front| ==> front[k] == ps[k];
    }
  }

  /** The area written for a feature whose PBI records are `ps`. */
  function FeatureArea(feat: RawItem, ps: seq<Pbi>, project: string): (a: string)
    ensures StripProject(feat.fields.areaPath, project) != project ==> a == StripProject(feat.fields.areaPath, project)
    ensures RealAreas(ps, project) == [] ==> a == StripProject(feat.fields.areaPath, project)
    ensures RealAreas(ps, project) != [] ==> a != project
  {
    var own := StripProject(feat.fields.areaPath, project);
    var others := RealAreas(ps, project);
    if own == project && others != [] then
      RealAreasMembers(ps, project, MostCommon(others));
      MostCommon(others)
    else own
  }

  /** On the root area, a feature takes the area most of its PBIs are on, the first
      seen of those when several tie. */
  lemma FeatureAreaFromPbis(feat: RawItem, ps: seq<Pbi>, project: string, b: string)
    requires StripProject(feat.fields.areaPath, project) == project
    requires b in RealAreas(ps, project)
    ensures FeatureArea(feat, ps, project) in RealAreas(ps, project)
    ensures Count(RealAreas(ps, project), b) <= Count(RealAreas(ps, project), FeatureArea(feat, ps, project))
    ensures Count(RealAreas(ps, project), b) == Count(RealAreas(ps, project), FeatureArea(feat, ps, project)) ==>
      Members(RealAreas(ps, project), FeatureArea(feat, ps, project))[0] <= Members(RealAreas(ps, project), b)[0]
  {
    var others := RealAreas(ps, project);
    MostCommonIsMost(others, b);
    if Count(others, b) == Count(others, MostCommon(others)) {
      MostCommonFirstSeen(others, b);
    }
  }
}
