/** The work-item tree that the extractor writes and both generators read:
    initiative -> epics -> features -> PBIs, plus PBIs hanging directly under an
    epic ("orphans"). JSON fields that are read with `.get(key, [])` are plain
    sequences here (a missing list and an empty list behave alike); the optional
    `iteration` of a PBI is an Option. */
module WorkItems {
  import opened Common

  datatype Pbi = Pbi(id: int, title: string, area: string, iteration: Option<string>)
  datatype Feature = Feature(id: int, title: string, area: string, pbis: seq<Pbi>)
  datatype Epic = Epic(id: int, title: string, features: seq<Feature>, orphans: seq<Pbi>)
  datatype Initiative = Initiative(id: int, title: string, epics: seq<Epic>)

  /** An entry of the "iterations" map: the dates an iteration has. The entry's
      "path" repeats its key and is not kept. */
  datatype IterDates = IterDates(start: Option<string>, finish: Option<string>)

  /** An epic that gets a column: `e.get("features") or e.get("orphan_pbis")`. */
  predicate HasContent(e: Epic) {
    |e.features| > 0 || |e.orphans| > 0
  }

  // ---------------------------------------------------------------------------
  // Traversal of every PBI in the order the scripts visit them: per initiative,
  // per epic, the PBIs of each feature and then the epic's orphan PBIs.

  function FeaturesPbis(fs: seq<Feature>): seq<Pbi> {
    if fs == [] then [] else FeaturesPbis(fs[..|fs| - 1]) + fs[|fs| - 1].pbis
  }

  function EpicPbis(e: Epic): seq<Pbi> {
    FeaturesPbis(e.features) + e.orphans
  }

  function EpicsPbis(es: seq<Epic>): seq<Pbi> {
    if es == [] then [] else EpicsPbis(es[..|es| - 1]) + EpicPbis(es[|es| - 1])
  }

  function InitiativesPbis(inits: seq<Initiative>): seq<Pbi> {
    if inits == [] then [] else InitiativesPbis(inits[..|inits| - 1]) + EpicsPbis(inits[|inits| - 1].epics)
  }

  lemma FeaturesPbisSnoc(fs: seq<Feature>, n: nat)
    requires n < |fs|
    ensures FeaturesPbis(fs[..n + 1]) == FeaturesPbis(fs[..n]) + fs[n].pbis
  {
    assert fs[..n + 1][..n] == fs[..n];
  }

  lemma EpicsPbisSnoc(es: seq<Epic>, n: nat)
    requires n < |es|
    ensures EpicsPbis(es[..n + 1]) == EpicsPbis(es[..n]) + EpicPbis(es[n])
  {
    assert es[..n + 1][..n] == es[..n];
  }

  lemma InitiativesPbisSnoc(inits: seq<Initiative>, n: nat)
    requires n < |inits|
    ensures InitiativesPbis(inits[..n + 1]) == InitiativesPbis(inits[..n]) + EpicsPbis(inits[n].epics)
  {
    assert inits[..n + 1][..n] == inits[..n];
  }

  // ---------------------------------------------------------------------------
  // Traversal of every area tag in the order compute_section meets them: per
  // initiative, per epic, the areas of its features and then of its orphans.

  function FeatureAreas(fs: seq<Feature>): seq<string> {
    if fs == [] then [] else FeatureAreas(fs[..|fs| - 1]) + [fs[|fs| - 1].area]
  }

  function PbiAreas(ps: seq<Pbi>): seq<string> {
    if ps == [] then [] else PbiAreas(ps[..|ps| - 1]) + [ps[|ps| - 1].area]
  }

  function EpicAreas(e: Epic): seq<string> {
    FeatureAreas(e.features) + PbiAreas(e.orphans)
  }

  function EpicsAreas(es: seq<Epic>): seq<string> {
    if es == [] then [] else EpicsAreas(es[..|es| - 1]) + EpicAreas(es[|es| - 1])
  }

  function InitiativesAreas(inits: seq<Initiative>): seq<string> {
    if inits == [] then [] else InitiativesAreas(inits[..|inits| - 1]) + EpicsAreas(inits[|inits| - 1].epics)
  }

  lemma FeatureAreasSnoc(fs: seq<Feature>, n: nat)
    requires n < |fs|
    ensures FeatureAreas(fs[..n + 1]) == FeatureAreas(fs[..n]) + [fs[n].area]
  {
    assert fs[..n + 1][..n] == fs[..n];
  }

  lemma PbiAreasSnoc(ps: seq<Pbi>, n: nat)
    requires n < |ps|
    ensures PbiAreas(ps[..n + 1]) == PbiAreas(ps[..n]) + [ps[n].area]
  {
    assert ps[..n + 1][..n] == ps[..n];
  }

  lemma EpicsAreasSnoc(es: seq<Epic>, n: nat)
    requires n < |es|
    ensures EpicsAreas(es[..n + 1]) == EpicsAreas(es[..n]) + EpicAreas(es[n])
  {
    assert es[..n + 1][..n] == es[..n];
  }

  lemma InitiativesAreasSnoc(inits: seq<Initiative>, n: nat)
    requires n < |inits|
    ensures InitiativesAreas(inits[..n + 1]) == InitiativesAreas(inits[..n]) + EpicsAreas(inits[n].epics)
  {
    assert inits[..n + 1][..n] == inits[..n];
  }

  /** An area occurs in the traversal exactly when some feature or orphan of some
      epic carries it. */
  lemma {:induction false} FeatureAreasMembers(fs: seq<Feature>, a: string)
    ensures a in FeatureAreas(fs) <==> exists f :: f in fs && f.area == a
  {
    if fs != [] {
      var p := fs[..|fs| - 1];
      FeatureAreasMembers(p, a);
      assert fs == p + [fs[|fs| - 1]];
    }
  }

  lemma {:induction false} PbiAreasMembers(ps: seq<Pbi>, a: string)
    ensures a in PbiAreas(ps) <==> exists p :: p in ps && p.area == a
  {
    if ps != [] {
      var q := ps[..|ps| - 1];
      PbiAreasMembers(q, a);
      assert ps == q + [ps[|ps| - 1]];
    }
  }

  lemma {:induction false} EpicsAreasMembers(es: seq<Epic>, a: string)
    ensures a in EpicsAreas(es) <==> exists e :: e in es && a in EpicAreas(e)
  {
    if es != [] {
      var p := es[..|es| - 1];
      EpicsAreasMembers(p, a);
      assert es == p + [es[|es| - 1]];
    }
  }

  lemma {:induction false} InitiativesAreasMembers(inits: seq<Initiative>, a: string)
    ensures a in InitiativesAreas(inits) <==> exists j :: 0 <= j < |inits| && a in EpicsAreas(inits[j].epics)
  {
    if inits != [] {
      var p := inits[..|inits| - 1];
      InitiativesAreasMembers(p, a);
      assert forall j :: 0 <= j < |p| ==> p[j] == inits[j];
    }
  }

  /** The traversal meets no area exactly when no epic has a feature or an orphan. */
  lemma {:induction false} EpicsAreasEmpty(es: seq<Epic>)
    ensures EpicsAreas(es) == [] <==> forall e :: e in es ==> !HasContent(e)
  {
    if es != [] {
      var p := es[..|es| - 1];
      EpicsAreasEmpty(p);
      assert es == p + [es[|es| - 1]];
      var e := es[|es| - 1];
      FeatureAreasLength(e.features);
      PbiAreasLength(e.orphans);
      assert EpicsAreas(es) == EpicsAreas(p) + EpicAreas(e);
      assert EpicAreas(e) == [] <==> !HasContent(e);
      assert (forall x :: x in es ==> !HasContent(x)) <==>
        (forall x :: x in p ==> !HasContent(x)) && !HasContent(e);
    }
  }

  lemma {:induction false} InitiativesAreasEmpty(inits: seq<Initiative>)
    ensures InitiativesAreas(inits) == [] <==>
      forall j, e :: 0 <= j < |inits| && e in inits[j].epics ==> !HasContent(e)
  {
    if inits != [] {
      var p := inits[..|inits| - 1];
      InitiativesAreasEmpty(p);
      EpicsAreasEmpty(inits[|inits| - 1].epics);
      assert forall j :: 0 <= j < |p| ==> p[j] == inits[j];
    }
  }

  lemma {:induction false} FeatureAreasLength(fs: seq<Feature>)
    ensures |FeatureAreas(fs)| == |fs|
  {
    if fs != [] {
      FeatureAreasLength(fs[..|fs| - 1]);
    }
  }

  lemma {:induction false} PbiAreasLength(ps: seq<Pbi>)
    ensures |PbiAreas(ps)| == |ps|
  {
    if ps != [] {
      PbiAreasLength(ps[..|ps| - 1]);
    }
  }
}
