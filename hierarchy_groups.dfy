/** Grouping of initiatives into independent sections: an array-backed
    union-find (find with path halving, union that hangs the second root under
    the first) merges every initiative with the first initiative that used one of
    its areas; the classes, each in original order, become the sections. */
module HierarchyGroups {
  import opened Common
  import opened Collections
  import opened WorkItems

  // ---------------------------------------------------------------------------
  // Areas of one initiative.

  /** The areas of an initiative: those of its epics' features and orphan PBIs. */
  ghost function AreaSet(init: Initiative): set<string> {
    Elements(EpicsAreas(init.epics))
  }

  /** An area belongs to an initiative exactly when one of its features or orphan
      PBIs carries it. */
  lemma AreaSetMembers(init: Initiative, a: string)
    ensures a in AreaSet(init) <==>
      (exists e, f :: e in init.epics && f in e.features && f.area == a)
      || (exists e, p :: e in init.epics && p in e.orphans && p.area == a)
  {
    EpicsAreasMembers(init.epics, a);
    forall e | e in init.epics
      ensures a in EpicAreas(e) <==>
        (exists f :: f in e.features && f.area == a) || (exists p :: p in e.orphans && p.area == a)
    {
      FeatureAreasMembers(e.features, a);
      PbiAreasMembers(e.orphans, a);
    }
  }

  lemma FeatureAreaStep(fs: seq<Feature>, j: nat)
    requires j < |fs|
    ensures Elements(FeatureAreas(fs[..j + 1])) == Elements(FeatureAreas(fs[..j])) + {fs[j].area}
  {
    FeatureAreasSnoc(fs, j);
    ElementsConcat(FeatureAreas(fs[..j]), [fs[j].area]);
  }

  lemma OrphanAreaStep(ps: seq<Pbi>, j: nat)
    requires j < |ps|
    ensures Elements(PbiAreas(ps[..j + 1])) == Elements(PbiAreas(ps[..j])) + {ps[j].area}
  {
    PbiAreasSnoc(ps, j);
    ElementsConcat(PbiAreas(ps[..j]), [ps[j].area]);
  }

  lemma EpicAreaStep(es: seq<Epic>, i: nat)
    requires i < |es|
    ensures Elements(EpicsAreas(es[..i + 1]))
      == Elements(EpicsAreas(es[..i])) + Elements(FeatureAreas(es[i].features)) + Elements(PbiAreas(es[i].orphans))
  {
    EpicsAreasSnoc(es, i);
    ElementsConcat(EpicsAreas(es[..i]), EpicAreas(es[i]));
    ElementsConcat(FeatureAreas(es[i].features), PbiAreas(es[i].orphans));
  }

  /** `get_initiative_areas`. */
  method GetInitiativeAreas(init: Initiative) returns (areas: set<string>)
    ensures areas == AreaSet(init)
  {
    areas := {};
    for i := 0 to |init.epics|
      invariant areas == Elements(EpicsAreas(init.epics[..i]))
    {
      var epic := init.epics[i];
      ghost var outer := areas;
      for j := 0 to |epic.features|
        invariant areas == outer + Elements(FeatureAreas(epic.features[..j]))
      {
        FeatureAreaStep(epic.features, j);
        areas := areas + {epic.features[j].area};
      }
      assert epic.features[..|epic.features|] == epic.features;
      ghost var mid := areas;
      for j := 0 to |epic.orphans|
        invariant areas == mid + Elements(PbiAreas(epic.orphans[..j]))
      {
        OrphanAreaStep(epic.orphans, j);
        areas := areas + {epic.orphans[j].area};
      }
      assert epic.orphans[..|epic.orphans|] == epic.orphans;
      EpicAreaStep(init.epics, i);
    }
    assert init.epics[..|init.epics|] == init.epics;
  }

  /** Two initiatives share an area. */
  ghost predicate ShareArea(a: Initiative, b: Initiative) {
    AreaSet(a) * AreaSet(b) != {}
  }

  // ---------------------------------------------------------------------------
  // The union-find forest, as values. `rank` and `bound` are proof-only: every
  // non-root points to a node of higher rank, so following parents terminates.

  ghost predicate Forest(parent: seq<nat>, rank: seq<nat>, bound: nat) {
    && |parent| == |rank|
    && (forall i :: 0 <= i < |parent| ==> parent[i] < |parent| && rank[i] <= bound)
    && (forall i :: 0 <= i < |parent| && parent[i] != i ==> rank[i] < rank[parent[i]])
  }

  /** The root reached from i by following parent links. */
  ghost function RootOf(parent: seq<nat>, rank: seq<nat>, bound: nat, i: nat): (r: nat)
    requires Forest(parent, rank, bound) && i < |parent|
    ensures r < |parent| && parent[r] == r
    decreases bound - rank[i]
  {
    if parent[i] == i then i else RootOf(parent, rank, bound, parent[i])
  }

  /** The roots of the first n indices. */
  ghost function RootsUpTo(parent: seq<nat>, rank: seq<nat>, bound: nat, n: nat): (rs: seq<nat>)
    requires Forest(parent, rank, bound) && n <= |parent|
    ensures |rs| == n
  {
    if n == 0 then [] else RootsUpTo(parent, rank, bound, n - 1) + [RootOf(parent, rank, bound, n - 1)]
  }

  /** The root of every index. */
  ghost function Roots(parent: seq<nat>, rank: seq<nat>, bound: nat): (rs: seq<nat>)
    requires Forest(parent, rank, bound)
    ensures |rs| == |parent|
  {
    RootsUpTo(parent, rank, bound, |parent|)
  }

  lemma {:induction false} RootsUpToAt(parent: seq<nat>, rank: seq<nat>, bound: nat, n: nat, i: nat)
    requires Forest(parent, rank, bound) && i < n <= |parent|
    ensures RootsUpTo(parent, rank, bound, n)[i] == RootOf(parent, rank, bound, i)
  {
    if i < n - 1 {
      RootsUpToAt(parent, rank, bound, n - 1, i);
    }
  }

  lemma RootsAt(parent: seq<nat>, rank: seq<nat>, bound: nat, i: nat)
    requires Forest(parent, rank, bound) && i < |parent|
    ensures Roots(parent, rank, bound)[i] == RootOf(parent, rank, bound, i)
  {
    RootsUpToAt(parent, rank, bound, |parent|, i);
  }

  /** Following a parent link stays in the class. */
  lemma RootsFollow(parent: seq<nat>, rank: seq<nat>, bound: nat, i: nat)
    requires Forest(parent, rank, bound) && i < |parent|
    ensures Roots(parent, rank, bound)[parent[i]] == Roots(parent, rank, bound)[i]
  {
    RootsAt(parent, rank, bound, i);
    RootsAt(parent, rank, bound, parent[i]);
  }

  /** Path halving (`parent[x] = parent[parent[x]]`) keeps the forest and every root. */
  lemma {:induction false} HalvingKeepsRoots(parent: seq<nat>, rank: seq<nat>, bound: nat, x: nat, i: nat)
    requires Forest(parent, rank, bound) && x < |parent| && i < |parent|
    ensures Forest(parent[x := parent[parent[x]]], rank, bound)
    ensures RootOf(parent[x := parent[parent[x]]], rank, bound, i) == RootOf(parent, rank, bound, i)
    decreases bound - rank[i]
  {
    var p' := parent[x := parent[parent[x]]];
    assert Forest(p', rank, bound);
    if parent[i] != i {
      HalvingKeepsRoots(parent, rank, bound, x, parent[i]);
      if i == x && parent[parent[x]] != parent[x] {
        HalvingKeepsRoots(parent, rank, bound, x, parent[parent[x]]);
      }
    }
  }

  /** Hanging root b under root a moves b's whole class into a's and changes no
      other root. */
  lemma {:induction false} LinkRoots(parent: seq<nat>, rank: seq<nat>, bound: nat, a: nat, b: nat, i: nat)
    requires Forest(parent, rank, bound) && a < |parent| && b < |parent| && i < |parent|
    requires parent[a] == a && parent[b] == b && a != b
    ensures var rank' := rank[a := Max(rank[a], rank[b] + 1)];
      var bound' := Max(bound, rank'[a]);
      && Forest(parent[b := a], rank', bound')
      && RootOf(parent[b := a], rank', bound', i)
         == if RootOf(parent, rank, bound, i) == b then a else RootOf(parent, rank, bound, i)
    decreases bound - rank[i]
  {
    var rank' := rank[a := Max(rank[a], rank[b] + 1)];
    var bound' := Max(bound, rank'[a]);
    var p' := parent[b := a];
    assert Forest(p', rank', bound');
    if parent[i] != i {
      LinkRoots(parent, rank, bound, a, b, parent[i]);
    } else if i == b {
      assert RootOf(p', rank', bound', b) == RootOf(p', rank', bound', a);
    }
  }

  lemma HalvingKeepsAllRoots(parent: seq<nat>, rank: seq<nat>, bound: nat, x: nat)
    requires Forest(parent, rank, bound) && x < |parent|
    ensures Forest(parent[x := parent[parent[x]]], rank, bound)
    ensures Roots(parent[x := parent[parent[x]]], rank, bound) == Roots(parent, rank, bound)
  {
    var p' := parent[x := parent[parent[x]]];
    HalvingKeepsRoots(parent, rank, bound, x, x);
    forall i | 0 <= i < |parent|
      ensures Roots(p', rank, bound)[i] == Roots(parent, rank, bound)[i]
    {
      HalvingKeepsRoots(parent, rank, bound, x, i);
      RootsAt(parent, rank, bound, i);
      RootsAt(p', rank, bound, i);
    }
  }

  lemma LinkAllRoots(parent: seq<nat>, rank: seq<nat>, bound: nat, a: nat, b: nat,
                      parent': seq<nat>, rank': seq<nat>, bound': nat)
    requires Forest(parent, rank, bound) && a < |parent| && b < |parent|
    requires parent[a] == a && parent[b] == b && a != b
    requires parent' == parent[b := a]
    requires rank' == rank[a := Max(rank[a], rank[b] + 1)] && bound' == Max(bound, rank'[a])
    ensures Forest(parent', rank', bound')
    ensures MergedInto(Roots(parent, rank, bound), Roots(parent', rank', bound'), a, b)
  {
    var before := Roots(parent, rank, bound);
    LinkRoots(parent, rank, bound, a, b, a);
    var after := Roots(parent', rank', bound');
    RootsAt(parent, rank, bound, a);
    RootsAt(parent, rank, bound, b);
    forall x | 0 <= x < |parent|
      ensures after[x] == if before[x] == before[b] then before[a] else before[x]
    {
      LinkRoots(parent, rank, bound, a, b, x);
      RootsAt(parent, rank, bound, x);
      RootsAt(parent', rank', bound', x);
    }
  }

  /** What `union(a, b)` does to the roots: the class of b takes a's root. */
  ghost predicate MergedInto(before: seq<nat>, after: seq<nat>, a: nat, b: nat) {
    && |before| == |after| && a < |before| && b < |before|
    && forall x :: 0 <= x < |before| ==>
         after[x] == if before[x] == before[b] then before[a] else before[x]
  }

  /** A merge is determined by the classes of its arguments, not the arguments. */
  lemma MergedIntoSameClasses(before: seq<nat>, after: seq<nat>, a: nat, b: nat, a2: nat, b2: nat)
    requires MergedInto(before, after, a2, b2)
    requires a < |before| && b < |before| && before[a] == before[a2] && before[b] == before[b2]
    ensures MergedInto(before, after, a, b)
  {
  }

  /** `parent`, together with `find` and `union`. */
  class UnionFind {
    var parent: seq<nat>
    ghost var rank: seq<nat>
    ghost var bound: nat

    ghost predicate Valid()
      reads this
    {
      Forest(parent, rank, bound)
    }

    /** The root of every index. */
    ghost function Reps(): (rs: seq<nat>)
      reads this
      requires Valid()
      ensures |rs| == |parent|
    {
      Roots(parent, rank, bound)
    }

    /** `parent = list(range(n))`: every index is its own class. */
    constructor (n: nat)
      ensures Valid() && |parent| == n
      ensures forall i :: 0 <= i < n ==> parent[i] == i && Reps()[i] == i
    {
      parent := seq(n, i requires 0 <= i < n => i);
      rank := seq(n, i => 0);
      bound := 0;
      new;
      forall i | 0 <= i < n ensures Reps()[i] == i {
        RootsAt(parent, rank, bound, i);
      }
    }

    /** `find(x)` with path halving: returns x's root and keeps every root. */
    method Find(x: nat) returns (r: nat)
      requires Valid() && x < |parent|
      modifies this
      ensures Valid() && |parent| == |old(parent)|
      ensures r < |parent| && parent[r] == r
      ensures r == old(Reps())[x] && Reps()[r] == r
      ensures Reps() == old(Reps())
    {
      ghost var before := Reps();
      r := x;
      while parent[r] != r
        invariant Valid() && |parent| == |before| && r < |parent|
        invariant rank == old(rank) && bound == old(bound)
        invariant Reps() == before
        invariant before[r] == before[x]
        decreases bound - rank[r]
      {
        HalvingKeepsAllRoots(parent, rank, bound, r);
        RootsFollow(parent, rank, bound, r);
        RootsFollow(parent, rank, bound, parent[r]);
        parent := parent[r := parent[parent[r]]];
        r := parent[r];
      }
      RootsAt(parent, rank, bound, r);
    }

    /** The linking step of `union`: root rb is hung under root ra. */
    method Link(ra: nat, rb: nat)
      requires Valid() && ra < |parent| && rb < |parent|
      requires Reps()[ra] == ra && Reps()[rb] == rb && ra != rb
      modifies this
      ensures Valid() && |parent| == |old(parent)|
      ensures MergedInto(old(Reps()), Reps(), ra, rb)
    {
      RootsAt(parent, rank, bound, ra);
      RootsAt(parent, rank, bound, rb);
      var parent' := parent[rb := ra];
      ghost var rank' := rank[ra := Max(rank[ra], rank[rb] + 1)];
      ghost var bound' := Max(bound, rank'[ra]);
      LinkAllRoots(parent, rank, bound, ra, rb, parent', rank', bound');
      parent, rank, bound := parent', rank', bound';
    }

    /** `union(a, b)`: b's class joins a's class; every other class is unchanged. */
    method Union(a: nat, b: nat)
      requires Valid() && a < |parent| && b < |parent|
      modifies this
      ensures Valid() && |parent| == |old(parent)|
      ensures MergedInto(old(Reps()), Reps(), a, b)
    {
      ghost var before := Reps();
      var ra := Find(a);
      var rb := Find(b);
      if ra != rb {
        Link(ra, rb);
        MergedIntoSameClasses(before, Reps(), a, b, ra, rb);
      }
    }
  }

  // ---------------------------------------------------------------------------
  // The result: a partition of 0..n-1 into groups in original order.

  ghost predicate InSomeGroup(groups: seq<seq<nat>>, i: nat) {
    exists k :: 0 <= k < |groups| && i in groups[k]
  }

  ghost predicate IsPartition(groups: seq<seq<nat>>, n: nat) {
    && (forall k :: 0 <= k < |groups| ==> groups[k] != [])
    && (forall k, j :: 0 <= k < |groups| && 0 <= j < |groups[k]| ==> groups[k][j] < n)
    && (forall i :: 0 <= i < n ==> InSomeGroup(groups, i))
    && (forall k1, k2, i :: 0 <= k1 < |groups| && 0 <= k2 < |groups| && i in groups[k1] && i in groups[k2] ==> k1 == k2)
  }

  /** Members of a group keep their original order; groups are ordered by their
      first (lowest) member. */
  ghost predicate InOriginalOrder(groups: seq<seq<nat>>) {
    && (forall k, a, b :: 0 <= k < |groups| && 0 <= a < b < |groups[k]| ==> groups[k][a] < groups[k][b])
    && (forall k1, k2 :: 0 <= k1 < k2 < |groups| && groups[k1] != [] && groups[k2] != [] ==> groups[k1][0] < groups[k2][0])
  }

  /** The groups of a roots assignment: one per distinct root, in order of first
      appearance, each listing the indices with that root. */
  function GroupsByRoot(roots: seq<nat>): (groups: seq<seq<nat>>)
    ensures |groups| == |Dedupe(roots)|
  {
    var keys := Dedupe(roots);
    seq(|keys|, k requires 0 <= k < |keys| => Members(roots, keys[k]))
  }

  lemma GroupsByRootPartition(roots: seq<nat>)
    ensures IsPartition(GroupsByRoot(roots), |roots|)
    ensures InOriginalOrder(GroupsByRoot(roots))
    ensures forall k, i :: 0 <= k < |GroupsByRoot(roots)| && i in GroupsByRoot(roots)[k] ==>
      i < |roots| && roots[i] == Dedupe(roots)[k]
  {
    GroupsNonEmpty(roots);
    GroupsCover(roots);
    GroupsOrdered(roots);
  }

  lemma GroupsNonEmpty(roots: seq<nat>)
    ensures forall k :: 0 <= k < |GroupsByRoot(roots)| ==> GroupsByRoot(roots)[k] != []
  {
    var keys := Dedupe(roots);
    var groups := GroupsByRoot(roots);
    forall k | 0 <= k < |groups| ensures groups[k] != [] {
      var j := IndexOf(roots, keys[k]);
      assert j in Members(roots, keys[k]);
    }
  }

  lemma GroupsCover(roots: seq<nat>)
    ensures forall i :: 0 <= i < |roots| ==> InSomeGroup(GroupsByRoot(roots), i)
  {
    var keys := Dedupe(roots);
    var groups := GroupsByRoot(roots);
    forall i | 0 <= i < |roots| ensures InSomeGroup(groups, i) {
      var k := IndexOf(keys, roots[i]);
      assert i in groups[k];
    }
  }

  lemma GroupsOrdered(roots: seq<nat>)
    ensures InOriginalOrder(GroupsByRoot(roots))
  {
    var groups := GroupsByRoot(roots);
    forall k1, k2 | 0 <= k1 < k2 < |groups| && groups[k1] != [] && groups[k2] != []
      ensures groups[k1][0] < groups[k2][0]
    {
      FirstMembersAscending(roots, k1, k2);
      assert groups[k1] == Members(roots, Dedupe(roots)[k1]);
      assert groups[k2] == Members(roots, Dedupe(roots)[k2]);
    }
    forall k, a, b | 0 <= k < |groups| && 0 <= a < b < |groups[k]|
      ensures groups[k][a] < groups[k][b]
    {
      assert groups[k] == Members(roots, Dedupe(roots)[k]);
    }
  }

  /** Sharing closure of a roots assignment: initiatives that share an area have
      the same root. */
  ghost predicate SharingMerged(inits: seq<Initiative>, roots: seq<nat>) {
    |roots| == |inits| &&
    forall i, j :: 0 <= i < |inits| && 0 <= j < |inits| && ShareArea(inits[i], inits[j]) ==> roots[i] == roots[j]
  }

  /** A union never separates two indices and joins its two arguments. */
  lemma MergeKeepsEqual(before: seq<nat>, after: seq<nat>, a: nat, b: nat)
    requires MergedInto(before, after, a, b)
    ensures forall x, y :: 0 <= x < |before| && 0 <= y < |before| && before[x] == before[y] ==> after[x] == after[y]
    ensures after[a] == after[b]
  {
  }

  /** Every area of the first `upto` initiatives is remembered with an index in
      the same class. */
  ghost predicate AreasRemembered(inits: seq<Initiative>, upto: nat, areaToInit: map<string, nat>, reps: seq<nat>)
    requires upto <= |inits| == |reps|
  {
    forall j, a :: 0 <= j < upto && a in AreaSet(inits[j]) ==>
      a in areaToInit && areaToInit[a] < |reps| && reps[areaToInit[a]] == reps[j]
  }

  /** Every area in `done` is remembered with an index in the class of i. */
  ghost predicate DoneJoined(done: set<string>, i: nat, areaToInit: map<string, nat>, reps: seq<nat>)
    requires i < |reps|
  {
    forall a :: a in done ==> a in areaToInit && areaToInit[a] < |reps| && reps[areaToInit[a]] == reps[i]
  }

  /** An area already remembered: after `union(i, other)` both facts still hold and
      the area counts as joined. */
  lemma UnionKeepsRemembered(inits: seq<Initiative>, i: nat, done: set<string>, area: string,
                             areaToInit: map<string, nat>, before: seq<nat>, after: seq<nat>)
    requires i < |inits| == |before| && area in areaToInit
    requires MergedInto(before, after, i, areaToInit[area])
    requires AreasRemembered(inits, i, areaToInit, before) && DoneJoined(done, i, areaToInit, before)
    ensures AreasRemembered(inits, i, areaToInit, after) && DoneJoined(done + {area}, i, areaToInit, after)
  {
    MergeKeepsEqual(before, after, i, areaToInit[area]);
  }

  /** A new area: remembering it with i keeps both facts. */
  lemma RememberKeeps(inits: seq<Initiative>, i: nat, done: set<string>, area: string,
                      areaToInit: map<string, nat>, reps: seq<nat>)
    requires i < |inits| == |reps| && area !in areaToInit
    requires AreasRemembered(inits, i, areaToInit, reps) && DoneJoined(done, i, areaToInit, reps)
    ensures AreasRemembered(inits, i, areaToInit[area := i], reps)
    ensures DoneJoined(done + {area}, i, areaToInit[area := i], reps)
  {
  }

  /** Once all of initiative i's areas are joined, the first i + 1 are remembered. */
  lemma RememberedStep(inits: seq<Initiative>, i: nat, areaToInit: map<string, nat>, reps: seq<nat>)
    requires i < |inits| == |reps|
    requires AreasRemembered(inits, i, areaToInit, reps)
    requires DoneJoined(AreaSet(inits[i]), i, areaToInit, reps)
    ensures AreasRemembered(inits, i + 1, areaToInit, reps)
  {
    forall j, a | 0 <= j < i + 1 && a in AreaSet(inits[j])
      ensures a in areaToInit && areaToInit[a] < |reps| && reps[areaToInit[a]] == reps[j]
    {
      if j == i {
        assert a in AreaSet(inits[i]);
      }
    }
  }

  /** After every initiative is processed, sharing an area means one class. */
  lemma RememberedGivesSharing(inits: seq<Initiative>, areaToInit: map<string, nat>, reps: seq<nat>)
    requires |inits| == |reps| && AreasRemembered(inits, |inits|, areaToInit, reps)
    ensures SharingMerged(inits, reps)
  {
    forall i, j | 0 <= i < |inits| && 0 <= j < |inits| && ShareArea(inits[i], inits[j])
      ensures reps[i] == reps[j]
    {
      var a :| a in AreaSet(inits[i]) * AreaSet(inits[j]);
      assert reps[i] == reps[areaToInit[a]];
    }
  }

  // ---------------------------------------------------------------------------
  // The converse: a class holds only initiatives linked by shared areas.

  /** chain lists initiatives, each sharing an area with the next. */
  ghost predicate IsChain(inits: seq<Initiative>, chain: seq<nat>) {
    && |chain| >= 1
    && (forall c :: 0 <= c < |chain| ==> chain[c] < |inits|)
    && (forall c :: 0 <= c < |chain| - 1 ==> ShareArea(inits[chain[c]], inits[chain[c + 1]]))
  }

  /** Initiatives i and j are linked by a chain of shared areas: the connected
      components `find_initiative_groups` promises. */
  ghost predicate Connected(inits: seq<Initiative>, i: nat, j: nat) {
    exists chain :: IsChain(inits, chain) && chain[0] == i && chain[|chain| - 1] == j
  }

  /** Two chains that meet make one. */
  lemma ConnectedTrans(inits: seq<Initiative>, x: nat, y: nat, z: nat)
    requires Connected(inits, x, y) && Connected(inits, y, z)
    ensures Connected(inits, x, z)
  {
    var c1 :| IsChain(inits, c1) && c1[0] == x && c1[|c1| - 1] == y;
    var c2 :| IsChain(inits, c2) && c2[0] == y && c2[|c2| - 1] == z;
    var c := c1 + c2[1..];
    forall k | 0 <= k < |c| - 1
      ensures ShareArea(inits[c[k]], inits[c[k + 1]])
    {
      if k < |c1| - 1 {
        assert c[k] == c1[k] && c[k + 1] == c1[k + 1];
      } else {
        var m := k - (|c1| - 1);
        assert c[k] == c2[m] && c[k + 1] == c2[m + 1];
      }
    }
    assert IsChain(inits, c) && c[0] == x && c[|c| - 1] == z;
  }

  /** Initiatives that share an area are linked. */
  lemma SharedConnected(inits: seq<Initiative>, i: nat, j: nat, area: string)
    requires i < |inits| && j < |inits|
    requires area in AreaSet(inits[i]) && area in AreaSet(inits[j])
    ensures Connected(inits, i, j)
  {
    assert area in AreaSet(inits[i]) * AreaSet(inits[j]);
    assert IsChain(inits, [i, j]);
  }

  /** Every class of reps holds only linked initiatives. */
  ghost predicate ClassesConnected(inits: seq<Initiative>, reps: seq<nat>) {
    |reps| == |inits| &&
    forall x, y :: 0 <= x < |reps| && 0 <= y < |reps| && reps[x] == reps[y] ==> Connected(inits, x, y)
  }

  /** Every remembered area belongs to the initiative it is remembered with. */
  ghost predicate AreasOwned(inits: seq<Initiative>, areaToInit: map<string, nat>) {
    forall a :: a in areaToInit ==> areaToInit[a] < |inits| && a in AreaSet(inits[areaToInit[a]])
  }

  /** Before any union every initiative is its own class. */
  lemma SingletonsConnected(inits: seq<Initiative>, reps: seq<nat>)
    requires |reps| == |inits| && forall i :: 0 <= i < |reps| ==> reps[i] == i
    ensures ClassesConnected(inits, reps)
  {
    forall x, y | 0 <= x < |reps| && 0 <= y < |reps| && reps[x] == reps[y]
      ensures Connected(inits, x, y)
    {
      assert IsChain(inits, [x]);
    }
  }

  /** `union(i, area_to_init[area])` for an area both initiatives carry merges two
      classes of linked initiatives into one class of linked initiatives. */
  lemma MergeKeepsConnected(inits: seq<Initiative>, before: seq<nat>, after: seq<nat>, i: nat, t: nat, area: string)
    requires ClassesConnected(inits, before) && MergedInto(before, after, i, t)
    requires area in AreaSet(inits[i]) && area in AreaSet(inits[t])
    ensures ClassesConnected(inits, after)
  {
    SharedConnected(inits, i, t, area);
    SharedConnected(inits, t, i, area);
    forall x, y | 0 <= x < |after| && 0 <= y < |after| && after[x] == after[y]
      ensures Connected(inits, x, y)
    {
      if before[x] == before[t] && before[y] != before[t] {
        ConnectedTrans(inits, x, t, i);
        ConnectedTrans(inits, x, i, y);
      } else if before[x] != before[t] && before[y] == before[t] {
        ConnectedTrans(inits, x, i, t);
        ConnectedTrans(inits, x, t, y);
      }
    }
  }

  /** What the area loop keeps besides `AreasRemembered`. */
  ghost predicate Sound(inits: seq<Initiative>, areaToInit: map<string, nat>, reps: seq<nat>) {
    AreasOwned(inits, areaToInit) && ClassesConnected(inits, reps)
  }

  lemma UnionSound(inits: seq<Initiative>, i: nat, area: string, areaToInit: map<string, nat>,
                   before: seq<nat>, after: seq<nat>)
    requires i < |inits| && Sound(inits, areaToInit, before) && area in areaToInit && area in AreaSet(inits[i])
    requires MergedInto(before, after, i, areaToInit[area])
    ensures Sound(inits, areaToInit, after)
  {
    MergeKeepsConnected(inits, before, after, i, areaToInit[area], area);
  }

  lemma RememberSound(inits: seq<Initiative>, i: nat, area: string, areaToInit: map<string, nat>, reps: seq<nat>)
    requires i < |inits| && Sound(inits, areaToInit, reps) && area in AreaSet(inits[i])
    ensures Sound(inits, areaToInit[area := i], reps)
  {
  }

  /** A group of the roots assignment holds only linked initiatives when every
      class does. */
  lemma GroupsConnected(inits: seq<Initiative>, roots: seq<nat>)
    requires ClassesConnected(inits, roots)
    ensures MembersConnected(inits, GroupsByRoot(roots))
  {
    GroupsByRootPartition(roots);
  }

  /** A group is closed under sharing an area. */
  ghost predicate SharingClosed(inits: seq<Initiative>, groups: seq<seq<nat>>) {
    forall k, i, j ::
      (0 <= k < |groups| && 0 <= i < |inits| && i in groups[k] && 0 <= j < |inits|
       && ShareArea(inits[i], inits[j])) ==> j in groups[k]
  }

  /** A group holds only initiatives linked by shared areas. */
  ghost predicate MembersConnected(inits: seq<Initiative>, groups: seq<seq<nat>>) {
    forall k, i, j :: 0 <= k < |groups| && i in groups[k] && j in groups[k] ==> Connected(inits, i, j)
  }

  /** The state of the area loop for initiative i once the areas outside `rest`
      are handled. */
  ghost predicate Joining(inits: seq<Initiative>, i: nat, areas: set<string>, rest: set<string>,
                          areaToInit: map<string, nat>, reps: seq<nat>)
    requires i < |inits| == |reps|
  {
    rest <= areas && AreasRemembered(inits, i, areaToInit, reps) && DoneJoined(areas - rest, i, areaToInit, reps)
  }

  /** An area already remembered: i is united with its initiative. */
  lemma JoinStepUnion(inits: seq<Initiative>, i: nat, areas: set<string>, rest: set<string>, area: string,
                      areaToInit: map<string, nat>, before: seq<nat>, after: seq<nat>)
    requires i < |inits| == |before| && area in rest && area in areaToInit
    requires Joining(inits, i, areas, rest, areaToInit, before)
    requires MergedInto(before, after, i, areaToInit[area])
    ensures Joining(inits, i, areas, rest - {area}, areaToInit, after)
  {
    UnionKeepsRemembered(inits, i, areas - rest, area, areaToInit, before, after);
    assert areas - (rest - {area}) == (areas - rest) + {area};
  }

  /** A new area: it is remembered with i. */
  lemma JoinStepRemember(inits: seq<Initiative>, i: nat, areas: set<string>, rest: set<string>, area: string,
                         areaToInit: map<string, nat>, reps: seq<nat>)
    requires i < |inits| == |reps| && area in rest && area !in areaToInit
    requires Joining(inits, i, areas, rest, areaToInit, reps)
    ensures Joining(inits, i, areas, rest - {area}, areaToInit[area := i], reps)
  {
    RememberKeeps(inits, i, areas - rest, area, areaToInit, reps);
    assert areas - (rest - {area}) == (areas - rest) + {area};
  }

  /** All of initiative i's areas handled: the first i + 1 are remembered. */
  lemma JoinDone(inits: seq<Initiative>, i: nat, rest: set<string>, areaToInit: map<string, nat>, reps: seq<nat>)
    requires i < |inits| == |reps| && rest == {}
    requires Joining(inits, i, AreaSet(inits[i]), rest, areaToInit, reps)
    ensures AreasRemembered(inits, i + 1, areaToInit, reps)
  {
    assert AreaSet(inits[i]) - rest == AreaSet(inits[i]);
    RememberedStep(inits, i, areaToInit, reps);
  }

  /** The body of the first loop of `find_initiative_groups` for initiative i:
      each of its areas is remembered with i if new, and otherwise i is united
      with the initiative that first used it. */
  method JoinAreas(inits: seq<Initiative>, i: nat, uf: UnionFind, areaToInit: map<string, nat>)
    returns (areaToInit': map<string, nat>)
    requires i < |inits| && uf.Valid() && |uf.parent| == |inits|
    requires forall a :: a in areaToInit ==> areaToInit[a] < i
    requires AreasRemembered(inits, i, areaToInit, uf.Reps())
    requires Sound(inits, areaToInit, uf.Reps())
    modifies uf
    ensures uf.Valid() && |uf.parent| == |inits|
    ensures forall a :: a in areaToInit' ==> areaToInit'[a] < i + 1
    ensures AreasRemembered(inits, i + 1, areaToInit', uf.Reps())
    ensures Sound(inits, areaToInit', uf.Reps())
  {
    areaToInit' := areaToInit;
    ghost var reps := uf.Reps();
    var areas := GetInitiativeAreas(inits[i]);
    var rest := areas;
    while rest != {}
      invariant uf.Valid() && |uf.parent| == |inits| && reps == uf.Reps()
      invariant forall a :: a in areaToInit' ==> areaToInit'[a] <= i
      invariant Joining(inits, i, areas, rest, areaToInit', reps)
      invariant Sound(inits, areaToInit', reps)
      decreases rest
    {
      var area :| area in rest;
      if area in areaToInit' {
        uf.Union(i, areaToInit'[area]);
        JoinStepUnion(inits, i, areas, rest, area, areaToInit', reps, uf.Reps());
        UnionSound(inits, i, area, areaToInit', reps, uf.Reps());
        reps := uf.Reps();
      } else {
        JoinStepRemember(inits, i, areas, rest, area, areaToInit', reps);
        RememberSound(inits, i, area, areaToInit', reps);
        areaToInit' := areaToInit'[area := i];
      }
      rest := rest - {area};
    }
    JoinDone(inits, i, rest, areaToInit', reps);
  }

  /** The first loop of `find_initiative_groups`: every area is remembered with the
      first initiative that used it, and each later user is united with it. */
  method UnionSharedAreas(inits: seq<Initiative>, uf: UnionFind)
    requires uf.Valid() && |uf.parent| == |inits|
    requires ClassesConnected(inits, uf.Reps())
    modifies uf
    ensures uf.Valid() && |uf.parent| == |inits|
    ensures SharingMerged(inits, uf.Reps())
    ensures ClassesConnected(inits, uf.Reps())
  {
    var areaToInit: map<string, nat> := map[];
    for i := 0 to |inits|
      invariant uf.Valid() && |uf.parent| == |inits|
      invariant forall a :: a in areaToInit ==> areaToInit[a] < i
      invariant AreasRemembered(inits, i, areaToInit, uf.Reps())
      invariant Sound(inits, areaToInit, uf.Reps())
    {
      areaToInit := JoinAreas(inits, i, uf, areaToInit);
    }
    RememberedGivesSharing(inits, areaToInit, uf.Reps());
  }

  /** The state of the second loop after `i` indices: `order` holds the roots in
      order of first appearance, `byRoot` maps each to its members so far. */
  ghost predicate Collected(roots: seq<nat>, i: nat, order: seq<nat>, byRoot: map<nat, seq<nat>>)
    requires i <= |roots|
  {
    && order == Dedupe(roots[..i])
    && (forall r :: r in byRoot <==> r in order)
    && (forall r :: r in byRoot ==> byRoot[r] == Members(roots[..i], r))
  }

  /** `groups.setdefault(root, []).append(i)` extends the loop state by index i. */
  lemma CollectStep(roots: seq<nat>, i: nat, root: nat, order: seq<nat>, byRoot: map<nat, seq<nat>>,
                    order': seq<nat>, byRoot': map<nat, seq<nat>>)
    requires i < |roots| && root == roots[i] && Collected(roots, i, order, byRoot)
    requires order' == if root in byRoot then order else order + [root]
    requires byRoot' == byRoot[root := (if root in byRoot then byRoot[root] else []) + [i]]
    ensures Collected(roots, i + 1, order', byRoot')
  {
    TakeSnoc(roots, i);
    DedupeSnoc(roots[..i], root);
    if root !in byRoot {
      MembersOfAbsent(roots[..i], root);
    }
    forall r | r in byRoot' ensures byRoot'[r] == Members(roots[..i + 1], r) {
      MembersSnoc(roots[..i], root, r);
    }
  }

  /** Reading the dict's values in key order gives the groups by root. */
  lemma CollectDone(roots: seq<nat>, order: seq<nat>, byRoot: map<nat, seq<nat>>, groups: seq<seq<nat>>)
    requires Collected(roots, |roots|, order, byRoot)
    requires |groups| == |order| && forall k :: 0 <= k < |order| ==> groups[k] == byRoot[order[k]]
    ensures groups == GroupsByRoot(roots)
  {
    assert roots[..|roots|] == roots;
  }

  /** The second loop: a dict from root to members, filled in index order. */
  method CollectGroups(uf: UnionFind) returns (groups: seq<seq<nat>>)
    requires uf.Valid()
    modifies uf
    ensures uf.Valid() && |uf.parent| == |old(uf.parent)|
    ensures uf.Reps() == old(uf.Reps())
    ensures groups == GroupsByRoot(uf.Reps())
  {
    ghost var roots := uf.Reps();
    var order, byRoot := FillByRoot(uf);
    groups := seq(|order|, k requires 0 <= k < |order| => byRoot[order[k]]);
    CollectDone(roots, order, byRoot, groups);
  }

  /** The loop itself: `groups.setdefault(find(i), []).append(i)` for every i,
      with the dict's keys in insertion order. */
  method FillByRoot(uf: UnionFind) returns (order: seq<nat>, byRoot: map<nat, seq<nat>>)
    requires uf.Valid()
    modifies uf
    ensures uf.Valid() && |uf.parent| == |old(uf.parent)|
    ensures uf.Reps() == old(uf.Reps())
    ensures Collected(uf.Reps(), |uf.parent|, order, byRoot)
  {
    var n := |uf.parent|;
    ghost var roots := uf.Reps();
    order, byRoot := [], map[];
    for i := 0 to n
      invariant uf.Valid() && |uf.parent| == n && uf.Reps() == roots
      invariant Collected(roots, i, order, byRoot)
    {
      var root := uf.Find(i);
      ghost var order0, byRoot0 := order, byRoot;
      var members: seq<nat> := if root in byRoot then byRoot[root] else [];
      var index: nat := i;
      if root !in byRoot {
        order := order + [root];
      }
      byRoot := byRoot[root := members + [index]];
      CollectStep(roots, i, root, order0, byRoot0, order, byRoot);
    }
  }

  /** `find_initiative_groups`, returning each group as the ascending list of its
      members' positions in `inits`. */
  method FindInitiativeGroups(inits: seq<Initiative>) returns (groups: seq<seq<nat>>)
    ensures IsPartition(groups, |inits|)
    ensures InOriginalOrder(groups)
    ensures SharingClosed(inits, groups)
    ensures MembersConnected(inits, groups)
  {
    var uf := new UnionFind(|inits|);
    SingletonsConnected(inits, uf.Reps());
    UnionSharedAreas(inits, uf);
    ghost var roots := uf.Reps();
    groups := CollectGroups(uf);
    ComponentsOfRoots(inits, roots);
  }

  /** Classes closed under sharing and made of linked initiatives give groups
      that are the connected components, in original order. */
  lemma ComponentsOfRoots(inits: seq<Initiative>, roots: seq<nat>)
    requires SharingMerged(inits, roots) && ClassesConnected(inits, roots)
    ensures IsPartition(GroupsByRoot(roots), |inits|) && InOriginalOrder(GroupsByRoot(roots))
    ensures SharingClosed(inits, GroupsByRoot(roots)) && MembersConnected(inits, GroupsByRoot(roots))
  {
    GroupsByRootPartition(roots);
    GroupsConnected(inits, roots);
  }

  /** A chain of initiatives, each sharing an area with the next, ends in the group
      where it starts: sections are closed under transitive area sharing. */
  lemma {:induction false} ChainStaysInGroup(inits: seq<Initiative>, groups: seq<seq<nat>>, chain: seq<nat>, k: nat)
    requires k < |groups|
    requires SharingClosed(inits, groups)
    requires |chain| >= 1 && chain[0] in groups[k]
    requires forall c :: 0 <= c < |chain| ==> chain[c] < |inits|
    requires forall c :: 0 <= c < |chain| - 1 ==> ShareArea(inits[chain[c]], inits[chain[c + 1]])
    ensures chain[|chain| - 1] in groups[k]
  {
    if |chain| > 1 {
      assert chain[1] in groups[k];
      ChainStaysInGroup(inits, groups, chain[1..], k);
    }
  }
}
