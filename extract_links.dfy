/** How the extractor relates fetched items to their parents: the list filters it
    applies to each level, the child-id -> parent-id dictionaries it records while
    walking down, and the `setdefault` grouping of a level under its parents. */
module ExtractLinks {
  import opened Common
  import opened ExtractRefs

  const REMOVED := "Removed"
  const FEATURE := "Feature"

  // ---------------------------------------------------------------------------
  // The list comprehensions that filter a level.

  datatype Sieve = Live | FeatureType | OtherType

  predicate Passes(s: Sieve, it: RawItem) {
    match s
    case Live => it.fields.state != REMOVED
    case FeatureType => it.fields.workItemType == FEATURE
    case OtherType => it.fields.workItemType != FEATURE
  }

  /** `[i for i in items if <s holds of i>]`. */
  function Sift(items: seq<RawItem>, s: Sieve): (r: seq<RawItem>)
    ensures |r| <= |items|
  {
    if items == [] then []
    else
      var front := Sift(items[..|items| - 1], s);
      if Passes(s, items[|items| - 1]) then front + [items[|items| - 1]] else front
  }

  /** An item survives exactly when it was there and passes. */
  lemma {:induction false} SiftMembers(items: seq<RawItem>, s: Sieve, x: RawItem)
    ensures x in Sift(items, s) <==> x in items && Passes(s, x)
  {
    if items != [] {
      var front := items[..|items| - 1];
      SiftMembers(front, s, x);
      assert items == front + [items[|items| - 1]];
    }
  }

  /** Filtering keeps order: it distributes over a split of the list. */
  lemma {:induction false} SiftConcat(a: seq<RawItem>, b: seq<RawItem>, s: Sieve)
    ensures Sift(a + b, s) == Sift(a, s) + Sift(b, s)
  {
    if b == [] {
      assert a + b == a;
    } else {
      var b' := b[..|b| - 1];
      assert (a + b)[..|a + b| - 1] == a + b';
      SiftConcat(a, b', s);
    }
  }

  /** Features and orphans split a level: every item lands in exactly one of them. */
  lemma {:induction false} TypePartition(items: seq<RawItem>)
    ensures multiset(Sift(items, FeatureType)) + multiset(Sift(items, OtherType)) == multiset(items)
  {
    if items != [] {
      var front := items[..|items| - 1];
      TypePartition(front);
      assert items == front + [items[|items| - 1]];
    }
  }

  predicate AllLinked(items: seq<RawItem>) {
    forall k :: 0 <= k < |items| ==> WellLinked(items[k])
  }

  // ---------------------------------------------------------------------------
  // `ids.append(cid); parent[cid] = item["id"]` over each item's child links.

  /** The child ids of each item in turn. */
  function AllChildIds(parents: seq<RawItem>): seq<int>
    requires AllLinked(parents)
  {
    if parents == [] then []
    else AllChildIds(parents[..|parents| - 1]) + ChildIds(parents[|parents| - 1])
  }

  /** One parent's writes: each of its children maps to it. */
  function LinkMap(p: RawItem): map<int, int>
    requires WellLinked(p)
  {
    map cid | cid in ChildIds(p) :: p.id
  }

  /** The dictionary after every parent's writes; a later parent overwrites. */
  function ParentLinks(parents: seq<RawItem>): map<int, int>
    requires AllLinked(parents)
  {
    if parents == [] then map[]
    else ParentLinks(parents[..|parents| - 1]) + LinkMap(parents[|parents| - 1])
  }

  /** A child has a recorded parent exactly when some parent lists it. */
  lemma {:induction false} ParentLinksKeys(parents: seq<RawItem>, cid: int)
    requires AllLinked(parents)
    ensures cid in ParentLinks(parents) <==> cid in AllChildIds(parents)
  {
    if parents != [] {
      ParentLinksKeys(parents[..|parents| - 1], cid);
    }
  }

  /** The recorded parent is the last one in fetch order that lists the child. */
  lemma ParentLinksLast(parents: seq<RawItem>, cid: int)
    requires AllLinked(parents)
    requires cid in ParentLinks(parents)
    ensures exists j :: (0 <= j < |parents| && parents[j].id == ParentLinks(parents)[cid]
      && cid in ChildIds(parents[j])
      && forall j' :: j < j' < |parents| ==> cid !in ChildIds(parents[j']))
  {
    var j := LastLister(parents, cid);
  }

  /** The position of the last parent that lists cid; it is the recorded one. */
  lemma {:induction false} LastLister(parents: seq<RawItem>, cid: int) returns (j: nat)
    requires AllLinked(parents)
    requires cid in ParentLinks(parents)
    ensures j < |parents| && parents[j].id == ParentLinks(parents)[cid] && cid in ChildIds(parents[j])
    ensures forall j' :: j < j' < |parents| ==> cid !in ChildIds(parents[j'])
  {
    var n := |parents| - 1;
    var front := parents[..n];
    if cid in ChildIds(parents[n]) {
      j := n;
    } else {
      assert forall i :: 0 <= i < n ==> front[i] == parents[i];
      assert cid !in LinkMap(parents[n]);
      assert ParentLinks(parents)[cid] == ParentLinks(front)[cid];
      j := LastLister(front, cid);
    }
  }

  /** The writes of the first n child ids, each mapped to `id`. */
  function PrefixLinks(cids: seq<int>, n: nat, id: int): map<int, int>
    requires n <= |cids|
  {
    map cid | cid in cids[..n] :: id
  }

  /** One more child recorded: `parent[cid] = id` for the next child id. */
  lemma LinkStep(parent: map<int, int>, cids: seq<int>, j: nat, id: int)
    requires j < |cids|
    ensures (parent + PrefixLinks(cids, j, id))[cids[j] := id] == parent + PrefixLinks(cids, j + 1, id)
  {
    assert cids[..j + 1] == cids[..j] + [cids[j]];
  }

  /** The inner loop: one parent's children appended and recorded. */
  method LinkOne(ids: seq<int>, parent: map<int, int>, p: RawItem) returns (ids': seq<int>, parent': map<int, int>)
    requires WellLinked(p)
    ensures ids' == ids + ChildIds(p)
    ensures parent' == parent + LinkMap(p)
  {
    var cids := ChildIds(p);
    ids', parent' := ids, parent;
    var j := 0;
    while j < |cids|
      invariant 0 <= j <= |cids|
      invariant ids' == ids + cids[..j]
      invariant parent' == parent + PrefixLinks(cids, j, p.id)
    {
      TakeSnoc(cids, j);
      LinkStep(parent, cids, j, p.id);
      ids' := ids' + [cids[j]];
      parent' := parent'[cids[j] := p.id];
      j := j + 1;
    }
    assert cids[..|cids|] == cids;
    assert PrefixLinks(cids, |cids|, p.id) == LinkMap(p);
  }

  /** The outer loop of `level2_ids` / `level2_parent` (and of level 3). */
  method LinkChildren(parents: seq<RawItem>) returns (ids: seq<int>, parent: map<int, int>)
    requires AllLinked(parents)
    ensures ids == AllChildIds(parents)
    ensures parent == ParentLinks(parents)
  {
    ids, parent := [], map[];
    var i := 0;
    while i < |parents|
      invariant 0 <= i <= |parents|
      invariant ids == AllChildIds(parents[..i])
      invariant parent == ParentLinks(parents[..i])
    {
      TakeSnoc(parents, i);
      assert parents[..i + 1][..i] == parents[..i];
      ids, parent := LinkOne(ids, parent, parents[i]);
      i := i + 1;
    }
    assert parents[..|parents|] == parents;
  }

  // ---------------------------------------------------------------------------
  // `groups.setdefault(parent.get(item["id"]), []).append(item)`.

  /** Whether the item has a recorded parent, and it is `pid`. */
  predicate ChildOf(it: RawItem, parent: map<int, int>, pid: int) {
    it.id in parent && parent[it.id] == pid
  }

  /** The items of one parent's group, in list order. */
  function ChildrenOf(items: seq<RawItem>, parent: map<int, int>, pid: int): (r: seq<RawItem>)
    ensures |r| <= |items|
  {
    if items == [] then []
    else
      var front := ChildrenOf(items[..|items| - 1], parent, pid);
      if ChildOf(items[|items| - 1], parent, pid) then front + [items[|items| - 1]] else front
  }

  lemma {:induction false} ChildrenOfMembers(items: seq<RawItem>, parent: map<int, int>, pid: int, x: RawItem)
    ensures x in ChildrenOf(items, parent, pid) <==> x in items && ChildOf(x, parent, pid)
  {
    if items != [] {
      var front := items[..|items| - 1];
      ChildrenOfMembers(front, parent, pid, x);
      assert items == front + [items[|items| - 1]];
    }
  }

  /** An item is grouped under one parent at most. */
  lemma ChildrenDisjoint(items: seq<RawItem>, parent: map<int, int>, pid: int, pid': int, x: RawItem)
    requires pid != pid'
    requires x in ChildrenOf(items, parent, pid)
    ensures x !in ChildrenOf(items, parent, pid')
  {
    ChildrenOfMembers(items, parent, pid, x);
    ChildrenOfMembers(items, parent, pid', x);
  }

  /** No group exists for an id that is nobody's recorded parent. */
  lemma {:induction false} ChildrenOfStranger(items: seq<RawItem>, parent: map<int, int>, pid: int)
    requires pid !in parent.Values
    ensures ChildrenOf(items, parent, pid) == []
  {
    if items != [] {
      ChildrenOfStranger(items[..|items| - 1], parent, pid);
      var it := items[|items| - 1];
      if it.id in parent {
        assert parent[it.id] in parent.Values;
      }
    }
  }

  /** The dictionary the grouping loop builds: a key per parent with children. */
  function Groups(items: seq<RawItem>, parent: map<int, int>): map<int, seq<RawItem>> {
    map pid | pid in parent.Values && ChildrenOf(items, parent, pid) != [] :: ChildrenOf(items, parent, pid)
  }

  /** `groups.get(pid, [])`. */
  function GroupOf(groups: map<int, seq<RawItem>>, pid: int): seq<RawItem> {
    if pid in groups then groups[pid] else []
  }

  /** Looking a parent up in the grouping gives exactly that parent's children. */
  lemma GroupsLookup(items: seq<RawItem>, parent: map<int, int>, pid: int)
    ensures GroupOf(Groups(items, parent), pid) == ChildrenOf(items, parent, pid)
  {
    if pid !in parent.Values {
      ChildrenOfStranger(items, parent, pid);
    }
  }

  ghost predicate GroupedSoFar(items: seq<RawItem>, parent: map<int, int>, groups: map<int, seq<RawItem>>) {
    && (forall pid :: GroupOf(groups, pid) == ChildrenOf(items, parent, pid))
    && (forall pid :: pid in groups ==> pid in parent.Values && groups[pid] != [])
  }

  lemma GroupStep(items: seq<RawItem>, parent: map<int, int>, groups: map<int, seq<RawItem>>, it: RawItem)
    requires GroupedSoFar(items, parent, groups)
    ensures it.id in parent ==>
      GroupedSoFar(items + [it], parent, groups[parent[it.id] := GroupOf(groups, parent[it.id]) + [it]])
    ensures it.id !in parent ==> GroupedSoFar(items + [it], parent, groups)
  {
    assert (items + [it])[..|items|] == items;
    if it.id in parent {
      var q := parent[it.id];
      assert q in parent.Values;
      var g := groups[q := GroupOf(groups, q) + [it]];
      forall pid ensures GroupOf(g, pid) == ChildrenOf(items + [it], parent, pid) {
        assert ChildrenOf(items + [it], parent, pid)
          == ChildrenOf(items, parent, pid) + if ChildOf(it, parent, pid) then [it] else [];
      }
    }
  }

  /** The grouping loop, one `setdefault(...).append(...)` per item with a parent. */
  method GroupByParent(items: seq<RawItem>, parent: map<int, int>) returns (groups: map<int, seq<RawItem>>)
    ensures groups == Groups(items, parent)
  {
    groups := map[];
    var i := 0;
    while i < |items|
      invariant 0 <= i <= |items|
      invariant GroupedSoFar(items[..i], parent, groups)
    {
      TakeSnoc(items, i);
      GroupStep(items[..i], parent, groups, items[i]);
      var pid := items[i].id;
      if pid in parent {
        groups := groups[parent[pid] := GroupOf(groups, parent[pid]) + [items[i]]];
      }
      i := i + 1;
    }
    assert items[..|items|] == items;
    forall pid ensures pid in groups <==> pid in Groups(items, parent) {
      GroupsLookup(items, parent, pid);
    }
    forall pid | pid in groups ensures groups[pid] == Groups(items, parent)[pid] {
      GroupsLookup(items, parent, pid);
    }
  }
}
