/** The iteration side of the extractor: which iteration paths the hierarchy uses
    (`collect_iterations`), the flattening of the project's iteration tree into a
    path -> dates dictionary (`walk`), and the dates reported for each path used. */
module ExtractIterations {
  import opened Common
  import opened Text
  import opened Collections
  import opened WorkItems

  // ---------------------------------------------------------------------------
  // `collect_iterations`.

  /** `pbi.get("iteration", "")`. */
  function IterationOf(p: Pbi): string {
    p.iteration.GetOr("")
  }

  /** The set the script fills, one `add` per PBI. */
  function IterationsOf(ps: seq<Pbi>): set<string> {
    if ps == [] then {} else IterationsOf(ps[..|ps| - 1]) + {IterationOf(ps[|ps| - 1])}
  }

  lemma {:induction false} IterationsOfConcat(a: seq<Pbi>, b: seq<Pbi>)
    ensures IterationsOf(a + b) == IterationsOf(a) + IterationsOf(b)
  {
    if b == [] {
      assert a + b == a;
    } else {
      assert (a + b)[..|a + b| - 1] == a + b[..|b| - 1];
      IterationsOfConcat(a, b[..|b| - 1]);
    }
  }

  /** A path is collected exactly when some PBI's iteration is that path. */
  lemma {:induction false} IterationsOfMembers(ps: seq<Pbi>, x: string)
    ensures x in IterationsOf(ps) <==> exists p :: p in ps && IterationOf(p) == x
  {
    if ps != [] {
      var front := ps[..|ps| - 1];
      IterationsOfMembers(front, x);
      assert ps == front + [ps[|ps| - 1]];
      if exists p :: p in ps && IterationOf(p) == x {
        var p :| p in ps && IterationOf(p) == x;
        assert p in front || p == ps[|ps| - 1];
      }
    }
  }

  method AddIterations(acc: set<string>, ps: seq<Pbi>) returns (r: set<string>)
    ensures r == acc + IterationsOf(ps)
  {
    r := acc;
    var i := 0;
    while i < |ps|
      invariant 0 <= i <= |ps|
      invariant r == acc + IterationsOf(ps[..i])
    {
      assert ps[..i + 1][..i] == ps[..i];
      r := r + {IterationOf(ps[i])};
      i := i + 1;
    }
    assert ps[..|ps|] == ps;
  }

  method AddFeatureIterations(acc: set<string>, fs: seq<Feature>) returns (r: set<string>)
    ensures r == acc + IterationsOf(FeaturesPbis(fs))
  {
    r := acc;
    var i := 0;
    while i < |fs|
      invariant 0 <= i <= |fs|
      invariant r == acc + IterationsOf(FeaturesPbis(fs[..i]))
    {
      FeaturesPbisSnoc(fs, i);
      IterationsOfConcat(FeaturesPbis(fs[..i]), fs[i].pbis);
      r := AddIterations(r, fs[i].pbis);
      i := i + 1;
    }
    assert fs[..|fs|] == fs;
  }

  method AddEpicIterations(acc: set<string>, es: seq<Epic>) returns (r: set<string>)
    ensures r == acc + IterationsOf(EpicsPbis(es))
  {
    r := acc;
    var i := 0;
    while i < |es|
      invariant 0 <= i <= |es|
      invariant r == acc + IterationsOf(EpicsPbis(es[..i]))
    {
      EpicsPbisSnoc(es, i);
      IterationsOfConcat(EpicsPbis(es[..i]), EpicPbis(es[i]));
      IterationsOfConcat(FeaturesPbis(es[i].features), es[i].orphans);
      r := AddFeatureIterations(r, es[i].features);
      r := AddIterations(r, es[i].orphans);
      i := i + 1;
    }
    assert es[..|es|] == es;
  }

  /** `collect_iterations`: the distinct non-empty iteration paths, sorted. */
  method CollectIterations(inits: seq<Initiative>) returns (paths: seq<string>)
    ensures StrictlySorted(paths)
    ensures Elements(paths) == IterationsOf(InitiativesPbis(inits)) - {""}
  {
    var seen: set<string> := {};
    var i := 0;
    while i < |inits|
      invariant 0 <= i <= |inits|
      invariant seen == IterationsOf(InitiativesPbis(inits[..i]))
    {
      InitiativesPbisSnoc(inits, i);
      IterationsOfConcat(InitiativesPbis(inits[..i]), EpicsPbis(inits[i].epics));
      seen := AddEpicIterations(seen, inits[i].epics);
      i := i + 1;
    }
    assert inits[..|inits|] == inits;
    seen := seen - {""};
    paths := SortSet(seen);
  }

  /** What the collected paths are: exactly the iterations some PBI names. */
  lemma CollectedPaths(inits: seq<Initiative>, x: string)
    ensures x in IterationsOf(InitiativesPbis(inits)) - {""} <==>
      x != "" && exists p :: p in InitiativesPbis(inits) && p.iteration == Some(x)
  {
    IterationsOfMembers(InitiativesPbis(inits), x);
  }

  // ---------------------------------------------------------------------------
  // `walk`: the iteration tree as a path -> dates dictionary.

  /** A classification node: "name", "attributes.startDate/finishDate", "children". */
  datatype IterNode = IterNode(name: string, startDate: Option<string>, finishDate: Option<string>, children: seq<IterNode>)

  function DatesOf(n: IterNode): IterDates {
    IterDates(n.startDate, n.finishDate)
  }

  /** A node's path: its name under the parent's path, or the bare name at the top. */
  function JoinPath(prefix: string, name: string): (path: string)
    ensures prefix != "" ==> path == prefix + "\\" + name
    ensures prefix == "" ==> path == name
  {
    if prefix != "" then prefix + "\\" + name else name
  }

  /** The dictionary writes `walk(node, prefix)` makes, in order: the node, then each
      child's subtree. */
  function Flatten(node: IterNode, prefix: string): seq<(string, IterDates)>
    decreases node
  {
    var path := JoinPath(prefix, node.name);
    [(path, DatesOf(node))] + FlattenAll(node.children, path)
  }

  /** The writes of `walk(child, prefix)` for each node in turn. */
  function FlattenAll(ns: seq<IterNode>, prefix: string): seq<(string, IterDates)>
    decreases ns
  {
    if ns == [] then [] else FlattenAll(ns[..|ns| - 1], prefix) + Flatten(ns[|ns| - 1], prefix)
  }

  /** `d[k] = v` for each write in turn. */
  function Apply(d: map<string, IterDates>, ws: seq<(string, IterDates)>): map<string, IterDates> {
    if ws == [] then d else Apply(d, ws[..|ws| - 1])[ws[|ws| - 1].0 := ws[|ws| - 1].1]
  }

  lemma {:induction false} ApplyConcat(d: map<string, IterDates>, a: seq<(string, IterDates)>, b: seq<(string, IterDates)>)
    ensures Apply(d, a + b) == Apply(Apply(d, a), b)
  {
    if b == [] {
      assert a + b == a;
    } else {
      assert (a + b)[..|a + b| - 1] == a + b[..|b| - 1];
      ApplyConcat(d, a, b[..|b| - 1]);
    }
  }

  lemma FlattenAllSnoc(ns: seq<IterNode>, i: nat, prefix: string)
    requires i < |ns|
    ensures FlattenAll(ns[..i + 1], prefix) == FlattenAll(ns[..i], prefix) + Flatten(ns[i], prefix)
  {
    assert ns[..i + 1][..i] == ns[..i];
  }

  lemma WalkStart(nodes: map<string, IterDates>, path: string, dates: IterDates, children: seq<IterNode>)
    ensures nodes[path := dates] == Apply(nodes, [(path, dates)] + FlattenAll(children[..0], path))
  {
    assert [(path, dates)] + FlattenAll(children[..0], path) == [(path, dates)];
    assert [(path, dates)][..0] == [];
  }

  lemma WalkStep(nodes: map<string, IterDates>, head: seq<(string, IterDates)>, children: seq<IterNode>, i: nat,
                 path: string, out: map<string, IterDates>, sub: map<string, IterDates>)
    requires i < |children|
    requires out == Apply(nodes, head + FlattenAll(children[..i], path))
    requires sub == Apply(out, Flatten(children[i], path))
    ensures sub == Apply(nodes, head + FlattenAll(children[..i + 1], path))
  {
    var done := head + FlattenAll(children[..i], path);
    FlattenAllSnoc(children, i, path);
    ConcatAssoc(head, FlattenAll(children[..i], path), Flatten(children[i], path));
    ApplyConcat(nodes, done, Flatten(children[i], path));
  }

  /** `walk(node, prefix)` writing into `nodes`. */
  method Walk(node: IterNode, prefix: string, nodes: map<string, IterDates>) returns (out: map<string, IterDates>)
    ensures out == Apply(nodes, Flatten(node, prefix))
    decreases node
  {
    var path := JoinPath(prefix, node.name);
    var head := [(path, DatesOf(node))];
    out := nodes[path := DatesOf(node)];
    WalkStart(nodes, path, DatesOf(node), node.children);
    var i := 0;
    while i < |node.children|
      invariant 0 <= i <= |node.children|
      invariant out == Apply(nodes, head + FlattenAll(node.children[..i], path))
    {
      var sub := Walk(node.children[i], path, out);
      WalkStep(nodes, head, node.children, i, path, out, sub);
      out := sub;
      i := i + 1;
    }
    assert node.children[..|node.children|] == node.children;
  }

  /** `for child in data.get("children", []): walk(child)`. */
  method FlattenTree(roots: seq<IterNode>) returns (nodes: map<string, IterDates>)
    ensures nodes == Apply(map[], FlattenAll(roots, ""))
  {
    nodes := map[];
    var i := 0;
    while i < |roots|
      invariant 0 <= i <= |roots|
      invariant nodes == Apply(map[], FlattenAll(roots[..i], ""))
    {
      FlattenAllSnoc(roots, i, "");
      ApplyConcat(map[], FlattenAll(roots[..i], ""), Flatten(roots[i], ""));
      nodes := Walk(roots[i], "", nodes);
      i := i + 1;
    }
    assert roots[..|roots|] == roots;
  }

  // ---------------------------------------------------------------------------
  // What the walk records.

  /** `idxs` picks a child at each level, starting from `node`. */
  predicate ValidAt(node: IterNode, idxs: seq<nat>)
    decreases idxs
  {
    idxs == [] || (idxs[0] < |node.children| && ValidAt(node.children[idxs[0]], idxs[1..]))
  }

  function NodeAt(node: IterNode, idxs: seq<nat>): IterNode
    requires ValidAt(node, idxs)
    decreases idxs
  {
    if idxs == [] then node else NodeAt(node.children[idxs[0]], idxs[1..])
  }

  /** The names from `node` down to the chosen descendant, joined by backslashes
      under `prefix`. */
  function PathAt(node: IterNode, prefix: string, idxs: seq<nat>): string
    requires ValidAt(node, idxs)
    decreases idxs
  {
    var path := JoinPath(prefix, node.name);
    if idxs == [] then path else PathAt(node.children[idxs[0]], path, idxs[1..])
  }

  lemma {:induction false} FlattenAllMembers(ns: seq<IterNode>, prefix: string, e: (string, IterDates))
    ensures e in FlattenAll(ns, prefix) <==> exists i :: 0 <= i < |ns| && e in Flatten(ns[i], prefix)
  {
    if ns != [] {
      var front := ns[..|ns| - 1];
      FlattenAllMembers(front, prefix, e);
      assert forall i :: 0 <= i < |front| ==> front[i] == ns[i];
    }
  }

  /** Every node of the tree is written under its path, with its own dates. */
  lemma {:induction false} WalkRecordsNode(node: IterNode, prefix: string, idxs: seq<nat>)
    requires ValidAt(node, idxs)
    ensures (PathAt(node, prefix, idxs), DatesOf(NodeAt(node, idxs))) in Flatten(node, prefix)
    decreases idxs
  {
    if idxs != [] {
      var path := JoinPath(prefix, node.name);
      var e := (PathAt(node, prefix, idxs), DatesOf(NodeAt(node, idxs)));
      WalkRecordsNode(node.children[idxs[0]], path, idxs[1..]);
      FlattenAllMembers(node.children, path, e);
    }
  }

  /** And nothing else is written: each write is some node under its path. */
  lemma {:induction false} WalkRecordsOnlyNodes(node: IterNode, prefix: string, e: (string, IterDates))
    requires e in Flatten(node, prefix)
    ensures exists idxs :: ValidAt(node, idxs) && e == (PathAt(node, prefix, idxs), DatesOf(NodeAt(node, idxs)))
    decreases node
  {
    var path := JoinPath(prefix, node.name);
    if e == (path, DatesOf(node)) {
      assert ValidAt(node, []) && e == (PathAt(node, prefix, []), DatesOf(NodeAt(node, [])));
    } else {
      assert e in FlattenAll(node.children, path);
      FlattenAllMembers(node.children, path, e);
      var i :| 0 <= i < |node.children| && e in Flatten(node.children[i], path);
      WalkRecordsOnlyNodes(node.children[i], path, e);
      var sub :| ValidAt(node.children[i], sub)
        && e == (PathAt(node.children[i], path, sub), DatesOf(NodeAt(node.children[i], sub)));
      var idxs: seq<nat> := [i] + sub;
      assert idxs[1..] == sub;
      assert ValidAt(node, idxs) && e == (PathAt(node, prefix, idxs), DatesOf(NodeAt(node, idxs)));
    }
  }

  /** After a run of writes a key is present when it was before or was written. */
  lemma {:induction false} ApplyKeys(d: map<string, IterDates>, ws: seq<(string, IterDates)>, k: string)
    ensures k in Apply(d, ws) <==> k in d || exists j :: 0 <= j < |ws| && ws[j].0 == k
    ensures (forall j :: 0 <= j < |ws| ==> ws[j].0 != k) && k in d ==> Apply(d, ws)[k] == d[k]
  {
    if ws != [] {
      var front := ws[..|ws| - 1];
      ApplyKeys(d, front, k);
      assert forall j :: 0 <= j < |front| ==> front[j] == ws[j];
    }
  }

  /** The last write to a key decides its value. */
  lemma {:induction false} ApplyLast(d: map<string, IterDates>, ws: seq<(string, IterDates)>, j: nat)
    requires j < |ws|
    requires forall j' :: j < j' < |ws| ==> ws[j'].0 != ws[j].0
    ensures ws[j].0 in Apply(d, ws) && Apply(d, ws)[ws[j].0] == ws[j].1
  {
    var front := ws[..|ws| - 1];
    if j < |front| {
      assert forall j' :: j < j' < |front| ==> front[j'] == ws[j'];
      ApplyLast(d, front, j);
      assert front[j] == ws[j];
    }
  }

  // ---------------------------------------------------------------------------
  // Matching the requested paths.

  /** `if node.get("start"): entry["start"] = node["start"][:10]`: a present,
      non-empty timestamp is cut to its date part. */
  function DatePart(d: Option<string>): (r: Option<string>)
    ensures r.Some? <==> d.Some? && d.value != ""
    ensures r.Some? ==> StartsWith(d.value, r.value)
    ensures r.Some? ==> |r.value| == if |d.value| < 10 then |d.value| else 10
  {
    if d.Some? && d.value != "" then Some(Take(d.value, 10)) else None
  }

  /** The entry for one requested path; an unknown path gets no dates. */
  function EntryFor(nodes: map<string, IterDates>, ip: string): IterDates {
    if ip in nodes then IterDates(DatePart(nodes[ip].start), DatePart(nodes[ip].finish))
    else IterDates(None, None)
  }

  /** `result` holds one entry per path in `done`, in first-request order. */
  ghost predicate MatchedAll(nodes: map<string, IterDates>, done: seq<string>, result: seq<(string, IterDates)>) {
    && Keys(result) == Dedupe(done)
    && forall ip :: Lookup(result, ip) == if ip in done then Some(EntryFor(nodes, ip)) else None
  }

  lemma MatchStep(nodes: map<string, IterDates>, done: seq<string>, ip: string, result: seq<(string, IterDates)>)
    requires MatchedAll(nodes, done, result)
    ensures MatchedAll(nodes, done + [ip], Put(result, ip, EntryFor(nodes, ip)))
  {
    var e := EntryFor(nodes, ip);
    DedupeSnoc(done, ip);
    PutKeys(result, ip, e);
    forall ip' ensures Lookup(Put(result, ip, e), ip') == if ip' in done + [ip] then Some(EntryFor(nodes, ip')) else None {
      PutLookup(result, ip, e, ip');
    }
  }

  /** The result dictionary: one entry per requested path, in request order. */
  method MatchDates(nodes: map<string, IterDates>, paths: seq<string>) returns (result: seq<(string, IterDates)>)
    ensures Keys(result) == Dedupe(paths)
    ensures forall ip :: Lookup(result, ip) == if ip in paths then Some(EntryFor(nodes, ip)) else None
  {
    result := [];
    var i := 0;
    while i < |paths|
      invariant 0 <= i <= |paths|
      invariant MatchedAll(nodes, paths[..i], result)
    {
      TakeSnoc(paths, i);
      MatchStep(nodes, paths[..i], paths[i], result);
      result := Put(result, paths[i], EntryFor(nodes, paths[i]));
      i := i + 1;
    }
    assert paths[..|paths|] == paths;
  }

  /** `fetch_iteration_dates` once the tree has been fetched. */
  method FetchIterationDates(roots: seq<IterNode>, paths: seq<string>) returns (result: seq<(string, IterDates)>)
    ensures Keys(result) == Dedupe(paths)
    ensures forall ip :: (Lookup(result, ip) ==
      if ip in paths then Some(EntryFor(Apply(map[], FlattenAll(roots, "")), ip)) else None)
  {
    var nodes := FlattenTree(roots);
    result := MatchDates(nodes, paths);
  }

  /** When no two nodes share a path, a requested path that names a node reports
      that node's dates, cut to their date part. */
  lemma NodeDatesReported(roots: seq<IterNode>, top: nat, idxs: seq<nat>)
    requires top < |roots| && ValidAt(roots[top], idxs)
    requires NoDuplicates(Keys(FlattenAll(roots, "")))
    ensures var n := NodeAt(roots[top], idxs);
      EntryFor(Apply(map[], FlattenAll(roots, "")), PathAt(roots[top], "", idxs))
        == IterDates(DatePart(n.startDate), DatePart(n.finishDate))
  {
    var ws := FlattenAll(roots, "");
    var e := (PathAt(roots[top], "", idxs), DatesOf(NodeAt(roots[top], idxs)));
    WalkRecordsNode(roots[top], "", idxs);
    FlattenAllMembers(roots, "", e);
    var j :| 0 <= j < |ws| && ws[j] == e;
    forall j' | j < j' < |ws| ensures ws[j'].0 != ws[j].0 {
      assert Keys(ws)[j'] != Keys(ws)[j];
    }
    ApplyLast(map[], ws, j);
  }
}
