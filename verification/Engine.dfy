/** Merging three trees, and what a merge gives when a side did not change. */
module Engine {
  import opened Wrappers
  import opened Sorting
  import opened Leaves
  import opened Renames
  import opened Align
  import opened Trees
  import opened Decide

  datatype TreeMerge = TreeMerge(clean: bool, paths: seq<OutPath>, tree: Hash, markerTree: Option<Hash>)

  // ---- The tree of a list of output paths ------------------------------------------------------

  /** What an output path puts into the tree: marker text, the resolved leaf, or what the
      worktree shows of a conflict. */
  function ItemLeaf(p: OutPath): Option<Leaf> {
    if p.marker.Some? then Some(Leaf(REGULAR, Blob(p.marker.value)))
    else if p.resolved.Some? then p.resolved
    else if p.work.Some? then Some(Leaf(p.workMode, p.work.value.hash))
    else if p.ours.Some? then p.ours
    else p.theirs
  }

  ghost predicate DistinctOuts(paths: seq<OutPath>) {
    forall i, j :: 0 <= i < j < |paths| ==> paths[i].path != paths[j].path
  }

  /** The path map that the output paths describe. */
  ghost predicate Describes(paths: seq<OutPath>, m: LeafMap) {
    && (forall i :: 0 <= i < |paths| && ItemLeaf(paths[i]).Some? ==> paths[i].path in m && ItemLeaf(paths[i]) == Some(m[paths[i].path]))
    && (forall k :: k in m ==> exists i :: 0 <= i < |paths| && paths[i].path == k && ItemLeaf(paths[i]).Some?)
  }

  ghost predicate LeafyMap(m: LeafMap) { forall k :: k in m ==> m[k].mode != DIR }

  predicate ItemLe(a: TreeItem, b: TreeItem) { StringLe(a.path, b.path) }

  ghost predicate DistinctItems(items: seq<TreeItem>) {
    forall i, j :: 0 <= i < j < |items| ==> items[i].path != items[j].path
  }

  function ItemsOf(paths: seq<OutPath>): seq<TreeItem> {
    if paths == [] then []
    else
      var p := paths[|paths| - 1];
      ItemsOf(paths[..|paths| - 1]) + if ItemLeaf(p).Some? then [TreeItem(p.path, ItemLeaf(p).value)] else []
  }

  ghost function TreeOf(paths: seq<OutPath>): Hash { TreeFor(Sort(ItemLe, ItemsOf(paths)), "") }

  function MarkerBlobs(paths: seq<OutPath>): set<Hash> {
    set i | 0 <= i < |paths| && paths[i].marker.Some? :: Blob(paths[i].marker.value)
  }

  /** Everything stored for the tree of some output paths. */
  ghost function MadeFor(paths: seq<OutPath>): set<Hash> {
    MarkerBlobs(paths) + TreesFor(Sort(ItemLe, ItemsOf(paths)), "")
  }

  method TreeFromPaths(repo: Repo, paths: seq<OutPath>) returns (h: Hash, after: Repo)
    ensures h == TreeOf(paths) && after == Stores(repo, MadeFor(paths))
  {
    var items: seq<TreeItem> := [];
    after := repo;
    var i := 0;
    while i < |paths|
      invariant 0 <= i <= |paths| && items == ItemsOf(paths[..i]) && after == Stores(repo, MarkerBlobs(paths[..i]))
    {
      assert paths[..i + 1][..i] == paths[..i];
      MarkersMore(paths, i);
      if paths[i].marker.Some? { after := Stores(after, {Blob(paths[i].marker.value)}); }
      var leaf := ItemLeaf(paths[i]);
      if leaf.Some? { items := items + [TreeItem(paths[i].path, leaf.value)]; }
      i := i + 1;
    }
    assert paths[..i] == paths;
    h, after := StoreTree(after, Sort(ItemLe, items));
  }

  lemma MarkersMore(paths: seq<OutPath>, i: nat)
    requires i < |paths|
    ensures MarkerBlobs(paths[..i + 1]) == MarkerBlobs(paths[..i]) + if paths[i].marker.Some? then {Blob(paths[i].marker.value)} else {}
  {
    var a, b := paths[..i], paths[..i + 1];
    assert b == a + [paths[i]];
    forall h | h in MarkerBlobs(a) ensures h in MarkerBlobs(b) {
      var j :| 0 <= j < |a| && a[j].marker.Some? && h == Blob(a[j].marker.value);
      assert b[j].marker == a[j].marker;
    }
    if paths[i].marker.Some? { assert b[i].marker == paths[i].marker; }
  }

  /** For distinct paths the stored tree is canonical and holds exactly what they describe. */
  lemma TreeOfDescribes(paths: seq<OutPath>, m: LeafMap)
    requires DistinctOuts(paths) && Describes(paths, m) && LeafyMap(m)
    ensures Canonical(TreeOf(paths)) && Files(TreeOf(paths)) == m
  {
    hide SortedItems, Describes, DistinctOuts, DistinctItems, Canonical, Leafy, TreeFor;
    var items := ItemsOf(paths);
    var sorted := Sort(ItemLe, items);
    ItemsDistinct(paths);
    ItemsSorted(items);
    ItemsMap(items, sorted, paths, m);
    StoreThenWalk(sorted);
  }

  /** Once stored it can be walked. */
  lemma TreeOfWhole(repo: Repo, paths: seq<OutPath>)
    requires LeafyOuts(paths) && MadeFor(paths) <= repo.stored
    ensures Whole(repo, TreeOf(paths))
  {
    hide Whole, TreeFor, TreesFor;
    var sorted := Sort(ItemLe, ItemsOf(paths));
    SortKeeps(ItemLe, ItemsOf(paths));
    forall n | 0 <= n < |sorted| ensures sorted[n].leaf.mode != DIR {
      assert sorted[n] in ItemsOf(paths);
      var j := ItemFrom(paths, sorted[n]);
    }
    StoredWhole(repo, sorted);
  }

  ghost predicate LeafyOuts(paths: seq<OutPath>) {
    forall i :: 0 <= i < |paths| ==> match ItemLeaf(paths[i]) case Some(leaf) => leaf.mode != DIR case None => true
  }

  lemma {:induction false} ItemFrom(paths: seq<OutPath>, x: TreeItem) returns (j: nat)
    requires x in ItemsOf(paths)
    ensures j < |paths| && ItemLeaf(paths[j]) == Some(x.leaf) && paths[j].path == x.path
  {
    if x in ItemsOf(paths[..|paths| - 1]) { j := ItemFrom(paths[..|paths| - 1], x); } else { j := |paths| - 1; }
  }

  lemma {:induction false} ItemTo(paths: seq<OutPath>, j: nat)
    requires j < |paths| && ItemLeaf(paths[j]).Some?
    ensures TreeItem(paths[j].path, ItemLeaf(paths[j]).value) in ItemsOf(paths)
  {
    if j < |paths| - 1 { ItemTo(paths[..|paths| - 1], j); }
  }

  lemma {:induction false} ItemsDistinct(paths: seq<OutPath>)
    requires DistinctOuts(paths)
    ensures DistinctItems(ItemsOf(paths))
  {
    if paths != [] {
      var front := paths[..|paths| - 1];
      ItemsDistinct(front);
      forall n | 0 <= n < |ItemsOf(front)| ensures ItemsOf(front)[n].path != paths[|paths| - 1].path {
        var j := ItemFrom(front, ItemsOf(front)[n]);
      }
    }
  }

  lemma ItemOrder()
    ensures TotalPreorder(ItemLe)
  {
    StringOrder();
  }

  lemma ItemsSorted(items: seq<TreeItem>)
    requires DistinctItems(items)
    ensures SortedItems(Sort(ItemLe, items)) && forall x :: x in Sort(ItemLe, items) <==> x in items
  {
    ItemOrder();
    SortIsSorted(ItemLe, items);
    var s := Sort(ItemLe, items);
    forall x ensures x in s <==> x in items {
      assert x in s <==> x in multiset(s);
      assert x in items <==> x in multiset(items);
    }
    forall i, j | 0 <= i < j < |s| ensures Less(s[i].path, s[j].path) {
      if s[i].path == s[j].path { TwiceInSorted(items, s, i, j); }
    }
  }

  lemma TwiceInSorted(items: seq<TreeItem>, s: seq<TreeItem>, i: nat, j: nat)
    requires DistinctItems(items) && multiset(s) == multiset(items) && i < j < |s|
    ensures s[i].path != s[j].path
  {
    assert s[i] in multiset(s) && s[j] in multiset(s);
    if s[i].path == s[j].path {
      assert s[i] in items && s[j] in items;
      assert s[i] == s[j];
      Twice(s, i, j);
      assert Distinct(items);
      DistinctOnce(items, s[i]);
    }
  }

  lemma ItemsMap(items: seq<TreeItem>, sorted: seq<TreeItem>, paths: seq<OutPath>, m: LeafMap)
    requires SortedItems(sorted) && (forall x :: x in sorted <==> x in items) && Describes(paths, m) && LeafyMap(m)
    requires items == ItemsOf(paths)
    ensures ItemMap(sorted) == m && Leafy(sorted)
  {
    hide SortedItems, ItemMap;
    forall n | 0 <= n < |sorted| ensures sorted[n].path in m && m[sorted[n].path] == sorted[n].leaf {
      assert sorted[n] in items;
      var j := ItemFrom(paths, sorted[n]);
    }
    assert sorted[..|sorted|] == sorted;
    forall k ensures k in ItemMap(sorted) <==> k in m
      ensures k in m ==> ItemMap(sorted)[k] == m[k]
    {
      ItemMapAt(sorted, |sorted|, k);
      if k in m {
        var j :| 0 <= j < |paths| && paths[j].path == k && ItemLeaf(paths[j]).Some?;
        ItemTo(paths, j);
        assert TreeItem(k, ItemLeaf(paths[j]).value) in sorted;
      }
    }
  }

  // ---- Merging ----------------------------------------------------------------------------------------

  /** Decisions over the nodes in key order, storing merged blobs on the way; the first error
      ends the merge. */
  function DecideAll(repo: Repo, spec: Spec, keys: seq<Path>, nodes: Nodes): Done<Decision> {
    if keys == [] then Done(Kept([]), repo)
    else
      var before := DecideAll(repo, spec, keys[..|keys| - 1], nodes);
      var k := keys[|keys| - 1];
      if before.r.Err? || k !in nodes then before
      else
        match DecideNode(before.repo, spec, k, nodes[k])
        case Err(e) => Done(Err(e), before.repo)
        case Ok(e) => Done(Ok(Joined(before.r.value, e)), Stores(before.repo, e.made))
  }

  function Joined(d: Decision, e: Decision): Decision { Decision(d.outs + e.outs, d.clean && e.clean, d.made + e.made) }

  method DecideNodes(repo: Repo, spec: Spec, keys: seq<Path>, nodes: Nodes) returns (r: Decided, after: Repo)
    ensures Done(r, after) == DecideAll(repo, spec, keys, nodes)
  {
    hide DecideNode;
    var outs: seq<OutPath>, clean, made: set<Hash> := [], true, {};
    after := repo;
    var i := 0;
    while i < |keys|
      invariant 0 <= i <= |keys| && DecideAll(repo, spec, keys[..i], nodes) == Done(Ok(Decision(outs, clean, made)), after)
    {
      assert keys[..i + 1][..i] == keys[..i];
      if keys[i] in nodes {
        var d := DecideNode(after, spec, keys[i], nodes[keys[i]]);
        if d.Err? {
          ErrStays(repo, spec, keys, nodes, i + 1);
          return d, after;
        }
        outs, clean, made := outs + d.value.outs, clean && d.value.clean, made + d.value.made;
        after := Stores(after, d.value.made);
      }
      i := i + 1;
    }
    assert keys[..i] == keys;
    r := Ok(Decision(outs, clean, made));
  }

  lemma {:induction false} ErrStays(repo: Repo, spec: Spec, keys: seq<Path>, nodes: Nodes, i: nat)
    requires i <= |keys| && DecideAll(repo, spec, keys[..i], nodes).r.Err?
    ensures DecideAll(repo, spec, keys, nodes) == DecideAll(repo, spec, keys[..i], nodes)
  {
    hide DecideNode;
    if i == |keys| {
      assert keys[..i] == keys;
    } else {
      assert keys[..|keys| - 1][..i] == keys[..i];
      ErrStays(repo, spec, keys[..|keys| - 1], nodes, i);
    }
  }

  lemma {:induction false} DecideExtends(repo: Repo, spec: Spec, keys: seq<Path>, nodes: Nodes)
    ensures Extends(repo, DecideAll(repo, spec, keys, nodes).repo)
  {
    hide DecideNode;
    if keys != [] { DecideExtends(repo, spec, keys[..|keys| - 1], nodes); }
  }

  /** The rename maps are what detection found, or empty when it is off. */
  ghost predicate RenamesFound(repo: Repo, spec: Spec, x: Input) {
    if spec.renames then
      && Detected(repo, spec.renameThreshold, Gone(x.base, x.ours), Gone(x.ours, x.base), x.oRen)
      && Detected(repo, spec.renameThreshold, Gone(x.base, x.theirs), Gone(x.theirs, x.base), x.tRen)
    else x.oRen == map[] && x.tRen == map[]
  }

  /** The result for decided nodes. */
  ghost function Concluded(spec: Spec, d: Done<Decision>): Done<TreeMerge> {
    match d.r
    case Err(e) => Done(Err(e), d.repo)
    case Ok(k) =>
      var tree := TreeOf(k.outs);
      Done(Ok(TreeMerge(k.clean, k.outs, tree, if spec.autoMerge && !k.clean then Some(tree) else None)), Stores(d.repo, MadeFor(k.outs)))
  }

  /** The result for aligned nodes. */
  ghost function ResultOf(repo: Repo, spec: Spec, nodes: Nodes): Done<TreeMerge> {
    var settled := Settle(repo.order, nodes, spec.oursLabel, spec.theirsLabel);
    Concluded(spec, DecideAll(repo, spec, KeysOf(repo.order, settled), settled))
  }

  const ATTRIBUTES := ".gitattributes"

  /** The text of our attributes file; a missing blob is an error. */
  function LoadAttrs(repo: Repo, ours: LeafMap): Result<Option<string>, MergeError> {
    if ATTRIBUTES !in ours then Ok(None)
    else match BlobBytes(repo, ours[ATTRIBUTES].hash) case Some(text) => Ok(Some(text)) case None => Err(ObjectNotFound)
  }

  /** What merging can give for these maps and rename maps, in whatever order maps are walked. */
  ghost predicate MergeOf(repo: Repo, spec: Spec, x: Input, done: Done<TreeMerge>) {
    && RenamesFound(repo, spec, x)
    && match LoadAttrs(repo, x.ours)
       case Err(e) => done == Done(Err(e), repo)
       case Ok(attrs) => exists nodes :: Aligned(x, nodes) && done == ResultOf(repo, spec.(attrs := attrs), nodes)
  }

  /** The maps with the renames that detection finds. */
  ghost function InputOf(repo: Repo, spec: Spec, base: LeafMap, ours: LeafMap, theirs: LeafMap): Input {
    if spec.renames then
      Input(base, ours, theirs, RenamesOf(repo, spec.renameThreshold, base, ours), RenamesOf(repo, spec.renameThreshold, base, theirs))
    else Input(base, ours, theirs, map[], map[])
  }

  /** The merge of three path maps. */
  ghost function MergedMaps(repo: Repo, spec: Spec, base: LeafMap, ours: LeafMap, theirs: LeafMap): Done<TreeMerge> {
    match LoadAttrs(repo, ours)
    case Err(e) => Done(Err(e), repo)
    case Ok(attrs) => ResultOf(repo, spec.(attrs := attrs), AlignOf(repo.order, InputOf(repo, spec, base, ours, theirs)))
  }

  /** It is one of the results that merging can give in some order. */
  lemma MergedIsMerge(repo: Repo, spec: Spec, base: LeafMap, ours: LeafMap, theirs: LeafMap)
    ensures MergeOf(repo, spec, InputOf(repo, spec, base, ours, theirs), MergedMaps(repo, spec, base, ours, theirs))
  {
    hide Detected, Aligned, ResultOf;
    RenamesDetected(repo, spec.renameThreshold, base, ours);
    RenamesDetected(repo, spec.renameThreshold, base, theirs);
    AlignOfAligned(repo.order, InputOf(repo, spec, base, ours, theirs));
  }

  method FindRenames(repo: Repo, spec: Spec, base: LeafMap, ours: LeafMap, theirs: LeafMap) returns (x: Input)
    ensures x == InputOf(repo, spec, base, ours, theirs)
  {
    var oRen: RenameMap, tRen: RenameMap := map[], map[];
    if spec.renames {
      oRen := DetectRenames(repo, base, ours, spec.renameThreshold);
      tRen := DetectRenames(repo, base, theirs, spec.renameThreshold);
    }
    x := Input(base, ours, theirs, oRen, tRen);
  }

  /** Merges three path maps. */
  method MergeMaps(repo: Repo, spec: Spec, base: LeafMap, ours: LeafMap, theirs: LeafMap)
    returns (r: Result<TreeMerge, MergeError>, after: Repo)
    ensures Done(r, after) == MergedMaps(repo, spec, base, ours, theirs)
  {
    hide Aligned, DecideAll, Settle, KeysOf, InputOf;
    var x := FindRenames(repo, spec, base, ours, theirs);
    var nodes := AlignTrees(repo.order, x);
    var settled := ApplyDirectoryFile(repo.order, nodes, spec.oursLabel, spec.theirsLabel);
    var attrs := LoadAttrs(repo, ours);
    if attrs.Err? { return Err(attrs.error), repo; }
    var keys := KeysOf(repo.order, settled);
    var d;
    d, after := DecideNodes(repo, spec.(attrs := attrs.value), keys, settled);
    if d.Err? { return Err(d.error), after; }
    var tree;
    tree, after := TreeFromPaths(after, d.value.outs);
    r := Ok(TreeMerge(d.value.clean, d.value.outs, tree, if spec.autoMerge && !d.value.clean then Some(tree) else None));
  }
}
