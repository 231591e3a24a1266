/** Tree objects: walking one into a path map, building one from a sorted list, shifting one. */
module Trees {
  import opened Wrappers
  import opened Sorting
  import opened Strings
  import opened Leaves

  datatype MergeError = ObjectNotFound | OctopusConflict | NoMergeHeads | UnrelatedHistories | VirtualMergeDepth
                      | ShallowHistory | StrategyOptionNotSupported | SubtreeShiftNotFound | UnbornHead | MergeInProgress
                      | MergeNotInProgress | CorruptMergeState | DirtyIndex | DirtyWorktree | NotFastForward
                      | MissingAuthor | UnmergedPaths | IsDir

  /** An outcome, and the repository with what was stored on the way. */
  datatype Done<T> = Done(r: Result<T, MergeError>, repo: Repo)

  datatype TreeItem = TreeItem(path: Path, leaf: Leaf)

  const EmptyTree := Tree([])

  // ---- What a tree contains ----------------------------------------------------------------------

  /** Every tree object below is stored. */
  predicate Whole(repo: Repo, h: Hash)
    decreases h, 0
  {
    h.Tree? && h in repo.stored && WholeUpTo(repo, h, |h.entries|)
  }

  predicate WholeUpTo(repo: Repo, h: Hash, n: nat)
    requires h.Tree? && n <= |h.entries|
    decreases h, 0, n
  {
    n == 0 || (WholeUpTo(repo, h, n - 1) && (h.entries[n - 1].mode == DIR ==> Whole(repo, h.entries[n - 1].hash)))
  }

  lemma {:induction false} PartWhole(repo: Repo, h: Hash, i: nat, n: nat)
    requires h.Tree? && i < n <= |h.entries| && WholeUpTo(repo, h, n)
    ensures WholeUpTo(repo, h, i + 1)
  {
    if i + 1 < n { PartWhole(repo, h, i, n - 1); }
  }

  /** The files of the first `n` entries; a later entry replaces an equal path. */
  function FilesUpTo(h: Hash, n: nat, prefix: string): LeafMap
    requires h.Tree? && n <= |h.entries|
    decreases h, n
  {
    if n == 0 then map[] else FilesUpTo(h, n - 1, prefix) + EntryFiles(h, n - 1, prefix)
  }

  function EntryFiles(h: Hash, i: nat, prefix: string): LeafMap
    requires h.Tree? && i < |h.entries|
    decreases h, i
  {
    var e := h.entries[i];
    if e.mode != DIR then map[prefix + e.name := Leaf(e.mode, e.hash)]
    else if e.hash.Tree? then FilesUpTo(e.hash, |e.hash.entries|, prefix + e.name + "/")
    else map[]
  }

  function Files(h: Hash): LeafMap { if h.Tree? then FilesUpTo(h, |h.entries|, "") else map[] }

  lemma WalkStart(repo: Repo, h: Hash, prefix: string, into: LeafMap)
    requires h.Tree?
    ensures WholeUpTo(repo, h, 0) && into == into + FilesUpTo(h, 0, prefix)
  {
  }

  lemma WalkStep(repo: Repo, h: Hash, i: nat)
    requires h.Tree? && i < |h.entries| && WholeUpTo(repo, h, i)
    ensures WholeUpTo(repo, h, i + 1) <==> h.entries[i].mode == DIR ==> Whole(repo, h.entries[i].hash)
    ensures WholeUpTo(repo, h, |h.entries|) ==> WholeUpTo(repo, h, i + 1)
  {
    if WholeUpTo(repo, h, |h.entries|) { PartWhole(repo, h, i, |h.entries|); }
  }

  lemma WalkFile(h: Hash, i: nat, prefix: string, into: LeafMap)
    requires h.Tree? && i < |h.entries| && h.entries[i].mode != DIR
    ensures into + FilesUpTo(h, i + 1, prefix)
         == (into + FilesUpTo(h, i, prefix))[prefix + h.entries[i].name := Leaf(h.entries[i].mode, h.entries[i].hash)]
  {
  }

  function SubFiles(e: TreeEntry, prefix: string): LeafMap
    requires e.hash.Tree?
  {
    FilesUpTo(e.hash, |e.hash.entries|, prefix + e.name + "/")
  }

  lemma WalkDir(h: Hash, i: nat, prefix: string, into: LeafMap)
    requires h.Tree? && i < |h.entries| && h.entries[i].mode == DIR && h.entries[i].hash.Tree?
    ensures into + FilesUpTo(h, i + 1, prefix) == into + FilesUpTo(h, i, prefix) + SubFiles(h.entries[i], prefix)
  {
  }

  lemma WholeIs(repo: Repo, h: Hash)
    ensures Whole(repo, h) <==> h.Tree? && h in repo.stored && WholeUpTo(repo, h, |h.entries|)
  {
  }

  /** Adds the files below `h` to `into`, or fails on a missing tree object. */
  method WalkPrefix(repo: Repo, h: Hash, prefix: string, into: LeafMap) returns (r: Result<LeafMap, MergeError>)
    ensures r == if Whole(repo, h) then Ok(into + FilesUpTo(h, |h.entries|, prefix)) else Err(ObjectNotFound)
    decreases h
  {
    hide WholeUpTo, FilesUpTo, Whole;
    WholeIs(repo, h);
    if !h.Tree? || h !in repo.stored { return Err(ObjectNotFound); }
    WalkStart(repo, h, prefix, into);
    var out := into;
    var i := 0;
    while i < |h.entries|
      invariant 0 <= i <= |h.entries| && out == into + FilesUpTo(h, i, prefix)
      invariant WholeUpTo(repo, h, i)
    {
      WalkStep(repo, h, i);
      var e := h.entries[i];
      var path := prefix + e.name;
      if e.mode == DIR {
        WholeIs(repo, e.hash);
        var sub := WalkPrefix(repo, e.hash, path + "/", out);
        if sub.Err? { return sub; }
        out := sub.value;
        WalkDir(h, i, prefix, into);
      } else {
        WalkFile(h, i, prefix, into);
        out := out[path := Leaf(e.mode, e.hash)];
      }
      i := i + 1;
    }
    r := Ok(out);
  }

  /** The files of a tree; the zero hash names the empty tree. */
  method WalkTree(repo: Repo, h: Hash) returns (r: Result<LeafMap, MergeError>)
    ensures r == if h.Zero? then Ok(map[]) else if Whole(repo, h) then Ok(Files(h)) else Err(ObjectNotFound)
  {
    if h.Zero? { return Ok(map[]); }
    r := WalkPrefix(repo, h, "", map[]);
    assert forall m: LeafMap :: map[] + m == m;
  }

  lemma {:induction false} SameFront(h: Hash, g: Hash, n: nat, prefix: string)
    requires h.Tree? && g.Tree? && n <= |h.entries| && n <= |g.entries| && h.entries[..n] == g.entries[..n]
    ensures FilesUpTo(h, n, prefix) == FilesUpTo(g, n, prefix)
  {
    if n > 0 {
      assert h.entries[n - 1] == h.entries[..n][n - 1] == g.entries[..n][n - 1] == g.entries[n - 1];
      assert h.entries[..n - 1] == h.entries[..n][..n - 1] == g.entries[..n][..n - 1];
      SameFront(h, g, n - 1, prefix);
    }
  }

  // ---- Building ---------------------------------------------------------------------------------------

  function ItemMap(items: seq<TreeItem>): LeafMap {
    if items == [] then map[] else ItemMap(items[..|items| - 1])[items[|items| - 1].path := items[|items| - 1].leaf]
  }

  ghost predicate SortedItems(items: seq<TreeItem>) {
    forall i, j :: 0 <= i < j < |items| ==> Less(items[i].path, items[j].path)
  }

  ghost predicate AllUnder(items: seq<TreeItem>, prefix: string) {
    forall i :: 0 <= i < |items| ==> prefix <= items[i].path
  }

  /** Git orders entries as if directory names ended in a slash. */
  function EntryKey(e: TreeEntry): string { if e.mode == DIR then e.name + "/" else e.name }

  predicate EntryLe(a: TreeEntry, b: TreeEntry) { StringLe(EntryKey(a), EntryKey(b)) }

  /** Characters beyond the prefix, over all items. */
  function Bulk(items: seq<TreeItem>, prefix: string): nat
    requires AllUnder(items, prefix)
  {
    if items == [] then 0 else |items[0].path| - |prefix| + Bulk(items[1..], prefix)
  }

  // ---- Order on paths -------------------------------------------------------------------------------

  lemma {:induction false} PrefixLe(x: string, y: string)
    requires x <= y
    ensures StringLe(x, y)
  {
    if x != "" { PrefixLe(x[1..], y[1..]); }
  }

  lemma {:induction false} Between(x: string, y: string, z: string)
    requires StringLe(x, y) && StringLe(y, z) && x <= z
    ensures x <= y
  {
    if x != "" {
      assert x[0] == z[0] == y[0];
      Between(x[1..], y[1..], z[1..]);
      assert y == [y[0]] + y[1..] && x == [x[0]] + x[1..];
    }
  }

  lemma {:induction false} DropCommon(p: string, a: string, b: string)
    ensures Less(p + a, p + b) <==> Less(a, b)
  {
    if p != "" {
      assert (p + a)[1..] == p[1..] + a && (p + b)[1..] == p[1..] + b;
      DropCommon(p[1..], a, b);
      StringLeTotal(a, b);
      StringLeTotal(p + a, p + b);
      assert p + a == p + b ==> a == (p + a)[|p|..] == (p + b)[|p|..] == b;
    } else {
      assert p + a == a && p + b == b;
    }
  }

  // ---- Building, continued ----------------------------------------------------------------------------

  ghost predicate KeysIncrease(entries: seq<TreeEntry>) {
    forall i, j :: 0 <= i < j < |entries| ==> Less(EntryKey(entries[i]), EntryKey(entries[j]))
  }

  /** A tree as git writes it: entries in git's order, no empty directories, plain names. */
  ghost predicate Canonical(h: Hash) {
    && h.Tree? && KeysIncrease(h.entries)
    && forall i :: 0 <= i < |h.entries| ==>
         && '/' !in h.entries[i].name
         && (h.entries[i].mode == DIR ==> Canonical(h.entries[i].hash) && h.entries[i].hash.entries != [])
  }

  lemma AppendFiles(entries: seq<TreeEntry>, e: TreeEntry, prefix: string)
    ensures FilesUpTo(Tree(entries + [e]), |entries| + 1, prefix)
         == FilesUpTo(Tree(entries), |entries|, prefix) + EntryFiles(Tree(entries + [e]), |entries|, prefix)
  {
    SameFront(Tree(entries), Tree(entries + [e]), |entries|, prefix);
  }

  lemma {:induction false} ItemMapSplit(items: seq<TreeItem>, i: nat, j: nat)
    requires i <= j <= |items|
    ensures ItemMap(items[..j]) == ItemMap(items[..i]) + ItemMap(items[i..j])
    decreases j
  {
    if i < j {
      assert items[..j][..j - 1] == items[..j - 1];
      assert items[i..j][..j - i - 1] == items[i..j - 1];
      ItemMapSplit(items, i, j - 1);
    }
  }

  lemma {:induction false} BulkShrinks(items: seq<TreeItem>, prefix: string, i: nat, j: nat, longer: string)
    requires AllUnder(items, prefix) && i < j <= |items| && AllUnder(items[i..j], longer) && |longer| > |prefix|
    ensures Bulk(items[i..j], longer) < Bulk(items, prefix)
    decreases |items|
  {
    if i > 0 {
      assert items[i..j] == items[1..][i - 1..j - 1];
      BulkShrinks(items[1..], prefix, i - 1, j - 1, longer);
    } else if j > 1 {
      assert items[0..j][1..] == items[1..][0..j - 1];
      BulkShrinks(items[1..], prefix, 0, j - 1, longer);
    }
  }

  function Rel(items: seq<TreeItem>, k: nat, prefix: string): string
    requires k < |items| && AllUnder(items, prefix)
  {
    items[k].path[|prefix|..]
  }

  lemma RelOrder(items: seq<TreeItem>, prefix: string, j: nat, k: nat)
    requires SortedItems(items) && AllUnder(items, prefix) && j < k < |items|
    ensures Less(Rel(items, j, prefix), Rel(items, k, prefix))
  {
    assert items[j].path == prefix + Rel(items, j, prefix) && items[k].path == prefix + Rel(items, k, prefix);
    DropCommon(prefix, Rel(items, j, prefix), Rel(items, k, prefix));
  }

  /** The entry is complete: everything from `rel` on sorts after it and lies outside it. */
  ghost predicate Passed(e: TreeEntry, rel: string) {
    Less(EntryKey(e), rel) && (e.mode == DIR ==> !(EntryKey(e) <= rel))
  }

  ghost predicate AllPassed(entries: seq<TreeEntry>, items: seq<TreeItem>, prefix: string, i: nat)
    requires AllUnder(items, prefix)
  {
    forall n, k :: 0 <= n < |entries| && i <= k < |items| ==> Passed(entries[n], Rel(items, k, prefix))
  }

  /** A directory key read off a path sorts after every completed entry. */
  lemma KeyAfter(e: TreeEntry, key: string, rel: string)
    requires Passed(e, rel) && key <= rel && '/' !in e.name
    requires key != "" && key[|key| - 1] == '/' && '/' !in key[..|key| - 1]
    ensures Less(EntryKey(e), key)
  {
    LessIrreflexive(EntryKey(e), key);
    assert key <= EntryKey(e) ==> EntryKey(e)[|key| - 1] == '/';
    if StringLe(key, EntryKey(e)) { Between(key, EntryKey(e), rel); }
  }

  /** `items[i..j]` is the whole run of items below one directory. */
  ghost predicate Run(items: seq<TreeItem>, i: nat, j: nat, dir: string) {
    && i < j <= |items| && AllUnder(items[i..j], dir)
    && (j < |items| ==> !(dir <= items[j].path))
  }

  /** Where the run of items below `dir` ends. */
  function RunEnd(items: seq<TreeItem>, j: nat, dir: string): (end: nat)
    requires j <= |items|
    ensures j <= end <= |items|
    decreases |items| - j
  {
    if j < |items| && dir <= items[j].path then RunEnd(items, j + 1, dir) else j
  }

  method TakeRun(items: seq<TreeItem>, i: nat, next: nat) returns (j: nat)
    requires i < |items| && next <= |items[i].path|
    ensures j == RunEnd(items, i + 1, items[i].path[..next])
  {
    j := i + 1;
    while j < |items| && |items[j].path| >= next && items[i].path[..next] <= items[j].path
      invariant i < j <= |items| && RunEnd(items, i + 1, items[i].path[..next]) == RunEnd(items, j, items[i].path[..next])
    {
      j := j + 1;
    }
  }

  /** Up to its end there is exactly the run of items below the directory. */
  lemma {:induction false} RunEndIs(items: seq<TreeItem>, i: nat, j: nat, dir: string)
    requires i < j <= |items| && AllUnder(items[i..j], dir)
    ensures Run(items, i, RunEnd(items, j, dir), dir)
    decreases |items| - j
  {
    if j < |items| && dir <= items[j].path {
      assert items[i..j + 1] == items[i..j] + [items[j]];
      RunEndIs(items, i, j + 1, dir);
    }
  }

  lemma RunPassed(items: seq<TreeItem>, prefix: string, i: nat, j: nat, key: string, k: nat)
    requires SortedItems(items) && AllUnder(items, prefix) && Run(items, i, j, prefix + key) && j <= k < |items|
    requires key <= Rel(items, i, prefix)
    ensures Less(key, Rel(items, k, prefix)) && !(key <= Rel(items, k, prefix))
  {
    var a, b, c := Rel(items, i, prefix), Rel(items, j, prefix), Rel(items, k, prefix);
    RelOrder(items, prefix, i, j);
    RelOrder(items, prefix, i, k);
    if j < k { RelOrder(items, prefix, j, k); }
    StringLeTotal(b, c);
    PrefixLe(key, a);
    StringLeTransitive(key, a, b);
    StringLeTransitive(key, a, c);
    assert items[j].path == prefix + b;
    assert key <= b ==> prefix + key <= prefix + b;
    if key <= c { Between(key, b, c); }
  }

  lemma AppendCanonical(entries: seq<TreeEntry>, e: TreeEntry, items: seq<TreeItem>, prefix: string, i: nat, j: nat)
    requires SortedItems(items) && AllUnder(items, prefix) && i < j <= |items|
    requires Canonical(Tree(entries)) && AllPassed(entries, items, prefix, i) && '/' !in e.name
    requires if e.mode == DIR then
               EntryKey(e) <= Rel(items, i, prefix) && Run(items, i, j, prefix + EntryKey(e))
               && Canonical(e.hash) && e.hash.entries != []
             else e.name == Rel(items, i, prefix) && j == i + 1
    ensures Canonical(Tree(entries + [e])) && AllPassed(entries + [e], items, prefix, j)
  {
    var h, rel := Tree(entries + [e]), Rel(items, i, prefix);
    forall n | 0 <= n < |entries| ensures Less(EntryKey(entries[n]), EntryKey(e)) {
      assert '/' !in Tree(entries).entries[n].name;
      if e.mode == DIR { KeyAfter(entries[n], EntryKey(e), rel); }
    }
    forall n | 0 <= n < |h.entries|
      ensures '/' !in h.entries[n].name
      ensures h.entries[n].mode == DIR ==> Canonical(h.entries[n].hash) && h.entries[n].hash.entries != []
    {
      if n < |entries| { assert h.entries[n] == Tree(entries).entries[n]; }
    }
    forall k | j <= k < |items| ensures Passed(e, Rel(items, k, prefix)) {
      if e.mode == DIR { RunPassed(items, prefix, i, j, EntryKey(e), k); } else { RelOrder(items, prefix, i, k); }
    }
  }

  ghost predicate Leafy(items: seq<TreeItem>) { forall i :: 0 <= i < |items| ==> items[i].leaf.mode != DIR }

  /** Entries of a directory, and the tree objects stored for its subdirectories. */
  datatype Built = Built(entries: seq<TreeEntry>, made: set<Hash>)

  function TreeBuilt(b: Built): Hash { Tree(Sort(EntryLe, b.entries)) }

  /** What is built from the items from `i` on, after `so`. */
  ghost function BuiltFrom(items: seq<TreeItem>, prefix: string, i: nat, so: Built): Built
    requires AllUnder(items, prefix) && i <= |items|
    decreases Bulk(items, prefix), |items| - i
  {
    if i == |items| then so
    else
      var rel := Rel(items, i, prefix);
      match IndexOf(rel, '/')
      case None => BuiltFrom(items, prefix, i + 1, Built(so.entries + [TreeEntry(rel, items[i].leaf.mode, items[i].leaf.hash)], so.made))
      case Some(slash) =>
        var dir := prefix + rel[..slash + 1];
        var j := RunEnd(items, i + 1, dir);
        DirRun(items, prefix, i, slash);
        var sub := BuiltFrom(items[i..j], dir, 0, Built([], {}));
        BuiltFrom(items, prefix, j, Built(so.entries + [TreeEntry(rel[..slash], DIR, TreeBuilt(sub))], so.made + sub.made + {TreeBuilt(sub)}))
  }

  /** The tree object for a list of items, and all tree objects stored for it. */
  ghost function TreeFor(items: seq<TreeItem>, prefix: string): Hash
    requires AllUnder(items, prefix)
  {
    TreeBuilt(BuiltFrom(items, prefix, 0, Built([], {})))
  }

  ghost function TreesFor(items: seq<TreeItem>, prefix: string): set<Hash>
    requires AllUnder(items, prefix)
  {
    BuiltFrom(items, prefix, 0, Built([], {})).made + {TreeFor(items, prefix)}
  }

  lemma DirRun(items: seq<TreeItem>, prefix: string, i: nat, slash: nat)
    requires AllUnder(items, prefix) && i < |items| && IndexOf(Rel(items, i, prefix), '/') == Some(slash)
    ensures var dir := prefix + Rel(items, i, prefix)[..slash + 1];
            var j := RunEnd(items, i + 1, dir);
            && dir == items[i].path[..|prefix| + slash + 1] && dir == prefix + Rel(items, i, prefix)[..slash] + "/"
            && Run(items, i, j, dir) && AllUnder(items[i..j], dir) && Bulk(items[i..j], dir) < Bulk(items, prefix)
            && (SortedItems(items) ==> SortedItems(items[i..j])) && (Leafy(items) ==> Leafy(items[i..j]))
  {
    var rel := Rel(items, i, prefix);
    var dir := prefix + rel[..slash + 1];
    assert items[i].path == prefix + rel;
    assert rel[..slash + 1] == rel[..slash] + "/";
    assert items[i..i + 1] == [items[i]];
    RunEndIs(items, i, i + 1, dir);
    RunBelow(items, prefix, i, RunEnd(items, i + 1, dir), dir);
  }

  function FileEntry(items: seq<TreeItem>, i: nat, prefix: string): TreeEntry
    requires i < |items| && AllUnder(items, prefix)
  {
    TreeEntry(Rel(items, i, prefix), items[i].leaf.mode, items[i].leaf.hash)
  }

  lemma BuiltFile(items: seq<TreeItem>, prefix: string, i: nat, so: Built)
    requires AllUnder(items, prefix) && i < |items| && IndexOf(Rel(items, i, prefix), '/').None?
    ensures BuiltFrom(items, prefix, i, so) == BuiltFrom(items, prefix, i + 1, Built(so.entries + [FileEntry(items, i, prefix)], so.made))
  {
  }

  /** What one subdirectory adds. */
  ghost function WithDir(items: seq<TreeItem>, prefix: string, i: nat, slash: nat, so: Built): (next: Built)
    requires AllUnder(items, prefix) && i < |items| && IndexOf(Rel(items, i, prefix), '/') == Some(slash)
  {
    var dir := prefix + Rel(items, i, prefix)[..slash + 1];
    DirRun(items, prefix, i, slash);
    var run := items[i..RunEnd(items, i + 1, dir)];
    Built(so.entries + [TreeEntry(Rel(items, i, prefix)[..slash], DIR, TreeFor(run, dir))], so.made + TreesFor(run, dir))
  }

  lemma BuiltDir(items: seq<TreeItem>, prefix: string, i: nat, slash: nat, so: Built)
    requires AllUnder(items, prefix) && i < |items| && IndexOf(Rel(items, i, prefix), '/') == Some(slash)
    ensures var j := RunEnd(items, i + 1, prefix + Rel(items, i, prefix)[..slash + 1]);
            BuiltFrom(items, prefix, i, so) == BuiltFrom(items, prefix, j, WithDir(items, prefix, i, slash, so))
  {
    hide Bulk, Run;
    DirRun(items, prefix, i, slash);
    var dir := prefix + Rel(items, i, prefix)[..slash + 1];
    var run := items[i..RunEnd(items, i + 1, dir)];
    var sub := BuiltFrom(run, dir, 0, Built([], {}));
    assert so.made + sub.made + {TreeBuilt(sub)} == so.made + TreesFor(run, dir);
  }

  lemma BuiltEnd(items: seq<TreeItem>, prefix: string, so: Built)
    requires AllUnder(items, prefix)
    ensures BuiltFrom(items, prefix, |items|, so) == so
  {
  }

  /** Stores the tree object for a list below `prefix`, and those of its subdirectories. */
  method StoreDir(repo: Repo, items: seq<TreeItem>, prefix: string) returns (h: Hash, after: Repo)
    requires AllUnder(items, prefix)
    ensures h == TreeFor(items, prefix) && after == Stores(repo, TreesFor(items, prefix))
    decreases Bulk(items, prefix)
  {
    hide AllUnder, Run, Sort, SortedItems, Leafy, Bulk, BuiltFrom;
    var entries: seq<TreeEntry> := [];
    ghost var made: set<Hash> := {};
    after := repo;
    var i := 0;
    while i < |items|
      invariant 0 <= i <= |items| && after == Stores(repo, made)
      invariant BuiltFrom(items, prefix, 0, Built([], {})) == BuiltFrom(items, prefix, i, Built(entries, made))
    {
      PrefixOf(items, prefix, i);
      var rel := items[i].path[|prefix|..];
      var slash := IndexOf(rel, '/');
      if slash.Some? {
        var name := rel[..slash.value];
        var next := |prefix| + slash.value + 1;
        DirRun(items, prefix, i, slash.value);
        BuiltDir(items, prefix, i, slash.value, Built(entries, made));
        var j := TakeRun(items, i, next);
        var sub;
        sub, after := StoreDir(after, items[i..j], items[i].path[..next]);
        entries := entries + [TreeEntry(name, DIR, sub)];
        made := made + TreesFor(items[i..j], items[i].path[..next]);
        i := j;
      } else {
        BuiltFile(items, prefix, i, Built(entries, made));
        entries := entries + [TreeEntry(rel, items[i].leaf.mode, items[i].leaf.hash)];
        i := i + 1;
      }
    }
    BuiltEnd(items, prefix, Built(entries, made));
    h := Tree(Sort(EntryLe, entries));
    after := Stores(after, {h});
  }

  lemma PrefixOf(items: seq<TreeItem>, prefix: string, i: nat)
    requires AllUnder(items, prefix) && i < |items|
    ensures prefix <= items[i].path
  {
  }

  /** Byte-sorted lists of distinct paths are built faithfully. */
  lemma {:induction false} BuiltFaithful(items: seq<TreeItem>, prefix: string, i: nat, so: Built)
    requires AllUnder(items, prefix) && i <= |items| && SortedItems(items) && Leafy(items)
    requires Canonical(Tree(so.entries)) && AllPassed(so.entries, items, prefix, i) && (i > 0 ==> so.entries != [])
    requires FilesUpTo(Tree(so.entries), |so.entries|, prefix) == ItemMap(items[..i])
    ensures var b := BuiltFrom(items, prefix, i, so);
            && Canonical(Tree(b.entries)) && FilesUpTo(Tree(b.entries), |b.entries|, prefix) == ItemMap(items)
            && (items != [] ==> b.entries != [])
    decreases Bulk(items, prefix), |items| - i
  {
    hide Canonical, FilesUpTo, AllPassed, SortedItems, Leafy, Bulk, ItemMap, Run, Less, AllUnder, BuiltFrom, TreeFor;
    if i == |items| {
      BuiltEnd(items, prefix, so);
      assert items[..i] == items;
    } else {
      PrefixOf(items, prefix, i);
      match IndexOf(Rel(items, i, prefix), '/') {
        case None =>
          var e := FileEntry(items, i, prefix);
          BuiltFile(items, prefix, i, so);
          FileStep(so.entries, e, items, prefix, i);
          BuiltFaithful(items, prefix, i + 1, Built(so.entries + [e], so.made));
        case Some(slash) =>
          var dir := prefix + Rel(items, i, prefix)[..slash + 1];
          var j := RunEnd(items, i + 1, dir);
          DirRun(items, prefix, i, slash);
          BuiltDir(items, prefix, i, slash, so);
          TreeForFaithful(items[i..j], dir);
          var e := TreeEntry(Rel(items, i, prefix)[..slash], DIR, TreeFor(items[i..j], dir));
          assert prefix + EntryKey(e) == dir;
          RunSome(items, i, j, dir);
          DirStep(so.entries, e, items, prefix, i, j);
          BuiltFaithful(items, prefix, j, WithDir(items, prefix, i, slash, so));
      }
    }
  }

  lemma RunSome(items: seq<TreeItem>, i: nat, j: nat, dir: string)
    requires Run(items, i, j, dir)
    ensures i < j <= |items| && items[i..j] != [] && dir <= items[i].path
  {
    assert items[i..j][0] == items[i];
  }

  /** Building a byte-sorted list of distinct paths and walking the tree gives the list back. */
  lemma {:induction false} TreeForFaithful(items: seq<TreeItem>, prefix: string)
    requires AllUnder(items, prefix) && SortedItems(items) && Leafy(items)
    ensures var h := TreeFor(items, prefix);
            Canonical(h) && FilesUpTo(h, |h.entries|, prefix) == ItemMap(items) && (items != [] ==> h.entries != [])
    decreases Bulk(items, prefix), |items| + 1
  {
    hide Canonical, FilesUpTo, AllPassed, SortedItems, Leafy, Bulk, ItemMap, AllUnder, Sort, BuiltFrom;
    StoreStart(items, prefix);
    BuiltFaithful(items, prefix, 0, Built([], {}));
    CanonicalSorted(BuiltFrom(items, prefix, 0, Built([], {})).entries);
  }

  // ---- What is stored can be read ---------------------------------------------------------------

  ghost predicate SubtreesWhole(repo: Repo, entries: seq<TreeEntry>) {
    forall n :: 0 <= n < |entries| && entries[n].mode == DIR ==> Whole(repo, entries[n].hash)
  }

  lemma {:induction false} EachWhole(repo: Repo, h: Hash, n: nat)
    requires h.Tree? && n <= |h.entries| && SubtreesWhole(repo, h.entries)
    ensures WholeUpTo(repo, h, n)
  {
    if n > 0 { EachWhole(repo, h, n - 1); }
  }

  lemma BuiltTreeWhole(repo: Repo, b: Built)
    requires SubtreesWhole(repo, b.entries) && TreeBuilt(b) in repo.stored
    ensures Whole(repo, TreeBuilt(b))
  {
    var h := TreeBuilt(b);
    SortKeeps(EntryLe, b.entries);
    forall n | 0 <= n < |h.entries| && h.entries[n].mode == DIR ensures Whole(repo, h.entries[n].hash) {
      assert h.entries[n] in multiset(h.entries) && h.entries[n] in b.entries;
    }
    EachWhole(repo, h, |h.entries|);
  }

  lemma {:induction false} BuiltWhole(repo: Repo, items: seq<TreeItem>, prefix: string, i: nat, so: Built)
    requires AllUnder(items, prefix) && i <= |items| && Leafy(items) && SubtreesWhole(repo, so.entries)
    requires BuiltFrom(items, prefix, i, so).made <= repo.stored
    ensures SubtreesWhole(repo, BuiltFrom(items, prefix, i, so).entries) && so.made <= BuiltFrom(items, prefix, i, so).made
    decreases Bulk(items, prefix), |items| - i
  {
    hide Bulk, Run, AllUnder, SortedItems, Whole, BuiltFrom, Leafy;
    if i == |items| {
      BuiltEnd(items, prefix, so);
    } else {
      PrefixOf(items, prefix, i);
      match IndexOf(Rel(items, i, prefix), '/') {
        case None =>
          BuiltFile(items, prefix, i, so);
          LeafyAt(items, i);
          BuiltWhole(repo, items, prefix, i + 1, Built(so.entries + [FileEntry(items, i, prefix)], so.made));
        case Some(slash) =>
          var dir := prefix + Rel(items, i, prefix)[..slash + 1];
          var j := RunEnd(items, i + 1, dir);
          DirRun(items, prefix, i, slash);
          BuiltDir(items, prefix, i, slash, so);
          var next := WithDir(items, prefix, i, slash, so);
          BuiltMore(items, prefix, j, next);
          TreeForWhole(repo, items[i..j], dir);
          BuiltWhole(repo, items, prefix, j, next);
      }
    }
  }

  lemma LeafyAt(items: seq<TreeItem>, i: nat)
    requires Leafy(items) && i < |items|
    ensures items[i].leaf.mode != DIR
  {
  }

  lemma {:induction false} TreeForWhole(repo: Repo, items: seq<TreeItem>, prefix: string)
    requires AllUnder(items, prefix) && Leafy(items) && TreesFor(items, prefix) <= repo.stored
    ensures Whole(repo, TreeFor(items, prefix))
    decreases Bulk(items, prefix), |items| + 1
  {
    BuiltWhole(repo, items, prefix, 0, Built([], {}));
    BuiltTreeWhole(repo, BuiltFrom(items, prefix, 0, Built([], {})));
  }

  lemma {:induction false} BuiltMore(items: seq<TreeItem>, prefix: string, i: nat, so: Built)
    requires AllUnder(items, prefix) && i <= |items|
    ensures so.made <= BuiltFrom(items, prefix, i, so).made
    decreases |items| - i
  {
    hide Bulk, Run, AllUnder, BuiltFrom;
    if i == |items| {
      BuiltEnd(items, prefix, so);
    } else {
      PrefixOf(items, prefix, i);
      match IndexOf(Rel(items, i, prefix), '/') {
        case None =>
          BuiltFile(items, prefix, i, so);
          BuiltMore(items, prefix, i + 1, Built(so.entries + [FileEntry(items, i, prefix)], so.made));
        case Some(slash) =>
          BuiltDir(items, prefix, i, slash, so);
          BuiltMore(items, prefix, RunEnd(items, i + 1, prefix + Rel(items, i, prefix)[..slash + 1]), WithDir(items, prefix, i, slash, so));
      }
    }
  }

  /** A tree that was stored can be walked. */
  lemma StoredWhole(repo: Repo, items: seq<TreeItem>)
    requires AllUnder(items, "") && Leafy(items) && TreesFor(items, "") <= repo.stored
    ensures Whole(repo, TreeFor(items, ""))
  {
    TreeForWhole(repo, items, "");
  }

  /** What can be walked can still be walked when more is stored. */
  lemma {:induction false} WholeMore(repo: Repo, more: Repo, h: Hash, n: nat)
    requires h.Tree? && n <= |h.entries| && WholeUpTo(repo, h, n) && Extends(repo, more)
    ensures WholeUpTo(more, h, n)
    decreases h, n
  {
    if n > 0 {
      WholeMore(repo, more, h, n - 1);
      var e := h.entries[n - 1];
      if e.mode == DIR { WholeMore(repo, more, e.hash, |e.hash.entries|); }
    }
  }

  lemma DirStep(entries: seq<TreeEntry>, e: TreeEntry, items: seq<TreeItem>, prefix: string, i: nat, j: nat)
    requires SortedItems(items) && AllUnder(items, prefix) && i < j <= |items|
    requires Canonical(Tree(entries)) && AllPassed(entries, items, prefix, i) && '/' !in e.name && e.mode == DIR
    requires EntryKey(e) <= Rel(items, i, prefix) && Run(items, i, j, prefix + EntryKey(e))
    requires Canonical(e.hash) && e.hash.entries != []
    requires FilesUpTo(Tree(entries), |entries|, prefix) == ItemMap(items[..i])
    requires FilesUpTo(e.hash, |e.hash.entries|, prefix + EntryKey(e)) == ItemMap(items[i..j])
    ensures Canonical(Tree(entries + [e])) && AllPassed(entries + [e], items, prefix, j)
    ensures FilesUpTo(Tree(entries + [e]), |entries| + 1, prefix) == ItemMap(items[..j])
  {
    AppendCanonical(entries, e, items, prefix, i, j);
    AppendFiles(entries, e, prefix);
    ItemMapSplit(items, i, j);
    assert prefix + e.name + "/" == prefix + EntryKey(e);
  }

  lemma FileStep(entries: seq<TreeEntry>, e: TreeEntry, items: seq<TreeItem>, prefix: string, i: nat)
    requires SortedItems(items) && Leafy(items) && AllUnder(items, prefix) && i < |items|
    requires Canonical(Tree(entries)) && AllPassed(entries, items, prefix, i) && '/' !in e.name
    requires e.name == Rel(items, i, prefix) && Leaf(e.mode, e.hash) == items[i].leaf
    requires FilesUpTo(Tree(entries), |entries|, prefix) == ItemMap(items[..i])
    ensures Canonical(Tree(entries + [e])) && AllPassed(entries + [e], items, prefix, i + 1)
    ensures FilesUpTo(Tree(entries + [e]), |entries| + 1, prefix) == ItemMap(items[..i + 1])
  {
    hide Less, Passed, SortedItems;
    AppendCanonical(entries, e, items, prefix, i, i + 1);
    AppendFiles(entries, e, prefix);
    OneItem(items, i);
    assert prefix + e.name == items[i].path;
  }

  lemma StoreStart(items: seq<TreeItem>, prefix: string)
    requires AllUnder(items, prefix)
    ensures Canonical(Tree([])) && AllPassed([], items, prefix, 0) && FilesUpTo(Tree([]), 0, prefix) == ItemMap(items[..0])
  {
  }

  lemma RunBelow(items: seq<TreeItem>, prefix: string, i: nat, j: nat, dir: string)
    requires AllUnder(items, prefix) && Run(items, i, j, dir) && |dir| > |prefix|
    ensures i < j <= |items| && AllUnder(items[i..j], dir) && Bulk(items[i..j], dir) < Bulk(items, prefix)
    ensures SortedItems(items) ==> SortedItems(items[i..j])
    ensures Leafy(items) ==> Leafy(items[i..j])
  {
    BulkShrinks(items, prefix, i, j, dir);
  }

  lemma OneItem(items: seq<TreeItem>, i: nat)
    requires i < |items|
    ensures ItemMap(items[..i + 1]) == ItemMap(items[..i])[items[i].path := items[i].leaf]
  {
    assert items[..i + 1][..i] == items[..i];
  }

  lemma CanonicalSorted(entries: seq<TreeEntry>)
    requires Canonical(Tree(entries))
    ensures Sort(EntryLe, entries) == entries
  {
  }

  /** Stores the tree object for a list of paths. */
  method StoreTree(repo: Repo, items: seq<TreeItem>) returns (h: Hash, after: Repo)
    ensures AllUnder(items, "")
    ensures h == TreeFor(items, "") && after == Stores(repo, TreesFor(items, ""))
  {
    h, after := StoreDir(repo, items, "");
  }

  /** Building then walking is the identity on byte-sorted lists of distinct paths. */
  lemma StoreThenWalk(items: seq<TreeItem>)
    requires SortedItems(items) && Leafy(items)
    ensures AllUnder(items, "") && Canonical(TreeFor(items, "")) && Files(TreeFor(items, "")) == ItemMap(items)
  {
    TreeForFaithful(items, "");
  }

  // ---- One tree per file map ----------------------------------------------------------------------------

  lemma {:induction false} FilesUnder(h: Hash, n: nat, prefix: string, k: Path)
    requires h.Tree? && n <= |h.entries| && k in FilesUpTo(h, n, prefix)
    ensures prefix <= k
    decreases h, n
  {
    if k in EntryFiles(h, n - 1, prefix) {
      EntryUnder(h, n - 1, prefix, k);
    } else {
      FilesUnder(h, n - 1, prefix, k);
    }
  }

  lemma {:induction false} EntryUnder(h: Hash, i: nat, prefix: string, k: Path)
    requires h.Tree? && i < |h.entries| && k in EntryFiles(h, i, prefix)
    ensures prefix + EntryKey(h.entries[i]) <= k && (h.entries[i].mode != DIR ==> k == prefix + EntryKey(h.entries[i]))
    decreases h, i
  {
    var e := h.entries[i];
    if e.mode == DIR {
      assert prefix + e.name + "/" == prefix + EntryKey(e);
      FilesUnder(e.hash, |e.hash.entries|, prefix + e.name + "/", k);
    }
  }

  lemma {:induction false} FindEntry(h: Hash, n: nat, prefix: string, k: Path) returns (i: nat)
    requires h.Tree? && n <= |h.entries| && k in FilesUpTo(h, n, prefix)
    ensures i < n && k in EntryFiles(h, i, prefix) && EntryFiles(h, i, prefix)[k] == FilesUpTo(h, n, prefix)[k]
  {
    if k in EntryFiles(h, n - 1, prefix) { i := n - 1; } else { i := FindEntry(h, n - 1, prefix, k); }
  }

  /** A path determines the name of the entry it lies under. */
  lemma SameKey(e: TreeEntry, f: TreeEntry, prefix: string, k: Path)
    requires '/' !in e.name && '/' !in f.name
    requires prefix + EntryKey(e) <= k && (e.mode != DIR ==> k == prefix + EntryKey(e))
    requires prefix + EntryKey(f) <= k && (f.mode != DIR ==> k == prefix + EntryKey(f))
    ensures EntryKey(e) == EntryKey(f)
  {
    var rel := k[|prefix|..];
    assert k == prefix + rel;
    KeyBelow(e, prefix, rel);
    KeyBelow(f, prefix, rel);
    NameIn(e, rel);
    NameIn(f, rel);
  }

  lemma NameIn(e: TreeEntry, rel: string)
    requires EntryKey(e) <= rel && '/' !in e.name
    ensures forall n :: 0 <= n < |e.name| ==> rel[n] == e.name[n] && rel[n] != '/'
    ensures e.mode == DIR ==> rel[|e.name|] == '/'
    ensures EntryKey(e) == rel[..|EntryKey(e)|]
  {
  }

  lemma KeyBelow(e: TreeEntry, prefix: string, rel: string)
    requires prefix + EntryKey(e) <= prefix + rel && (e.mode != DIR ==> prefix + rel == prefix + EntryKey(e))
    ensures EntryKey(e) <= rel && (e.mode != DIR ==> rel == e.name)
  {
    assert (prefix + rel)[|prefix|..] == rel && (prefix + EntryKey(e))[|prefix|..] == EntryKey(e);
    assert EntryKey(e) == (prefix + EntryKey(e))[|prefix|..] == (prefix + rel)[..|prefix + EntryKey(e)|][|prefix|..] == rel[..|EntryKey(e)|];
  }

  lemma OneEntry(h: Hash, g: Hash, i: nat, j: nat, prefix: string, k: Path)
    requires Canonical(h) && Canonical(g) && i < |h.entries| && j < |g.entries|
    requires k in EntryFiles(h, i, prefix) && k in EntryFiles(g, j, prefix)
    ensures EntryKey(h.entries[i]) == EntryKey(g.entries[j])
  {
    EntryUnder(h, i, prefix, k);
    EntryUnder(g, j, prefix, k);
    SameKey(h.entries[i], g.entries[j], prefix, k);
  }

  /** Entries of a canonical tree do not overlap. */
  lemma KeepEntry(h: Hash, i: nat, prefix: string, k: Path)
    requires Canonical(h) && i < |h.entries| && k in EntryFiles(h, i, prefix)
    ensures k in FilesUpTo(h, |h.entries|, prefix) && FilesUpTo(h, |h.entries|, prefix)[k] == EntryFiles(h, i, prefix)[k]
  {
    EntryStays(h, i, |h.entries|, prefix, k);
    var j := FindEntry(h, |h.entries|, prefix, k);
    OneEntry(h, h, i, j, prefix, k);
    OneKey(h.entries, i, j);
  }

  lemma {:induction false} EntryStays(h: Hash, i: nat, n: nat, prefix: string, k: Path)
    requires h.Tree? && i < n <= |h.entries| && k in EntryFiles(h, i, prefix)
    ensures k in FilesUpTo(h, n, prefix)
  {
    if i < n - 1 { EntryStays(h, i, n - 1, prefix, k); }
  }

  lemma {:induction false} SomeFile(h: Hash, i: nat, prefix: string) returns (k: Path)
    requires Canonical(h) && i < |h.entries|
    ensures k in EntryFiles(h, i, prefix)
    decreases h
  {
    var e := h.entries[i];
    if e.mode != DIR {
      k := prefix + e.name;
    } else {
      k := SomeFile(e.hash, 0, prefix + e.name + "/");
      EntryStays(e.hash, 0, |e.hash.entries|, prefix + e.name + "/", k);
    }
  }

  ghost predicate SameFiles(h: Hash, g: Hash, prefix: string) {
    h.Tree? && g.Tree? && FilesUpTo(h, |h.entries|, prefix) == FilesUpTo(g, |g.entries|, prefix)
  }

  /** With the same files, an entry of one tree has a partner of the same key in the other. */
  lemma Partner(h: Hash, g: Hash, i: nat, prefix: string) returns (j: nat)
    requires Canonical(h) && Canonical(g) && SameFiles(h, g, prefix) && i < |h.entries|
    ensures j < |g.entries| && EntryKey(g.entries[j]) == EntryKey(h.entries[i])
  {
    var k := SomeFile(h, i, prefix);
    KeepEntry(h, i, prefix, k);
    j := FindEntry(g, |g.entries|, prefix, k);
    OneEntry(h, g, i, j, prefix, k);
  }

  lemma PartnerFiles(h: Hash, g: Hash, i: nat, j: nat, prefix: string, k: Path)
    requires Canonical(h) && Canonical(g) && SameFiles(h, g, prefix) && i < |h.entries| && j < |g.entries|
    requires EntryKey(h.entries[i]) == EntryKey(g.entries[j]) && k in EntryFiles(h, i, prefix)
    ensures k in EntryFiles(g, j, prefix) && EntryFiles(g, j, prefix)[k] == EntryFiles(h, i, prefix)[k]
  {
    KeepEntry(h, i, prefix, k);
    var m := FindEntry(g, |g.entries|, prefix, k);
    OneEntry(h, g, i, m, prefix, k);
    OneKey(g.entries, m, j);
  }

  lemma PartnersAgree(h: Hash, g: Hash, i: nat, j: nat, prefix: string)
    requires Canonical(h) && Canonical(g) && SameFiles(h, g, prefix) && i < |h.entries| && j < |g.entries|
    requires EntryKey(h.entries[i]) == EntryKey(g.entries[j])
    ensures EntryFiles(h, i, prefix) == EntryFiles(g, j, prefix)
  {
    var a, b := EntryFiles(h, i, prefix), EntryFiles(g, j, prefix);
    forall k | k in a ensures k in b && b[k] == a[k] { PartnerFiles(h, g, i, j, prefix, k); }
    forall k | k in b ensures k in a { PartnerFiles(g, h, j, i, prefix, k); }
  }

  lemma KeyKind(e: TreeEntry, f: TreeEntry)
    requires '/' !in e.name && '/' !in f.name && EntryKey(e) == EntryKey(f)
    ensures e.name == f.name && (e.mode == DIR <==> f.mode == DIR)
  {
    assert e.mode == DIR ==> EntryKey(e)[|e.name|] == '/' && EntryKey(e)[..|e.name|] == e.name;
    assert f.mode == DIR ==> EntryKey(f)[|f.name|] == '/' && EntryKey(f)[..|f.name|] == f.name;
  }

  /** A canonical tree is determined by its files. */
  lemma {:induction false} CanonicalUnique(h: Hash, g: Hash, prefix: string)
    requires Canonical(h) && Canonical(g) && SameFiles(h, g, prefix)
    ensures h == g
    decreases h
  {
    hide KeysIncrease;
    forall i, j | 0 <= i < |h.entries| && 0 <= j < |g.entries| && EntryKey(h.entries[i]) == EntryKey(g.entries[j])
      ensures h.entries[i] == g.entries[j]
    {
      var e, f := h.entries[i], g.entries[j];
      KeyKind(e, f);
      PartnersAgree(h, g, i, j, prefix);
      if e.mode == DIR {
        CanonicalUnique(e.hash, f.hash, prefix + e.name + "/");
      } else {
        assert EntryFiles(h, i, prefix)[prefix + e.name] == EntryFiles(g, j, prefix)[prefix + e.name];
      }
    }
    KeysWithin(h, g, prefix);
    KeysWithin(g, h, prefix);
    EntriesSame(h.entries, g.entries);
  }

  lemma KeysWithin(h: Hash, g: Hash, prefix: string)
    requires Canonical(h) && Canonical(g) && SameFiles(h, g, prefix)
    ensures forall x :: x in Keys(h.entries) ==> x in Keys(g.entries)
  {
    forall x | x in Keys(h.entries) ensures x in Keys(g.entries) {
      var i :| 0 <= i < |h.entries| && x == Keys(h.entries)[i];
      var j := Partner(h, g, i, prefix);
      assert Keys(g.entries)[j] == x;
    }
  }

  lemma OneKey(s: seq<TreeEntry>, i: nat, j: nat)
    requires KeysIncrease(s) && i < |s| && j < |s| && EntryKey(s[i]) == EntryKey(s[j])
    ensures i == j
  {
  }

  ghost function Keys(s: seq<TreeEntry>): (r: seq<string>)
    ensures |r| == |s| && forall i :: 0 <= i < |s| ==> r[i] == EntryKey(s[i])
  {
    seq(|s|, i requires 0 <= i < |s| => EntryKey(s[i]))
  }

  lemma EntriesSame(s: seq<TreeEntry>, t: seq<TreeEntry>)
    requires KeysIncrease(s) && KeysIncrease(t) && forall x :: x in Keys(s) <==> x in Keys(t)
    requires forall i, j :: 0 <= i < |s| && 0 <= j < |t| && EntryKey(s[i]) == EntryKey(t[j]) ==> s[i] == t[j]
    ensures s == t
  {
    hide KeysIncrease, EntryKey;
    KeysRise(s);
    KeysRise(t);
    IncreasingUnique(Keys(s), Keys(t));
    forall i | 0 <= i < |s| ensures s[i] == t[i] { assert Keys(s)[i] == Keys(t)[i]; }
  }

  lemma KeysRise(s: seq<TreeEntry>)
    requires KeysIncrease(s)
    ensures Increasing(Keys(s))
  {
  }

  /** Walking a canonical tree and building it again gives the very same object. */
  lemma WalkThenStore(h: Hash, g: Hash)
    requires Canonical(h) && Canonical(g) && Files(h) == Files(g)
    ensures h == g
  {
    CanonicalUnique(h, g, "");
  }

  lemma {:induction false} ItemMapAt(items: seq<TreeItem>, n: nat, k: Path)
    requires SortedItems(items) && n <= |items|
    ensures k in ItemMap(items[..n]) <==> exists i :: 0 <= i < n && items[i].path == k
    ensures forall i :: 0 <= i < n && items[i].path == k ==> ItemMap(items[..n])[k] == items[i].leaf
  {
    if n > 0 {
      ItemMapAt(items, n - 1, k);
      assert items[..n][..n - 1] == items[..n - 1];
    }
  }

  // ---- Shifting ------------------------------------------------------------------------------------------

  predicate GoodPart(part: string) { part != "" && part != ".." }

  /** A relative prefix of plain components. */
  predicate GoodPrefix(prefix: string) {
    prefix != "" && prefix[0] != '/' && prefix[0] != '\\' && forall part :: part in Parts(prefix) ==> GoodPart(part)
  }

  function Parts(s: string): (r: seq<string>)
    ensures |r| > 0
    decreases |s|
  {
    match IndexOf(s, '/') { case None => [s] case Some(i) => [s[..i]] + Parts(s[i + 1..]) }
  }

  function JoinParts(parts: seq<string>): string {
    if parts == [] then "" else parts[0] + "/" + JoinParts(parts[1..])
  }

  lemma {:induction false} PartsJoin(s: string)
    ensures JoinParts(Parts(s)) == s + "/"
    ensures forall i :: 0 <= i < |Parts(s)| ==> '/' !in Parts(s)[i]
    decreases |s|
  {
    match IndexOf(s, '/') {
      case None =>
        assert JoinParts([s]) == s + "/" + JoinParts([s][1..]);
      case Some(i) =>
        PartsJoin(s[i + 1..]);
        assert s == s[..i] + "/" + s[i + 1..];
        assert Parts(s)[1..] == Parts(s[i + 1..]);
    }
  }

  /** Without the empty component behind a trailing slash. */
  function Trimmed(parts: seq<string>): seq<string>
    requires |parts| > 0
  {
    if parts[|parts| - 1] == "" then parts[..|parts| - 1] else parts
  }

  /** The directories to wrap around a tree, unless one of them is empty. */
  function ShiftParts(prefix: string): Option<seq<string>> {
    var parts := Trimmed(Parts(prefix));
    if parts == [] || "" in parts then None else Some(parts)
  }

  lemma GoodShift(prefix: string)
    requires GoodPrefix(prefix)
    ensures ShiftParts(prefix) == Some(Parts(prefix))
  {
    var parts := Parts(prefix);
    assert parts[|parts| - 1] in parts;
  }

  lemma TrimmedStep(rest: string, i: nat)
    requires IndexOf(rest, '/') == Some(i)
    ensures Trimmed(Parts(rest)) == [rest[..i]] + Trimmed(Parts(rest[i + 1..]))
  {
    var first, t := rest[..i], Parts(rest[i + 1..]);
    assert Parts(rest) == [first] + t;
    TrimmedMore(first, t);
  }

  lemma TrimmedMore(first: string, t: seq<string>)
    requires |t| > 0
    ensures Trimmed([first] + t) == [first] + Trimmed(t)
  {
    assert ([first] + t)[..|t|] == [first] + t[..|t| - 1];
  }

  lemma TrimmedLast(rest: string)
    requires IndexOf(rest, '/').None?
    ensures Trimmed(Parts(rest)) == if rest == "" then [] else [rest]
  {
  }

  lemma NoSlash()
    ensures Trimmed(Parts("")) == []
  {
  }

  /** Components of the prefix; an empty one is refused. */
  method SplitPrefix(prefix: string) returns (r: Result<seq<string>, MergeError>)
    ensures r == match ShiftParts(prefix) case Some(parts) => Ok(parts) case None => Err(StrategyOptionNotSupported)
  {
    hide Parts, Trimmed, IndexOf;
    var parts: seq<string> := [];
    var rest := prefix;
    NoSlash();
    while rest != ""
      invariant "" !in parts && Trimmed(Parts(prefix)) == parts + Trimmed(Parts(rest))
      decreases |rest|
    {
      var i := IndexOf(rest, '/');
      if i.Some? {
        TrimmedStep(rest, i.value);
        assert parts + ([rest[..i.value]] + Trimmed(Parts(rest[i.value + 1..]))) == parts + [rest[..i.value]] + Trimmed(Parts(rest[i.value + 1..]));
        if i.value == 0 {
          assert Trimmed(Parts(prefix))[|parts|] == "";
          return Err(StrategyOptionNotSupported);
        }
        parts := parts + [rest[..i.value]];
        rest := rest[i.value + 1..];
      } else {
        TrimmedLast(rest);
        parts := parts + [rest];
        break;
      }
    }
    assert Trimmed(Parts(prefix)) == parts by { assert parts + [] == parts; }
    if parts == [] { return Err(StrategyOptionNotSupported); }
    r := Ok(parts);
  }

  function Wrap(parts: seq<string>, inner: Hash): Hash {
    if parts == [] then inner else Tree([TreeEntry(parts[0], DIR, Wrap(parts[1..], inner))])
  }

  /** The trees stored around it. */
  function Wraps(parts: seq<string>, inner: Hash): set<Hash> {
    if parts == [] then {} else {Wrap(parts, inner)} + Wraps(parts[1..], inner)
  }

  /** Puts a tree under `prefix`. */
  method ShiftTree(repo: Repo, inner: Hash, prefix: string) returns (r: Result<Hash, MergeError>, after: Repo)
    ensures r == match ShiftParts(prefix) case Some(parts) => Ok(Wrap(parts, inner)) case None => Err(StrategyOptionNotSupported)
    ensures after == match ShiftParts(prefix) case Some(parts) => Stores(repo, Wraps(parts, inner)) case None => repo
  {
    var parts := SplitPrefix(prefix);
    after := repo;
    if parts.Err? { return Err(parts.error), after; }
    var current := inner;
    var n := |parts.value|;
    while n > 0
      invariant 0 <= n <= |parts.value| && current == Wrap(parts.value[n..], inner) && after == Stores(repo, Wraps(parts.value[n..], inner))
    {
      n := n - 1;
      assert parts.value[n..][1..] == parts.value[n + 1..];
      current := Tree([TreeEntry(parts.value[n], DIR, current)]);
      after := Stores(after, {current});
    }
    assert parts.value[0..] == parts.value;
    r := Ok(current);
  }

  /** A shifted tree can be walked. */
  lemma {:induction false} WrapWhole(repo: Repo, parts: seq<string>, inner: Hash)
    requires Whole(repo, inner) && Wraps(parts, inner) <= repo.stored
    ensures Whole(repo, Wrap(parts, inner))
    decreases |parts|
  {
    if parts != [] {
      WrapWhole(repo, parts[1..], inner);
      EachWhole(repo, Wrap(parts, inner), 1);
    }
  }

  lemma {:induction false} WrapFiles(parts: seq<string>, inner: Hash, p: string)
    requires inner.Tree?
    ensures Wrap(parts, inner).Tree?
    ensures var h := Wrap(parts, inner);
            FilesUpTo(h, |h.entries|, p) == FilesUpTo(inner, |inner.entries|, p + JoinParts(parts))
    decreases |parts|
  {
    if parts == [] {
      assert p + "" == p;
    } else {
      WrapFiles(parts[1..], inner, p + parts[0] + "/");
      var h := Wrap(parts, inner);
      assert p + parts[0] + "/" + JoinParts(parts[1..]) == p + JoinParts(parts);
      assert FilesUpTo(h, 1, p) == FilesUpTo(h, 0, p) + EntryFiles(h, 0, p);
    }
  }

  lemma {:induction false} WrapCanonical(parts: seq<string>, inner: Hash)
    requires Canonical(inner) && inner.entries != [] && forall i :: 0 <= i < |parts| ==> '/' !in parts[i]
    ensures Canonical(Wrap(parts, inner)) && Wrap(parts, inner).entries != []
    decreases |parts|
  {
    if parts != [] { WrapCanonical(parts[1..], inner); }
  }

  /** `m` with every path lengthened by `p` in front. */
  ghost predicate Lengthened(m: LeafMap, p: string, r: LeafMap) {
    && (forall x :: x in r ==> p <= x && x[|p|..] in m && r[x] == m[x[|p|..]])
    && (forall k :: k in m ==> p + k in r)
  }

  lemma LengthenedPlus(a: LeafMap, b: LeafMap, p: string, a': LeafMap, b': LeafMap)
    requires Lengthened(a, p, a') && Lengthened(b, p, b')
    ensures Lengthened(a + b, p, a' + b')
  {
    forall k ensures (p + k)[|p|..] == k {}
    forall x | x in a' + b' && x !in b' ensures x[|p|..] !in b {
      assert x == p + x[|p|..];
    }
  }

  lemma LengthenedNone(p: string)
    ensures Lengthened(map[], p, map[])
  {
  }

  /** A longer prefix only lengthens the paths. */
  lemma {:induction false} PrefixFiles(h: Hash, n: nat, p: string, q: string)
    requires h.Tree? && n <= |h.entries|
    ensures Lengthened(FilesUpTo(h, n, q), p, FilesUpTo(h, n, p + q))
    decreases h, n
  {
    hide Lengthened, EntryFiles;
    if n == 0 {
      LengthenedNone(p);
    } else {
      PrefixFiles(h, n - 1, p, q);
      PrefixEntry(h, n - 1, p, q);
      LengthenedPlus(FilesUpTo(h, n - 1, q), EntryFiles(h, n - 1, q), p, FilesUpTo(h, n - 1, p + q), EntryFiles(h, n - 1, p + q));
    }
  }

  lemma {:induction false} PrefixEntry(h: Hash, i: nat, p: string, q: string)
    requires h.Tree? && i < |h.entries|
    ensures Lengthened(EntryFiles(h, i, q), p, EntryFiles(h, i, p + q))
    decreases h, i
  {
    var e := h.entries[i];
    assert p + q + e.name == p + (q + e.name);
    assert (p + (q + e.name))[|p|..] == q + e.name;
    if e.mode == DIR && e.hash.Tree? {
      assert p + q + e.name + "/" == p + (q + e.name + "/");
      PrefixFiles(e.hash, |e.hash.entries|, p, q + e.name + "/");
    }
  }

  /** Shifting moves every file under the prefix and adds nothing. */
  lemma ShiftedFiles(inner: Hash, prefix: string)
    requires inner.Tree?
    ensures Lengthened(Files(inner), prefix + "/", Files(Wrap(Parts(prefix), inner)))
  {
    PartsJoin(prefix);
    PrefixFiles(inner, |inner.entries|, prefix + "/", "");
    assert prefix + "/" + "" == prefix + "/";
    WrapFiles(Parts(prefix), inner, "");
    assert "" + JoinParts(Parts(prefix)) == prefix + "/";
  }
}
