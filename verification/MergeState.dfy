/**
 The state a merge changes, and what each step of applying a computed merge does to it:
 references, git files, index, worktree files and stored commits.
*/
module MergeState {
  import opened Wrappers
  import opened Sorting
  import opened Leaves
  import opened Trees
  import opened Decide
  import opened Engine
  import opened MergeLaws
  import opened Octopus
  import opened MergeFiles
  import opened Checkout

  datatype Ref = Symbolic(target: string) | Direct(hash: Oid)

  datatype IndexEntry = IndexEntry(path: Path, stage: nat, leaf: Leaf)

  /** `who` stands for author and committer. */
  datatype CommitRec = CommitRec(tree: Hash, parents: seq<Oid>, message: string, who: string)

  /** `store` holds blobs and trees, and only grows. */
  datatype State = State(refs: map<string, Ref>, gitFiles: map<string, string>, index: seq<IndexEntry>,
                         files: FileMap, commits: map<Oid, CommitRec>, store: set<Hash>)

  /** What does not change: the surroundings of merging, the commit graph and object names. */
  datatype World = World(repo: Repo, graph: Graph, commitId: CommitRec -> Oid, treeText: Hash -> string)

  /** The repository as it is stored now. */
  function RepoOf(w: World, s: State): Repo { w.repo.(stored := s.store) }

  const ZERO: Oid := "\0\0\0\0\0\0\0\0\0\0\0\0\0\0\0\0\0\0\0\0"
  const HEAD := "HEAD"
  const MERGE_HEAD := "MERGE_HEAD"
  const MERGE_MSG := "MERGE_MSG"
  const ORIG_HEAD := "ORIG_HEAD"
  const AUTO_MERGE := "AUTO_MERGE"

  /** Names of commits are proper object names. */
  ghost predicate ProperIds(w: World) { forall c :: IsOid(w.commitId(c)) && w.commitId(c) != ZERO }

  // ---- References -----------------------------------------------------------------------------

  const MAX_HOPS := 10

  function ResolveName(refs: map<string, Ref>, name: string, hops: nat): Result<Oid, MergeError>
    decreases hops
  {
    if name !in refs then Err(UnbornHead)
    else match refs[name]
      case Direct(h) => if h == ZERO then Err(UnbornHead) else Ok(h)
      case Symbolic(t) => if hops == 0 then Err(UnbornHead) else ResolveName(refs, t, hops - 1)
  }

  function HeadOf(s: State): Result<Oid, MergeError> { ResolveName(s.refs, HEAD, MAX_HOPS) }

  /** Moves the reference that HEAD names, or a detached HEAD. */
  function WithHead(s: State, h: Oid): State
    requires HEAD in s.refs
  {
    s.(refs := s.refs[match s.refs[HEAD] { case Symbolic(t) => t case Direct(_) => HEAD } := Direct(h)])
  }

  lemma HeadMoved(s: State, h: Oid)
    requires HEAD in s.refs && h != ZERO
    ensures HeadOf(WithHead(s, h)) == Ok(h)
  {
  }

  // ---- Index and worktree ----------------------------------------------------------------------------

  function Stage(path: Path, stage: nat, leaf: Option<Leaf>): seq<IndexEntry> {
    if leaf.Some? then [IndexEntry(path, stage, leaf.value)] else []
  }

  /** The stages a path gets in the index. */
  function EntriesOf(p: OutPath): seq<IndexEntry> {
    if p.resolved.Some? then [IndexEntry(p.path, 0, p.resolved.value)]
    else Stage(p.path, 1, p.base) + Stage(p.path, 2, p.ours) + Stage(p.path, 3, p.theirs)
  }

  function IndexOfPaths(paths: seq<OutPath>): seq<IndexEntry> {
    if paths == [] then [] else IndexOfPaths(paths[..|paths| - 1]) + EntriesOf(paths[|paths| - 1])
  }

  function Names(index: seq<IndexEntry>): set<Path> { set i | 0 <= i < |index| :: index[i].path }

  function Written(paths: seq<OutPath>): set<Path> { set i | 0 <= i < |paths| && paths[i].writeFile :: paths[i].path }

  /** Indexed files that the result no longer writes, in index order and each once. */
  function StaleList(index: seq<IndexEntry>, keep: set<Path>): seq<Path> {
    if index == [] then []
    else
      var before, p := StaleList(index[..|index| - 1], keep), index[|index| - 1].path;
      if p in keep || p in before then before else before + [p]
  }

  lemma {:induction false} StaleNames(index: seq<IndexEntry>, keep: set<Path>, p: Path)
    ensures p in StaleList(index, keep) <==> p in Names(index) && p !in keep
  {
    if index != [] {
      var front := index[..|index| - 1];
      StaleNames(front, keep, p);
      assert p in Names(index) <==> p in Names(front) || p == index[|index| - 1].path by {
        assert forall i :: 0 <= i < |front| ==> front[i] == index[i];
        if p == index[|index| - 1].path { assert index[|index| - 1].path in Names(index); }
        if p in Names(front) {
          var i :| 0 <= i < |front| && front[i].path == p;
          assert index[i].path == p;
        }
      }
    }
  }

  /** Checks out a computed merge: stale files go, its files are written, the index is replaced. */
  function Materialized(repo: Repo, s: State, paths: seq<OutPath>): (State, Option<MergeError>) {
    var after := WriteAll(repo, RemoveAll(s.files, StaleList(s.index, Written(paths))), paths);
    if after.1.Some? then (s.(files := after.0), after.1)
    else (s.(files := after.0, index := IndexOfPaths(paths)), None)
  }

  /** The output for checking out one tree. */
  ghost predicate TakesTree(paths: seq<OutPath>, leaves: LeafMap) {
    && DistinctOuts(paths)
    && (forall i :: 0 <= i < |paths| ==> paths[i].path in leaves && paths[i] == Resolved(paths[i].path, leaves[paths[i].path]))
    && (forall k :: k in leaves ==> Resolved(k, leaves[k]) in paths)
  }

  /** It comes in the order of the map of leaves. */
  function TakeAmong(keys: seq<Path>, leaves: LeafMap): seq<OutPath> {
    if keys == [] then []
    else
      var k := keys[|keys| - 1];
      TakeAmong(keys[..|keys| - 1], leaves) + if k in leaves then [Resolved(k, leaves[k])] else []
  }

  function TakePaths(order: Order, leaves: LeafMap): seq<OutPath> { TakeAmong(order(leaves.Keys), leaves) }

  lemma {:induction false} TakenAmong(keys: seq<Path>, leaves: LeafMap)
    requires forall i :: 0 <= i < |keys| ==> keys[i] in leaves
    ensures |TakeAmong(keys, leaves)| == |keys|
    ensures forall i :: 0 <= i < |keys| ==> TakeAmong(keys, leaves)[i] == Resolved(keys[i], leaves[keys[i]])
  {
    if keys != [] { TakenAmong(keys[..|keys| - 1], leaves); }
  }

  lemma TakePathsTake(order: Order, leaves: LeafMap)
    ensures TakesTree(TakePaths(order, leaves), leaves)
  {
    var keys := order(leaves.Keys);
    assert Enumerates(keys, leaves.Keys);
    forall i | 0 <= i < |keys| ensures keys[i] in leaves { assert keys[i] in leaves.Keys; }
    TakenAmong(keys, leaves);
    forall k | k in leaves ensures Resolved(k, leaves[k]) in TakePaths(order, leaves) {
      var i :| 0 <= i < |keys| && keys[i] == k;
      assert TakePaths(order, leaves)[i] == Resolved(k, leaves[k]);
    }
  }

  /** A stage-0 copy of one tree. */
  function TakenTree(repo: Repo, tree: Hash): Result<TreeMerge, MergeError> {
    if Readable(repo, tree) then Ok(TreeMerge(true, TakePaths(repo.order, Files(tree)), tree, None)) else Err(ObjectNotFound)
  }

  // ---- A clean start ------------------------------------------------------------------------------------

  /** The worktree has the bytes of the leaf. */
  predicate Tracks(repo: Repo, files: FileMap, path: Path, leaf: Leaf) {
    FileAt(files, path).Some? && BlobBytes(repo, leaf.hash) == Some(FileAt(files, path).value.bytes)
  }

  ghost predicate EntryClean(repo: Repo, files: FileMap, leaves: LeafMap, e: IndexEntry) {
    e.stage == 0 && e.path in leaves && leaves[e.path] == e.leaf && (e.leaf.mode == SUBMODULE || Tracks(repo, files, e.path, e.leaf))
  }

  /** Index and worktree match the leaves of HEAD. */
  ghost predicate Clean(repo: Repo, s: State, leaves: LeafMap) {
    && (forall i :: 0 <= i < |s.index| ==> EntryClean(repo, s.files, leaves, s.index[i]))
    && (forall k :: k in leaves ==> k in Names(s.index))
  }

  // ---- Good computed merges -------------------------------------------------------------------------------

  predicate Indexed(p: OutPath) { p.resolved.Some? || p.base.Some? || p.ours.Some? || p.theirs.Some? }

  /** Every written path is in the index and has something to write; a clean result resolves every path and its tree holds
      exactly the resolved leaves. */
  ghost predicate GoodMerge(tm: TreeMerge) {
    && (forall i :: 0 <= i < |tm.paths| ==> tm.paths[i].writeFile ==> Indexed(tm.paths[i]))
    && AllSound(tm.paths)
    && (tm.clean ==> tm.markerTree == None && exists want :: LeafyMap(want) && TakesTree(tm.paths, want) && Files(tm.tree) == want)
  }

  // ---- Git files ----------------------------------------------------------------------------------------------

  ghost predicate AllOids(ids: seq<Oid>) { forall i :: 0 <= i < |ids| ==> IsOid(ids[i]) }

  function WithOrig(s: State, head: Oid): State
    requires IsOid(head)
  {
    s.(gitFiles := s.gitFiles[ORIG_HEAD := HeadText(head)])
  }

  /** The files that say a merge is in progress. */
  function Begun(s: State, head: Oid, others: seq<Oid>, message: string): State
    requires IsOid(head) && AllOids(others)
  {
    var t := WithOrig(s, head);
    t.(gitFiles := t.gitFiles[MERGE_HEAD := HeadsText(others)][MERGE_MSG := message])
  }

  function Ended(s: State): State { s.(gitFiles := s.gitFiles - {MERGE_HEAD, MERGE_MSG, AUTO_MERGE}) }

  function Aborted(s: State): State { s.(gitFiles := s.gitFiles - {MERGE_HEAD, MERGE_MSG, AUTO_MERGE, ORIG_HEAD}) }

  datatype MergeResult = MergeResult(clean: bool, commit: Option<Oid>)

  type Outcome = (State, Result<MergeResult, MergeError>)

  /** A conflicted result: stages, markers and the merge files. */
  function Conflicting(w: World, s: State, head: Oid, others: seq<Oid>, message: string, tm: TreeMerge): Outcome
    requires IsOid(head) && AllOids(others)
  {
    var m := Materialized(RepoOf(w, s), s, tm.paths);
    if m.1.Some? then (m.0, Err(m.1.value))
    else
      var t := Begun(m.0, head, others, message);
      (if tm.markerTree.Some? then t.(gitFiles := t.gitFiles[AUTO_MERGE := w.treeText(tm.markerTree.value)]) else t, Ok(MergeResult(false, None)))
  }

  /** A clean result left for the user to commit. */
  function Uncommitted(w: World, s: State, head: Oid, others: seq<Oid>, message: string, tm: TreeMerge): Outcome
    requires IsOid(head) && AllOids(others)
  {
    var m := Materialized(RepoOf(w, s), s, tm.paths);
    if m.1.Some? then (m.0, Err(m.1.value)) else (Begun(m.0, head, others, message), Ok(MergeResult(true, None)))
  }

  function WithCommit(w: World, s: State, c: CommitRec): State { s.(commits := s.commits[w.commitId(c) := c]) }

  /** A clean result with its merge commit. */
  function Committed(w: World, s: State, head: Oid, others: seq<Oid>, message: string, tm: TreeMerge, who: Option<string>): Outcome
    requires IsOid(head) && HEAD in s.refs
  {
    if who.None? then (s, Err(MissingAuthor))
    else
      var c := CommitRec(tm.tree, [head] + others, message, who.value);
      var m := Materialized(RepoOf(w, s), WithCommit(w, s, c), tm.paths);
      if m.1.Some? then (m.0, Err(m.1.value))
      else (Ended(WithHead(WithOrig(m.0, head), w.commitId(c))), Ok(MergeResult(true, Some(w.commitId(c)))))
  }

  function Applied(w: World, s: State, head: Oid, others: seq<Oid>, message: string, tm: TreeMerge, noCommit: bool, who: Option<string>): Outcome
    requires IsOid(head) && AllOids(others) && HEAD in s.refs
  {
    if !tm.clean then Conflicting(w, s, head, others, message, tm)
    else if noCommit then Uncommitted(w, s, head, others, message, tm)
    else Committed(w, s, head, others, message, tm, who)
  }

  /** Checking out an incoming commit that contains HEAD. */
  function Forwarded(w: World, s: State, head: Oid, incoming: Oid, paths: seq<OutPath>): Outcome
    requires IsOid(head) && HEAD in s.refs
  {
    var m := Materialized(RepoOf(w, s), s, paths);
    if m.1.Some? then (m.0, Err(m.1.value)) else (WithHead(WithOrig(m.0, head), incoming), Ok(MergeResult(true, None)))
  }

  // ---- Abort and continue ---------------------------------------------------------------------------------------

  function Unmerged(s: State): bool { exists i :: 0 <= i < |s.index| && s.index[i].stage != 0 }

  function AbortOutcome(w: World, s: State): (State, Result<(), MergeError>) {
    if MERGE_HEAD !in s.gitFiles then (s, Err(MergeNotInProgress))
    else if ORIG_HEAD !in s.gitFiles || ParseOneHash(s.gitFiles[ORIG_HEAD]).None? then (s, Err(CorruptMergeState))
    else
      var orig := ParseOneHash(s.gitFiles[ORIG_HEAD]).value;
      if orig !in s.commits then (s, Err(ObjectNotFound)) else AbortTo(w, s, orig)
  }

  /** Checks out the tree of `orig` and moves HEAD there. */
  function AbortTo(w: World, s: State, orig: Oid): (State, Result<(), MergeError>)
    requires orig in s.commits
  {
    var tm := TakenTree(RepoOf(w, s), s.commits[orig].tree);
    if tm.Err? then (s, Err(tm.error))
    else
      var m := Materialized(RepoOf(w, s), s, tm.value.paths);
      if m.1.Some? then (m.0, Err(m.1.value))
      else if HEAD !in s.refs then (m.0, Err(UnbornHead))
      else (Aborted(WithHead(m.0, orig)), Ok(()))
  }

  /** The items of the index. */
  function IndexItems(index: seq<IndexEntry>): seq<TreeItem> {
    seq(|index|, i requires 0 <= i < |index| => TreeItem(index[i].path, index[i].leaf))
  }

  ghost function IndexTree(index: seq<IndexEntry>): Hash { TreeFor(Sort(ItemLe, IndexItems(index)), "") }

  function StoresMore(s: State, hs: set<Hash>): State { s.(store := s.store + hs) }

  ghost function ContinueOutcome(w: World, s: State, message: Option<string>, who: Option<string>): (State, Result<Oid, MergeError>) {
    if MERGE_HEAD !in s.gitFiles then (s, Err(MergeNotInProgress))
    else if MERGE_MSG !in s.gitFiles then (s, Err(CorruptMergeState))
    else if Unmerged(s) then (s, Err(UnmergedPaths))
    else
      var t := StoresMore(s, TreesFor(Sort(ItemLe, IndexItems(s.index)), ""));
      if HeadOf(s).Err? then (t, Err(HeadOf(s).error))
      else
        match ParseLines(Lines(s.gitFiles[MERGE_HEAD]))
        case None => (t, Err(CorruptMergeState))
        case Some(heads) =>
          if heads == [] then (t, Err(CorruptMergeState))
          else if who.None? then (t, Err(MissingAuthor))
          else
            var c := CommitRec(IndexTree(s.index), [HeadOf(s).value] + heads, if message.Some? then message.value else s.gitFiles[MERGE_MSG], who.value);
            (Ended(WithHead(WithCommit(w, t, c), w.commitId(c))), Ok(w.commitId(c)))
  }

  /** The tree of an index of distinct paths holds exactly its entries. */
  lemma IndexTreeLaw(index: seq<IndexEntry>)
    requires DistinctItems(IndexItems(index)) && Leafy(IndexItems(index))
    ensures Canonical(IndexTree(index)) && Files(IndexTree(index)) == ItemMap(Sort(ItemLe, IndexItems(index)))
  {
    hide Canonical, TreeFor;
    var items := IndexItems(index);
    ItemsSorted(items);
    SortKeeps(ItemLe, items);
    forall i | 0 <= i < |Sort(ItemLe, items)| ensures Sort(ItemLe, items)[i].leaf.mode != DIR { assert Sort(ItemLe, items)[i] in items; }
    StoreThenWalk(Sort(ItemLe, items));
  }
}
