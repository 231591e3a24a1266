/** Whole merges: what some of them are sure to do, from the state before to the state after. */
module MergeWhole {
  import opened Wrappers
  import opened Leaves
  import opened Trees
  import opened Align
  import opened Decide
  import opened Engine
  import opened MergeLaws
  import opened Octopus
  import opened MergeFiles
  import opened Checkout
  import opened MergeState
  import opened MergePlan
  import opened MergeRuns
  import opened MergeUndo
  import opened MergeErrors

  // ---- Checkouts that are sure to break ------------------------------------------------------------

  /** Once a stale file was removed the files differ, wherever writing stops. */
  lemma StaleTouches(repo: Repo, s: State, paths: seq<OutPath>, i: nat, k: Path)
    requires i < |paths| && FileAt(s.files, k).Some? && k in StaleOf(s, paths)
    ensures !Untouched(repo, s.files, StaleOf(s, paths), paths, i)
  {
    hide FileAt, WithParents, RemoveAll;
    RemovedFile(s.files, StaleOf(s, paths), k);
    ParentsFile(LeftOf(s, paths), paths[i].path, k);
  }

  lemma StuckBreaks(repo: Repo, s: State, paths: seq<OutPath>, i: nat, k: Path)
    requires StuckAt(repo, LeftOf(s, paths), paths, i) && FileAt(s.files, k).Some? && k in StaleOf(s, paths)
    ensures HalfDone(repo, s, paths)
  {
    hide StuckAt, Untouched;
    var first := SomeFirst(repo, LeftOf(s, paths), paths, i);
    StuckIndex(repo, LeftOf(s, paths), paths, first);
    StaleTouches(repo, s, paths, first, k);
  }

  /** A tracked file that the tree does not have. */
  ghost predicate Dropped(s: State, leaves: LeafMap, k: Path) {
    FileAt(s.files, k).Some? && k in Names(s.index) && !IsRegular(leaves, k)
  }

  lemma DroppedStale(s: State, paths: seq<OutPath>, leaves: LeafMap, k: Path)
    requires TakesTree(paths, leaves) && Dropped(s, leaves, k)
    ensures k in StaleOf(s, paths)
  {
    TakenKept(paths, leaves, k);
    StaleNames(s.index, Written(paths), k);
  }

  /** A file of the tree that is missing from the store. */
  lemma MissingStuck(repo: Repo, files: FileMap, paths: seq<OutPath>, leaves: LeafMap, p: Path) returns (i: nat)
    requires TakesTree(paths, leaves) && IsRegular(leaves, p) && BlobBytes(repo, leaves[p].hash).None?
    ensures StuckAt(repo, files, paths, i)
  {
    i :| 0 <= i < |paths| && paths[i] == Resolved(p, leaves[p]);
  }

  /** Below the path of a file of the tree there is a directory, with something tracked in it. */
  ghost predicate Nested(s: State, p: Path, c: Path, k: Path) {
    ParentDir(c) == Some(p) && Within(k, c) && k in s.files && c !in Names(s.index)
  }

  lemma NestedStuck(repo: Repo, s: State, paths: seq<OutPath>, leaves: LeafMap, p: Path, c: Path, k: Path) returns (i: nat)
    requires Tidy(s.files) && TakesTree(paths, leaves) && IsRegular(leaves, p) && Nested(s, p, c, k)
    ensures StuckAt(repo, LeftOf(s, paths), paths, i)
  {
    i :| 0 <= i < |paths| && paths[i] == Resolved(p, leaves[p]);
    var left := LeftOf(s, paths);
    TidyRooted(s.files);
    OnTheWay(s.files, k, c);
    StaleNames(s.index, Written(paths), c);
    RemovedKeeps(s.files, StaleOf(s, paths), c);
    RemovedKeeps(s.files, StaleOf(s, paths), p);
    assert c in left && HasChild(left, p);
    assert s.files[p].Folder?;
    assert FileAt(left, p).None?;
    assert !WrittenBefore(paths, i, p);
  }

  /** Moving forward to a commit with a file that is missing from the store always breaks half way
      when a tracked file has to go. */
  lemma MissingBreaks(w: World, s: State, other: Oid, p: Path, k: Path)
    requires HeadOf(s).Ok? && IsOid(HeadOf(s).value) && HEAD in s.refs && other in s.commits && Tidy(s.files)
    requires Readable(RepoOf(w, s), s.commits[other].tree)
    requires var leaves := Files(s.commits[other].tree);
             Dropped(s, leaves, k) && IsRegular(leaves, p) && BlobBytes(RepoOf(w, s), leaves[p].hash).None?
    ensures var (t, r) := ForwardOutcome(w, s, other); r.Err? && t.files != s.files
  {
    hide StuckAt, HalfDone, Tidy, Readable, TakesTree, IsRegular, ForwardOutcome, Dropped;
    var repo, leaves := RepoOf(w, s), Files(s.commits[other].tree);
    var paths := TakePaths(repo.order, leaves);
    TakePathsTake(repo.order, leaves);
    DroppedStale(s, paths, leaves, k);
    DroppedFile(s, leaves, k);
    var i := MissingStuck(repo, LeftOf(s, paths), paths, leaves, p);
    StuckBreaks(repo, s, paths, i, k);
    ForwardErrors(w, s, other);
  }

  lemma DroppedFile(s: State, leaves: LeafMap, k: Path)
    requires Dropped(s, leaves, k)
    ensures FileAt(s.files, k).Some?
  {
  }

  /** Moving forward to a commit that has a file where a directory with subdirectories is tracked
      always breaks half way: the tracked files go, but their directories stay in the way. */
  lemma ReplacedDirectoryBreaks(w: World, s: State, other: Oid, p: Path, c: Path, k: Path)
    requires HeadOf(s).Ok? && IsOid(HeadOf(s).value) && HEAD in s.refs && other in s.commits && Tidy(s.files)
    requires Readable(RepoOf(w, s), s.commits[other].tree)
    requires var leaves := Files(s.commits[other].tree); Dropped(s, leaves, k) && IsRegular(leaves, p) && Nested(s, p, c, k)
    ensures var (t, r) := ForwardOutcome(w, s, other); r.Err? && t.files != s.files
  {
    hide StuckAt, HalfDone, Tidy, Readable, TakesTree, IsRegular, ForwardOutcome, Dropped, Nested;
    var repo, leaves := RepoOf(w, s), Files(s.commits[other].tree);
    var paths := TakePaths(repo.order, leaves);
    TakePathsTake(repo.order, leaves);
    DroppedStale(s, paths, leaves, k);
    DroppedFile(s, leaves, k);
    var i := NestedStuck(repo, s, paths, leaves, p, c, k);
    StuckBreaks(repo, s, paths, i, k);
    ForwardErrors(w, s, other);
  }

  /** Aborting always breaks half way when the merge put a directory with subdirectories where HEAD
      has a file. */
  lemma AbortStrands(w: World, s: State, head: Oid, p: Path, c: Path, k: Path)
    requires HEAD in s.refs && MERGE_HEAD in s.gitFiles && ORIG_HEAD in s.gitFiles && ParseOneHash(s.gitFiles[ORIG_HEAD]) == Some(head)
    requires head in s.commits && Readable(RepoOf(w, s), s.commits[head].tree) && Tidy(s.files)
    requires var leaves := Files(s.commits[head].tree); Dropped(s, leaves, k) && IsRegular(leaves, p) && Nested(s, p, c, k)
    ensures var (t, r) := AbortOutcome(w, s); r.Err? && t.files != s.files
  {
    hide StuckAt, HalfDone, Tidy, Readable, TakesTree, IsRegular, AbortOutcome, Dropped, Nested, ParseOneHash;
    var repo, leaves := RepoOf(w, s), Files(s.commits[head].tree);
    var paths := TakePaths(repo.order, leaves);
    TakePathsTake(repo.order, leaves);
    DroppedStale(s, paths, leaves, k);
    DroppedFile(s, leaves, k);
    var i := NestedStuck(repo, s, paths, leaves, p, c, k);
    StuckBreaks(repo, s, paths, i, k);
    AbortErrorsExactly(w, s, head);
  }

  // ---- One that breaks, from beginning to end -----------------------------------------------------

  const OLD: Oid := "aaaaaaaaaaaaaaaaaaaa"
  const NEW: Oid := "bbbbbbbbbbbbbbbbbbbb"
  const Inner := Tree([TreeEntry("x", REGULAR, Blob("x"))])
  const Middle := Tree([TreeEntry("e", DIR, Inner)])
  const OldTree := Tree([TreeEntry("d", DIR, Middle)])
  const NewTree := Tree([TreeEntry("d", REGULAR, Blob("y"))])

  /** HEAD tracks `d/e/x` and nothing else is there; the next commit has a file `d` instead. */
  const Before := State(
    map[HEAD := Direct(OLD)], map[], [IndexEntry("d/e/x", 0, X)],
    map["d" := Folder, "d/e" := Folder, "d/e/x" := WFile(false, "x")],
    map[OLD := CommitRec(OldTree, [], "", ""), NEW := CommitRec(NewTree, [OLD], "", "")],
    {Inner, Middle, OldTree, NewTree, Blob("x"), Blob("y")})

  const Usual := Options(None, Allow, None, false, false, true, true, true, 50, true, None, None, None)

  lemma ExampleTrees(repo: Repo)
    requires repo.stored == Before.store
    ensures Readable(repo, OldTree) && Readable(repo, NewTree)
    ensures Files(OldTree) == map["d/e/x" := X] && Files(NewTree) == map["d" := Y]
  {
    assert WholeUpTo(repo, Inner, 0) && WholeUpTo(repo, Inner, 1) && Whole(repo, Inner);
    assert WholeUpTo(repo, Middle, 0) && WholeUpTo(repo, Middle, 1) && Whole(repo, Middle);
    assert WholeUpTo(repo, OldTree, 0) && WholeUpTo(repo, OldTree, 1);
    assert WholeUpTo(repo, NewTree, 0) && WholeUpTo(repo, NewTree, 1);
    assert "" + "d" + "/" == "d/" && "d/" + "e" + "/" == "d/e/" && "d/e/" + "x" == "d/e/x" && "" + "d" == "d";
    assert FilesUpTo(Inner, 0, "d/e/") == map[] && FilesUpTo(Inner, 1, "d/e/") == map["d/e/x" := X];
    assert FilesUpTo(Middle, 0, "d/") == map[] && FilesUpTo(Middle, 1, "d/") == map["d/e/x" := X];
    assert FilesUpTo(OldTree, 0, "") == map[] && FilesUpTo(NewTree, 0, "") == map[];
    assert EntryFiles(OldTree, 0, "") == map["d/e/x" := X] && EntryFiles(NewTree, 0, "") == map["d" := Y];
    assert FilesUpTo(OldTree, 1, "") == map["d/e/x" := X] && FilesUpTo(NewTree, 1, "") == map["d" := Y];
  }

  lemma ExampleDirs()
    ensures ParentDir("d") == None && ParentDir("d/e") == Some("d") && ParentDir("d/e/x") == Some("d/e")
    ensures Tidy(Before.files) && Within("d/e/x", "d/e")
  {
    assert LastSlash("d", 0) == LastSlash("d", 1) == None;
    assert LastSlash("d/e", 2) == Some(1) && LastSlash("d/e", 3) == Some(1) && "d/e"[..1] == "d";
    assert LastSlash("d/e/x", 4) == Some(3) && LastSlash("d/e/x", 5) == Some(3) && "d/e/x"[..3] == "d/e";
  }

  lemma ExamplePlan(w: World)
    requires w.repo.ancestor(Commit(OLD), Commit(NEW)) == Some(true)
    ensures Plan(w, Before, [NEW], Usual) == Ok(Forward) && HeadOf(Before) == Ok(OLD) && IsOid(OLD) && IsOid(NEW) && Named(Before)
  {
    hide AfterHead;
    ExampleHead(w);
    assert [NEW][0] == NEW && OLD[0] != ZERO[0];
    assert Refusal(Ort, [NEW], Usual).None? && HeadOf(Before) == Ok(OLD);
  }

  lemma ExampleHead(w: World)
    requires w.repo.ancestor(Commit(OLD), Commit(NEW)) == Some(true)
    ensures AfterHead(w, Before, OLD, Ort, [NEW], Usual) == Ok(Forward)
  {
    hide Readable, Dirt, Relations;
    ExampleTrees(RepoOf(w, Before));
    ExampleClean(w);
    ExampleRelation(w);
    assert [NEW][0] == NEW;
    assert HeadLeaves(w, Before, OLD) == Ok(map["d/e/x" := X]);
    assert UpToDate([CanForward]) == false by { assert ![CanForward][0].Equal? && ![CanForward][0].Contained?; }
    assert Chosen(Ort, Allow, [CanForward]) == Ok(Forward);
  }

  lemma ExampleClean(w: World)
    ensures Dirt(w, Before, map["d/e/x" := X]).None?
  {
    var leaves := map["d/e/x" := X];
    assert Before.index[..0] == [];
    assert FileDirt(RepoOf(w, Before), Before.files, "d/e/x", X).None?;
    assert FirstDirt(RepoOf(w, Before), Before.files, leaves, Before.index).None?;
    assert Before.index[0].path in Names(Before.index);
  }

  lemma ExampleRelation(w: World)
    requires w.repo.ancestor(Commit(OLD), Commit(NEW)) == Some(true)
    ensures Relations(w, OLD, [NEW]) == Ok([CanForward])
  {
    assert OLD[0] != NEW[0];
    assert Relation(w, OLD, NEW) == Ok(CanForward);
    assert [NEW][..0] == [] && Relations(w, OLD, []) == Ok([]);
    assert [NEW][|[NEW]| - 1] == NEW && [] + [CanForward] == [CanForward];
  }

  /** A plain merge of that commit fails half way: `d/e/x` is gone and nothing took its place. */
  lemma HalfWritten(w: World)
    requires w.repo.ancestor(Commit(OLD), Commit(NEW)) == Some(true)
    ensures Named(Before) && AllOids([NEW])
    ensures var (t, r) := MergeOutcome(w, Before, [NEW], Usual, None); r.Err? && t.files != Before.files && OnlyFiles(Before, t)
  {
    hide Plan, ForwardOutcome, Readable;
    ExamplePlan(w);
    ExampleTrees(RepoOf(w, Before));
    ExampleDirs();
    assert Before.index[0].path == "d/e/x" && Names(Before.index) == {"d/e/x"};
    assert [NEW][0] == NEW;
    ReplacedDirectoryBreaks(w, Before, NEW, "d", "d/e", "d/e/x");
    ErrorsExactly(w, Before, [NEW], Usual, None);
  }

  // ---- Merges that commit ----------------------------------------------------------------------------

  /** Index and worktree after a tree was checked out over a state: the index is the tree, tracked
      files that it does not have are gone, and untracked ones are as they were. */
  ghost predicate ShowsTree(s: State, want: LeafMap, t: State) {
    && (forall e: IndexEntry :: e in t.index <==> e.stage == 0 && e.path in want && e.leaf == want[e.path])
    && (forall k :: FileShows(s, want, t, k))
  }

  ghost predicate FileShows(s: State, want: LeafMap, t: State, k: Path) {
    var f := FileAt(t.files, k);
    if IsRegular(want, k) then f.Some? && Blob(f.value.bytes) == want[k].hash && (f.value.link <==> want[k].mode == SYMLINK)
    else f == if k in Names(s.index) then None else FileAt(s.files, k)
  }

  /** The state after a merge commit of a computed result. */
  ghost predicate CommittedResult(w: World, s: State, head: Oid, heads: seq<Oid>, message: string, who: string, tree: Hash, want: LeafMap, t: State, id: Oid) {
    && id == w.commitId(CommitRec(tree, [head] + heads, message, who))
    && t.commits == s.commits[id := CommitRec(tree, [head] + heads, message, who)] && HeadOf(t) == Ok(id)
    && ShowsTree(s, want, t) && MERGE_HEAD !in t.gitFiles && MERGE_MSG !in t.gitFiles
  }

  lemma WantedIndex(paths: seq<OutPath>, want: LeafMap)
    requires TakesTree(paths, want)
    ensures forall e: IndexEntry :: e in IndexOfPaths(paths) <==> e.stage == 0 && e.path in want && e.leaf == want[e.path]
  {
    CleanIndex(paths);
    var index := IndexOfPaths(paths);
    forall e: IndexEntry | e.stage == 0 && e.path in want && e.leaf == want[e.path] ensures e in index {
      assert Resolved(e.path, want[e.path]) in paths;
      var i :| 0 <= i < |paths| && paths[i] == Resolved(e.path, want[e.path]);
      assert index[i] == e;
    }
  }

  lemma WantedFile(repo: Repo, files: FileMap, paths: seq<OutPath>, want: LeafMap, k: Path)
    requires TakesTree(paths, want) && IsRegular(want, k) && WriteAll(repo, files, paths).1.None?
    ensures var f := FileAt(WriteAll(repo, files, paths).0, k);
            f.Some? && Blob(f.value.bytes) == want[k].hash && (f.value.link <==> want[k].mode == SYMLINK)
  {
    hide WriteAll;
    var i :| 0 <= i < |paths| && paths[i] == Resolved(k, want[k]);
    WriteAt(repo, files, paths, i);
  }

  lemma CheckedOut(repo: Repo, s: State, paths: seq<OutPath>, want: LeafMap)
    requires TakesTree(paths, want) && Materialized(repo, s, paths).1.None?
    ensures ShowsTree(s, want, Materialized(repo, s, paths).0)
  {
    hide WriteAll, RemoveAll, TakesTree, FileAt, IndexOfPaths, Names, Written;
    WantedIndex(paths, want);
    var t, left := Materialized(repo, s, paths).0, LeftOf(s, paths);
    forall k ensures FileShows(s, want, t, k) {
      TakenKept(paths, want, k);
      if IsRegular(want, k) {
        WantedFile(repo, left, paths, want, k);
      } else {
        WriteElsewhere(repo, left, paths, k);
        RemovedFile(s.files, StaleOf(s, paths), k);
        StaleNames(s.index, Written(paths), k);
      }
    }
  }

  /** A clean result that can be checked out is committed: its tree, HEAD and the heads as parents,
      its files in index and worktree. */
  lemma CommitsResult(w: World, s: State, heads: seq<Oid>, opts: Options, who: Option<string>, skipShift: bool, want: LeafMap)
    requires Named(s) && ProperIds(w) && AllOids(heads) && Tidy(s.files) && Plan(w, s, heads, opts) == Ok(Compute(skipShift))
    requires !opts.noCommit && who.Some? && heads != [] && Known(s, heads)
    requires var c := ComputeOf(w, s, HeadOf(s).value, heads, StrategyOf(opts, heads), opts, skipShift);
             IsClean(c.r) && TakesTree(c.r.value.paths, want) && !Stuck(c.repo, s, c.r.value.paths)
    ensures var (t, r) := MergeOutcome(w, s, heads, opts, who);
            var tm := ComputeOf(w, s, HeadOf(s).value, heads, StrategyOf(opts, heads), opts, skipShift).r.value;
            && r.Ok? && r.value.clean && r.value.commit.Some?
            && CommittedResult(w, s, HeadOf(s).value, heads, MessageFor(opts.message, heads), who.value, tm.tree, want, t, r.value.commit.value)
  {
    hide Plan, ComputeOf, Materialized, Tidy, GoodMerge, Stuck, TakesTree, HeadText;
    var head := HeadOf(s).value;
    PlanKnown(w, s, heads, opts);
    var c := ComputeOf(w, s, head, heads, StrategyOf(opts, heads), opts, skipShift);
    ComputedGood(w, s, head, heads, StrategyOf(opts, heads), opts, skipShift);
    ComputeExtends(w, s, head, heads, StrategyOf(opts, heads), opts, skipShift);
    GoodSound(c.r.value);
    MaterialExactly(c.repo, s, c.r.value.paths);
    CommittedState(w, s, c.repo, head, heads, MessageFor(opts.message, heads), c.r.value, who.value, want);
  }

  lemma CommittedState(w: World, s: State, repo: Repo, head: Oid, heads: seq<Oid>, message: string, tm: TreeMerge, who: string, want: LeafMap)
    requires IsOid(head) && HEAD in s.refs && ProperIds(w) && repo == w.repo.(stored := repo.stored)
    requires TakesTree(tm.paths, want) && Materialized(repo, s, tm.paths).1.None?
    ensures var (t, r) := Committed(w, s.(store := repo.stored), head, heads, message, tm, Some(who));
            r.Ok? && r.value.clean && r.value.commit.Some? && CommittedResult(w, s, head, heads, message, who, tm.tree, want, t, r.value.commit.value)
  {
    hide Materialized, TakesTree, HeadText, ShowsTree;
    var c := CommitRec(tm.tree, [head] + heads, message, who);
    var start := WithCommit(w, s.(store := repo.stored), c);
    assert RepoOf(w, s.(store := repo.stored)) == repo;
    SameCheckout(repo, s, start, tm.paths);
    var m := Materialized(repo, start, tm.paths).0;
    HeadMoved(WithOrig(m, head), w.commitId(c));
    CheckedOut(repo, s, tm.paths, want);
    SameShown(s, want, Materialized(repo, s, tm.paths).0, Ended(WithHead(WithOrig(m, head), w.commitId(c))));
  }

  lemma SameShown(s: State, want: LeafMap, t: State, u: State)
    requires ShowsTree(s, want, t) && u.files == t.files && u.index == t.index
    ensures ShowsTree(s, want, u)
  {
    forall k ensures FileShows(s, want, u, k) { assert FileShows(s, want, t, k); }
  }

  /** A fast-forward that is not stuck moves HEAD to the incoming commit with its tree checked out
      and HEAD's old commit recorded; nothing is committed. */
  lemma ForwardsTo(w: World, s: State, other: Oid, opts: Options, who: Option<string>)
    requires Named(s) && IsOid(other) && other != ZERO && Tidy(s.files) && Plan(w, s, [other], opts) == Ok(Forward) && Known(s, [other]) && other in s.commits
    requires Readable(RepoOf(w, s), s.commits[other].tree) && !Stuck(RepoOf(w, s), s, TakePaths(w.repo.order, Files(s.commits[other].tree)))
    ensures var (t, r) := MergeOutcome(w, s, [other], opts, who);
            && r == Ok(MergeResult(true, None)) && HeadOf(t) == Ok(other) && ShowsTree(s, Files(s.commits[other].tree), t)
            && t.commits == s.commits && t.store == s.store && ORIG_HEAD in t.gitFiles
            && ParseOneHash(t.gitFiles[ORIG_HEAD]) == Some(HeadOf(s).value) && t.gitFiles - {ORIG_HEAD} == s.gitFiles - {ORIG_HEAD}
  {
    hide Plan, Materialized, TakesTree, HeadText, ShowsTree, Tidy, Stuck, Readable, GoodMerge, ParseOneHash, TakePaths;
    assert [other][0] == other;
    var repo, head, want := RepoOf(w, s), HeadOf(s).value, Files(s.commits[other].tree);
    var paths := TakePaths(repo.order, want);
    TakenGood(repo, s.commits[other].tree);
    GoodSound(TakenTree(repo, s.commits[other].tree).value);
    MaterialExactly(repo, s, paths);
    CheckedOut(repo, s, paths, want);
    var m := Materialized(repo, s, paths).0;
    MaterializedKeeps(repo, s, paths);
    HeadMoved(WithOrig(m, head), other);
    OneHashBack(head);
    SameShown(s, want, m, WithHead(WithOrig(m, head), other));
  }

  lemma TookTakes(tm: TreeMerge, want: LeafMap)
    requires Took(tm, want)
    ensures TakesTree(tm.paths, want)
  {
  }

  /** Merging a commit into a HEAD whose tree is that of the merge base is clean exactly when HEAD's
      attributes can be read and no path of the incoming tree, nor of the base unless the incoming
      side renamed it away, is a directory of another; it then commits the incoming tree itself. */
  lemma UnchangedHeadCommits(w: World, s: State, other: Oid, opts: Options, who: Option<string>, skipShift: bool, base: CommitObj)
    requires Named(s) && ProperIds(w) && IsOid(other) && Tidy(s.files) && Plan(w, s, [other], opts) == Ok(Compute(skipShift))
    requires Known(s, [other]) && ThreeWayStrategy(StrategyOf(opts, [other])) && (StrategyOf(opts, [other]).Subtree? ==> skipShift)
    requires w.graph.mergeBase(Commit(HeadOf(s).value), Commit(other)) == Ok([base]) && other in s.commits
    requires Readable(RepoOf(w, s), base.tree) && Readable(RepoOf(w, s), s.commits[other].tree) && Canonical(s.commits[other].tree)
    requires Readable(RepoOf(w, s), s.commits[HeadOf(s).value].tree) && Files(base.tree) == Files(s.commits[HeadOf(s).value].tree)
    ensures var c := ComputeOf(w, s, HeadOf(s).value, [other], StrategyOf(opts, [other]), opts, skipShift);
            var x := TreesInput(RepoOf(w, s), SpecOf(opts, StrategyOf(opts, [other]), [other]), base.tree, s.commits[HeadOf(s).value].tree, s.commits[other].tree);
            && (IsClean(c.r) <==> LoadAttrs(RepoOf(w, s), x.ours).Ok? && PrefixFree(UnionPaths(x.base, x.theirs, x.tRen)))
            && (IsClean(c.r) ==> c.r.value.tree == s.commits[other].tree)
            && (IsClean(c.r) && !opts.noCommit && who.Some? && !Stuck(c.repo, s, c.r.value.paths) ==>
                var (t, r) := MergeOutcome(w, s, [other], opts, who);
                && r.Ok? && r.value.commit.Some?
                && CommittedResult(w, s, HeadOf(s).value, [other], MessageFor(opts.message, [other]), who.value, s.commits[other].tree, x.theirs, t, r.value.commit.value))
  {
    hide Plan, MergeOutcome, Stuck, Tidy, Canonical, MergedTrees, Took, PrefixFree, SpecOf, LoadAttrs, TakesTree, CommittedResult, Named, ProperIds;
    var head, heads, strategy := HeadOf(s).value, [other], StrategyOf(opts, [other]);
    var repo, spec := RepoOf(w, s), SpecOf(opts, strategy, heads);
    UnchangedTree(repo, spec, base.tree, s.commits[head].tree, s.commits[other].tree);
    OneBaseResult(w, s, head, other, strategy, opts, skipShift, base);
    var c := ComputeOf(w, s, head, heads, strategy, opts, skipShift);
    if IsClean(c.r) && !opts.noCommit && who.Some? && !Stuck(c.repo, s, c.r.value.paths) {
      TookTakes(c.r.value, Files(s.commits[other].tree));
      CommitsResult(w, s, heads, opts, who, skipShift, Files(s.commits[other].tree));
    }
  }

  /** With one merge base a three-way strategy merges its tree, HEAD's and the incoming one. */
  lemma OneBaseResult(w: World, s: State, head: Oid, other: Oid, strategy: Strategy, opts: Options, skipShift: bool, base: CommitObj)
    requires head in s.commits && other in s.commits && IsOid(other) && ThreeWayStrategy(strategy) && (strategy.Subtree? ==> skipShift)
    requires w.graph.mergeBase(Commit(head), Commit(other)) == Ok([base])
    ensures ComputeOf(w, s, head, [other], strategy, opts, skipShift)
         == MergedTrees(RepoOf(w, s), SpecOf(opts, strategy, [other]), base.tree, s.commits[head].tree, s.commits[other].tree)
  {
    hide MergedTrees, SpecOf;
    assert [other][0] == other && AllOids([other]);
    assert [base][0] == base && |[base]| == 1;
  }

  /** The strategy that keeps ours records the heads as merged and leaves HEAD's tree as it is. */
  lemma KeepOursCommits(w: World, s: State, heads: seq<Oid>, opts: Options, who: Option<string>, skipShift: bool)
    requires Named(s) && ProperIds(w) && AllOids(heads) && Tidy(s.files) && Plan(w, s, heads, opts) == Ok(Compute(skipShift))
    requires heads != [] && Known(s, heads) && StrategyOf(opts, heads).KeepOurs? && !opts.noCommit && who.Some?
    requires LabelError(w, HeadOf(s).value, heads).None? && !Stuck(RepoOf(w, s), s, TakePaths(w.repo.order, Files(s.commits[HeadOf(s).value].tree)))
    ensures var (t, r) := MergeOutcome(w, s, heads, opts, who);
            var head := HeadOf(s).value;
            && r.Ok? && r.value.clean && r.value.commit.Some? && t.store == s.store
            && CommittedResult(w, s, head, heads, MessageFor(opts.message, heads), who.value, s.commits[head].tree, Files(s.commits[head].tree), t, r.value.commit.value)
  {
    hide Plan, Stuck, Tidy, TakesTree, CommittedResult, Named, ProperIds, LabelError, SpecOf, Readable, GoodMerge, MessageFor, Materialized, HeadText;
    var head, repo := HeadOf(s).value, RepoOf(w, s);
    PlanKnown(w, s, heads, opts);
    TakenGood(repo, s.commits[head].tree);
    CommitsResult(w, s, heads, opts, who, skipShift, Files(s.commits[head].tree));
    MaterializedKeeps(repo, WithCommit(w, s, CommitRec(s.commits[head].tree, [head] + heads, MessageFor(opts.message, heads), who.value)), TakePaths(repo.order, Files(s.commits[head].tree)));
  }

  /** Merging several heads that share one base tree with HEAD fails, changing no more than the
      store, exactly when the heads disagree at some path or at some step a path is a directory
      of another; otherwise it commits the base with their changes. */
  lemma OctopusCommits(w: World, s: State, heads: seq<Oid>, opts: Options, who: Option<string>, skipShift: bool, base: Hash)
    requires Named(s) && ProperIds(w) && AllOids(heads) && Tidy(s.files) && Plan(w, s, heads, opts) == Ok(Compute(skipShift))
    requires heads != [] && Known(s, heads) && StrategyOf(opts, heads).Many? && LabelError(w, HeadOf(s).value, heads).None?
    requires SharedBase(RepoOf(w, s), w.graph, SpecOf(opts, Many, heads), Object(s, HeadOf(s).value), Objects(s, heads), base)
    ensures var c := ComputeOf(w, s, HeadOf(s).value, heads, Many, opts, skipShift);
            var maps := TreeMaps(Object(s, HeadOf(s).value), Objects(s, heads));
            var (t, r) := MergeOutcome(w, s, heads, opts, who);
            && (r == Err(OctopusConflict) <==> !(Compatible(Files(base), maps) && FlatSteps(Files(base), maps)))
            && (r == Err(OctopusConflict) ==> t == s.(store := t.store))
            && (Compatible(Files(base), maps) && FlatSteps(Files(base), maps) ==>
                && IsClean(c.r)
                && (!opts.noCommit && who.Some? && !Stuck(c.repo, s, c.r.value.paths) ==>
                    && r.Ok? && r.value.commit.Some?
                    && CommittedResult(w, s, HeadOf(s).value, heads, MessageFor(opts.message, heads), who.value, c.r.value.tree, Fold(Files(base), maps), t, r.value.commit.value)))
  {
    hide Plan, Stuck, Tidy, Took, SpecOf, TakesTree, CommittedResult, OctopusOf, SharedBase, Compatible, FlatSteps, Fold, Applied, Named, ProperIds, LabelError;
    var head, repo := HeadOf(s).value, RepoOf(w, s);
    PlanKnown(w, s, heads, opts);
    OctopusLaw(repo, w.graph, SpecOf(opts, Many, heads), Object(s, head), Objects(s, heads), base);
    var c := ComputeOf(w, s, head, heads, Many, opts, skipShift);
    var maps := TreeMaps(Object(s, head), Objects(s, heads));
    if c.r.Ok? {
      CleanTook(c.r.value, Fold(Files(base), maps));
      TookTakes(c.r.value, Fold(Files(base), maps));
      NoOctopusError(w, s.(store := c.repo.stored), head, heads, MessageFor(opts.message, heads), c.r.value, opts.noCommit, who);
      if !opts.noCommit && who.Some? && !Stuck(c.repo, s, c.r.value.paths) { CommitsResult(w, s, heads, opts, who, skipShift, Fold(Files(base), maps)); }
    }
  }

  lemma CleanTook(tm: TreeMerge, want: LeafMap)
    requires Took(tm, want)
    ensures tm.clean
  {
  }

  lemma NoOctopusError(w: World, s: State, head: Oid, heads: seq<Oid>, message: string, tm: TreeMerge, noCommit: bool, who: Option<string>)
    requires IsOid(head) && AllOids(heads) && HEAD in s.refs
    ensures Applied(w, s, head, heads, message, tm, noCommit, who).1 != Err(OctopusConflict)
  {
    hide WriteAll, RemoveAll, HeadText, HeadsText, IndexOfPaths;
    WriteErrors(RepoOf(w, s), LeftOf(s, tm.paths), tm.paths);
    if who.Some? {
      SameCheckout(RepoOf(w, s), s, WithCommit(w, s, CommitRec(tm.tree, [head] + heads, message, who.value)), tm.paths);
    }
  }
}
