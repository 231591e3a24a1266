/** What continuing and aborting give right after a merge, and what a failed merge leaves behind. */
module MergeUndo {
  import opened Wrappers
  import opened Sorting
  import opened Leaves
  import opened Trees
  import opened Decide
  import opened Engine
  import opened MergeLaws
  import opened Octopus
  import opened MergeFiles
  import opened Checkout
  import opened MergeState
  import opened MergePlan
  import opened MergeRuns

  // ---- Files and index entries ---------------------------------------------------------------------

  /** What is not written changes at most from nothing to a directory. */
  lemma {:induction false} WriteElsewhere(repo: Repo, files: FileMap, paths: seq<OutPath>, k: Path)
    requires k !in Written(paths)
    ensures FileAt(WriteAll(repo, files, paths).0, k) == FileAt(files, k)
  {
    hide WriteOne;
    if paths != [] {
      var front, p := paths[..|paths| - 1], paths[|paths| - 1];
      assert forall i :: 0 <= i < |front| ==> front[i] == paths[i];
      assert p.writeFile ==> p.path in Written(paths);
      WriteElsewhere(repo, files, front, k);
      OneElsewhere(repo, WriteAll(repo, files, front).0, p, k);
    }
  }

  lemma OneElsewhere(repo: Repo, files: FileMap, p: OutPath, k: Path)
    requires p.writeFile ==> k != p.path
    ensures FileAt(WriteOne(repo, files, p).0, k) == FileAt(files, k)
  {
    hide FileFor;
    if p.writeFile {
      var ready := WithParents(files, p.path);
      ParentsFile(files, p.path, k);
      ParentsFile(Removed(ready, p.path), p.path, k);
    }
  }

  lemma {:induction false} WriteAt(repo: Repo, files: FileMap, paths: seq<OutPath>, i: nat)
    requires DistinctOuts(paths) && i < |paths| && WriteAll(repo, files, paths).1.None? && paths[i].writeFile && Sound(paths[i])
    ensures FileFor(repo, paths[i]) == Ok(FileAt(WriteAll(repo, files, paths).0, paths[i].path))
  {
    hide WriteOne, FileFor;
    var front, last := paths[..|paths| - 1], paths[|paths| - 1];
    if i < |paths| - 1 {
      WriteAt(repo, files, front, i);
      OneElsewhere(repo, WriteAll(repo, files, front).0, last, paths[i].path);
    } else {
      OneWritten(repo, WriteAll(repo, files, front).0, last);
    }
  }

  lemma OneWritten(repo: Repo, files: FileMap, p: OutPath)
    requires p.writeFile && Sound(p) && WriteOne(repo, files, p).1.None?
    ensures FileFor(repo, p) == Ok(FileAt(WriteOne(repo, files, p).0, p.path))
  {
    hide FileFor;
    SoundWrites(repo, p);
  }

  lemma {:induction false} IndexNames(paths: seq<OutPath>, k: Path)
    ensures k in Names(IndexOfPaths(paths)) <==> exists i :: 0 <= i < |paths| && paths[i].path == k && Indexed(paths[i])
  {
    hide Names, Indexed, EntriesOf;
    if paths == [] {
      NoNames(k);
    } else {
      var front, p := paths[..|paths| - 1], paths[|paths| - 1];
      IndexNames(front, k);
      NamesPlus(IndexOfPaths(front), EntriesOf(p), k);
      EntryNames(p, k);
      assert forall i :: 0 <= i < |front| ==> paths[i] == front[i];
      if k in Names(IndexOfPaths(front)) {
        var i :| 0 <= i < |front| && front[i].path == k && Indexed(front[i]);
        assert paths[i].path == k && Indexed(paths[i]);
      }
    }
  }

  lemma NoNames(k: Path)
    ensures k !in Names([])
  {
  }

  lemma NamesPlus(a: seq<IndexEntry>, b: seq<IndexEntry>, k: Path)
    ensures k in Names(a + b) <==> k in Names(a) || k in Names(b)
  {
    if k in Names(a) {
      var i :| 0 <= i < |a| && a[i].path == k;
      assert (a + b)[i].path == k;
    }
    if k in Names(b) {
      var i :| 0 <= i < |b| && b[i].path == k;
      assert (a + b)[|a| + i].path == k;
    }
  }

  lemma EntryNames(p: OutPath, k: Path)
    ensures k in Names(EntriesOf(p)) <==> k == p.path && Indexed(p)
  {
    NamesPlus(Stage(p.path, 1, p.base) + Stage(p.path, 2, p.ours), Stage(p.path, 3, p.theirs), k);
    NamesPlus(Stage(p.path, 1, p.base), Stage(p.path, 2, p.ours), k);
    forall st, leaf ensures k in Names(Stage(p.path, st, leaf)) <==> k == p.path && leaf.Some? {
      if leaf.Some? { assert Stage(p.path, st, leaf)[0].path == p.path; }
    }
    if p.resolved.Some? { assert EntriesOf(p)[0].path == p.path; }
  }

  // ---- Continuing an uncommitted merge --------------------------------------------------------------

  lemma ResolvedIndex(paths: seq<OutPath>, want: LeafMap)
    requires TakesTree(paths, want) && LeafyMap(want)
    ensures var items := IndexItems(IndexOfPaths(paths));
            DistinctItems(items) && Leafy(items) && ItemMap(Sort(ItemLe, items)) == want
  {
    CleanIndex(paths);
    var index := IndexOfPaths(paths);
    var items := IndexItems(index);
    forall i | 0 <= i < |items| ensures items[i] == TreeItem(paths[i].path, want[paths[i].path]) {}
    ItemsSorted(items);
    var sorted := Sort(ItemLe, items);
    SortedMap(items, sorted, paths, want);
  }

  lemma SortedMap(items: seq<TreeItem>, sorted: seq<TreeItem>, paths: seq<OutPath>, want: LeafMap)
    requires SortedItems(sorted) && (forall x :: x in sorted <==> x in items) && TakesTree(paths, want) && |items| == |paths|
    requires forall i :: 0 <= i < |items| ==> paths[i].path in want && items[i] == TreeItem(paths[i].path, want[paths[i].path])
    ensures ItemMap(sorted) == want
  {
    hide SortedItems;
    assert sorted[..|sorted|] == sorted;
    forall n | 0 <= n < |sorted| ensures sorted[n].path in want && want[sorted[n].path] == sorted[n].leaf { assert sorted[n] in items; }
    forall k ensures k in ItemMap(sorted) <==> k in want
      ensures k in want ==> ItemMap(sorted)[k] == want[k]
    {
      ItemMapAt(sorted, |sorted|, k);
      if k in want {
        var i :| 0 <= i < |paths| && paths[i] == Resolved(k, want[k]);
        assert items[i] in sorted;
      }
    }
  }

  /** Two states that differ at most in the merge commit they record and in what is stored. */
  ghost predicate SameButCommit(s: State, t: State) {
    s.gitFiles == t.gitFiles && s.index == t.index && s.files == t.files
  }

  /** A merge left uncommitted and then continued ends like a merge that commits at once: same
      files, index and merge files, and a merge commit with the same parents, message and tree
      contents; when the tree of the result is in Git's canonical form, the very same commit. */
  lemma ContinueIsDirect(w: World, s: State, head: Oid, others: seq<Oid>, message: string, tm: TreeMerge, who: string)
    requires Inv(s) && ProperIds(w) && GoodMerge(tm) && tm.clean && HeadOf(s) == Ok(head) && IsOid(head) && others != [] && AllOids(others)
    requires Uncommitted(w, s, head, others, message, tm).1.Ok?
    ensures var direct := Committed(w, s, head, others, message, tm, Some(who));
            var (u, r) := ContinueOutcome(w, Uncommitted(w, s, head, others, message, tm).0, None, Some(who));
            && direct.1.Ok? && r.Ok? && SameButCommit(direct.0, u)
            && exists tree ::
                 && Canonical(tree) && Files(tree) == Files(tm.tree)
                 && r.value == w.commitId(CommitRec(tree, [head] + others, message, who))
                 && (Canonical(tm.tree) ==> u.(store := s.store) == direct.0 && direct.1.value.commit == Some(r.value))
  {
    hide Materialized, TakesTree, HeadsText, GoodMerge, Unmerged, Canonical, IndexOfPaths, Inv, IndexTree, TreesFor, HeadText, Begun;
    var want := CleanWant(tm);
    var repo := RepoOf(w, s);
    MaterializedKeeps(repo, s, tm.paths);
    var m := Materialized(repo, s, tm.paths).0;
    var p := Begun(m, head, others, message);
    BegunIs(m, head, others, message);
    TakenMerged(s, p, tm.paths, want);
    InvHead(s);
    Continued(w, p, head, others, message, who);
    StoredTree(tm.paths, want);
    MaterializedCommit(repo, w, s, CommitRec(tm.tree, [head] + others, message, who), tm.paths);
    GitFilesAgree(m, head, others, message);
    var tree := IndexTree(p.index);
    if Canonical(tm.tree) { WalkThenStore(tree, tm.tree); }
  }

  lemma BegunIs(m: State, head: Oid, others: seq<Oid>, message: string)
    requires IsOid(head) && AllOids(others)
    ensures var t := Begun(m, head, others, message);
            && t == m.(gitFiles := t.gitFiles)
            && MERGE_HEAD in t.gitFiles && t.gitFiles[MERGE_HEAD] == HeadsText(others)
            && MERGE_MSG in t.gitFiles && t.gitFiles[MERGE_MSG] == message
            && ORIG_HEAD in t.gitFiles && t.gitFiles[ORIG_HEAD] == HeadText(head)
            && t.gitFiles - {MERGE_HEAD, MERGE_MSG, AUTO_MERGE, ORIG_HEAD} == m.gitFiles - {MERGE_HEAD, MERGE_MSG, AUTO_MERGE, ORIG_HEAD}
  {
  }

  /** Continuing reads back the heads and the message that the merge recorded. */
  lemma Continued(w: World, p: State, head: Oid, others: seq<Oid>, message: string, who: string)
    requires IsOid(head) && others != [] && AllOids(others) && HeadOf(p) == Ok(head) && !Unmerged(p) && HEAD in p.refs
    requires MERGE_HEAD in p.gitFiles && p.gitFiles[MERGE_HEAD] == HeadsText(others)
    requires MERGE_MSG in p.gitFiles && p.gitFiles[MERGE_MSG] == message
    ensures var c := CommitRec(IndexTree(p.index), [head] + others, message, who);
            var t := StoresMore(p, TreesFor(Sort(ItemLe, IndexItems(p.index)), ""));
            ContinueOutcome(w, p, None, Some(who)) == (Ended(WithHead(WithCommit(w, t, c), w.commitId(c))), Ok(w.commitId(c)))
  {
    hide IndexTree, TreesFor, ParseLines, Lines, Unmerged, HeadsText;
    HeadsBack(others);
  }

  /** In every state that a run can reach with a merge in progress, continuing is refused exactly while
      a conflict stage is left, and otherwise commits what the index holds: with HEAD and the recorded
      heads as parents, the message given or recorded, and nothing of the merge left behind. */
  lemma ContinueLaw(w: World, s: State, message: Option<string>, who: Option<string>)
    requires Inv(s) && ProperIds(w) && MERGE_HEAD in s.gitFiles
    ensures var (t, r) := ContinueOutcome(w, s, message, who);
            && (r == Err(UnmergedPaths) <==> Unmerged(s)) && (Unmerged(s) ==> t == s)
            && (!Unmerged(s) && who.None? ==> r == Err(MissingAuthor) && t == s.(store := t.store))
            && (!Unmerged(s) && who.Some? ==>
                  && r.Ok? && HeadOf(t) == Ok(r.value) && t.index == s.index && t.files == s.files
                  && t.gitFiles == s.gitFiles - {MERGE_HEAD, MERGE_MSG, AUTO_MERGE}
                  && exists heads ::
                       && heads != [] && AllOids(heads) && s.gitFiles[MERGE_HEAD] == HeadsText(heads) && MERGE_MSG in s.gitFiles
                       && var c := CommitRec(IndexTree(s.index), [HeadOf(s).value] + heads, if message.Some? then message.value else s.gitFiles[MERGE_MSG], who.value);
                          r.value == w.commitId(c) && t.commits == s.commits[r.value := c])
  {
    hide ParseLines, Lines, TreesFor, IndexTree, Unmerged, HeadsText;
    var head := HeadOfProgress(s);
    var ids :| ids != [] && AllOids(ids) && s.gitFiles[MERGE_HEAD] == HeadsText(ids);
    HeadsBack(ids);
    if !Unmerged(s) && who.Some? {
      var c := CommitRec(IndexTree(s.index), [head] + ids, if message.Some? then message.value else s.gitFiles[MERGE_MSG], who.value);
      HeadMoved(StoresMore(s, TreesFor(Sort(ItemLe, IndexItems(s.index)), "")), w.commitId(c));
    }
  }

  lemma CleanWant(tm: TreeMerge) returns (want: LeafMap)
    requires GoodMerge(tm) && tm.clean
    ensures LeafyMap(want) && TakesTree(tm.paths, want) && Files(tm.tree) == want
  {
    want :| LeafyMap(want) && TakesTree(tm.paths, want) && Files(tm.tree) == want;
  }

  lemma StoredTree(paths: seq<OutPath>, want: LeafMap)
    requires TakesTree(paths, want) && LeafyMap(want)
    ensures Canonical(IndexTree(IndexOfPaths(paths))) && Files(IndexTree(IndexOfPaths(paths))) == want
  {
    hide Canonical;
    ResolvedIndex(paths, want);
    IndexTreeLaw(IndexOfPaths(paths));
  }

  lemma MaterializedCommit(repo: Repo, w: World, s: State, c: CommitRec, paths: seq<OutPath>)
    ensures var a, b := Materialized(repo, s, paths), Materialized(repo, WithCommit(w, s, c), paths);
            b.1 == a.1 && b.0 == WithCommit(w, a.0, c)
  {
  }

  lemma GitFilesAgree(s: State, head: Oid, others: seq<Oid>, message: string)
    requires IsOid(head) && AllOids(others)
    ensures Ended(Begun(s, head, others, message)).gitFiles == Ended(WithOrig(s, head)).gitFiles
  {
  }

  // ---- Aborting --------------------------------------------------------------------------------------

  /** The same files with the same bytes. */
  ghost predicate SameFiles(a: FileMap, b: FileMap) {
    forall k :: (FileAt(a, k).Some? <==> FileAt(b, k).Some?) && (FileAt(a, k).Some? ==> FileAt(a, k).value.bytes == FileAt(b, k).value.bytes)
  }

  predicate IsRegular(leaves: LeafMap, k: Path) { k in leaves && leaves[k].mode != SUBMODULE }

  /** A file of the worktree that HEAD does not track as a file but that the merge touches. */
  ghost predicate InTheWay(s: State, leaves: LeafMap, tm: TreeMerge, k: Path) {
    FileAt(s.files, k).Some? && !IsRegular(leaves, k) && (k in leaves || k in Names(IndexOfPaths(tm.paths)))
  }

  lemma TakenFile(repo: Repo, files: FileMap, paths: seq<OutPath>, leaves: LeafMap, k: Path)
    requires TakesTree(paths, leaves) && IsRegular(leaves, k) && BlobBytes(repo, leaves[k].hash).Some? && WriteAll(repo, files, paths).1.None?
    ensures FileAt(WriteAll(repo, files, paths).0, k).Some? && Some(FileAt(WriteAll(repo, files, paths).0, k).value.bytes) == BlobBytes(repo, leaves[k].hash)
  {
    hide WriteAll;
    var i :| 0 <= i < |paths| && paths[i] == Resolved(k, leaves[k]);
    WriteAt(repo, files, paths, i);
  }

  lemma TakenKept(paths: seq<OutPath>, leaves: LeafMap, k: Path)
    requires TakesTree(paths, leaves)
    ensures k in Written(paths) <==> IsRegular(leaves, k)
  {
  }

  lemma CleanNames(repo: Repo, s: State, leaves: LeafMap, k: Path)
    requires Clean(repo, s, leaves)
    ensures k in Names(s.index) <==> k in leaves
    ensures IsRegular(leaves, k) ==> Tracks(repo, s.files, k, leaves[k])
  {
  }

  lemma KeptIndexed(tm: TreeMerge, k: Path)
    requires GoodMerge(tm) && k in Written(tm.paths)
    ensures k in Names(IndexOfPaths(tm.paths))
  {
    IndexNames(tm.paths, k);
  }

  /** The file at one path after merging and aborting. */
  lemma AbortedFile(repo: Repo, s: State, leaves: LeafMap, tm: TreeMerge, m: State, paths: seq<OutPath>, k: Path)
    requires Clean(repo, s, leaves) && GoodMerge(tm) && Materialized(repo, s, tm.paths) == (m, None) && TakesTree(paths, leaves)
    requires Materialized(repo, m, paths).1.None?
    ensures var f := Materialized(repo, m, paths).0.files;
            if IsRegular(leaves, k) then FileAt(s.files, k).Some? && FileAt(f, k).Some? && FileAt(f, k).value.bytes == FileAt(s.files, k).value.bytes
            else FileAt(f, k) == if k in leaves || k in Names(IndexOfPaths(tm.paths)) then None else FileAt(s.files, k)
  {
    hide Clean, GoodMerge, TakesTree, IndexOfPaths, WriteAll, FileAt, RemoveAll, StaleList;
    CleanNames(repo, s, leaves, k);
    TakenKept(paths, leaves, k);
    var stale := StaleList(m.index, Written(paths));
    var left := RemoveAll(m.files, stale);
    StaleNames(m.index, Written(paths), k);
    RemovedFile(m.files, stale, k);
    if IsRegular(leaves, k) {
      TakenFile(repo, left, paths, leaves, k);
    } else {
      WriteElsewhere(repo, left, paths, k);
      if k !in Names(IndexOfPaths(tm.paths)) {
        if k in Written(tm.paths) { KeptIndexed(tm, k); }
        StaleNames(s.index, Written(tm.paths), k);
        RemovedFile(s.files, StaleList(s.index, Written(tm.paths)), k);
        WriteElsewhere(repo, RemoveAll(s.files, StaleList(s.index, Written(tm.paths))), tm.paths, k);
      }
    }
  }

  lemma TakenIndex(repo: Repo, s: State, leaves: LeafMap, paths: seq<OutPath>, e: IndexEntry)
    requires Clean(repo, s, leaves) && TakesTree(paths, leaves)
    ensures e in IndexOfPaths(paths) <==> e in s.index
  {
    CleanIndex(paths);
    var index := IndexOfPaths(paths);
    if e in s.index {
      var i :| 0 <= i < |s.index| && s.index[i] == e;
      assert EntryClean(repo, s.files, leaves, e);
      var j :| 0 <= j < |paths| && paths[j] == Resolved(e.path, leaves[e.path]);
      assert index[j] == e;
    }
    if e in index {
      var j :| 0 <= j < |index| && index[j] == e;
      CleanNames(repo, s, leaves, e.path);
      var i :| 0 <= i < |s.index| && s.index[i].path == e.path;
      assert EntryClean(repo, s.files, leaves, s.index[i]);
    }
  }

  /** HEAD is detached or names a branch that names its commit. */
  predicate OneHop(refs: map<string, Ref>)
    requires HEAD in refs
  {
    refs[HEAD].Direct? || (refs[HEAD].target in refs && refs[refs[HEAD].target].Direct?)
  }

  /** Aborting right after a merge that stopped, conflicted or uncommitted, restores HEAD and the
      index if it succeeds; the references are the same exactly when HEAD is at most one symbolic
      hop from its commit, and the files and their bytes exactly when no file in the worktree
      lay, untracked, at a path that the merge put into the index. */
  lemma AbortRestores(w: World, s: State, head: Oid, others: seq<Oid>, message: string, tm: TreeMerge)
    requires Inv(s) && HeadOf(s) == Ok(head) && IsOid(head) && head in s.commits && others != [] && AllOids(others) && GoodMerge(tm)
    requires Readable(RepoOf(w, s), s.commits[head].tree) && Clean(RepoOf(w, s), s, Files(s.commits[head].tree))
    requires Applied(w, s, head, others, message, tm, true, None).1.Ok?
    requires AbortOutcome(w, Applied(w, s, head, others, message, tm, true, None).0).1.Ok?
    ensures var u := AbortOutcome(w, Applied(w, s, head, others, message, tm, true, None).0).0;
            && HEAD in s.refs && HeadOf(u) == Ok(head) && (u.refs == s.refs <==> OneHop(s.refs)) && u.commits == s.commits && u.store == s.store
            && (forall e :: e in u.index <==> e in s.index)
            && u.gitFiles == s.gitFiles - {MERGE_HEAD, MERGE_MSG, AUTO_MERGE, ORIG_HEAD}
            && (SameFiles(s.files, u.files) <==> forall k :: !InTheWay(s, Files(s.commits[head].tree), tm, k))
  {
    hide Applied, Materialized, TakesTree, Clean, GoodMerge, IndexOfPaths, InTheWay, Named, InProgress, TakenTree, SameFiles;
    var leaves, repo := Files(s.commits[head].tree), RepoOf(w, s);
    var t := Applied(w, s, head, others, message, tm, true, None).0;
    var m := AppliedStops(w, s, head, others, message, tm);
    OneHashBack(head);
    TakenReadable(repo, s.commits[head].tree);
    TakenGood(repo, s.commits[head].tree);
    var paths := TakenTree(repo, s.commits[head].tree).value.paths;
    MaterializedKeeps(repo, t, paths);
    NonZeroHead(s);
    HeadMoved(t, head);
    RefsKept(t, head);
    forall e ensures e in IndexOfPaths(paths) <==> e in s.index { TakenIndex(repo, s, leaves, paths, e); }
    SameMaterial(repo, m, t, paths);
    AbortedFiles(repo, s, leaves, tm, m, paths);
  }

  lemma RefsKept(s: State, head: Oid)
    requires HeadOf(s) == Ok(head) && HEAD in s.refs
    ensures WithHead(s, head).refs == s.refs <==> OneHop(s.refs)
  {
    var r := WithHead(s, head).refs;
    match s.refs[HEAD]
    case Direct(_) =>
    case Symbolic(t) => assert t in r && r[t] == Direct(head);
  }

  /** Where a stopped merge leaves the repository. */
  lemma AppliedStops(w: World, s: State, head: Oid, others: seq<Oid>, message: string, tm: TreeMerge) returns (m: State)
    requires Inv(s) && IsOid(head) && HEAD in s.refs && others != [] && AllOids(others) && Applied(w, s, head, others, message, tm, true, None).1.Ok?
    ensures Materialized(RepoOf(w, s), s, tm.paths) == (m, None)
    ensures var t := Applied(w, s, head, others, message, tm, true, None).0;
            && t.refs == s.refs && t.commits == s.commits && t.index == m.index && t.files == m.files && t.store == s.store
            && MERGE_HEAD in t.gitFiles && ORIG_HEAD in t.gitFiles && t.gitFiles[ORIG_HEAD] == HeadText(head)
            && t.gitFiles - {MERGE_HEAD, MERGE_MSG, AUTO_MERGE, ORIG_HEAD} == s.gitFiles - {MERGE_HEAD, MERGE_MSG, AUTO_MERGE, ORIG_HEAD}
  {
    hide Inv, Materialized, HeadsText, HeadText, Begun;
    MaterializedKeeps(RepoOf(w, s), s, tm.paths);
    m := Materialized(RepoOf(w, s), s, tm.paths).0;
    BegunIs(m, head, others, message);
  }

  lemma NonZeroHead(s: State)
    requires Inv(s) && HeadOf(s).Ok?
    ensures HeadOf(s).value != ZERO
  {
    ResolvedProper(s.refs, HEAD, MAX_HOPS);
  }

  lemma SameMaterial(repo: Repo, m: State, t: State, paths: seq<OutPath>)
    requires m.files == t.files && m.index == t.index
    ensures Materialized(repo, m, paths).1 == Materialized(repo, t, paths).1
    ensures Materialized(repo, m, paths).0.files == Materialized(repo, t, paths).0.files
    ensures Materialized(repo, m, paths).0.index == Materialized(repo, t, paths).0.index
  {
  }

  lemma AbortedFiles(repo: Repo, s: State, leaves: LeafMap, tm: TreeMerge, m: State, paths: seq<OutPath>)
    requires Clean(repo, s, leaves) && GoodMerge(tm) && Materialized(repo, s, tm.paths) == (m, None) && TakesTree(paths, leaves)
    requires Materialized(repo, m, paths).1.None?
    ensures SameFiles(s.files, Materialized(repo, m, paths).0.files) <==> forall k :: !InTheWay(s, leaves, tm, k)
  {
    hide Clean, GoodMerge, TakesTree, IndexOfPaths, Materialized, FileAt;
    var f := Materialized(repo, m, paths).0.files;
    forall k
      ensures InTheWay(s, leaves, tm, k) ==> FileAt(s.files, k).Some? && FileAt(f, k).None?
      ensures !InTheWay(s, leaves, tm, k) ==> (FileAt(s.files, k).Some? <==> FileAt(f, k).Some?) && (FileAt(f, k).Some? ==> FileAt(f, k).value.bytes == FileAt(s.files, k).value.bytes)
    {
      AbortedFile(repo, s, leaves, tm, m, paths, k);
    }
    if k :| InTheWay(s, leaves, tm, k) { assert FileAt(s.files, k).Some? && FileAt(f, k).None?; }
  }
}
