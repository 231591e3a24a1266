/** Merging, aborting and continuing on a repository whose parts are changed in place. */
module Worktree {
  import opened Wrappers
  import opened Sorting
  import opened Leaves
  import opened Trees
  import opened Align
  import opened Decide
  import opened Engine
  import opened MergeLaws
  import opened Octopus
  import opened MergeFiles
  import opened Checkout
  import opened MergeState
  import opened MergePlan
  import opened MergeRuns

  /** The output that checks out one tree, in the order of the map of its files. */
  method TakeTree(repo: Repo, tree: Hash) returns (r: Result<TreeMerge, MergeError>)
    ensures r == TakenTree(repo, tree)
  {
    var leaves := WalkTree(repo, tree);
    if leaves.Err? { return Err(leaves.error); }
    var keys := repo.order(leaves.value.Keys);
    var paths: seq<OutPath> := [];
    var i := 0;
    while i < |keys|
      invariant 0 <= i <= |keys| && paths == TakeAmong(keys[..i], leaves.value)
    {
      assert keys[..i + 1][..i] == keys[..i] && keys[i] in leaves.value.Keys;
      paths := paths + [Resolved(keys[i], leaves.value[keys[i]])];
      i := i + 1;
    }
    assert keys[..i] == keys;
    r := Ok(TreeMerge(true, paths, tree, None));
  }

  // ---- Subtree prefix ------------------------------------------------------------------------------

  /** The single root directory of ours that shares an entry name with the root of theirs. */
  method DetectPrefix(repo: Repo, oursTree: Hash, theirsTree: Hash) returns (r: Result<string, MergeError>)
    ensures r == DetectedPrefix(repo, oursTree, theirsTree)
  {
    hide Overlaps;
    if !oursTree.Tree? || !theirsTree.Tree? || oursTree !in repo.stored || theirsTree !in repo.stored { return Err(ObjectNotFound); }
    var ours, theirs := oursTree.entries, theirsTree.entries;
    var names := set k | 0 <= k < |theirs| :: theirs[k].name;
    var found: Option<nat> := None;
    var i := 0;
    while i < |ours|
      invariant 0 <= i <= |ours| && FindOverlap(repo, ours, theirs, i) == Ok(found) && (found.Some? ==> found.value < i)
    {
      if ours[i].mode == DIR {
        var sub := ours[i].hash;
        if !sub.Tree? || sub !in repo.stored {
          OverlapStops(repo, ours, theirs, i + 1, |ours|);
          return Err(ObjectNotFound);
        }
        var overlap := SharesName(sub.entries, names);
        OverlapIs(ours, theirs, i, names);
        if overlap {
          if found.Some? {
            OverlapStops(repo, ours, theirs, i + 1, |ours|);
            return Err(SubtreeShiftNotFound);
          }
          found := Some(i);
        }
      }
      i := i + 1;
    }
    if found.None? { return Err(SubtreeShiftNotFound); }
    r := Ok(ours[found.value].name);
  }

  method SharesName(entries: seq<TreeEntry>, names: set<string>) returns (b: bool)
    ensures b <==> exists j :: 0 <= j < |entries| && entries[j].name in names
  {
    var c := 0;
    while c < |entries|
      invariant 0 <= c <= |entries| && forall j :: 0 <= j < c ==> entries[j].name !in names
    {
      if entries[c].name in names { return true; }
      c := c + 1;
    }
    b := false;
  }

  lemma OverlapIs(ours: seq<TreeEntry>, theirs: seq<TreeEntry>, i: nat, names: set<string>)
    requires i < |ours| && ours[i].mode == DIR && ours[i].hash.Tree? && names == set k | 0 <= k < |theirs| :: theirs[k].name
    ensures Overlaps(ours, theirs, i) <==> exists j :: 0 <= j < |ours[i].hash.entries| && ours[i].hash.entries[j].name in names
  {
    if j :| 0 <= j < |ours[i].hash.entries| && ours[i].hash.entries[j].name in names {
      var k :| 0 <= k < |theirs| && theirs[k].name == ours[i].hash.entries[j].name;
    }
  }

  lemma {:induction false} OverlapStops(repo: Repo, ours: seq<TreeEntry>, theirs: seq<TreeEntry>, i: nat, n: nat)
    requires i <= n <= |ours| && FindOverlap(repo, ours, theirs, i).Err?
    ensures FindOverlap(repo, ours, theirs, n) == FindOverlap(repo, ours, theirs, i)
  {
    hide Overlaps;
    if i < n { OverlapStops(repo, ours, theirs, i, n - 1); }
  }

  class Worktree {
    const w: World
    var refs: map<string, Ref>
    var gitFiles: map<string, string>
    var index: seq<IndexEntry>
    var files: FileMap
    var commits: map<Oid, CommitRec>
    var store: set<Hash>

    constructor (w: World, s: State)
      ensures Now() == s && this.w == w
    {
      this.w := w;
      refs, gitFiles, index, files, commits, store := s.refs, s.gitFiles, s.index, s.files, s.commits, s.store;
    }

    ghost function Now(): State
      reads this
    {
      State(refs, gitFiles, index, files, commits, store)
    }

    /** What merging sees of it. */
    function Repository(): (repo: Repo)
      reads this
      ensures repo == RepoOf(w, Now())
    {
      w.repo.(stored := store)
    }

    // ---- Reading -------------------------------------------------------------------------------

    method ResolveHead() returns (r: Result<Oid, MergeError>)
      ensures r == HeadOf(Now())
    {
      if HEAD !in refs { return Err(UnbornHead); }
      ghost var name := HEAD;
      var current := refs[HEAD];
      var depth := 0;
      while current.Symbolic?
        invariant 0 <= depth <= MAX_HOPS && name in refs && current == refs[name]
        invariant HeadOf(Now()) == ResolveName(refs, name, MAX_HOPS - depth)
        decreases MAX_HOPS - depth
      {
        if depth == MAX_HOPS { return Err(UnbornHead); }
        if current.target !in refs { return Err(UnbornHead); }
        name := current.target;
        current := refs[current.target];
        depth := depth + 1;
      }
      if current.hash == ZERO { return Err(UnbornHead); }
      r := Ok(current.hash);
    }

    /** Index and tracked files must match HEAD. */
    method AssertClean(head: Oid) returns (r: Option<MergeError>)
      ensures r == match HeadLeaves(w, Now(), head) case Err(e) => Some(e) case Ok(leaves) => Dirt(w, Now(), leaves)
    {
      if head !in commits { return Some(ObjectNotFound); }
      var walked := WalkTree(Repository(), commits[head].tree);
      if walked.Err? { return Some(walked.error); }
      var leaves := walked.value;
      var seen: set<Path> := {};
      var i := 0;
      while i < |index|
        invariant 0 <= i <= |index| && seen == Names(index[..i]) && FirstDirt(Repository(), files, leaves, index[..i]).None?
      {
        assert index[..i + 1][..i] == index[..i];
        NamesMore(index, i);
        var e := EntryDirt(Repository(), files, leaves, index[i]);
        if e.Some? {
          FirstStays(Repository(), files, leaves, index, i + 1);
          return e;
        }
        seen := seen + {index[i].path};
        i := i + 1;
      }
      assert index[..i] == index;
      r := if leaves.Keys <= seen then None else Some(DirtyIndex);
    }

    method Relate(head: Oid, heads: seq<Oid>) returns (r: Result<seq<Rel>, MergeError>)
      ensures r == Relations(w, head, heads)
    {
      var rels: seq<Rel> := [];
      var i := 0;
      while i < |heads|
        invariant 0 <= i <= |heads| && Relations(w, head, heads[..i]) == Ok(rels)
      {
        assert heads[..i + 1][..i] == heads[..i];
        var rel := Relation(w, head, heads[i]);
        if rel.Err? {
          RelationsStay(w, head, heads, i + 1);
          return Err(rel.error);
        }
        rels := rels + [rel.value];
        i := i + 1;
      }
      assert heads[..i] == heads;
      r := Ok(rels);
    }

    // ---- Writing --------------------------------------------------------------------------------

    /** Removes what the result no longer writes, writes its files and replaces the index. */
    method Materialize(paths: seq<OutPath>) returns (e: Option<MergeError>)
      modifies this`files, this`index
      ensures (Now(), e) == Materialized(RepoOf(w, old(Now())), old(Now()), paths)
    {
      hide WriteOne, RemoveAll;
      RemoveStale(paths);
      ghost var left := files;
      var i := 0;
      while i < |paths|
        invariant 0 <= i <= |paths| && WriteAll(Repository(), left, paths[..i]) == (files, None)
        invariant index == old(index)
      {
        assert paths[..i + 1][..i] == paths[..i];
        e := WritePath(paths[i]);
        if e.Some? {
          WriteStops(Repository(), left, paths, i + 1);
          return e;
        }
        i := i + 1;
      }
      assert paths[..i] == paths;
      var idx: seq<IndexEntry> := [];
      i := 0;
      while i < |paths|
        invariant 0 <= i <= |paths| && idx == IndexOfPaths(paths[..i])
      {
        assert paths[..i + 1][..i] == paths[..i];
        idx := idx + EntriesOf(paths[i]);
        i := i + 1;
      }
      assert paths[..i] == paths;
      index := idx;
      e := None;
    }

    /** Makes the directories of one output path and writes its file. */
    method WritePath(p: OutPath) returns (e: Option<MergeError>)
      modifies this`files
      ensures (files, e) == WriteOne(RepoOf(w, Now()), old(files), p)
    {
      if !p.writeFile { return None; }
      MakeParents(p.path);
      var f := FileFor(Repository(), p);
      if f.Err? { return Some(f.error); }
      if f.value.None? { return None; }
      Remove(p.path);
      if p.path in files { return Some(IsDir); }
      MakeParents(p.path);
      files := files[p.path := f.value.value];
      e := None;
    }

    /** Removes a file or an empty directory, and passes over anything else. */
    method Remove(p: Path)
      modifies this`files
      ensures files == Removed(old(files), p)
    {
      if p in files && !(files[p].Folder? && HasChild(files, p)) { files := files - {p}; }
    }

    method MakeParents(p: Path)
      modifies this`files
      ensures files == WithParents(old(files), p)
      decreases |p|
    {
      var q := ParentDir(p);
      if q.Some? && q.value !in files {
        MakeParents(q.value);
        files := files[q.value := Folder];
      }
    }

    method RemoveStale(paths: seq<OutPath>)
      modifies this`files
      ensures files == RemoveAll(old(files), StaleList(index, Written(paths)))
    {
      var keep: set<Path> := {};
      var i := 0;
      while i < |paths|
        invariant 0 <= i <= |paths| && keep == Written(paths[..i]) && files == old(files)
      {
        WrittenMore(paths, i);
        if paths[i].writeFile { keep := keep + {paths[i].path}; }
        i := i + 1;
      }
      assert paths[..i] == paths;
      var stale: seq<Path> := [];
      i := 0;
      while i < |index|
        invariant 0 <= i <= |index| && stale == StaleList(index[..i], keep) && files == old(files)
      {
        assert index[..i + 1][..i] == index[..i];
        var p := index[i].path;
        if p !in keep && p !in stale { stale := stale + [p]; }
        i := i + 1;
      }
      assert index[..i] == index;
      i := 0;
      while i < |stale|
        invariant 0 <= i <= |stale| && RemoveAll(old(files), stale) == RemoveAll(files, stale[i..])
      {
        assert stale[i..][1..] == stale[i + 1..];
        Remove(stale[i]);
        i := i + 1;
      }
    }

    method UpdateHead(h: Oid)
      requires HEAD in refs
      modifies this`refs
      ensures Now() == WithHead(old(Now()), h)
    {
      var name := match refs[HEAD] { case Symbolic(t) => t case Direct(_) => HEAD };
      refs := refs[name := Direct(h)];
    }

    method WriteOrig(head: Oid)
      requires IsOid(head)
      modifies this`gitFiles
      ensures Now() == WithOrig(old(Now()), head)
    {
      gitFiles := gitFiles[ORIG_HEAD := HeadText(head)];
    }

    method WriteHeads(heads: seq<Oid>)
      requires AllOids(heads)
      modifies this`gitFiles
      ensures gitFiles == old(gitFiles)[MERGE_HEAD := HeadsText(heads)]
    {
      var text := "";
      var i := 0;
      while i < |heads|
        invariant 0 <= i <= |heads| && text + HeadsText(heads[i..]) == HeadsText(heads)
      {
        assert heads[i..][1..] == heads[i + 1..];
        assert text + (HeadText(heads[i]) + HeadsText(heads[i + 1..])) == text + HeadText(heads[i]) + HeadsText(heads[i + 1..]);
        text := text + HeadText(heads[i]);
        i := i + 1;
      }
      assert text + "" == text;
      gitFiles := gitFiles[MERGE_HEAD := text];
    }

    method WriteCommit(c: CommitRec) returns (id: Oid)
      modifies this`commits
      ensures id == w.commitId(c) && Now() == WithCommit(w, old(Now()), c)
    {
      id := w.commitId(c);
      commits := commits[id := c];
    }

    method RemoveMergeFiles(includeOrig: bool)
      modifies this`gitFiles
      ensures Now() == if includeOrig then Aborted(old(Now())) else Ended(old(Now()))
    {
      gitFiles := gitFiles - {MERGE_HEAD};
      gitFiles := gitFiles - {MERGE_MSG};
      gitFiles := gitFiles - {AUTO_MERGE};
      if includeOrig { gitFiles := gitFiles - {ORIG_HEAD}; }
    }

    // ---- Merging -----------------------------------------------------------------------------------

    /** The merged tree, by strategy. */
    method Compute(head: Oid, heads: seq<Oid>, strategy: Strategy, opts: Options, skipShift: bool) returns (c: Result<TreeMerge, MergeError>)
      requires head in commits && AllOids(heads) && heads != [] && forall i :: 0 <= i < |heads| ==> heads[i] in commits
      modifies this`store
      ensures Done(c, Repository()) == ComputeOf(w, old(Now()), head, heads, strategy, opts, skipShift)
    {
      hide OctopusOf, ThreeWayResult, TakenTree, LabelError, SpecOf;
      ComputeExtends(w, Now(), head, heads, strategy, opts, skipShift);
      ghost var done := ComputeOf(w, Now(), head, heads, strategy, opts, skipShift);
      var failed := LabelError(w, head, heads);
      if failed.Some? { return Err(failed.value); }
      var spec := SpecOf(opts, strategy, heads);
      var after := Repository();
      match strategy {
        case KeepOurs =>
          c := TakeTree(after, commits[head].tree);
        case Many =>
          var known := commits;
          var others := seq(|heads|, i requires 0 <= i < |heads| && heads[i] in known => CommitObj(Commit(heads[i]), known[heads[i]].tree));
          assert others == Objects(Now(), heads);
          c, after := MergeOctopus(after, w.graph, spec, CommitObj(Commit(head), commits[head].tree), others);
        case _ =>
          c, after := ThreeWay(CommitObj(Commit(head), commits[head].tree), CommitObj(Commit(heads[0]), commits[heads[0]].tree),
                               strategy.Subtree? && !skipShift, opts.subtreePath, spec);
      }
      assert Done(c, after) == done;
      store := after.stored;
    }

    method ThreeWay(ours: CommitObj, theirs: CommitObj, shift: bool, given: Option<string>, spec: Spec)
      returns (c: Result<TreeMerge, MergeError>, after: Repo)
      ensures Done(c, after) == ThreeWayResult(w, RepoOf(w, Now()), spec, ours, theirs, shift, given)
    {
      hide MergedTrees, AncestorOf;
      var base;
      base, after := AncestorTree(Repository(), w.graph, spec, ours.hash, theirs.hash, 0);
      if base.Err? { return Err(base.error), after; }
      if shift {
        c, after := MergeShifted(after, spec, base.value, ours.tree, theirs.tree, given);
      } else {
        c, after := MergeTrees(after, spec, base.value, ours.tree, theirs.tree);
      }
    }

    method ChoosePrefix(repo: Repo, ours: Hash, theirs: Hash, given: Option<string>) returns (r: Result<string, MergeError>)
      ensures r == ChosenPrefix(repo, ours, theirs, given)
    {
      if given.Some? { return if GoodPrefix(given.value) then Ok(given.value) else Err(StrategyOptionNotSupported); }
      r := DetectPrefix(repo, ours, theirs);
    }

    method MergeShifted(repo: Repo, spec: Spec, base: Hash, ours: Hash, theirs: Hash, given: Option<string>)
      returns (c: Result<TreeMerge, MergeError>, after: Repo)
      ensures Done(c, after) == ShiftedResult(repo, spec, base, ours, theirs, given)
    {
      hide MergedTrees, ChosenPrefix, ShiftParts, Wraps, Wrap, Stores;
      var prefix := ChoosePrefix(repo, ours, theirs, given);
      if prefix.Err? { return Err(prefix.error), repo; }
      var b, t;
      b, after := ShiftTree(repo, base, prefix.value);
      if b.Err? { return Err(b.error), after; }
      t, after := ShiftTree(after, theirs, prefix.value);
      if t.Err? { return Err(StrategyOptionNotSupported), after; }
      StoresTwice(repo, Wraps(ShiftParts(prefix.value).value, base), Wraps(ShiftParts(prefix.value).value, theirs));
      c, after := MergeTrees(after, spec, b.value, ours, t.value);
    }

    /** Writes stages, markers and the merge files of a conflicted result. */
    method StopOnConflict(head: Oid, heads: seq<Oid>, message: string, tm: TreeMerge) returns (r: Result<MergeResult, MergeError>)
      requires IsOid(head) && AllOids(heads)
      modifies this`files, this`index, this`gitFiles
      ensures (Now(), r) == Conflicting(w, old(Now()), head, heads, message, tm)
    {
      hide Materialized, HeadsText;
      var e := Materialize(tm.paths);
      if e.Some? { return Err(e.value); }
      WriteOrig(head);
      WriteHeads(heads);
      gitFiles := gitFiles[MERGE_MSG := message];
      if tm.markerTree.Some? { gitFiles := gitFiles[AUTO_MERGE := w.treeText(tm.markerTree.value)]; }
      r := Ok(MergeResult(false, None));
    }

    method LeaveUncommitted(head: Oid, heads: seq<Oid>, message: string, tm: TreeMerge) returns (r: Result<MergeResult, MergeError>)
      requires IsOid(head) && AllOids(heads)
      modifies this`files, this`index, this`gitFiles
      ensures (Now(), r) == Uncommitted(w, old(Now()), head, heads, message, tm)
    {
      hide Materialized, HeadsText;
      var e := Materialize(tm.paths);
      if e.Some? { return Err(e.value); }
      WriteOrig(head);
      WriteHeads(heads);
      gitFiles := gitFiles[MERGE_MSG := message];
      r := Ok(MergeResult(true, None));
    }

    method CommitMerge(head: Oid, heads: seq<Oid>, message: string, tm: TreeMerge, who: Option<string>) returns (r: Result<MergeResult, MergeError>)
      requires IsOid(head) && HEAD in refs
      modifies this
      ensures (Now(), r) == Committed(w, old(Now()), head, heads, message, tm, who)
    {
      hide Materialized;
      if who.None? { return Err(MissingAuthor); }
      var id := WriteCommit(CommitRec(tm.tree, [head] + heads, message, who.value));
      MaterializedKeeps(Repository(), Now(), tm.paths);
      var e := Materialize(tm.paths);
      if e.Some? { return Err(e.value); }
      WriteOrig(head);
      UpdateHead(id);
      RemoveMergeFiles(false);
      r := Ok(MergeResult(true, Some(id)));
    }

    method Apply(head: Oid, heads: seq<Oid>, message: string, tm: TreeMerge, noCommit: bool, who: Option<string>) returns (r: Result<MergeResult, MergeError>)
      requires IsOid(head) && AllOids(heads) && HEAD in refs
      modifies this
      ensures (Now(), r) == Applied(w, old(Now()), head, heads, message, tm, noCommit, who)
    {
      hide Conflicting, Uncommitted, Committed;
      if !tm.clean {
        r := StopOnConflict(head, heads, message, tm);
      } else if noCommit {
        r := LeaveUncommitted(head, heads, message, tm);
      } else {
        r := CommitMerge(head, heads, message, tm, who);
      }
    }

    method FastForward(head: Oid, other: Oid) returns (r: Result<MergeResult, MergeError>)
      requires IsOid(head) && HeadOf(Now()) == Ok(head) && HEAD in refs && other in commits
      modifies this
      ensures (Now(), r) == ForwardOutcome(w, old(Now()), other)
    {
      hide Materialized, TakenTree;
      var tm := TakeTree(Repository(), commits[other].tree);
      if tm.Err? { return Err(tm.error); }
      MaterializedKeeps(Repository(), Now(), tm.value.paths);
      var e := Materialize(tm.value.paths);
      if e.Some? { return Err(e.value); }
      WriteOrig(head);
      UpdateHead(other);
      r := Ok(MergeResult(true, None));
    }

    method ComputeAndApply(head: Oid, heads: seq<Oid>, opts: Options, who: Option<string>, skipShift: bool) returns (r: Result<MergeResult, MergeError>)
      requires heads != [] && Known(Now(), heads) && HeadOf(Now()) == Ok(head)
      modifies this
      ensures (Now(), r) == ComputeOutcome(w, old(Now()), heads, opts, who, skipShift)
    {
      hide ComputeOf, Applied;
      var c := Compute(head, heads, StrategyOf(opts, heads), opts, skipShift);
      if c.Err? { return Err(c.error); }
      r := Apply(head, heads, MessageFor(opts.message, heads), c.value, opts.noCommit, who);
    }

    /** What to do, before anything is changed. */
    method Decide(heads: seq<Oid>, opts: Options) returns (r: Result<Todo, MergeError>)
      ensures r == Plan(w, Now(), heads, opts)
      ensures r.Ok? ==> heads != [] && HeadOf(Now()).Ok? && HeadOf(Now()).value in commits && forall i :: 0 <= i < |heads| ==> heads[i] in commits
    {
      hide Dirt, Relations;
      var strategy := StrategyOf(opts, heads);
      var refusal := Refusal(strategy, heads, opts);
      if refusal.Some? { return Err(refusal.value); }
      if MERGE_HEAD in gitFiles { return Err(MergeInProgress); }
      var head := ResolveHead();
      if head.Err? { return Err(head.error); }
      var dirt := AssertClean(head.value);
      if dirt.Some? { return Err(dirt.value); }
      var i := 0;
      while i < |heads|
        invariant 0 <= i <= |heads| && forall j :: 0 <= j < i ==> heads[j] in commits
      {
        if heads[i] !in commits { return Err(WalkError(w)); }
        i := i + 1;
      }
      var rels := Relate(head.value, heads);
      if rels.Err? { return Err(rels.error); }
      r := Chosen(strategy, opts.fastForward, rels.value);
    }

    /** Merges `heads` into HEAD. */
    method Merge(heads: seq<Oid>, opts: Options, who: Option<string>) returns (r: Result<MergeResult, MergeError>)
      requires AllOids(heads) && Named(Now())
      modifies this
      ensures (Now(), r) == MergeOutcome(w, old(Now()), heads, opts, who)
    {
      hide Plan, ForwardOutcome, ComputeOutcome;
      var plan := Decide(heads, opts);
      if plan.Err? { return Err(plan.error); }
      PlanKnown(w, Now(), heads, opts);
      var head := ResolveHead();
      match plan.value {
        case Nothing => r := Ok(MergeResult(true, None));
        case Forward => r := FastForward(head.value, heads[0]);
        case Compute(skipShift) => r := ComputeAndApply(head.value, heads, opts, who, skipShift);
      }
    }

    /** Goes back to the commit recorded when the merge stopped. */
    method MergeAbort() returns (r: Result<(), MergeError>)
      modifies this
      ensures (Now(), r) == AbortOutcome(w, old(Now()))
    {
      hide Materialized, TakenTree;
      if MERGE_HEAD !in gitFiles { return Err(MergeNotInProgress); }
      if ORIG_HEAD !in gitFiles { return Err(CorruptMergeState); }
      var orig := ParseOneHash(gitFiles[ORIG_HEAD]);
      if orig.None? { return Err(CorruptMergeState); }
      if orig.value !in commits { return Err(ObjectNotFound); }
      var tm := TakeTree(Repository(), commits[orig.value].tree);
      if tm.Err? { return Err(tm.error); }
      MaterializedKeeps(Repository(), Now(), tm.value.paths);
      var e := Materialize(tm.value.paths);
      if e.Some? { return Err(e.value); }
      if HEAD !in refs { return Err(UnbornHead); }
      UpdateHead(orig.value);
      RemoveMergeFiles(true);
      r := Ok(());
    }

    /** Stores the tree of the index. */
    method StoreIndex() returns (tree: Hash)
      modifies this`store
      ensures tree == IndexTree(index) && Now() == StoresMore(old(Now()), TreesFor(Sort(ItemLe, IndexItems(index)), ""))
    {
      var entries := index;
      var items := seq(|entries|, i requires 0 <= i < |entries| => TreeItem(entries[i].path, entries[i].leaf));
      assert items == IndexItems(index);
      var after;
      tree, after := StoreTree(Repository(), Sort(ItemLe, items));
      store := after.stored;
    }

    /** Commits a merge whose conflicts are resolved in the index. */
    method MergeContinue(message: Option<string>, who: Option<string>) returns (r: Result<Oid, MergeError>)
      modifies this
      ensures (Now(), r) == ContinueOutcome(w, old(Now()), message, who)
    {
      hide IndexTree, TreesFor, ParseLines, Lines;
      if MERGE_HEAD !in gitFiles { return Err(MergeNotInProgress); }
      if MERGE_MSG !in gitFiles { return Err(CorruptMergeState); }
      var text := if message.Some? then message.value else gitFiles[MERGE_MSG];
      var i := 0;
      while i < |index|
        invariant 0 <= i <= |index| && (forall j :: 0 <= j < i ==> index[j].stage == 0) && Now() == old(Now())
      {
        if index[i].stage != 0 { return Err(UnmergedPaths); }
        i := i + 1;
      }
      var tree := StoreIndex();
      var head := ResolveHead();
      if head.Err? { return Err(head.error); }
      var heads := ParseHeads(gitFiles[MERGE_HEAD]);
      if heads.None? || heads.value == [] { return Err(CorruptMergeState); }
      if who.None? { return Err(MissingAuthor); }
      var id := WriteCommit(CommitRec(tree, [head.value] + heads.value, text, who.value));
      UpdateHead(id);
      RemoveMergeFiles(false);
      r := Ok(id);
    }
  }

  lemma StoresTwice(repo: Repo, a: set<Hash>, b: set<Hash>)
    ensures Stores(Stores(repo, a), b) == Stores(repo, a + b)
  {
    assert repo.stored + a + b == repo.stored + (a + b);
  }

  lemma NamesMore(index: seq<IndexEntry>, i: nat)
    requires i < |index|
    ensures Names(index[..i + 1]) == Names(index[..i]) + {index[i].path}
  {
    assert index[..i + 1] == index[..i] + [index[i]];
    forall k | k in Names(index[..i]) ensures k in Names(index[..i + 1]) {
      var j :| 0 <= j < i && index[..i][j].path == k;
      assert index[..i + 1][j].path == k;
    }
    assert index[..i + 1][i].path == index[i].path;
  }

  lemma WrittenMore(paths: seq<OutPath>, i: nat)
    requires i < |paths|
    ensures Written(paths[..i + 1]) == Written(paths[..i]) + if paths[i].writeFile then {paths[i].path} else {}
  {
    assert paths[..i + 1] == paths[..i] + [paths[i]];
    forall k | k in Written(paths[..i]) ensures k in Written(paths[..i + 1]) {
      var j :| 0 <= j < i && paths[..i][j].writeFile && paths[..i][j].path == k;
      assert paths[..i + 1][j].path == k;
    }
    if paths[i].writeFile { assert paths[..i + 1][i].path == paths[i].path; }
  }

  lemma {:induction false} FirstStays(repo: Repo, files: FileMap, leaves: LeafMap, index: seq<IndexEntry>, i: nat)
    requires i <= |index| && FirstDirt(repo, files, leaves, index[..i]).Some?
    ensures FirstDirt(repo, files, leaves, index) == FirstDirt(repo, files, leaves, index[..i])
  {
    if i == |index| { assert index[..i] == index; } else {
      assert index[..|index| - 1][..i] == index[..i];
      FirstStays(repo, files, leaves, index[..|index| - 1], i);
    }
  }

  lemma {:induction false} RelationsStay(w: World, head: Oid, heads: seq<Oid>, i: nat)
    requires i <= |heads| && Relations(w, head, heads[..i]).Err?
    ensures Relations(w, head, heads) == Relations(w, head, heads[..i])
  {
    if i == |heads| { assert heads[..i] == heads; } else {
      assert heads[..|heads| - 1][..i] == heads[..i];
      RelationsStay(w, head, heads[..|heads| - 1], i);
    }
  }
}
