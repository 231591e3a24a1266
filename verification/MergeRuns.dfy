/** What holds over every run of merging, resolving, continuing and aborting. */
module MergeRuns {
  import opened Wrappers
  import opened Sorting
  import opened Leaves
  import opened Trees
  import opened Align
  import opened Decide
  import opened Engine
  import opened MergeLaws
  import opened Octopus
  import opened MergeFiles
  import opened Checkout
  import opened MergeState
  import opened MergePlan

  // ---- The steps ------------------------------------------------------------------------------

  /** References and stored commits have proper names. */
  ghost predicate Named(s: State) {
    && HEAD in s.refs
    && (forall n :: n in s.refs && s.refs[n].Direct? ==> IsOid(s.refs[n].hash))
    && (forall c :: c in s.commits ==> IsOid(c))
  }

  lemma {:induction false} ResolvedProper(refs: map<string, Ref>, name: string, hops: nat)
    requires forall n :: n in refs && refs[n].Direct? ==> IsOid(refs[n].hash)
    ensures ResolveName(refs, name, hops).Ok? ==> IsOid(ResolveName(refs, name, hops).value) && ResolveName(refs, name, hops).value != ZERO
    decreases hops
  {
    if name in refs && refs[name].Symbolic? && hops > 0 { ResolvedProper(refs, refs[name].target, hops - 1); }
  }

  /** HEAD and the heads are known, proper commits. */
  ghost predicate Known(s: State, heads: seq<Oid>) {
    HeadOf(s).Ok? && HeadOf(s).value in s.commits && IsOid(HeadOf(s).value) && HEAD in s.refs
    && AllOids(heads) && forall i :: 0 <= i < |heads| ==> heads[i] in s.commits
  }

  lemma PlanKnown(w: World, s: State, heads: seq<Oid>, opts: Options)
    requires Named(s) && AllOids(heads) && Plan(w, s, heads, opts).Ok?
    ensures heads != [] && Known(s, heads) && MERGE_HEAD !in s.gitFiles
    ensures HeadLeaves(w, s, HeadOf(s).value).Ok? && Clean(RepoOf(w, s), s, HeadLeaves(w, s, HeadOf(s).value).value)
  {
    hide Dirt, Relations, Clean;
    ResolvedProper(s.refs, HEAD, MAX_HOPS);
    if HeadLeaves(w, s, HeadOf(s).value).Ok? { CleanCheck(w, s, HeadLeaves(w, s, HeadOf(s).value).value); }
  }

  /** Checking out a commit that contains HEAD. */
  function ForwardOutcome(w: World, s: State, other: Oid): Outcome
    requires HeadOf(s).Ok? && IsOid(HeadOf(s).value) && HEAD in s.refs && other in s.commits
  {
    var tm := TakenTree(RepoOf(w, s), s.commits[other].tree);
    if tm.Err? then (s, Err(tm.error)) else Forwarded(w, s, HeadOf(s).value, other, tm.value.paths)
  }

  ghost function ComputeOutcome(w: World, s: State, heads: seq<Oid>, opts: Options, who: Option<string>, skipShift: bool): Outcome
    requires heads != [] && Known(s, heads)
  {
    var c := ComputeOf(w, s, HeadOf(s).value, heads, StrategyOf(opts, heads), opts, skipShift);
    var t := s.(store := c.repo.stored);
    if c.r.Err? then (t, Err(c.r.error))
    else Applied(w, t, HeadOf(s).value, heads, MessageFor(opts.message, heads), c.r.value, opts.noCommit, who)
  }

  /** What merging `heads` into HEAD leads to. */
  ghost function MergeOutcome(w: World, s: State, heads: seq<Oid>, opts: Options, who: Option<string>): Outcome
    requires Named(s) && AllOids(heads)
  {
    if Plan(w, s, heads, opts).Ok? then
      PlanKnown(w, s, heads, opts);
      match Plan(w, s, heads, opts).value
      case Nothing => (s, Ok(MergeResult(true, None)))
      case Forward => ForwardOutcome(w, s, heads[0])
      case Compute(skipShift) => ComputeOutcome(w, s, heads, opts, who, skipShift)
    else (s, Err(Plan(w, s, heads, opts).error))
  }

  /** The user edits worktree and index; new conflict stages do not appear outside a merge. */
  ghost predicate UserStep(s: State, t: State) {
    t.refs == s.refs && t.gitFiles == s.gitFiles && t.commits == s.commits && (Unmerged(t) ==> MERGE_HEAD in s.gitFiles)
  }

  ghost predicate Step(w: World, s: State, t: State) {
    || (Named(s) && exists heads, opts, who :: AllOids(heads) && t == MergeOutcome(w, s, heads, opts, who).0)
    || t == AbortOutcome(w, s).0
    || (exists message, who :: t == ContinueOutcome(w, s, message, who).0)
    || UserStep(s, t)
  }

  // ---- The invariant -------------------------------------------------------------------------------

  /** A merge in progress has its message, names HEAD's commit and records its heads; conflict
      stages exist only then. */
  ghost predicate Inv(s: State) {
    && Named(s)
    && (Unmerged(s) ==> MERGE_HEAD in s.gitFiles)
    && (MERGE_HEAD in s.gitFiles ==> InProgress(s))
  }

  ghost predicate InProgress(s: State) {
    && MERGE_MSG in s.gitFiles && ORIG_HEAD in s.gitFiles && MERGE_HEAD in s.gitFiles
    && HeadOf(s).Ok? && IsOid(HeadOf(s).value) && HeadOf(s).value in s.commits && s.gitFiles[ORIG_HEAD] == HeadText(HeadOf(s).value)
    && exists ids :: ids != [] && AllOids(ids) && s.gitFiles[MERGE_HEAD] == HeadsText(ids)
  }

  lemma {:induction false} CleanIndex(paths: seq<OutPath>)
    requires forall i :: 0 <= i < |paths| ==> paths[i].resolved.Some?
    ensures |IndexOfPaths(paths)| == |paths|
    ensures forall i :: 0 <= i < |paths| ==> IndexOfPaths(paths)[i] == IndexEntry(paths[i].path, 0, paths[i].resolved.value)
  {
    if paths != [] { CleanIndex(paths[..|paths| - 1]); }
  }

  /** Materializing touches files and index only, and a failing one leaves the index. */
  lemma MaterializedKeeps(repo: Repo, s: State, paths: seq<OutPath>)
    ensures var m := Materialized(repo, s, paths);
            && m.0.refs == s.refs && m.0.gitFiles == s.gitFiles && m.0.commits == s.commits && m.0.store == s.store
            && m.0.index == if m.1.Some? then s.index else IndexOfPaths(paths)
  {
  }

  lemma TakenMerged(s: State, t: State, paths: seq<OutPath>, leaves: LeafMap)
    requires t.index == IndexOfPaths(paths) && TakesTree(paths, leaves)
    ensures !Unmerged(t)
  {
    CleanIndex(paths);
  }

  lemma GoodCleanMerged(t: State, tm: TreeMerge)
    requires t.index == IndexOfPaths(tm.paths) && GoodMerge(tm) && tm.clean
    ensures !Unmerged(t)
  {
    var want :| LeafyMap(want) && TakesTree(tm.paths, want) && Files(tm.tree) == want;
    TakenMerged(t, t, tm.paths, want);
  }

  lemma BegunInProgress(s: State, head: Oid, others: seq<Oid>, message: string)
    requires Named(s) && HeadOf(s) == Ok(head) && IsOid(head) && head in s.commits && others != [] && AllOids(others)
    ensures Inv(Begun(s, head, others, message))
  {
  }

  lemma AppliedKeeps(w: World, s: State, head: Oid, others: seq<Oid>, message: string, tm: TreeMerge, noCommit: bool, who: Option<string>)
    requires Inv(s) && ProperIds(w) && GoodMerge(tm) && MERGE_HEAD !in s.gitFiles
    requires HeadOf(s) == Ok(head) && IsOid(head) && head in s.commits && others != [] && AllOids(others)
    ensures Inv(Applied(w, s, head, others, message, tm, noCommit, who).0)
  {
    hide GoodMerge, Conflicting, Uncommitted, Committed, Inv;
    InvHead(s);
    if !tm.clean || noCommit {
      StopsKeep(w, s, head, others, message, tm);
    } else {
      CommittedKeeps(w, s, head, others, message, tm, who);
    }
  }

  lemma InvHead(s: State)
    requires Inv(s)
    ensures HEAD in s.refs
  {
  }

  lemma StopsKeep(w: World, s: State, head: Oid, others: seq<Oid>, message: string, tm: TreeMerge)
    requires Inv(s) && HeadOf(s) == Ok(head) && IsOid(head) && head in s.commits && others != [] && AllOids(others) && MERGE_HEAD !in s.gitFiles
    ensures Inv(Conflicting(w, s, head, others, message, tm).0) && Inv(Uncommitted(w, s, head, others, message, tm).0)
  {
    hide Begun, InProgress, IndexOfPaths, Materialized, Unmerged;
    var m := Materialized(RepoOf(w, s), s, tm.paths);
    MaterializedKeeps(RepoOf(w, s), s, tm.paths);
    if m.1.None? {
      BegunInProgress(m.0, head, others, message);
      BegunNamed(m.0, head, others, message);
      if tm.markerTree.Some? { MarkerKeeps(Begun(m.0, head, others, message), w.treeText(tm.markerTree.value)); }
    } else {
      SameIndex(s, m.0);
    }
  }

  lemma BegunNamed(s: State, head: Oid, others: seq<Oid>, message: string)
    requires IsOid(head) && AllOids(others)
    ensures MERGE_HEAD in Begun(s, head, others, message).gitFiles
  {
  }

  lemma SameIndex(s: State, t: State)
    requires t.index == s.index
    ensures Unmerged(t) == Unmerged(s)
  {
  }

  lemma CommittedKeeps(w: World, s: State, head: Oid, others: seq<Oid>, message: string, tm: TreeMerge, who: Option<string>)
    requires Inv(s) && ProperIds(w) && GoodMerge(tm) && MERGE_HEAD !in s.gitFiles && tm.clean
    requires IsOid(head) && HEAD in s.refs
    ensures Inv(Committed(w, s, head, others, message, tm, who).0)
  {
    hide GoodMerge, HeadText, InProgress, IndexOfPaths, Materialized, Unmerged;
    if who.Some? {
      var c := CommitRec(tm.tree, [head] + others, message, who.value);
      var n := Materialized(RepoOf(w, s), WithCommit(w, s, c), tm.paths);
      MaterializedKeeps(RepoOf(w, s), WithCommit(w, s, c), tm.paths);
      if n.1.None? {
        GoodCleanMerged(n.0, tm);
        SameIndex(n.0, Ended(WithHead(WithOrig(n.0, head), w.commitId(c))));
      } else {
        SameIndex(s, n.0);
      }
    }
  }

  lemma MarkerKeeps(s: State, text: string)
    requires Inv(s) && MERGE_HEAD in s.gitFiles
    ensures Inv(s.(gitFiles := s.gitFiles[AUTO_MERGE := text]))
  {
  }

  lemma MergeKeeps(w: World, s: State, heads: seq<Oid>, opts: Options, who: Option<string>)
    requires Inv(s) && ProperIds(w) && AllOids(heads)
    ensures Inv(MergeOutcome(w, s, heads, opts, who).0)
  {
    hide Plan, InProgress, Applied, Forwarded, ComputeOf, GoodMerge, Unmerged;
    if Plan(w, s, heads, opts).Ok? {
      PlanKnown(w, s, heads, opts);
      match Plan(w, s, heads, opts).value
      case Nothing =>
      case Forward => ForwardKeeps(w, s, heads[0]);
      case Compute(skipShift) =>
        var head := HeadOf(s).value;
        var c := ComputeOf(w, s, head, heads, StrategyOf(opts, heads), opts, skipShift);
        ComputedGood(w, s, head, heads, StrategyOf(opts, heads), opts, skipShift);
        StoreKeeps(s, c.repo.stored);
        if c.r.Ok? { AppliedKeeps(w, s.(store := c.repo.stored), head, heads, MessageFor(opts.message, heads), c.r.value, opts.noCommit, who); }
    }
  }

  lemma StoreKeeps(s: State, store: set<Hash>)
    requires Inv(s)
    ensures Inv(s.(store := store)) && HeadOf(s.(store := store)) == HeadOf(s) && Unmerged(s.(store := store)) == Unmerged(s)
  {
  }

  lemma ForwardKeeps(w: World, s: State, other: Oid)
    requires Inv(s) && MERGE_HEAD !in s.gitFiles && HeadOf(s).Ok? && IsOid(HeadOf(s).value) && IsOid(other) && other in s.commits
    ensures Inv(ForwardOutcome(w, s, other).0)
  {
    hide Materialized, IndexOfPaths, TakesTree, InProgress, GoodMerge, TakenTree;
    var repo := RepoOf(w, s);
    var tree := s.commits[other].tree;
    var tm := TakenTree(repo, tree);
    if tm.Ok? {
      TakenReadable(repo, tree);
      TakenGood(repo, tree);
      MaterializedKeeps(repo, s, tm.value.paths);
      var m := Materialized(repo, s, tm.value.paths);
      if m.1.None? { TakenMerged(s, m.0, tm.value.paths, Files(tree)); }
    }
  }

  lemma TakenReadable(repo: Repo, tree: Hash)
    ensures TakenTree(repo, tree).Ok? <==> Readable(repo, tree)
    ensures TakenTree(repo, tree).Err? ==> TakenTree(repo, tree).error == ObjectNotFound
  {
  }

  lemma AbortKeeps(w: World, s: State)
    requires Inv(s)
    ensures Inv(AbortOutcome(w, s).0)
  {
    hide AbortTo;
    if MERGE_HEAD in s.gitFiles {
      OneHashBack(HeadOf(s).value);
      AbortedKeeps(w, s);
    }
  }

  lemma AbortedKeeps(w: World, s: State)
    requires Inv(s) && MERGE_HEAD in s.gitFiles
    ensures Inv(AbortTo(w, s, HeadOf(s).value).0)
  {
    hide Materialized, IndexOfPaths, TakesTree, InProgress, TakenTree, GoodMerge;
    var head := HeadOfProgress(s);
    var repo := RepoOf(w, s);
    var tm := TakenTree(repo, s.commits[head].tree);
    if tm.Ok? {
      TakenReadable(repo, s.commits[head].tree);
      TakenGood(repo, s.commits[head].tree);
      MaterializedKeeps(repo, s, tm.value.paths);
      var m := Materialized(repo, s, tm.value.paths);
      if m.1.None? {
        TakenMerged(s, m.0, tm.value.paths, Files(s.commits[head].tree));
        ResolvedProper(s.refs, HEAD, MAX_HOPS);
      } else {
        ProgressKeeps(s, m.0);
      }
    }
  }

  lemma HeadOfProgress(s: State) returns (head: Oid)
    requires Inv(s) && MERGE_HEAD in s.gitFiles
    ensures HeadOf(s) == Ok(head) && IsOid(head) && head in s.commits && InProgress(s)
  {
    head := HeadOf(s).value;
  }

  lemma ProgressKeeps(s: State, t: State)
    requires InProgress(s) && t.refs == s.refs && t.gitFiles == s.gitFiles && t.commits == s.commits
    ensures InProgress(t)
  {
  }

  lemma ContinueKeeps(w: World, s: State, message: Option<string>, who: Option<string>)
    requires Inv(s) && ProperIds(w)
    ensures Inv(ContinueOutcome(w, s, message, who).0)
  {
    hide ParseLines, Lines, TreesFor, IndexTree, InProgress, Unmerged;
    var t := StoresMore(s, TreesFor(Sort(ItemLe, IndexItems(s.index)), ""));
    StoreKeeps(s, t.store);
    assert Inv(t) && HeadOf(t) == HeadOf(s) && Unmerged(t) == Unmerged(s);
    SameIndex(t, ContinueOutcome(w, s, message, who).0);
  }

  /** Every step keeps the invariant. */
  lemma StepKeeps(w: World, s: State, t: State)
    requires Inv(s) && ProperIds(w) && Step(w, s, t)
    ensures Inv(t)
  {
    hide Inv, MergeOutcome, AbortOutcome, ContinueOutcome, UserStep;
    if heads, opts, who :| Named(s) && AllOids(heads) && t == MergeOutcome(w, s, heads, opts, who).0 {
      MergeKeeps(w, s, heads, opts, who);
    } else if t == AbortOutcome(w, s).0 {
      AbortKeeps(w, s);
    } else if message, who :| t == ContinueOutcome(w, s, message, who).0 {
      ContinueKeeps(w, s, message, who);
    } else {
      UserKeeps(s, t);
    }
  }

  lemma UserKeeps(s: State, t: State)
    requires Inv(s) && UserStep(s, t)
    ensures Inv(t)
  {
  }

  ghost predicate Run(w: World, states: seq<State>) {
    states != [] && forall i :: 0 <= i < |states| - 1 ==> Step(w, states[i], states[i + 1])
  }

  /** Over every run that starts well, the invariant holds throughout. */
  lemma {:induction false} RunKeeps(w: World, states: seq<State>, i: nat)
    requires ProperIds(w) && Run(w, states) && Inv(states[0]) && i < |states|
    ensures Inv(states[i])
  {
    hide Inv, Step;
    if i > 0 {
      RunKeeps(w, states, i - 1);
      StepKeeps(w, states[i - 1], states[i]);
    }
  }

  /** So neither abort nor continue ever finds the merge files corrupt. */
  lemma NeverCorrupt(w: World, states: seq<State>, i: nat)
    requires ProperIds(w) && Run(w, states) && Inv(states[0]) && i < |states|
    ensures AbortOutcome(w, states[i]).1 != Err(CorruptMergeState)
    ensures forall message, who :: ContinueOutcome(w, states[i], message, who).1 != Err(CorruptMergeState)
  {
    hide Run, Step, Lines, ParseLines, ParseOneHash, AbortTo;
    RunKeeps(w, states, i);
    var s := states[i];
    if MERGE_HEAD in s.gitFiles {
      var head := HeadOfProgress(s);
      OneHashBack(head);
      AbortErrors(w, s, head);
      var ids :| ids != [] && AllOids(ids) && s.gitFiles[MERGE_HEAD] == HeadsText(ids);
      HeadsBack(ids);
    }
  }

  lemma {:induction false} WriteErrors(repo: Repo, files: FileMap, paths: seq<OutPath>)
    ensures WriteAll(repo, files, paths).1.Some? ==> WriteAll(repo, files, paths).1.value in {ObjectNotFound, IsDir}
  {
    if paths != [] { WriteErrors(repo, files, paths[..|paths| - 1]); }
  }

  lemma AbortErrors(w: World, s: State, head: Oid)
    requires head in s.commits && HEAD in s.refs
    ensures AbortTo(w, s, head).1.Err? ==> AbortTo(w, s, head).1.error in {ObjectNotFound, IsDir}
  {
    hide WriteAll, TakePaths, IndexOfPaths;
    var tm := TakenTree(RepoOf(w, s), s.commits[head].tree);
    if tm.Ok? { WriteErrors(RepoOf(w, s), RemoveAll(s.files, StaleList(s.index, Written(tm.value.paths))), tm.value.paths); }
  }
}
