/** What an error of merging, or of aborting, leaves behind, exactly. */
module MergeErrors {
  import opened Wrappers
  import opened Leaves
  import opened Trees
  import opened Decide
  import opened Engine
  import opened MergeLaws
  import opened Octopus
  import opened MergeFiles
  import opened Checkout
  import opened MergeState
  import opened MergePlan
  import opened MergeRuns

  // ---- A checkout that stops ---------------------------------------------------------------------

  function StaleOf(s: State, paths: seq<OutPath>): seq<Path> { StaleList(s.index, Written(paths)) }

  /** The files once stale ones are gone. */
  function LeftOf(s: State, paths: seq<OutPath>): FileMap { RemoveAll(s.files, StaleOf(s, paths)) }

  /** Some file of the result cannot be written: it is missing from the store, or a directory with
      something in it is in the way. */
  ghost predicate Stuck(repo: Repo, s: State, paths: seq<OutPath>) {
    exists i :: StuckAt(repo, LeftOf(s, paths), paths, i)
  }

  /** Something was touched before the first such file. */
  ghost predicate HalfDone(repo: Repo, s: State, paths: seq<OutPath>) {
    exists i :: FirstStuck(repo, LeftOf(s, paths), paths, i) && !Untouched(repo, s.files, StaleOf(s, paths), paths, i)
  }

  lemma StaleUnwritten(s: State, paths: seq<OutPath>)
    ensures KeepsWritten(StaleOf(s, paths), paths)
  {
    forall j | 0 <= j < |paths| && paths[j].writeFile ensures paths[j].path !in StaleOf(s, paths) {
      StaleNames(s.index, Written(paths), paths[j].path);
    }
  }

  /** A checkout fails exactly when some file is stuck; it then changes files at most, and those
      exactly when something was touched before. */
  lemma MaterialExactly(repo: Repo, s: State, paths: seq<OutPath>)
    requires Tidy(s.files) && AllSound(paths)
    ensures var m := Materialized(repo, s, paths);
            && (m.1.Some? <==> Stuck(repo, s, paths))
            && (m.1.Some? ==> m.0 == s.(files := m.0.files) && (m.0.files != s.files <==> HalfDone(repo, s, paths)))
            && (HalfDone(repo, s, paths) ==> m.1.Some?)
  {
    hide WriteAll, StuckAt, Untouched, Tidy, AllSound, IndexOfPaths;
    var left := LeftOf(s, paths);
    RemovedTidy(s.files, StaleOf(s, paths));
    TidyRooted(left);
    StaleUnwritten(s, paths);
    FailsExactly(repo, left, paths);
    if n :| StuckAt(repo, left, paths, n) {
      var i := SomeFirst(repo, left, paths, n);
      UntouchedExactly(repo, s.files, StaleOf(s, paths), paths, i);
      forall j | FirstStuck(repo, left, paths, j) ensures j == i { OneFirst(repo, left, paths, i, j); }
    }
  }

  lemma OneFirst(repo: Repo, files: FileMap, paths: seq<OutPath>, i: nat, j: nat)
    requires FirstStuck(repo, files, paths, i) && FirstStuck(repo, files, paths, j)
    ensures i == j
  {
    hide StuckAt;
  }

  /** The error that stops it says which of the two it was. */
  lemma MaterialError(repo: Repo, s: State, paths: seq<OutPath>, i: nat)
    requires Tidy(s.files) && AllSound(paths) && FirstStuck(repo, LeftOf(s, paths), paths, i)
    ensures i < |paths| && Materialized(repo, s, paths).1 == Some(if FileFor(repo, paths[i]).Err? then ObjectNotFound else IsDir)
  {
    hide WriteAll, StuckAt, Tidy, FileFor;
    RemovedTidy(s.files, StaleOf(s, paths));
    TidyRooted(LeftOf(s, paths));
    StopsAtFirst(repo, LeftOf(s, paths), paths, i);
    StuckIndex(repo, LeftOf(s, paths), paths, i);
    StuckWrites(repo, LeftOf(s, paths), paths, i);
    SoundWrites(repo, paths[i]);
  }

  lemma StuckWrites(repo: Repo, files: FileMap, paths: seq<OutPath>, i: nat)
    requires StuckAt(repo, files, paths, i)
    ensures i < |paths| && paths[i].writeFile
  {
  }

  // ---- Errors of merging ------------------------------------------------------------------------------

  /** The merge comes to checking something out, gets stuck there and has touched something before. */
  ghost predicate Breaks(w: World, s: State, heads: seq<Oid>, opts: Options, who: Option<string>)
    requires Named(s) && AllOids(heads)
  {
    Plan(w, s, heads, opts).Ok? &&
    (PlanKnown(w, s, heads, opts);
     match Plan(w, s, heads, opts).value
     case Nothing => false
     case Forward =>
       var repo, tree := RepoOf(w, s), s.commits[heads[0]].tree;
       Readable(repo, tree) && HalfDone(repo, s, TakePaths(repo.order, Files(tree)))
     case Compute(skipShift) =>
       var c := ComputeOf(w, s, HeadOf(s).value, heads, StrategyOf(opts, heads), opts, skipShift);
       c.r.Ok? && !(c.r.value.clean && !opts.noCommit && who.None?) && HalfDone(c.repo, s, c.r.value.paths))
  }

  /** Nothing but files, the store and abandoned commits differs. */
  ghost predicate OnlyFiles(s: State, t: State) {
    t.refs == s.refs && t.index == s.index && t.gitFiles == s.gitFiles && s.store <= t.store
  }

  /** A merge that returns an error has moved no reference, changed no index entry and written no
      merge file; it has changed the worktree exactly when it came to a checkout that got stuck
      half way. */
  lemma ErrorsExactly(w: World, s: State, heads: seq<Oid>, opts: Options, who: Option<string>)
    requires Named(s) && AllOids(heads) && Tidy(s.files)
    ensures var (t, r) := MergeOutcome(w, s, heads, opts, who);
            && (r.Err? ==> OnlyFiles(s, t))
            && (r.Err? && t.files != s.files <==> Breaks(w, s, heads, opts, who))
  {
    hide Plan, ForwardOutcome, ComputeOutcome, ComputeOf, HalfDone, Readable, Tidy;
    if Plan(w, s, heads, opts).Ok? {
      PlanKnown(w, s, heads, opts);
      match Plan(w, s, heads, opts).value
      case Nothing =>
      case Forward => ForwardErrors(w, s, heads[0]);
      case Compute(skipShift) => ComputeErrors(w, s, heads, opts, who, skipShift);
    }
  }

  lemma ForwardErrors(w: World, s: State, other: Oid)
    requires HeadOf(s).Ok? && IsOid(HeadOf(s).value) && HEAD in s.refs && other in s.commits && Tidy(s.files)
    ensures var (t, r) := ForwardOutcome(w, s, other);
            var repo, tree := RepoOf(w, s), s.commits[other].tree;
            && (r.Err? ==> OnlyFiles(s, t))
            && (r.Err? && t.files != s.files <==> Readable(repo, tree) && HalfDone(repo, s, TakePaths(repo.order, Files(tree))))
  {
    hide Materialized, HalfDone, Stuck, Tidy, GoodMerge, Readable;
    var repo, tree := RepoOf(w, s), s.commits[other].tree;
    if Readable(repo, tree) {
      TakenGood(repo, tree);
      GoodSound(TakenTree(repo, tree).value);
      MaterialExactly(repo, s, TakePaths(repo.order, Files(tree)));
    }
  }

  lemma ComputeErrors(w: World, s: State, heads: seq<Oid>, opts: Options, who: Option<string>, skipShift: bool)
    requires heads != [] && Known(s, heads) && Tidy(s.files)
    ensures var (t, r) := ComputeOutcome(w, s, heads, opts, who, skipShift);
            var c := ComputeOf(w, s, HeadOf(s).value, heads, StrategyOf(opts, heads), opts, skipShift);
            && (r.Err? ==> OnlyFiles(s, t))
            && (r.Err? && t.files != s.files <==>
                c.r.Ok? && !(c.r.value.clean && !opts.noCommit && who.None?) && HalfDone(c.repo, s, c.r.value.paths))
  {
    hide Materialized, HalfDone, Stuck, Tidy, GoodMerge, ComputeOf, HeadText, HeadsText;
    var head := HeadOf(s).value;
    ComputeExtends(w, s, head, heads, StrategyOf(opts, heads), opts, skipShift);
    ComputedGood(w, s, head, heads, StrategyOf(opts, heads), opts, skipShift);
    var c := ComputeOf(w, s, head, heads, StrategyOf(opts, heads), opts, skipShift);
    if c.r.Ok? {
      var tm := c.r.value;
      var t := s.(store := c.repo.stored);
      assert RepoOf(w, t) == c.repo;
      GoodSound(tm);
      MaterialExactly(c.repo, s, tm.paths);
      SameCheckout(c.repo, s, t, tm.paths);
      if who.Some? {
        var commit := CommitRec(tm.tree, [head] + heads, MessageFor(opts.message, heads), who.value);
        SameCheckout(c.repo, s, WithCommit(w, t, commit), tm.paths);
      }
    }
  }

  lemma GoodSound(tm: TreeMerge)
    requires GoodMerge(tm)
    ensures AllSound(tm.paths)
  {
  }

  /** A checkout looks at files and index only, and changes nothing else. */
  lemma SameCheckout(repo: Repo, s: State, t: State, paths: seq<OutPath>)
    requires t.files == s.files && t.index == s.index
    ensures var m, n := Materialized(repo, s, paths), Materialized(repo, t, paths);
            n.1 == m.1 && n.0 == t.(files := m.0.files, index := m.0.index)
  {
  }

  // ---- Errors of aborting --------------------------------------------------------------------------------

  /** Aborting that returns an error has moved no reference, changed no index entry and removed no
      merge file; it fails half way exactly when the checkout of the recorded commit gets stuck
      after touching something. */
  lemma AbortErrorsExactly(w: World, s: State, head: Oid)
    requires HEAD in s.refs && MERGE_HEAD in s.gitFiles && ORIG_HEAD in s.gitFiles && ParseOneHash(s.gitFiles[ORIG_HEAD]) == Some(head)
    requires head in s.commits && Readable(RepoOf(w, s), s.commits[head].tree) && Tidy(s.files)
    ensures var (t, r) := AbortOutcome(w, s);
            var repo, paths := RepoOf(w, s), TakePaths(w.repo.order, Files(s.commits[head].tree));
            && (r.Err? <==> Stuck(repo, s, paths))
            && (r.Err? ==> OnlyFiles(s, t) && t.commits == s.commits)
            && (r.Err? && t.files != s.files <==> HalfDone(repo, s, paths))
  {
    hide Materialized, HalfDone, Stuck, Tidy, GoodMerge, Readable, ParseOneHash;
    var repo, tree := RepoOf(w, s), s.commits[head].tree;
    TakenGood(repo, tree);
    GoodSound(TakenTree(repo, tree).value);
    MaterialExactly(repo, s, TakePaths(repo.order, Files(tree)));
  }
}
