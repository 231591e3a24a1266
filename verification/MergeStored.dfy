/** A merge of commits whose files are all stored never finds a file missing. */
module MergeStored {
  import opened Wrappers
  import opened Leaves
  import opened Trees
  import opened Align
  import opened Decide
  import opened Engine
  import opened MergeLaws
  import opened Octopus
  import opened MergeFiles
  import opened Checkout
  import opened MergeState
  import opened MergePlan
  import opened MergeRuns
  import opened MergeErrors

  predicate StoredLeaf(repo: Repo, leaf: Leaf) { leaf.mode != SUBMODULE ==> BlobBytes(repo, leaf.hash).Some? }

  /** Every file of the map can be read. */
  ghost predicate BlobsStored(repo: Repo, m: LeafMap) { forall k :: k in m ==> StoredLeaf(repo, m[k]) }

  /** No file to be written is missing. */
  ghost predicate NoneMissing(repo: Repo, paths: seq<OutPath>) { forall i :: 0 <= i < |paths| ==> FileFor(repo, paths[i]).Ok? }

  predicate StoredSlot(repo: Repo, v: Option<Leaf>) { v.Some? ==> StoredLeaf(repo, v.value) }

  predicate StoredNode(repo: Repo, n: Node) { StoredSlot(repo, n.ours) && StoredSlot(repo, n.theirs) }

  ghost predicate StoredNodes(repo: Repo, nodes: Nodes) { forall q :: q in nodes ==> StoredNode(repo, nodes[q]) }

  // ---- From the maps to the nodes ----------------------------------------------------------------

  lemma OffersStored(repo: Repo, x: Input, p: Path, q: Path)
    requires BlobsStored(repo, x.ours) && BlobsStored(repo, x.theirs)
    ensures StoredSlot(repo, OfferOurs(x, p, q)) && StoredSlot(repo, OfferTheirs(x, p, q))
  {
  }

  lemma SlotStored(repo: Repo, v: Option<Leaf>, offer: Path -> Option<Leaf>, done: set<Path>)
    requires Slot(v, offer, done) && forall p :: p in done ==> StoredSlot(repo, offer(p))
    ensures StoredSlot(repo, v)
  {
  }

  lemma FilledStored(repo: Repo, x: Input, q: Path, n: Node)
    requires BlobsStored(repo, x.ours) && BlobsStored(repo, x.theirs) && Filled(x, x.base.Keys, q, n)
    ensures StoredNode(repo, n)
  {
    hide OfferBase, OfferOurs, OfferTheirs, BlobsStored, StoredLeaf, StoredSlot;
    forall p ensures StoredSlot(repo, OfferOurs(x, p, q)) && StoredSlot(repo, OfferTheirs(x, p, q)) { OffersStored(repo, x, p, q); }
    SlotStored(repo, n.ours, p => OfferOurs(x, p, q), x.base.Keys);
    SlotStored(repo, n.theirs, p => OfferTheirs(x, p, q), x.base.Keys);
  }

  lemma AlignedStored(repo: Repo, x: Input, nodes: Nodes)
    requires BlobsStored(repo, x.ours) && BlobsStored(repo, x.theirs) && Aligned(x, nodes)
    ensures StoredNodes(repo, nodes)
  {
    hide Filled, Reaches, StoredLeaf;
    forall q | q in nodes ensures StoredNode(repo, nodes[q]) {
      if Reached(x, x.base.Keys, q) { FilledStored(repo, x, q, nodes[q]); }
    }
  }

  lemma SettledAtStored(repo: Repo, nodes: Nodes, keys: seq<Path>, path: Path, oursLabel: string, theirsLabel: string)
    requires StoredNodes(repo, nodes)
    ensures StoredNodes(repo, SettledAt(nodes, keys, path, oursLabel, theirsLabel))
  {
    hide HasBelow, HasDir, StoredLeaf, Relocated, StoredNodes;
    RelocatedStored(repo, nodes, path, theirsLabel, Theirs);
    RelocatedStored(repo, nodes, path, oursLabel, Ours);
    MarkedStored(repo, nodes, path);
  }

  lemma RelocatedStored(repo: Repo, nodes: Nodes, path: Path, name: string, which: Side)
    requires StoredNodes(repo, nodes)
    ensures StoredNodes(repo, Relocated(nodes, path, name, which))
  {
    hide StoredLeaf;
  }

  lemma MarkedStored(repo: Repo, nodes: Nodes, path: Path)
    requires StoredNodes(repo, nodes)
    ensures path in nodes ==> StoredNodes(repo, nodes[path := nodes[path].(forced := KeepStages)])
  {
    hide StoredLeaf;
  }

  lemma {:induction false} SettledStored(repo: Repo, nodes: Nodes, keys: seq<Path>, n: nat, oursLabel: string, theirsLabel: string)
    requires n <= |keys| && StoredNodes(repo, nodes)
    ensures StoredNodes(repo, SettledUpTo(nodes, keys, n, oursLabel, theirsLabel))
  {
    hide StoredNodes, SettledAt;
    if n > 0 {
      SettledStored(repo, nodes, keys, n - 1, oursLabel, theirsLabel);
      SettledAtStored(repo, SettledUpTo(nodes, keys, n - 1, oursLabel, theirsLabel), keys, keys[n - 1], oursLabel, theirsLabel);
    }
  }

  // ---- From the nodes to the output ---------------------------------------------------------------

  lemma FileForMore(repo: Repo, more: Repo, p: OutPath)
    requires Extends(repo, more) && FileFor(repo, p).Ok?
    ensures FileFor(more, p).Ok?
  {
  }

  /** The shapes an output path with a stored leaf can have. */
  lemma SingleStored(repo: Repo, path: Path, base: Option<Leaf>, leaf: Leaf)
    requires StoredLeaf(repo, leaf)
    ensures FileFor(repo, Resolved(path, leaf)).Ok? && FileFor(repo, OursOnly(path, base, leaf)).Ok? && FileFor(repo, TheirsOnly(path, base, leaf)).Ok?
  {
  }

  lemma BothStored(repo: Repo, spec: Spec, q: Path, base: Option<Leaf>, o: Leaf, t: Leaf)
    requires StoredLeaf(repo, o) && StoredLeaf(repo, t)
    ensures match DecideBoth(repo, spec, q, base, o, t) case Ok(d) => NoneMissing(Stores(repo, d.made), d.outs) case Err(_) => true
  {
    hide IsBinary, PickMode;
    SingleStored(repo, q, None, o);
    SingleStored(repo, q, None, t);
    SingleStored(repo, q + "~" + spec.theirsLabel, base, t);
    if KindOf(o.mode).Text? && KindOf(t.mode).Text? { FilesStored(repo, spec, q, base, o, t); }
  }

  lemma FilesStored(repo: Repo, spec: Spec, q: Path, base: Option<Leaf>, o: Leaf, t: Leaf)
    requires StoredLeaf(repo, o) && KindOf(o.mode).Text?
    ensures match Decide.MergeFiles(repo, spec, q, base, o, t) case Ok(d) => NoneMissing(Stores(repo, d.made), d.outs) case Err(_) => true
  {
    hide IsBinary, PickMode;
  }

  lemma NodeStored(repo: Repo, spec: Spec, q: Path, n: Node)
    requires StoredNode(repo, n)
    ensures match DecideNode(repo, spec, q, n) case Ok(d) => NoneMissing(Stores(repo, d.made), d.outs) case Err(_) => true
  {
    hide DecideBoth, StoredLeaf, OursOnly, TheirsOnly, Resolved;
    if n.ours.Some? { SingleStored(repo, q, n.base, n.ours.value); }
    if n.theirs.Some? { SingleStored(repo, q, n.base, n.theirs.value); }
    StagesStored(repo, q, n);
    assert Stores(repo, {}) == repo;
    if n.ours.Some? && n.theirs.Some? { BothStored(repo, spec, q, n.base, n.ours.value, n.theirs.value); }
  }

  lemma StagesStored(repo: Repo, q: Path, n: Node)
    ensures FileFor(repo, Conflicted(q, n.base, n.ours, n.theirs, None, None, REGULAR, false)).Ok?
  {
  }

  lemma NodesMore(repo: Repo, more: Repo, nodes: Nodes)
    requires Extends(repo, more) && StoredNodes(repo, nodes)
    ensures StoredNodes(more, nodes)
  {
  }

  lemma OutsMore(repo: Repo, more: Repo, outs: seq<OutPath>)
    requires Extends(repo, more) && NoneMissing(repo, outs)
    ensures NoneMissing(more, outs)
  {
    forall i | 0 <= i < |outs| ensures FileFor(more, outs[i]).Ok? { FileForMore(repo, more, outs[i]); }
  }

  lemma {:induction false} DecidedStored(repo: Repo, spec: Spec, keys: seq<Path>, nodes: Nodes)
    requires StoredNodes(repo, nodes)
    ensures var done := DecideAll(repo, spec, keys, nodes); done.r.Ok? ==> NoneMissing(done.repo, done.r.value.outs)
  {
    hide DecideNode, FileFor, StoredNode;
    if keys != [] {
      var front, k := keys[..|keys| - 1], keys[|keys| - 1];
      DecidedStored(repo, spec, front, nodes);
      DecideExtends(repo, spec, front, nodes);
      var before := DecideAll(repo, spec, front, nodes);
      NodesMore(repo, before.repo, nodes);
      if k in nodes && before.r.Ok? {
        NodeStored(before.repo, spec, k, nodes[k]);
        if DecideNode(before.repo, spec, k, nodes[k]).Ok? {
          OutsMore(before.repo, Stores(before.repo, DecideNode(before.repo, spec, k, nodes[k]).value.made), before.r.value.outs);
        }
      }
    }
  }

  /** Merging readable trees whose files are stored gives only files that are stored. */
  lemma MergedStored(repo: Repo, spec: Spec, base: Hash, ours: Hash, theirs: Hash)
    requires BlobsStored(repo, Files(ours)) && BlobsStored(repo, Files(theirs))
    ensures var done := MergedTrees(repo, spec, base, ours, theirs);
            && (done.r.Ok? ==> NoneMissing(done.repo, done.r.value.paths))
            && (IsClean(done.r) ==> BlobsStored(done.repo, Files(done.r.value.tree)))
  {
    hide MergedTrees, MergeOf, BlobsStored, NoneMissing, LeafyInput, Valid, Took, CleanBy, Whole;
    var done, x := MergedTrees(repo, spec, base, ours, theirs), TreesInput(repo, spec, base, ours, theirs);
    if done.r.Ok? {
      MergedNeeds(repo, spec, base, ours, theirs);
      TreesMerge(repo, spec, base, ours, theirs);
      ResultStored(repo, spec, x, done);
      if done.r.value.clean {
        var nodes, want := CleanMerge(repo, spec, x, done);
        TookStored(done.repo, done.r.value, want);
      }
    }
  }

  lemma ResultStored(repo: Repo, spec: Spec, x: Input, done: Done<TreeMerge>)
    requires MergeOf(repo, spec, x, done) && BlobsStored(repo, x.ours) && BlobsStored(repo, x.theirs) && done.r.Ok?
    ensures NoneMissing(done.repo, done.r.value.paths)
  {
    hide Aligned, DecideAll, KeysOf, SettledUpTo, BlobsStored, NoneMissing, StoredNodes, MadeFor, TreeOf;
    var spec1 := spec.(attrs := LoadAttrs(repo, x.ours).value);
    var nodes :| Aligned(x, nodes) && done == ResultOf(repo, spec1, nodes);
    AlignedStored(repo, x, nodes);
    var keys := KeysOf(repo.order, nodes);
    SettledStored(repo, nodes, keys, |keys|, spec.oursLabel, spec.theirsLabel);
    var settled := Settle(repo.order, nodes, spec.oursLabel, spec.theirsLabel);
    var d := DecideAll(repo, spec1, KeysOf(repo.order, settled), settled);
    DecidedStored(repo, spec1, KeysOf(repo.order, settled), settled);
    if d.r.Ok? { OutsMore(d.repo, done.repo, d.r.value.outs); }
  }

  lemma TookStored(repo: Repo, tm: TreeMerge, want: LeafMap)
    requires Took(tm, want) && NoneMissing(repo, tm.paths)
    ensures BlobsStored(repo, Files(tm.tree))
  {
    forall k | k in want ensures StoredLeaf(repo, want[k]) {
      assert Resolved(k, want[k]) in tm.paths;
      var i :| 0 <= i < |tm.paths| && tm.paths[i] == Resolved(k, want[k]);
      assert FileFor(repo, tm.paths[i]).Ok?;
    }
  }

  // ---- Every strategy ---------------------------------------------------------------------------------

  lemma BlobsMore(repo: Repo, more: Repo, m: LeafMap)
    requires Extends(repo, more) && BlobsStored(repo, m)
    ensures BlobsStored(more, m)
  {
  }

  lemma {:induction false} OctopusStored(repo: Repo, g: Graph, spec: Spec, head: CommitObj, others: seq<CommitObj>, n: nat)
    requires n <= |others| && BlobsStored(repo, Files(head.tree)) && forall i :: 0 <= i < |others| ==> BlobsStored(repo, Files(others[i].tree))
    requires spec.trivialOnly
    ensures var done := OctopusUpTo(repo, g, spec, head, others, n);
            done.r.Ok? ==> NoneMissing(done.repo, done.r.value.paths) && BlobsStored(done.repo, Files(done.r.value.tree))
  {
    hide MergedTrees, AncestorOf, BlobsStored, FileFor;
    if n > 0 {
      OctopusStored(repo, g, spec, head, others, n - 1);
      OctopusExtends(repo, g, spec, head, others, n - 1);
      var last := OctopusUpTo(repo, g, spec, head, others, n - 1);
      if last.r.Ok? {
        AncestorExtends(last.repo, g, spec, head.hash, others[n - 1].hash, 0);
        var base := AncestorOf(last.repo, g, spec, head.hash, others[n - 1].hash, 0);
        BlobsMore(last.repo, base.repo, Files(last.r.value.tree));
        BlobsMore(repo, base.repo, Files(others[n - 1].tree));
        if base.r.Ok? {
          MergedStored(base.repo, spec, base.r.value, last.r.value.tree, others[n - 1].tree);
          TrivialClean(base.repo, spec, base.r.value, last.r.value.tree, others[n - 1].tree);
        }
      }
    }
  }

  /** Trivial merging is refused or clean. */
  lemma TrivialClean(repo: Repo, spec: Spec, base: Hash, ours: Hash, theirs: Hash)
    requires spec.trivialOnly
    ensures var done := MergedTrees(repo, spec, base, ours, theirs); done.r.Ok? ==> IsClean(done.r)
  {
    hide MergedTrees, ResultOf, Aligned, LeafyInput, Valid;
    var done := MergedTrees(repo, spec, base, ours, theirs);
    if done.r.Ok? {
      MergedNeeds(repo, spec, base, ours, theirs);
      TreesMerge(repo, spec, base, ours, theirs);
      var x := TreesInput(repo, spec, base, ours, theirs);
      var spec1 := spec.(attrs := LoadAttrs(repo, x.ours).value);
      var nodes :| Aligned(x, nodes) && done == ResultOf(repo, spec1, nodes);
      PlainResult(repo, spec1, nodes, done);
    }
  }

  /** Shifting changes no leaf. */
  lemma WrapStored(repo: Repo, parts: seq<string>, inner: Hash)
    requires inner.Tree? && BlobsStored(repo, Files(inner))
    ensures BlobsStored(repo, Files(Wrap(parts, inner)))
  {
    WrapFiles(parts, inner, "");
    assert "" + JoinParts(parts) == JoinParts(parts) && JoinParts(parts) + "" == JoinParts(parts);
    PrefixFiles(inner, |inner.entries|, JoinParts(parts), "");
  }

  lemma {:induction false} WrapNeeds(repo: Repo, parts: seq<string>, inner: Hash)
    requires Readable(repo, Wrap(parts, inner)) && parts != []
    ensures inner.Tree?
    decreases |parts|
  {
    var h := Wrap(parts, inner);
    assert h.entries[0].hash == Wrap(parts[1..], inner);
    assert WholeUpTo(repo, h, 1) && Whole(repo, h.entries[0].hash);
    if |parts| > 1 { WrapNeeds(repo, parts[1..], inner); } else { assert parts[1..] == []; }
  }

  lemma ThreeWayStored(w: World, repo: Repo, spec: Spec, ours: CommitObj, theirs: CommitObj, shift: bool, given: Option<string>)
    requires BlobsStored(repo, Files(ours.tree)) && BlobsStored(repo, Files(theirs.tree))
    ensures var c := ThreeWayResult(w, repo, spec, ours, theirs, shift, given); c.r.Ok? ==> NoneMissing(c.repo, c.r.value.paths)
  {
    hide MergedTrees, AncestorOf, ChosenPrefix, BlobsStored, NoneMissing, ShiftParts, Readable;
    AncestorExtends(repo, w.graph, spec, ours.hash, theirs.hash, 0);
    var base := AncestorOf(repo, w.graph, spec, ours.hash, theirs.hash, 0);
    BlobsMore(repo, base.repo, Files(ours.tree));
    BlobsMore(repo, base.repo, Files(theirs.tree));
    if base.r.Ok? {
      if shift {
        var prefix := ChosenPrefix(base.repo, ours.tree, theirs.tree, given);
        if prefix.Ok? && ShiftParts(prefix.value).Some? {
          ShiftedStored(base.repo, spec, base.r.value, ours.tree, theirs.tree, prefix.value);
        }
      } else {
        MergedStored(base.repo, spec, base.r.value, ours.tree, theirs.tree);
      }
    }
  }

  lemma ShiftedStored(repo: Repo, spec: Spec, base: Hash, ours: Hash, theirs: Hash, prefix: string)
    requires BlobsStored(repo, Files(ours)) && BlobsStored(repo, Files(theirs)) && ShiftParts(prefix).Some?
    ensures var parts := ShiftParts(prefix).value;
            var done := MergedTrees(Stores(repo, Wraps(parts, base) + Wraps(parts, theirs)), spec, Wrap(parts, base), ours, Wrap(parts, theirs));
            done.r.Ok? ==> NoneMissing(done.repo, done.r.value.paths)
  {
    hide MergedTrees, BlobsStored, NoneMissing, Readable, Parts, Trimmed;
    var parts := ShiftParts(prefix).value;
    var more := Stores(repo, Wraps(parts, base) + Wraps(parts, theirs));
    if MergedTrees(more, spec, Wrap(parts, base), ours, Wrap(parts, theirs)).r.Ok? {
      MergedNeeds(more, spec, Wrap(parts, base), ours, Wrap(parts, theirs));
      WrapNeeds(more, parts, theirs);
      WrapStored(repo, parts, theirs);
      BlobsMore(repo, more, Files(ours));
      BlobsMore(repo, more, Files(Wrap(parts, theirs)));
      MergedStored(more, spec, Wrap(parts, base), ours, Wrap(parts, theirs));
    }
  }

  /** Computing a merge of commits whose files are stored gives only files that are stored. */
  lemma ComputeStored(w: World, s: State, head: Oid, heads: seq<Oid>, strategy: Strategy, opts: Options, skipShift: bool)
    requires head in s.commits && AllOids(heads) && heads != [] && forall i :: 0 <= i < |heads| ==> heads[i] in s.commits
    requires BlobsStored(RepoOf(w, s), Files(s.commits[head].tree))
    requires forall i :: 0 <= i < |heads| ==> BlobsStored(RepoOf(w, s), Files(s.commits[heads[i]].tree))
    ensures var c := ComputeOf(w, s, head, heads, strategy, opts, skipShift); c.r.Ok? ==> NoneMissing(c.repo, c.r.value.paths)
  {
    hide MergedTrees, AncestorOf, ChosenPrefix, ShiftParts, OctopusUpTo, LabelError, BlobsStored, NoneMissing, TakenTree, ThreeWayResult;
    var repo, spec := RepoOf(w, s), SpecOf(opts, strategy, heads);
    match strategy
    case KeepOurs => TakenStored(repo, s.commits[head].tree);
    case Many => OctopusStored(repo, w.graph, spec, Object(s, head), Objects(s, heads), |heads|);
    case _ => ThreeWayStored(w, repo, spec, Object(s, head), Object(s, heads[0]), strategy.Subtree? && !skipShift, opts.subtreePath);
  }

  lemma TakenStored(repo: Repo, tree: Hash)
    requires BlobsStored(repo, Files(tree))
    ensures TakenTree(repo, tree).Ok? ==> NoneMissing(repo, TakenTree(repo, tree).value.paths)
  {
    hide StoredLeaf;
    TakePathsTake(repo.order, Files(tree));
    var paths := TakePaths(repo.order, Files(tree));
    forall i | 0 <= i < |paths| ensures FileFor(repo, paths[i]).Ok? { SingleStored(repo, paths[i].path, None, Files(tree)[paths[i].path]); }
  }

  // ---- So only directories break a merge -----------------------------------------------------------

  lemma CleanStored(repo: Repo, s: State, leaves: LeafMap)
    requires Clean(repo, s, leaves)
    ensures BlobsStored(repo, leaves)
  {
    forall k | k in leaves ensures StoredLeaf(repo, leaves[k]) {
      var i :| 0 <= i < |s.index| && s.index[i].path == k;
      assert EntryClean(repo, s.files, leaves, s.index[i]);
    }
  }

  /** When every file of the incoming commits is stored, the only error that leaves the worktree
      changed is a directory, with something in it, where a file is to be written. */
  lemma OnlyDirectoriesBreak(w: World, s: State, heads: seq<Oid>, opts: Options, who: Option<string>)
    requires Named(s) && AllOids(heads) && Tidy(s.files) && Breaks(w, s, heads, opts, who)
    requires forall i :: 0 <= i < |heads| && heads[i] in s.commits ==> BlobsStored(RepoOf(w, s), Files(s.commits[heads[i]].tree))
    ensures MergeOutcome(w, s, heads, opts, who).1 == Err(IsDir)
  {
    hide Plan, ComputeOf, Tidy, BlobsStored, HalfDone, Readable, Clean, GoodMerge, Materialized, NoneMissing;
    PlanKnown(w, s, heads, opts);
    var repo, head := RepoOf(w, s), HeadOf(s).value;
    match Plan(w, s, heads, opts).value
    case Forward =>
      var tree := s.commits[heads[0]].tree;
      TakenStored(repo, tree);
      TakenGood(repo, tree);
      GoodSound(TakenTree(repo, tree).value);
      StoredHalf(repo, s, TakePaths(repo.order, Files(tree)));
    case Compute(skipShift) =>
      CleanStored(repo, s, HeadLeaves(w, s, head).value);
      ComputeStored(w, s, head, heads, StrategyOf(opts, heads), opts, skipShift);
      ComputedGood(w, s, head, heads, StrategyOf(opts, heads), opts, skipShift);
      var c := ComputeOf(w, s, head, heads, StrategyOf(opts, heads), opts, skipShift);
      GoodSound(c.r.value);
      StoredHalf(c.repo, s, c.r.value.paths);
      var t := s.(store := c.repo.stored);
      ComputeExtends(w, s, head, heads, StrategyOf(opts, heads), opts, skipShift);
      SameCheckout(c.repo, s, t, c.r.value.paths);
      if who.Some? {
        SameCheckout(c.repo, s, WithCommit(w, t, CommitRec(c.r.value.tree, [head] + heads, MessageFor(opts.message, heads), who.value)), c.r.value.paths);
      }
  }

  lemma StoredHalf(repo: Repo, s: State, paths: seq<OutPath>)
    requires Tidy(s.files) && AllSound(paths) && NoneMissing(repo, paths) && HalfDone(repo, s, paths)
    ensures Materialized(repo, s, paths).1 == Some(IsDir)
  {
    hide Untouched, StuckAt, Materialized, Tidy, AllSound, FileFor;
    forall i: nat | FirstStuck(repo, LeftOf(s, paths), paths, i) ensures i < |paths| { StuckIndex(repo, LeftOf(s, paths), paths, i); }
    var i: nat :| FirstStuck(repo, LeftOf(s, paths), paths, i) && !Untouched(repo, s.files, StaleOf(s, paths), paths, i);
    MaterialError(repo, s, paths, i);
  }
}
