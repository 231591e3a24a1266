/** What a merge decides before it changes anything, and how its result is computed. */
module MergePlan {
  import opened Wrappers
  import opened Leaves
  import opened Trees
  import opened Align
  import opened Decide
  import opened Engine
  import opened MergeLaws
  import opened Octopus
  import opened MergeFiles
  import opened Checkout
  import opened MergeState

  datatype Strategy = Ort | Recursive | Resolve | Many | KeepOurs | Subtree

  datatype FastForward = Allow | Never | Only

  /** `plainFavor`, `plainDiff` and `plainStyle` say that the text-merge options have their
      default values; the values themselves belong to the text merge. */
  datatype Options = Options(strategy: Option<Strategy>, fastForward: FastForward, message: Option<string>, noCommit: bool,
                             allowUnrelated: bool, plainFavor: bool, plainDiff: bool, findRenames: bool, renameThreshold: nat,
                             plainStyle: bool, subtreePath: Option<string>, oursLabel: Option<string>, theirsLabel: Option<string>)

  function StrategyOf(opts: Options, heads: seq<Oid>): Strategy {
    if opts.strategy.Some? then opts.strategy.value else if |heads| > 1 then Many else Ort
  }

  predicate ThreeWayStrategy(s: Strategy) { s.Ort? || s.Recursive? || s.Resolve? || s.Subtree? }

  /** The first option the strategy does not accept. */
  function Refusal(s: Strategy, heads: seq<Oid>, opts: Options): Option<MergeError> {
    if heads == [] then Some(NoMergeHeads)
    else if ThreeWayStrategy(s) && |heads| != 1 then Some(StrategyOptionNotSupported)
    else if opts.renameThreshold > 100 then Some(StrategyOptionNotSupported)
    else if !opts.plainFavor && !(s.Ort? || s.Recursive? || s.Subtree?) then Some(StrategyOptionNotSupported)
    else
      var bad := match s
        case Many | KeepOurs => !opts.plainDiff || !opts.findRenames || opts.renameThreshold != 50 || !opts.plainStyle || opts.subtreePath.Some?
        case Resolve => opts.renameThreshold != 50 || opts.subtreePath.Some?
        case Ort | Recursive => opts.subtreePath.Some?
        case Subtree => opts.subtreePath.Some? && !GoodPrefix(opts.subtreePath.value);
      if bad then Some(StrategyOptionNotSupported) else None
  }

  /** Which options are accepted: a three-way strategy takes one head; a favoured side needs a strategy
      that merges recursively; how texts are compared, whether renames are looked for and how
      conflicts are marked matter only to three-way strategies; a rename threshold of its own needs
      recursive merging; and a path, which must be a good one, goes with the subtree strategy. */
  lemma RefusalLaw(s: Strategy, heads: seq<Oid>, opts: Options)
    ensures Refusal(s, heads, opts).None? <==>
            && heads != [] && (ThreeWayStrategy(s) ==> |heads| == 1)
            && (!opts.plainFavor ==> s == Ort || s == Recursive || s == Subtree)
            && (!opts.plainDiff || !opts.plainStyle || !opts.findRenames ==> ThreeWayStrategy(s))
            && opts.renameThreshold <= 100 && (opts.renameThreshold != 50 ==> s == Ort || s == Recursive || s == Subtree)
            && (opts.subtreePath.Some? ==> s == Subtree && GoodPrefix(opts.subtreePath.value))
    ensures Refusal(s, heads, opts).Some? ==> Refusal(s, heads, opts) == Some(if heads == [] then NoMergeHeads else StrategyOptionNotSupported)
  {
  }

  // ---- Relations between commits --------------------------------------------------------------

  datatype Rel = Equal | CanForward | Contained | Diverged

  function WalkError(w: World): MergeError { if w.graph.shallow then ShallowHistory else ObjectNotFound }

  function Relation(w: World, head: Oid, other: Oid): Result<Rel, MergeError> {
    if head == other then Ok(Equal)
    else match w.repo.ancestor(Commit(head), Commit(other))
      case None => Err(WalkError(w))
      case Some(true) => Ok(CanForward)
      case Some(false) =>
        match w.repo.ancestor(Commit(other), Commit(head))
        case None => Err(WalkError(w))
        case Some(b) => Ok(if b then Contained else Diverged)
  }

  function Relations(w: World, head: Oid, heads: seq<Oid>): Result<seq<Rel>, MergeError> {
    if heads == [] then Ok([])
    else match Relations(w, head, heads[..|heads| - 1])
      case Err(e) => Err(e)
      case Ok(rels) => match Relation(w, head, heads[|heads| - 1]) case Err(e) => Err(e) case Ok(r) => Ok(rels + [r])
  }

  predicate UpToDate(rels: seq<Rel>) { forall i :: 0 <= i < |rels| ==> rels[i].Equal? || rels[i].Contained? }

  // ---- Dirty state -----------------------------------------------------------------------------

  function FileDirt(repo: Repo, files: FileMap, path: Path, leaf: Leaf): Option<MergeError> {
    match FileAt(files, path)
    case None => Some(DirtyWorktree)
    case Some(f) =>
      match BlobBytes(repo, leaf.hash)
      case None => Some(ObjectNotFound)
      case Some(bytes) => if f.bytes == bytes then None else Some(DirtyWorktree)
  }

  function EntryDirt(repo: Repo, files: FileMap, leaves: LeafMap, e: IndexEntry): Option<MergeError> {
    if e.stage != 0 || e.path !in leaves || leaves[e.path] != e.leaf then Some(DirtyIndex)
    else if e.leaf.mode == SUBMODULE then None
    else FileDirt(repo, files, e.path, e.leaf)
  }

  function FirstDirt(repo: Repo, files: FileMap, leaves: LeafMap, index: seq<IndexEntry>): Option<MergeError> {
    if index == [] then None
    else match FirstDirt(repo, files, leaves, index[..|index| - 1])
      case Some(e) => Some(e)
      case None => EntryDirt(repo, files, leaves, index[|index| - 1])
  }

  /** Why index or worktree do not match HEAD's tree. */
  function Dirt(w: World, s: State, leaves: LeafMap): Option<MergeError> {
    match FirstDirt(RepoOf(w, s), s.files, leaves, s.index)
    case Some(e) => Some(e)
    case None => if leaves.Keys <= Names(s.index) then None else Some(DirtyIndex)
  }

  lemma {:induction false} NoDirt(repo: Repo, files: FileMap, leaves: LeafMap, index: seq<IndexEntry>)
    ensures FirstDirt(repo, files, leaves, index).None? <==> forall i :: 0 <= i < |index| ==> EntryClean(repo, files, leaves, index[i])
  {
    if index != [] {
      NoDirt(repo, files, leaves, index[..|index| - 1]);
      assert forall i :: 0 <= i < |index| - 1 ==> index[..|index| - 1][i] == index[i];
    }
  }

  /** The check passes exactly when index and worktree match HEAD. */
  lemma CleanCheck(w: World, s: State, leaves: LeafMap)
    ensures Dirt(w, s, leaves).None? <==> Clean(RepoOf(w, s), s, leaves)
  {
    NoDirt(RepoOf(w, s), s.files, leaves, s.index);
  }

  // ---- The plan -----------------------------------------------------------------------------------

  datatype Todo = Nothing | Forward | Compute(skipShift: bool)

  function HeadLeaves(w: World, s: State, head: Oid): Result<LeafMap, MergeError> {
    if head !in s.commits then Err(ObjectNotFound)
    else if !Readable(RepoOf(w, s), s.commits[head].tree) then Err(ObjectNotFound)
    else Ok(Files(s.commits[head].tree))
  }

  /** What to do once HEAD is known to be clean. */
  function Chosen(strategy: Strategy, ff: FastForward, rels: seq<Rel>): Result<Todo, MergeError> {
    var fast := ThreeWayStrategy(strategy);
    if UpToDate(rels) then Ok(Nothing)
    else if !fast && ff.Only? then Err(NotFastForward)
    else if fast && |rels| == 1 && rels[0].CanForward? && !ff.Never? then Ok(Forward)
    else if fast && |rels| == 1 && rels[0].Diverged? && ff.Only? then Err(NotFastForward)
    else Ok(Compute(fast && |rels| == 1 && rels[0].CanForward?))
  }

  function AfterHead(w: World, s: State, head: Oid, strategy: Strategy, heads: seq<Oid>, opts: Options): Result<Todo, MergeError> {
    match HeadLeaves(w, s, head)
    case Err(e) => Err(e)
    case Ok(leaves) =>
      match Dirt(w, s, leaves)
      case Some(e) => Err(e)
      case None =>
        if exists i :: 0 <= i < |heads| && heads[i] !in s.commits then Err(WalkError(w))
        else match Relations(w, head, heads)
          case Err(e) => Err(e)
          case Ok(rels) => Chosen(strategy, opts.fastForward, rels)
  }

  function Plan(w: World, s: State, heads: seq<Oid>, opts: Options): Result<Todo, MergeError> {
    var strategy := StrategyOf(opts, heads);
    var refusal := Refusal(strategy, heads, opts);
    if refusal.Some? then Err(refusal.value)
    else if MERGE_HEAD in s.gitFiles then Err(MergeInProgress)
    else if HeadOf(s).Err? then Err(HeadOf(s).error)
    else AfterHead(w, s, HeadOf(s).value, strategy, heads, opts)
  }

  /** The commit is HEAD or among HEAD's ancestors. */
  predicate HasMerged(w: World, head: Oid, other: Oid) {
    head == other || (w.repo.ancestor(Commit(head), Commit(other)) == Some(false) && w.repo.ancestor(Commit(other), Commit(head)) == Some(true))
  }

  /** HEAD is an ancestor of the commit. */
  predicate IsAhead(w: World, head: Oid, other: Oid) { head != other && w.repo.ancestor(Commit(head), Commit(other)) == Some(true) }

  lemma {:induction false} RelationsAre(w: World, head: Oid, heads: seq<Oid>)
    requires forall a, b :: w.repo.ancestor(a, b).Some?
    ensures Relations(w, head, heads).Ok? && |Relations(w, head, heads).value| == |heads|
    ensures forall i :: 0 <= i < |heads| ==> Relation(w, head, heads[i]) == Ok(Relations(w, head, heads).value[i])
  {
    if heads != [] { RelationsAre(w, head, heads[..|heads| - 1]); }
  }

  /** What is done about accepted options on a clean HEAD whose history can be walked: nothing when
      HEAD has it all; a fast-forward for a single commit ahead of HEAD unless that is refused or
      the strategy does not move forward; an error when only a fast-forward would do; and otherwise
      a merge, which does not shift a commit ahead of HEAD. */
  lemma PlanLaw(w: World, s: State, heads: seq<Oid>, opts: Options)
    requires Refusal(StrategyOf(opts, heads), heads, opts).None? && MERGE_HEAD !in s.gitFiles && HeadOf(s).Ok?
    requires HeadLeaves(w, s, HeadOf(s).value).Ok? && Clean(RepoOf(w, s), s, HeadLeaves(w, s, HeadOf(s).value).value)
    requires (forall i :: 0 <= i < |heads| ==> heads[i] in s.commits) && forall a, b :: w.repo.ancestor(a, b).Some?
    ensures var head, plan, ff := HeadOf(s).value, Plan(w, s, heads, opts), opts.fastForward;
            var all := forall i :: 0 <= i < |heads| ==> HasMerged(w, head, heads[i]);
            var fast := ThreeWayStrategy(StrategyOf(opts, heads)) && IsAhead(w, head, heads[0]);
            && (plan == Ok(Nothing) <==> all)
            && (plan == Ok(Forward) <==> !all && fast && ff != Never)
            && (plan == Err(NotFastForward) <==> !all && !fast && ff == Only)
            && (plan == Ok(Compute(true)) <==> !all && fast && ff == Never)
            && (plan == Ok(Compute(false)) <==> !all && !fast && ff != Only)
  {
    hide Clean, Dirt;
    var head, leaves := HeadOf(s).value, HeadLeaves(w, s, HeadOf(s).value).value;
    CleanCheck(w, s, leaves);
    RelationsAre(w, head, heads);
    var rels := Relations(w, head, heads).value;
    assert Relation(w, head, heads[0]) == Ok(rels[0]);
    RelationsMean(w, head, heads, rels);
  }

  /** The first thing that stands in the way of a merge is the error: refused options, a merge in
      progress, a HEAD without a commit or without its objects, a dirty index or worktree, and then
      history that is missing, which is told apart from history that was cut off. */
  lemma PlanErrors(w: World, s: State, heads: seq<Oid>, opts: Options)
    ensures var plan, refusal, head := Plan(w, s, heads, opts), Refusal(StrategyOf(opts, heads), heads, opts), HeadOf(s);
            && (refusal.Some? ==> plan == Err(refusal.value))
            && (refusal.None? ==>
                  && (MERGE_HEAD in s.gitFiles ==> plan == Err(MergeInProgress))
                  && (MERGE_HEAD !in s.gitFiles ==>
                        && (head.Err? ==> plan == Err(head.error))
                        && (head.Ok? ==>
                              && (head.value !in s.commits || !Readable(RepoOf(w, s), s.commits[head.value].tree) ==> plan == Err(ObjectNotFound))
                              && (head.value in s.commits && Readable(RepoOf(w, s), s.commits[head.value].tree) ==>
                                    var leaves := Files(s.commits[head.value].tree);
                                    && (!Clean(RepoOf(w, s), s, leaves) ==> plan.Err? && plan.error in {DirtyIndex, DirtyWorktree, ObjectNotFound})
                                    && (Clean(RepoOf(w, s), s, leaves) && !(forall i :: 0 <= i < |heads| ==> heads[i] in s.commits) ==>
                                          plan == Err(if w.graph.shallow then ShallowHistory else ObjectNotFound))))))
  {
    hide Clean, Dirt, Relations, Refusal, Readable;
    if HeadOf(s).Ok? && HeadLeaves(w, s, HeadOf(s).value).Ok? {
      var leaves := HeadLeaves(w, s, HeadOf(s).value).value;
      CleanCheck(w, s, leaves);
      DirtKinds(w, s, leaves);
    }
  }

  lemma DirtKinds(w: World, s: State, leaves: LeafMap)
    ensures Dirt(w, s, leaves).Some? ==> Dirt(w, s, leaves).value in {DirtyIndex, DirtyWorktree, ObjectNotFound}
  {
    hide FirstDirt;
    FirstKinds(RepoOf(w, s), s.files, leaves, s.index);
  }

  lemma {:induction false} FirstKinds(repo: Repo, files: FileMap, leaves: LeafMap, index: seq<IndexEntry>)
    ensures FirstDirt(repo, files, leaves, index).Some? ==> FirstDirt(repo, files, leaves, index).value in {DirtyIndex, DirtyWorktree, ObjectNotFound}
  {
    if index != [] { FirstKinds(repo, files, leaves, index[..|index| - 1]); }
  }

  lemma RelationsMean(w: World, head: Oid, heads: seq<Oid>, rels: seq<Rel>)
    requires |rels| == |heads| && forall i :: 0 <= i < |heads| ==> Relation(w, head, heads[i]) == Ok(rels[i])
    ensures UpToDate(rels) <==> forall i :: 0 <= i < |heads| ==> HasMerged(w, head, heads[i])
  {
    forall i | 0 <= i < |heads| ensures (rels[i].Equal? || rels[i].Contained?) == HasMerged(w, head, heads[i]) {
      assert Relation(w, head, heads[i]) == Ok(rels[i]);
    }
  }

  // ---- Computing the result --------------------------------------------------------------------------

  function Object(s: State, id: Oid): CommitObj
    requires id in s.commits
  {
    CommitObj(Commit(id), s.commits[id].tree)
  }

  function MakeSpec(opts: Options, strategy: Strategy, oursLabel: string, theirsLabel: string): Spec {
    Spec((strategy.Ort? || strategy.Recursive? || strategy.Subtree?) && opts.findRenames, opts.renameThreshold, strategy.Many?,
         oursLabel, theirsLabel, opts.allowUnrelated, strategy.Ort? || strategy.Recursive? || strategy.Subtree?, None)
  }

  function TheirsLabel(opts: Options, heads: seq<Oid>): string
    requires AllOids(heads)
  {
    if opts.theirsLabel.Some? then opts.theirsLabel.value else if |heads| == 1 then Hex(heads[0]) else "theirs"
  }

  function SpecOf(opts: Options, strategy: Strategy, heads: seq<Oid>): Spec
    requires AllOids(heads)
  {
    MakeSpec(opts, strategy, if opts.oursLabel.Some? then opts.oursLabel.value else "HEAD", TheirsLabel(opts, heads))
  }

  /** What the strategies ask of the merge engine, and the names of the two sides. */
  lemma SpecLaw(opts: Options, strategy: Strategy, heads: seq<Oid>)
    requires AllOids(heads) && heads != []
    ensures var spec := SpecOf(opts, strategy, heads);
            && (spec.trivialOnly <==> strategy == Many) && (spec.renames ==> opts.findRenames && spec.autoMerge)
            && (spec.autoMerge <==> strategy == Ort || strategy == Recursive || strategy == Subtree)
            && (spec.autoMerge && opts.findRenames ==> spec.renames)
            && spec.renameThreshold == opts.renameThreshold && spec.allowUnrelated == opts.allowUnrelated && spec.attrs == None
            && (opts.oursLabel.Some? ==> opts.oursLabel == Some(spec.oursLabel)) && (opts.theirsLabel.Some? ==> opts.theirsLabel == Some(spec.theirsLabel))
            && (opts.oursLabel.None? ==> spec.oursLabel == "HEAD")
            && (opts.theirsLabel.None? ==> spec.theirsLabel == if |heads| == 1 then Hex(heads[0]) else "theirs")
    ensures if opts.strategy.Some? then opts.strategy == Some(StrategyOf(opts, heads)) else StrategyOf(opts, heads) == if |heads| == 1 then Ort else Many
  {
  }

  /** Computing the base label asks for the merge bases of a single head. */
  function LabelError(w: World, head: Oid, heads: seq<Oid>): Option<MergeError> {
    if |heads| != 1 then None
    else match w.graph.mergeBase(Commit(head), Commit(heads[0]))
      case Ok(_) => None
      case Err(e) => Some(if e == ObjectNotFound && w.graph.shallow then ShallowHistory else e)
  }

  function WithNewline(s: string): string { if s != "" && s[|s| - 1] == '\n' then s else s + "\n" }

  function Spaced(ids: seq<Oid>): string
    requires AllOids(ids)
  {
    if ids == [] then "" else if |ids| == 1 then Hex(ids[0]) else Spaced(ids[..|ids| - 1]) + " " + Hex(ids[|ids| - 1])
  }

  function MessageFor(given: Option<string>, heads: seq<Oid>): string
    requires AllOids(heads)
  {
    if given.Some? then WithNewline(given.value)
    else if |heads| == 1 then "Merge commit '" + Hex(heads[0]) + "'\n"
    else "Merge commits " + Spaced(heads) + "\n"
  }

  /** The heads are named in their order. */
  lemma {:induction false} SpacedJoin(a: seq<Oid>, b: seq<Oid>)
    requires AllOids(a) && AllOids(b) && a != [] && b != []
    ensures AllOids(a + b) && Spaced(a + b) == Spaced(a) + " " + Spaced(b)
    decreases |b|
  {
    hide Hex;
    var front, last := b[..|b| - 1], b[|b| - 1];
    assert (a + b)[..|a + b| - 1] == a + front && (a + b)[|a + b| - 1] == last;
    if front == [] {
      assert a + front == a;
    } else {
      SpacedJoin(a, front);
      Regrouped(Spaced(a), Spaced(front), Hex(last));
    }
  }

  lemma Regrouped(a: string, b: string, c: string)
    ensures a + " " + b + " " + c == a + " " + (b + " " + c)
  {
  }

  /** The message of a merge ends its last line; without one it names the merged commits. */
  lemma MessageLaw(given: Option<string>, heads: seq<Oid>)
    requires AllOids(heads) && heads != []
    ensures var m := MessageFor(given, heads);
            && m != "" && m[|m| - 1] == '\n'
            && (given.Some? ==> m == given.value || m == given.value + "\n")
            && (given.Some? && given.value != "" && given.value[|given.value| - 1] == '\n' ==> m == given.value)
            && (given.None? && |heads| == 1 ==> m == "Merge commit '" + Hex(heads[0]) + "'\n")
            && (given.None? && |heads| > 1 ==> m == "Merge commits " + (Hex(heads[0]) + " " + Spaced(heads[1..])) + "\n")
  {
    hide Hex, Spaced;
    if |heads| > 1 { SpacedFirst(heads); }
  }

  lemma SpacedFirst(heads: seq<Oid>)
    requires AllOids(heads) && |heads| > 1
    ensures AllOids(heads[1..]) && Spaced(heads) == Hex(heads[0]) + " " + Spaced(heads[1..])
  {
    hide Hex;
    assert heads == [heads[0]] + heads[1..];
    SpacedJoin([heads[0]], heads[1..]);
    assert Spaced([heads[0]]) == Hex(heads[0]);
  }

  // ---- The prefix of a subtree merge ---------------------------------------------------------------

  /** A directory of `ours` that shares a name with the root of `theirs`. */
  predicate Overlaps(ours: seq<TreeEntry>, theirs: seq<TreeEntry>, i: int) {
    && 0 <= i < |ours| && ours[i].mode == DIR && ours[i].hash.Tree?
    && exists j, k :: 0 <= j < |ours[i].hash.entries| && 0 <= k < |theirs| && ours[i].hash.entries[j].name == theirs[k].name
  }

  /** The one overlap among the first `n` entries. */
  function FindOverlap(repo: Repo, ours: seq<TreeEntry>, theirs: seq<TreeEntry>, n: nat): Result<Option<nat>, MergeError>
    requires n <= |ours|
  {
    if n == 0 then Ok(None)
    else
      var found := FindOverlap(repo, ours, theirs, n - 1);
      if found.Err? || ours[n - 1].mode != DIR then found
      else if !ours[n - 1].hash.Tree? || ours[n - 1].hash !in repo.stored then Err(ObjectNotFound)
      else if !Overlaps(ours, theirs, n - 1) then found
      else if found.value.Some? then Err(SubtreeShiftNotFound)
      else Ok(Some(n - 1))
  }

  /** The root directory of ours under which theirs belongs. */
  function DetectedPrefix(repo: Repo, ours: Hash, theirs: Hash): Result<string, MergeError> {
    if !ours.Tree? || !theirs.Tree? || ours !in repo.stored || theirs !in repo.stored then Err(ObjectNotFound)
    else
      match FindOverlap(repo, ours.entries, theirs.entries, |ours.entries|)
      case Err(e) => Err(e)
      case Ok(None) => Err(SubtreeShiftNotFound)
      case Ok(Some(i)) => if i < |ours.entries| then Ok(ours.entries[i].name) else Err(SubtreeShiftNotFound)
  }

  lemma {:induction false} OverlapFound(repo: Repo, ours: seq<TreeEntry>, theirs: seq<TreeEntry>, n: nat)
    requires n <= |ours|
    ensures match FindOverlap(repo, ours, theirs, n)
            case Ok(found) =>
              && (found.Some? ==> found.value < n && Overlaps(ours, theirs, found.value))
              && forall j :: j < n && Overlaps(ours, theirs, j) ==> found == Some(j)
            case Err(e) =>
              && (e == SubtreeShiftNotFound ==> exists i, j :: i < j && Overlaps(ours, theirs, i) && Overlaps(ours, theirs, j))
              && (e != SubtreeShiftNotFound ==> e == ObjectNotFound && exists i :: 0 <= i < n && ours[i].mode == DIR && !(ours[i].hash.Tree? && ours[i].hash in repo.stored))
  {
    if n > 0 { OverlapFound(repo, ours, theirs, n - 1); }
  }

  /** It is the single directory that overlaps; none or two are an error. */
  lemma PrefixLaw(repo: Repo, ours: Hash, theirs: Hash)
    requires ours.Tree? && theirs.Tree? && ours in repo.stored && theirs in repo.stored
    requires forall i :: 0 <= i < |ours.entries| && ours.entries[i].mode == DIR ==> ours.entries[i].hash.Tree? && ours.entries[i].hash in repo.stored
    ensures DetectedPrefix(repo, ours, theirs).Ok? <==>
            exists i :: Overlaps(ours.entries, theirs.entries, i) && forall j :: Overlaps(ours.entries, theirs.entries, j) ==> j == i
    ensures forall i :: DetectedPrefix(repo, ours, theirs).Ok? && Overlaps(ours.entries, theirs.entries, i) ==>
              DetectedPrefix(repo, ours, theirs) == Ok(ours.entries[i].name)
    ensures DetectedPrefix(repo, ours, theirs).Err? ==> DetectedPrefix(repo, ours, theirs).error == SubtreeShiftNotFound
  {
    hide FindOverlap;
    OverlapFound(repo, ours.entries, theirs.entries, |ours.entries|);
    forall i | Overlaps(ours.entries, theirs.entries, i) ensures 0 <= i < |ours.entries| {}
  }

  function ChosenPrefix(repo: Repo, ours: Hash, theirs: Hash, given: Option<string>): Result<string, MergeError> {
    match given
    case Some(p) => if GoodPrefix(p) then Ok(p) else Err(StrategyOptionNotSupported)
    case None => DetectedPrefix(repo, ours, theirs)
  }

  // ---- The result of each strategy ------------------------------------------------------------------

  /** A three-way merge below a prefix. */
  ghost function ShiftedResult(repo: Repo, spec: Spec, base: Hash, ours: Hash, theirs: Hash, given: Option<string>): Done<TreeMerge> {
    match ChosenPrefix(repo, ours, theirs, given)
    case Err(e) => Done(Err(e), repo)
    case Ok(prefix) =>
      match ShiftParts(prefix)
      case None => Done(Err(StrategyOptionNotSupported), repo)
      case Some(parts) =>
        MergedTrees(Stores(repo, Wraps(parts, base) + Wraps(parts, theirs)), spec, Wrap(parts, base), ours, Wrap(parts, theirs))
  }

  /** A three-way merge from the tree of the merge bases. */
  ghost function ThreeWayResult(w: World, repo: Repo, spec: Spec, ours: CommitObj, theirs: CommitObj, shift: bool, given: Option<string>): Done<TreeMerge> {
    var base := AncestorOf(repo, w.graph, spec, ours.hash, theirs.hash, 0);
    if base.r.Err? then Done(Err(base.r.error), base.repo)
    else if shift then ShiftedResult(base.repo, spec, base.r.value, ours.tree, theirs.tree, given)
    else MergedTrees(base.repo, spec, base.r.value, ours.tree, theirs.tree)
  }

  function Objects(s: State, heads: seq<Oid>): (others: seq<CommitObj>)
    requires forall i :: 0 <= i < |heads| ==> heads[i] in s.commits
    ensures |others| == |heads|
  {
    seq(|heads|, i requires 0 <= i < |heads| => Object(s, heads[i]))
  }

  /** The merge of `heads` into `head`, before anything but the store changes. */
  ghost function ComputeOf(w: World, s: State, head: Oid, heads: seq<Oid>, strategy: Strategy, opts: Options, skipShift: bool): Done<TreeMerge>
    requires head in s.commits && AllOids(heads) && heads != [] && forall i :: 0 <= i < |heads| ==> heads[i] in s.commits
  {
    var repo, spec := RepoOf(w, s), SpecOf(opts, strategy, heads);
    if LabelError(w, head, heads).Some? then Done(Err(LabelError(w, head, heads).value), repo)
    else match strategy
      case KeepOurs => Done(TakenTree(repo, s.commits[head].tree), repo)
      case Many => OctopusOf(repo, w.graph, spec, Object(s, head), Objects(s, heads))
      case _ => ThreeWayResult(w, repo, spec, Object(s, head), Object(s, heads[0]), strategy.Subtree? && !skipShift, opts.subtreePath)
  }

  /** Computing a merge only adds to the store. */
  lemma ComputeExtends(w: World, s: State, head: Oid, heads: seq<Oid>, strategy: Strategy, opts: Options, skipShift: bool)
    requires head in s.commits && AllOids(heads) && heads != [] && forall i :: 0 <= i < |heads| ==> heads[i] in s.commits
    ensures Extends(RepoOf(w, s), ComputeOf(w, s, head, heads, strategy, opts, skipShift).repo)
  {
    hide MergedTrees, AncestorOf, ChosenPrefix, ShiftParts, SpecOf, OctopusUpTo, LabelError, TakenTree;
    var repo, spec := RepoOf(w, s), SpecOf(opts, strategy, heads);
    match strategy
    case KeepOurs =>
    case Many => OctopusExtends(repo, w.graph, spec, Object(s, head), Objects(s, heads), |heads|);
    case _ => ThreeWayExtends(w, repo, spec, Object(s, head), Object(s, heads[0]), strategy.Subtree? && !skipShift, opts.subtreePath);
  }

  lemma ThreeWayExtends(w: World, repo: Repo, spec: Spec, ours: CommitObj, theirs: CommitObj, shift: bool, given: Option<string>)
    ensures Extends(repo, ThreeWayResult(w, repo, spec, ours, theirs, shift, given).repo)
  {
    hide MergedTrees, AncestorOf, ChosenPrefix, ShiftParts;
    AncestorExtends(repo, w.graph, spec, ours.hash, theirs.hash, 0);
    var base := AncestorOf(repo, w.graph, spec, ours.hash, theirs.hash, 0);
    if base.r.Ok? {
      if shift {
        var prefix := ChosenPrefix(base.repo, ours.tree, theirs.tree, given);
        if prefix.Ok? && ShiftParts(prefix.value).Some? {
          var parts := ShiftParts(prefix.value).value;
          MergedExtends(Stores(base.repo, Wraps(parts, base.r.value) + Wraps(parts, theirs.tree)), spec,
                        Wrap(parts, base.r.value), ours.tree, Wrap(parts, theirs.tree));
        }
      } else {
        MergedExtends(base.repo, spec, base.r.value, ours.tree, theirs.tree);
      }
    }
  }

  // ---- Every computed merge is a good one ----------------------------------------------------------------

  /** What is written is indexed and has something to write. */
  predicate GoodOut(p: OutPath) { (p.writeFile ==> Indexed(p)) && Sound(p) }

  ghost predicate OutsGood(outs: seq<OutPath>) { forall i :: 0 <= i < |outs| ==> GoodOut(outs[i]) }

  lemma SingleGood(path: Path, base: Option<Leaf>, leaf: Leaf)
    ensures GoodOut(Resolved(path, leaf)) && GoodOut(OursOnly(path, base, leaf)) && GoodOut(TheirsOnly(path, base, leaf))
  {
  }

  lemma BothGood(repo: Repo, spec: Spec, q: Path, base: Option<Leaf>, o: Leaf, t: Leaf)
    ensures match DecideBoth(repo, spec, q, base, o, t) case Ok(d) => OutsGood(d.outs) case Err(_) => true
  {
    hide KindOf, GitlinkWinner, IsBinary, PickMode;
    SingleGood(q, None, o);
    SingleGood(q + "~" + spec.theirsLabel, base, t);
  }

  lemma NodeGood(repo: Repo, spec: Spec, q: Path, n: Node)
    ensures match DecideNode(repo, spec, q, n) case Ok(d) => OutsGood(d.outs) case Err(_) => true
  {
    hide DecideBoth, GoodOut, OursOnly, TheirsOnly, Resolved;
    if n.ours.Some? { SingleGood(q, n.base, n.ours.value); }
    if n.theirs.Some? { SingleGood(q, n.base, n.theirs.value); }
    StagesGood(q, n);
    if n.ours.Some? && n.theirs.Some? { BothGood(repo, spec, q, n.base, n.ours.value, n.theirs.value); }
  }

  lemma StagesGood(q: Path, n: Node)
    ensures GoodOut(Conflicted(q, n.base, n.ours, n.theirs, None, None, REGULAR, false))
  {
  }

  lemma {:induction false} DecidedGood(repo: Repo, spec: Spec, keys: seq<Path>, nodes: Nodes)
    ensures match DecideAll(repo, spec, keys, nodes).r case Ok(d) => OutsGood(d.outs) case Err(_) => true
  {
    hide DecideNode;
    if keys != [] {
      var before := DecideAll(repo, spec, keys[..|keys| - 1], nodes);
      DecidedGood(repo, spec, keys[..|keys| - 1], nodes);
      var k := keys[|keys| - 1];
      if k in nodes { NodeGood(before.repo, spec, k, nodes[k]); }
    }
  }

  lemma TookGood(tm: TreeMerge, want: LeafMap)
    requires Took(tm, want) && LeafyMap(want)
    ensures GoodMerge(tm)
  {
    assert TakesTree(tm.paths, want);
  }

  lemma MergedGood(repo: Repo, spec: Spec, base: Hash, ours: Hash, theirs: Hash)
    ensures var done := MergedTrees(repo, spec, base, ours, theirs); done.r.Ok? ==> GoodMerge(done.r.value)
  {
    hide Aligned, Took, LeafyInput, GoodMerge, MergedTrees, MergeOf;
    var done, x := MergedTrees(repo, spec, base, ours, theirs), TreesInput(repo, spec, base, ours, theirs);
    if done.r.Ok? {
      MergedNeeds(repo, spec, base, ours, theirs);
      TreesMerge(repo, spec, base, ours, theirs);
      if done.r.value.clean {
        var nodes, want := CleanMerge(repo, spec, x, done);
        CleanLeafy(done.r.value, want);
        TookGood(done.r.value, want);
      } else {
        UncleanGood(repo, spec, x, done);
      }
    }
  }

  lemma MergedNeeds(repo: Repo, spec: Spec, base: Hash, ours: Hash, theirs: Hash)
    requires MergedTrees(repo, spec, base, ours, theirs).r.Ok?
    ensures Readable(repo, base) && Readable(repo, ours) && Readable(repo, theirs)
  {
    hide MergedMaps;
  }

  lemma UncleanGood(repo: Repo, spec: Spec, x: Input, done: Done<TreeMerge>)
    requires MergeOf(repo, spec, x, done) && done.r.Ok? && !done.r.value.clean
    ensures GoodMerge(done.r.value)
  {
    hide Aligned, DecideAll, Settle, KeysOf;
    var spec1 := spec.(attrs := LoadAttrs(repo, x.ours).value);
    var nodes :| Aligned(x, nodes) && done == ResultOf(repo, spec1, nodes);
    var settled := Settle(repo.order, nodes, spec.oursLabel, spec.theirsLabel);
    DecidedGood(repo, spec1, KeysOf(repo.order, settled), settled);
  }

  lemma CleanLeafy(tm: TreeMerge, want: LeafMap)
    requires Took(tm, want)
    ensures LeafyMap(want)
  {
    TreeLeafy(tm.tree);
  }

  lemma {:induction false} OctopusGood(repo: Repo, g: Graph, spec: Spec, head: CommitObj, others: seq<CommitObj>, n: nat)
    requires 0 < n <= |others|
    ensures var done := OctopusUpTo(repo, g, spec, head, others, n); done.r.Ok? ==> GoodMerge(done.r.value)
  {
    hide GoodMerge, MergedTrees, AncestorOf;
    var last := OctopusUpTo(repo, g, spec, head, others, n - 1);
    if last.r.Ok? {
      var base := AncestorOf(last.repo, g, spec, head.hash, others[n - 1].hash, 0);
      if base.r.Ok? { MergedGood(base.repo, spec, base.r.value, last.r.value.tree, others[n - 1].tree); }
    }
  }

  lemma TakenGood(repo: Repo, tree: Hash)
    requires Readable(repo, tree)
    ensures TakenTree(repo, tree).Ok? && GoodMerge(TakenTree(repo, tree).value) && TakesTree(TakenTree(repo, tree).value.paths, Files(tree))
  {
    TreeLeafy(tree);
    TakePathsTake(repo.order, Files(tree));
  }

  /** Every computed result indexes what it writes and, when clean, resolves every path. */
  lemma ComputedGood(w: World, s: State, head: Oid, heads: seq<Oid>, strategy: Strategy, opts: Options, skipShift: bool)
    requires head in s.commits && AllOids(heads) && heads != [] && forall i :: 0 <= i < |heads| ==> heads[i] in s.commits
    ensures var c := ComputeOf(w, s, head, heads, strategy, opts, skipShift); c.r.Ok? ==> GoodMerge(c.r.value)
  {
    hide GoodMerge, MergedTrees, AncestorOf, ChosenPrefix, ShiftParts, SpecOf, OctopusUpTo, LabelError;
    var repo, spec := RepoOf(w, s), SpecOf(opts, strategy, heads);
    match strategy
    case KeepOurs => if Readable(repo, s.commits[head].tree) { TakenGood(repo, s.commits[head].tree); }
    case Many => OctopusGood(repo, w.graph, spec, Object(s, head), Objects(s, heads), |heads|);
    case _ => ThreeWayGood(w, repo, spec, Object(s, head), Object(s, heads[0]), strategy.Subtree? && !skipShift, opts.subtreePath);
  }

  lemma ThreeWayGood(w: World, repo: Repo, spec: Spec, ours: CommitObj, theirs: CommitObj, shift: bool, given: Option<string>)
    ensures var c := ThreeWayResult(w, repo, spec, ours, theirs, shift, given); c.r.Ok? ==> GoodMerge(c.r.value)
  {
    hide GoodMerge, MergedTrees, AncestorOf, ChosenPrefix, ShiftParts;
    var base := AncestorOf(repo, w.graph, spec, ours.hash, theirs.hash, 0);
    if base.r.Ok? {
      if shift {
        var prefix := ChosenPrefix(base.repo, ours.tree, theirs.tree, given);
        if prefix.Ok? && ShiftParts(prefix.value).Some? {
          var parts := ShiftParts(prefix.value).value;
          MergedGood(Stores(base.repo, Wraps(parts, base.r.value) + Wraps(parts, theirs.tree)), spec,
                     Wrap(parts, base.r.value), ours.tree, Wrap(parts, theirs.tree));
        }
      } else {
        MergedGood(base.repo, spec, base.r.value, ours.tree, theirs.tree);
      }
    }
  }
}
