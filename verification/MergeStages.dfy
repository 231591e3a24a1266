/** What a merge leaves in the index and in the worktree, path by path. */
module MergeStages {
  import opened Wrappers
  import opened Sorting
  import opened Leaves
  import opened Renames
  import opened Align
  import opened Trees
  import opened Decide
  import opened Engine
  import opened MergeLaws
  import opened Octopus
  import opened MergeFiles
  import opened Checkout
  import opened MergeState
  import opened MergePlan
  import opened MergeRuns
  import opened MergeUndo
  import opened MergeErrors
  import opened MergeWhole

  // ---- Index stages of an output path -------------------------------------------------------------

  /** A resolved path has its leaf at stage 0; otherwise stage 1 is the base, 2 ours and 3 theirs. */
  predicate StageOf(p: OutPath, stage: nat, leaf: Leaf) {
    if p.resolved.Some? then stage == 0 && p.resolved == Some(leaf)
    else match stage
      case 1 => p.base == Some(leaf)
      case 2 => p.ours == Some(leaf)
      case 3 => p.theirs == Some(leaf)
      case _ => false
  }

  lemma EntriesAre(p: OutPath, e: IndexEntry)
    ensures e in EntriesOf(p) <==> e.path == p.path && StageOf(p, e.stage, e.leaf)
  {
  }

  lemma {:induction false} IndexHas(paths: seq<OutPath>, e: IndexEntry)
    ensures e in IndexOfPaths(paths) <==> exists i :: 0 <= i < |paths| && paths[i].path == e.path && StageOf(paths[i], e.stage, e.leaf)
  {
    if paths != [] {
      hide EntriesOf, StageOf;
      var front, p := paths[..|paths| - 1], paths[|paths| - 1];
      IndexHas(front, e);
      EntriesAre(p, e);
      assert forall i :: 0 <= i < |front| ==> front[i] == paths[i];
    }
  }

  lemma FewEntries(paths: seq<OutPath>, e: IndexEntry)
    ensures paths == [] ==> e !in IndexOfPaths(paths)
    ensures |paths| == 1 ==> (e in IndexOfPaths(paths) <==> paths[0].path == e.path && StageOf(paths[0], e.stage, e.leaf))
  {
    IndexHas(paths, e);
  }

  // ---- Index entries of one node -----------------------------------------------------------------

  /** Two changes of one path that can be combined. */
  ghost predicate Reconcilable(repo: Repo, spec: Spec, q: Path, b: Option<Leaf>, o: Option<Leaf>, t: Option<Leaf>) {
    o.Some? && t.Some? && exists out :: Reconciles(repo, spec, q, b, o.value, t.value, out)
  }

  /** The three leaves of a path stand in the stages with their side's number. */
  predicate Sides(b: Option<Leaf>, o: Option<Leaf>, t: Option<Leaf>, stage: nat, leaf: Leaf) {
    match stage
    case 1 => b == Some(leaf)
    case 2 => o == Some(leaf)
    case 3 => t == Some(leaf)
    case _ => false
  }

  /** Both sides have something of a different kind. */
  predicate KindsDiffer(o: Option<Leaf>, t: Option<Leaf>) { o.Some? && t.Some? && KindOf(o.value.mode) != KindOf(t.value.mode) }

  /** Stages that base, ours and theirs of a path call for: an unchanged side yields, two changes are
      combined if they can be, and stand side by side if not. */
  ghost predicate Stands(repo: Repo, spec: Spec, q: Path, b: Option<Leaf>, o: Option<Leaf>, t: Option<Leaf>, stage: nat, leaf: Leaf) {
    if o == t || t == b then stage == 0 && o == Some(leaf)
    else if o == b then stage == 0 && t == Some(leaf)
    else if Reconcilable(repo, spec, q, b, o, t) then stage == 0 && Reconciles(repo, spec, q, b, o.value, t.value, leaf)
    else if KindsDiffer(o, t) then stage == 2 && o == Some(leaf)
    else Sides(b, o, t, stage, leaf)
  }

  /** The same for any node: a marked or doubly renamed one keeps the stages of the side it is left
      with, and so does one that was renamed on one side and removed on the other. */
  ghost predicate NodeStands(repo: Repo, spec: Spec, q: Path, n: Node, stage: nat, leaf: Leaf) {
    match n.forced
    case MdOurs => n.ours.Some? && Sides(n.base, n.ours, None, stage, leaf)
    case MdTheirs => n.theirs.Some? && Sides(n.base, None, n.theirs, stage, leaf)
    case KeepStages => Sides(n.base, n.ours, n.theirs, stage, leaf)
    case NotForced =>
      if n.renameRename then
        if n.ours.Some? then Sides(n.base, n.ours, None, stage, leaf) else n.theirs.Some? && Sides(n.base, None, n.theirs, stage, leaf)
      else if (n.oursRenamed && n.ours.Some? && n.ours == n.base && n.theirs.None?)
              || (n.theirsRenamed && n.theirs.Some? && n.theirs == n.base && n.ours.None?) then
        Sides(n.base, n.ours, n.theirs, stage, leaf)
      else Stands(repo, spec, q, n.base, n.ours, n.theirs, stage, leaf)
  }

  lemma BothEntries(repo: Repo, spec: Spec, q: Path, b: Option<Leaf>, o: Leaf, t: Leaf, d: Decision, e: IndexEntry)
    requires DecideBoth(repo, spec, q, b, o, t) == Ok(d) && e.path == q
    ensures e in IndexOfPaths(d.outs) <==>
            if Reconcilable(repo, spec, q, b, Some(o), Some(t)) then e.stage == 0 && Reconciles(repo, spec, q, b, o, t, e.leaf)
            else if KindsDiffer(Some(o), Some(t)) then e.stage == 2 && o == e.leaf
            else Sides(b, Some(o), Some(t), e.stage, e.leaf)
  {
    hide IsBinary, IndexOfPaths;
    IndexHas(d.outs, e);
    if d.clean {
      CleanBoth(repo, spec, q, b, o, t, d);
      var out := d.outs[0].resolved.value;
      assert Reconciles(repo, spec, q, b, o, t, out);
      if Reconciles(repo, spec, q, b, o, t, e.leaf) { OneReconciliation(repo, spec, q, b, o, t, out, e.leaf); }
      assert d.outs[0] == Resolved(q, out);
    } else {
      Irreconcilable(repo, spec, q, b, o, t, d);
      assert d.outs[0].path == q;
    }
  }

  lemma OneReconciliation(repo: Repo, spec: Spec, q: Path, b: Option<Leaf>, o: Leaf, t: Leaf, x: Leaf, y: Leaf)
    requires Reconciles(repo, spec, q, b, o, t, x) && Reconciles(repo, spec, q, b, o, t, y)
    ensures x == y
  {
    hide IsBinary;
  }

  lemma Irreconcilable(repo: Repo, spec: Spec, q: Path, b: Option<Leaf>, o: Leaf, t: Leaf, d: Decision)
    requires DecideBoth(repo, spec, q, b, o, t) == Ok(d) && !d.clean
    ensures !Reconcilable(repo, spec, q, b, Some(o), Some(t))
  {
    hide IsBinary;
    forall out ensures !Reconciles(repo, spec, q, b, o, t, out) {}
  }

  /** The entries at the path of a node are those its leaves call for. */
  lemma NodeEntries(repo: Repo, spec: Spec, q: Path, n: Node, d: Decision, e: IndexEntry)
    requires DecideNode(repo, spec, q, n) == Ok(d) && e.path == q
    ensures e in IndexOfPaths(d.outs) <==> NodeStands(repo, spec, q, n, e.stage, e.leaf)
  {
    hide IndexOfPaths, DecideBoth, Reconciles;
    FewEntries(d.outs, e);
    if n.forced.NotForced? && !n.renameRename && n.ours != n.theirs && n.ours != n.base && n.theirs != n.base && n.ours.Some? && n.theirs.Some? {
      BothEntries(repo, spec, q, n.base, n.ours.value, n.theirs.value, d, e);
    }
  }

  // ---- Index entries of a whole merge ------------------------------------------------------------

  /** A node whose two sides changed to things of different kinds: theirs moves to its labelled name. */
  predicate MovesAside(n: Node) {
    && n.forced.NotForced? && !n.renameRename && n.ours != n.base && n.theirs != n.base
    && KindsDiffer(n.ours, n.theirs)
  }

  function Aside(spec: Spec, k: Path): Path { k + "~" + spec.theirsLabel }

  /** No node writes beside its own path to `q`. */
  ghost predicate OnlyOwn(keys: seq<Path>, nodes: Nodes, spec: Spec, q: Path) {
    forall k :: k in keys && k in nodes && MovesAside(nodes[k]) ==> Aside(spec, k) != q
  }

  lemma BothPaths(repo: Repo, spec: Spec, q: Path, b: Option<Leaf>, o: Leaf, t: Leaf, d: Decision)
    requires DecideBoth(repo, spec, q, b, o, t) == Ok(d)
    ensures forall i :: 0 <= i < |d.outs| ==> d.outs[i].path == q || (KindOf(o.mode) != KindOf(t.mode) && d.outs[i].path == Aside(spec, q))
  {
    hide IsBinary, KindOf, PickMode;
  }

  lemma OutPaths(repo: Repo, spec: Spec, k: Path, n: Node, d: Decision)
    requires DecideNode(repo, spec, k, n) == Ok(d)
    ensures forall i :: 0 <= i < |d.outs| ==> d.outs[i].path == k || (MovesAside(n) && d.outs[i].path == Aside(spec, k))
  {
    hide DecideBoth, KindOf;
    if n.ours.Some? && n.theirs.Some? && DecideBoth(repo, spec, k, n.base, n.ours.value, n.theirs.value) == Ok(d) {
      BothPaths(repo, spec, k, n.base, n.ours.value, n.theirs.value, d);
    }
  }

  lemma SplitIndex(a: seq<OutPath>, b: seq<OutPath>, e: IndexEntry)
    ensures e in IndexOfPaths(a + b) <==> e in IndexOfPaths(a) || e in IndexOfPaths(b)
  {
    hide StageOf;
    IndexHas(a, e);
    IndexHas(b, e);
    IndexHas(a + b, e);
    assert forall i :: 0 <= i < |a| ==> (a + b)[i] == a[i];
    assert forall i :: 0 <= i < |b| ==> (a + b)[|a| + i] == b[i];
    forall i | 0 <= i < |a + b| ensures (a + b)[i] == if i < |a| then a[i] else b[i - |a|] {}
  }

  /** Decisions see more and more stored blobs, but what they stand for depends on none of them. */
  lemma SameStanding(repo: Repo, more: Repo, spec: Spec, q: Path, n: Node, stage: nat, leaf: Leaf)
    requires Extends(repo, more)
    ensures NodeStands(more, spec, q, n, stage, leaf) == NodeStands(repo, spec, q, n, stage, leaf)
  {
    hide IsBinary, CommonMode, KindOf;
    forall b, o, t, out ensures Reconciles(more, spec, q, b, o, t, out) == Reconciles(repo, spec, q, b, o, t, out) {}
  }

  lemma {:induction false} DecidedEntries(repo: Repo, spec: Spec, keys: seq<Path>, nodes: Nodes, e: IndexEntry)
    requires DecideAll(repo, spec, keys, nodes).r.Ok? && Increasing(keys) && OnlyOwn(keys, nodes, spec, e.path)
    ensures e in IndexOfPaths(DecideAll(repo, spec, keys, nodes).r.value.outs) <==>
            e.path in keys && e.path in nodes && NodeStands(repo, spec, e.path, nodes[e.path], e.stage, e.leaf)
  {
    hide DecideNode, NodeStands, IndexOfPaths, MovesAside, Aside;
    if keys == [] {
      FewEntries([], e);
    } else {
      var front, k := keys[..|keys| - 1], keys[|keys| - 1];
      assert keys == front + [k];
      var before := DecideAll(repo, spec, front, nodes);
      DecidedEntries(repo, spec, front, nodes, e);
      if k in nodes {
        var d := DecideNode(before.repo, spec, k, nodes[k]).value;
        SplitIndex(before.r.value.outs, d.outs, e);
        LastOnce(keys);
        if k == e.path {
          NodeEntries(before.repo, spec, k, nodes[k], d, e);
          DecideExtends(repo, spec, front, nodes);
          SameStanding(repo, before.repo, spec, k, nodes[k], e.stage, e.leaf);
        } else {
          OtherPath(before.repo, spec, k, nodes[k], d, e);
        }
      }
    }
  }

  lemma LastOnce(keys: seq<Path>)
    requires keys != [] && Increasing(keys)
    ensures keys[|keys| - 1] !in keys[..|keys| - 1]
  {
    OnceOnly(keys, |keys| - 1);
  }

  lemma OtherPath(repo: Repo, spec: Spec, k: Path, n: Node, d: Decision, e: IndexEntry)
    requires DecideNode(repo, spec, k, n) == Ok(d) && e.path != k && (MovesAside(n) ==> e.path != Aside(spec, k))
    ensures e !in IndexOfPaths(d.outs)
  {
    hide DecideNode, IndexOfPaths, StageOf, MovesAside;
    OutPaths(repo, spec, k, n, d);
    IndexHas(d.outs, e);
  }

  lemma AsideEntries(repo: Repo, spec: Spec, k: Path, n: Node, d: Decision, e: IndexEntry)
    requires DecideNode(repo, spec, k, n) == Ok(d) && e.path == Aside(spec, k)
    ensures e in IndexOfPaths(d.outs) <==> MovesAside(n) && Sides(n.base, None, n.theirs, e.stage, e.leaf)
  {
    hide IndexOfPaths, Decide.MergeFiles;
    IndexHas(d.outs, e);
    if MovesAside(n) {
      assert d.outs[1] == TheirsOnly(e.path, n.base, n.theirs.value);
    } else {
      OutPaths(repo, spec, k, n, d);
    }
  }

  /** The labelled name of `k` differs from every path and every other labelled name. */
  ghost predicate NameFree(keys: seq<Path>, spec: Spec, k: Path) { forall p :: p in keys ==> p != Aside(spec, k) }

  lemma FreeFront(front: seq<Path>, last: Path, spec: Spec, k: Path)
    requires NameFree(front + [last], spec, k)
    ensures NameFree(front, spec, k) && last != Aside(spec, k)
  {
    assert forall p :: p in front ==> p in front + [last];
    assert last in front + [last];
  }

  lemma {:induction false} DecidedAside(repo: Repo, spec: Spec, keys: seq<Path>, nodes: Nodes, k: Path, e: IndexEntry)
    requires DecideAll(repo, spec, keys, nodes).r.Ok? && Increasing(keys) && NameFree(keys, spec, k) && e.path == Aside(spec, k)
    ensures e in IndexOfPaths(DecideAll(repo, spec, keys, nodes).r.value.outs) <==>
            k in keys && k in nodes && MovesAside(nodes[k]) && Sides(nodes[k].base, None, nodes[k].theirs, e.stage, e.leaf)
  {
    hide DecideNode, MovesAside, Sides, IndexOfPaths;
    if keys == [] {
      FewEntries([], e);
    } else {
      var front, last := keys[..|keys| - 1], keys[|keys| - 1];
      assert keys == front + [last];
      var before := DecideAll(repo, spec, front, nodes);
      FreeFront(front, last, spec, k);
      DecidedAside(repo, spec, front, nodes, k, e);
      if last in nodes {
        var d := DecideNode(before.repo, spec, last, nodes[last]).value;
        SplitIndex(before.r.value.outs, d.outs, e);
        LastOnce(keys);
        if last == k {
          AsideEntries(before.repo, spec, k, nodes[k], d, e);
        } else {
          if Aside(spec, last) == Aside(spec, k) { SameTail(last, k, spec.theirsLabel); }
          OtherPath(before.repo, spec, last, nodes[last], d, e);
        }
      }
    }
  }

  // ---- Worktree files of a whole merge ------------------------------------------------------------

  /** The file for a leaf; submodules have none. */
  function LeafFile(leaf: Option<Leaf>): Option<WFile> {
    if leaf.Some? && leaf.value.mode != SUBMODULE then Some(WFile(leaf.value.mode == SYMLINK, Bytes(leaf))) else None
  }

  /** Both are text for the merge of texts. */
  ghost predicate TextMerged(repo: Repo, spec: Spec, q: Path, b: Option<Leaf>, o: Option<Leaf>, t: Option<Leaf>) {
    && o.Some? && t.Some? && KindOf(o.value.mode) == KindOf(t.value.mode) == Text
    && !IsBinary(Bytes(b)) && !IsBinary(Bytes(o)) && !IsBinary(Bytes(t)) && !repo.nonText(spec.attrs, q)
  }

  /** What stands in the worktree: the merged text, with its markers if there are conflicts, for texts
      that both sides changed; otherwise the side that changed, and ours when both did. */
  ghost function Content(repo: Repo, spec: Spec, q: Path, b: Option<Leaf>, o: Option<Leaf>, t: Option<Leaf>): Option<WFile> {
    if o == t || t == b then LeafFile(o)
    else if o == b || o.None? then LeafFile(t)
    else if TextMerged(repo, spec, q, b, o, t) then Some(WFile(false, repo.mergeText(Bytes(b), Bytes(o), Bytes(t)).bytes))
    else if t.Some? && o.value.mode == t.value.mode == SUBMODULE && repo.ancestor(o.value.hash, t.value.hash) == Some(true) then LeafFile(t)
    else LeafFile(o)
  }

  /** The same for any node: a marked or doubly renamed one keeps the file of the side it is left with. */
  ghost function NodeContent(repo: Repo, spec: Spec, q: Path, n: Node): Option<WFile> {
    match n.forced
    case MdOurs => LeafFile(n.ours)
    case MdTheirs => LeafFile(n.theirs)
    case KeepStages => None
    case NotForced =>
      if n.renameRename then LeafFile(if n.ours.Some? then n.ours else n.theirs)
      else if n.oursRenamed && n.ours == n.base && n.theirs.None? then LeafFile(n.ours)
      else if n.theirsRenamed && n.theirs == n.base && n.ours.None? then LeafFile(n.theirs)
      else Content(repo, spec, q, n.base, n.ours, n.theirs)
  }

  lemma NodeFile(repo: Repo, spec: Spec, q: Path, n: Node, d: Decision, end: Repo, i: nat)
    requires DecideNode(repo, spec, q, n) == Ok(d) && i < |d.outs| && d.outs[i].path == q
    ensures d.outs[i].writeFile <==> NodeContent(repo, spec, q, n).Some?
    ensures d.outs[i].writeFile && FileFor(end, d.outs[i]).Ok? ==> FileFor(end, d.outs[i]) == Ok(NodeContent(repo, spec, q, n))
  {
    hide IsBinary, DecideBoth, KindOf;
    if n.forced.NotForced? && !n.renameRename && n.ours != n.theirs && n.ours != n.base && n.theirs != n.base && n.ours.Some? && n.theirs.Some? {
      BothFile(repo, spec, q, n.base, n.ours.value, n.theirs.value, d, end, i);
    }
  }

  lemma BothFile(repo: Repo, spec: Spec, q: Path, b: Option<Leaf>, o: Leaf, t: Leaf, d: Decision, end: Repo, i: nat)
    requires DecideBoth(repo, spec, q, b, o, t) == Ok(d) && i < |d.outs| && d.outs[i].path == q && Some(o) != b && Some(t) != b && o != t
    ensures d.outs[i].writeFile <==> Content(repo, spec, q, b, Some(o), Some(t)).Some?
    ensures d.outs[i].writeFile && FileFor(end, d.outs[i]).Ok? ==> FileFor(end, d.outs[i]) == Ok(Content(repo, spec, q, b, Some(o), Some(t)))
  {
    hide IsBinary;
  }

  lemma NodeHasFile(repo: Repo, spec: Spec, q: Path, n: Node, d: Decision)
    requires DecideNode(repo, spec, q, n) == Ok(d)
    ensures NodeContent(repo, spec, q, n).Some? ==> |d.outs| > 0 && d.outs[0].path == q
  {
    hide IsBinary, DecideBoth, TextMerged, KindOf;
    if n.ours.Some? && n.theirs.Some? && DecideBoth(repo, spec, q, n.base, n.ours.value, n.theirs.value) == Ok(d) {
      FirstOwn(repo, spec, q, n.base, n.ours.value, n.theirs.value, d);
    }
  }

  lemma FirstOwn(repo: Repo, spec: Spec, q: Path, b: Option<Leaf>, o: Leaf, t: Leaf, d: Decision)
    requires DecideBoth(repo, spec, q, b, o, t) == Ok(d)
    ensures |d.outs| > 0 && d.outs[0].path == q
  {
    hide IsBinary, KindOf, PickMode;
  }

  ghost predicate FileSo(q: Path, outs: seq<OutPath>, want: Option<WFile>) {
    && (forall i :: 0 <= i < |outs| && outs[i].path == q ==> OutSo(outs[i], want))
    && (want.Some? ==> exists i :: 0 <= i < |outs| && outs[i].path == q)
  }

  ghost predicate OutSo(p: OutPath, want: Option<WFile>) {
    (p.writeFile <==> want.Some?) && forall end :: p.writeFile && FileFor(end, p).Ok? ==> FileFor(end, p) == Ok(want)
  }

  lemma SameContent(repo: Repo, more: Repo, spec: Spec, q: Path, n: Node)
    requires Extends(repo, more)
    ensures NodeContent(more, spec, q, n) == NodeContent(repo, spec, q, n)
  {
    hide IsBinary, KindOf;
  }

  /** `q` is the path of a node, or the labelled name of one that moves aside. */
  ghost predicate OwnPath(keys: seq<Path>, nodes: Nodes, spec: Spec, q: Path) {
    q in keys || exists k :: k in keys && k in nodes && MovesAside(nodes[k]) && q == Aside(spec, k)
  }

  lemma OwnMore(front: seq<Path>, k: Path, nodes: Nodes, spec: Spec, q: Path)
    requires OwnPath(front, nodes, spec, q)
    ensures OwnPath(front + [k], nodes, spec, q)
  {
    hide MovesAside, Aside;
    if q !in front {
      var p :| p in front && p in nodes && MovesAside(nodes[p]) && q == Aside(spec, p);
      assert p in front + [k];
    }
  }

  lemma {:induction false} DecidedPaths(repo: Repo, spec: Spec, keys: seq<Path>, nodes: Nodes)
    requires DecideAll(repo, spec, keys, nodes).r.Ok?
    ensures forall p :: p in DecideAll(repo, spec, keys, nodes).r.value.outs ==> OwnPath(keys, nodes, spec, p.path)
  {
    hide DecideNode, MovesAside, Aside, OwnPath;
    if keys != [] {
      var front, k := keys[..|keys| - 1], keys[|keys| - 1];
      assert keys == front + [k];
      DecidedPaths(repo, spec, front, nodes);
      var before := DecideAll(repo, spec, front, nodes);
      forall q | OwnPath(front, nodes, spec, q) ensures OwnPath(keys, nodes, spec, q) { OwnMore(front, k, nodes, spec, q); }
      if k in nodes {
        var d := DecideNode(before.repo, spec, k, nodes[k]).value;
        OutPaths(before.repo, spec, k, nodes[k], d);
        OwnLast(front, k, nodes, spec);
      }
    }
  }

  lemma OwnLast(front: seq<Path>, k: Path, nodes: Nodes, spec: Spec)
    requires k in nodes
    ensures OwnPath(front + [k], nodes, spec, k) && (MovesAside(nodes[k]) ==> OwnPath(front + [k], nodes, spec, Aside(spec, k)))
  {
    hide MovesAside, Aside;
    assert k in front + [k];
  }

  lemma {:induction false} DecidedFile(repo: Repo, spec: Spec, keys: seq<Path>, nodes: Nodes, q: Path)
    requires DecideAll(repo, spec, keys, nodes).r.Ok? && Increasing(keys) && OnlyOwn(keys, nodes, spec, q)
    ensures FileSo(q, DecideAll(repo, spec, keys, nodes).r.value.outs, if q in keys && q in nodes then NodeContent(repo, spec, q, nodes[q]) else None)
  {
    hide DecideNode, NodeContent, FileSo, OnlyOwn, Increasing, MovesAside;
    if keys == [] {
      NoFile(q);
    } else {
      var front, k := keys[..|keys| - 1], keys[|keys| - 1];
      FrontOnly(front, k, nodes, spec, q, keys);
      var before := DecideAll(repo, spec, front, nodes);
      DecidedFile(repo, spec, front, nodes, q);
      if k in nodes {
        var d := DecideNode(before.repo, spec, k, nodes[k]).value;
        if k == q {
          OwnFile(repo, spec, front, nodes, q, d);
        } else {
          OtherFile(before.repo, spec, k, nodes[k], d, before.r.value.outs, q, if q in front && q in nodes then NodeContent(repo, spec, q, nodes[q]) else None);
        }
      }
    }
  }

  lemma FrontOnly(front: seq<Path>, k: Path, nodes: Nodes, spec: Spec, q: Path, keys: seq<Path>)
    requires keys == front + [k] && Increasing(keys) && OnlyOwn(keys, nodes, spec, q)
    ensures Increasing(front) && k !in front && OnlyOwn(front, nodes, spec, q) && (q in keys <==> q in front || q == k)
    ensures k in nodes && MovesAside(nodes[k]) ==> Aside(spec, k) != q
  {
    LastOnce(keys);
    assert forall p :: p in front ==> p in keys;
    assert k in keys;
  }

  lemma OtherFile(repo: Repo, spec: Spec, k: Path, n: Node, d: Decision, a: seq<OutPath>, q: Path, want: Option<WFile>)
    requires DecideNode(repo, spec, k, n) == Ok(d) && k != q && (MovesAside(n) ==> Aside(spec, k) != q) && FileSo(q, a, want)
    ensures FileSo(q, a + d.outs, want)
  {
    hide DecideNode, FileSo, MovesAside, Aside;
    OutPaths(repo, spec, k, n, d);
    JoinOther(q, a, d.outs, want);
  }

  lemma NoFile(q: Path)
    ensures FileSo(q, [], None)
  {
  }

  /** The node of the path itself comes after others that leave the path alone. */
  lemma OwnFile(repo: Repo, spec: Spec, front: seq<Path>, nodes: Nodes, q: Path, d: Decision)
    requires DecideAll(repo, spec, front, nodes).r.Ok? && q in nodes && q !in front && OnlyOwn(front, nodes, spec, q)
    requires DecideNode(DecideAll(repo, spec, front, nodes).repo, spec, q, nodes[q]) == Ok(d)
    requires FileSo(q, DecideAll(repo, spec, front, nodes).r.value.outs, None)
    ensures FileSo(q, DecideAll(repo, spec, front, nodes).r.value.outs + d.outs, NodeContent(repo, spec, q, nodes[q]))
  {
    hide DecideAll, DecideNode, NodeContent, FileSo, MovesAside, Aside;
    var before := DecideAll(repo, spec, front, nodes);
    DecideExtends(repo, spec, front, nodes);
    SameContent(repo, before.repo, spec, q, nodes[q]);
    NodeFileSo(before.repo, spec, q, nodes[q], d);
    DecidedPaths(repo, spec, front, nodes);
    forall i | 0 <= i < |before.r.value.outs| ensures before.r.value.outs[i].path != q {
      assert before.r.value.outs[i] in before.r.value.outs;
    }
    JoinOwn(q, before.r.value.outs, d.outs, NodeContent(repo, spec, q, nodes[q]));
  }

  lemma NodeFileSo(repo: Repo, spec: Spec, q: Path, n: Node, d: Decision)
    requires DecideNode(repo, spec, q, n) == Ok(d)
    ensures FileSo(q, d.outs, NodeContent(repo, spec, q, n))
  {
    hide DecideNode, NodeContent, FileFor;
    NodeHasFile(repo, spec, q, n, d);
    forall i | 0 <= i < |d.outs| && d.outs[i].path == q ensures OutSo(d.outs[i], NodeContent(repo, spec, q, n)) {
      forall end ensures d.outs[i].writeFile && FileFor(end, d.outs[i]).Ok? ==> FileFor(end, d.outs[i]) == Ok(NodeContent(repo, spec, q, n)) {
        NodeFile(repo, spec, q, n, d, end, i);
      }
      NodeFile(repo, spec, q, n, d, repo, i);
    }
  }

  lemma JoinOwn(q: Path, a: seq<OutPath>, b: seq<OutPath>, want: Option<WFile>)
    requires FileSo(q, a, None) && FileSo(q, b, want) && forall i :: 0 <= i < |a| ==> a[i].path != q || want.None?
    ensures FileSo(q, a + b, want)
  {
    hide OutSo;
    forall i | 0 <= i < |a + b| ensures (a + b)[i] == if i < |a| then a[i] else b[i - |a|] {}
    if want.Some? {
      var i :| 0 <= i < |b| && b[i].path == q;
      assert (a + b)[|a| + i].path == q;
    }
  }

  lemma JoinOther(q: Path, a: seq<OutPath>, b: seq<OutPath>, want: Option<WFile>)
    requires FileSo(q, a, want) && forall i :: 0 <= i < |b| ==> b[i].path != q
    ensures FileSo(q, a + b, want)
  {
    hide OutSo;
    forall i | 0 <= i < |a + b| ensures (a + b)[i] == if i < |a| then a[i] else b[i - |a|] {}
    if want.Some? {
      var i :| 0 <= i < |a| && a[i].path == q;
      assert (a + b)[i].path == q;
    }
  }

  function AsideFile(n: Node): Option<WFile> { if MovesAside(n) then LeafFile(n.theirs) else None }

  lemma AsideFileSo(repo: Repo, spec: Spec, k: Path, n: Node, d: Decision)
    requires DecideNode(repo, spec, k, n) == Ok(d)
    ensures FileSo(Aside(spec, k), d.outs, AsideFile(n))
  {
    hide Decide.MergeFiles;
    if MovesAside(n) {
      assert d.outs[1] == TheirsOnly(Aside(spec, k), n.base, n.theirs.value);
    } else {
      OutPaths(repo, spec, k, n, d);
    }
  }

  lemma {:induction false} DecidedAsideFile(repo: Repo, spec: Spec, keys: seq<Path>, nodes: Nodes, k: Path)
    requires DecideAll(repo, spec, keys, nodes).r.Ok? && Increasing(keys) && NameFree(keys, spec, k)
    ensures FileSo(Aside(spec, k), DecideAll(repo, spec, keys, nodes).r.value.outs,
                   if k in keys && k in nodes then AsideFile(nodes[k]) else None)
  {
    hide DecideNode, AsideFile, OutSo, MovesAside;
    if keys != [] {
      var front, last, q := keys[..|keys| - 1], keys[|keys| - 1], Aside(spec, k);
      assert keys == front + [last];
      var before := DecideAll(repo, spec, front, nodes);
      FreeFront(front, last, spec, k);
      DecidedAsideFile(repo, spec, front, nodes, k);
      LastOnce(keys);
      if last in nodes {
        var d := DecideNode(before.repo, spec, last, nodes[last]).value;
        OutPaths(before.repo, spec, last, nodes[last], d);
        if last == k {
          AsideFileSo(before.repo, spec, k, nodes[k], d);
          DecidedPaths(repo, spec, front, nodes);
          forall i | 0 <= i < |before.r.value.outs| ensures before.r.value.outs[i].path != q {
            assert before.r.value.outs[i] in before.r.value.outs;
            NotAside(front, k, nodes, spec, before.r.value.outs[i].path);
          }
          JoinOwn(q, before.r.value.outs, d.outs, AsideFile(nodes[k]));
        } else {
          if Aside(spec, last) == q { SameTail(last, k, spec.theirsLabel); }
          JoinOther(q, before.r.value.outs, d.outs, if k in front && k in nodes then AsideFile(nodes[k]) else None);
        }
      }
    }
  }

  lemma NotAside(front: seq<Path>, k: Path, nodes: Nodes, spec: Spec, q: Path)
    requires OwnPath(front, nodes, spec, q) && k !in front && forall p :: p in front ==> p != Aside(spec, k)
    ensures q != Aside(spec, k)
  {
    if q !in front {
      var p :| p in front && p in nodes && MovesAside(nodes[p]) && q == Aside(spec, p);
      if q == Aside(spec, k) { SameTail(p, k, spec.theirsLabel); }
    }
  }

  /** What moves aside does so to a name that no other node has. */
  ghost predicate NamesFree(keys: seq<Path>, nodes: Nodes, spec: Spec) {
    forall k, p :: k in keys && k in nodes && MovesAside(nodes[k]) && p in keys ==> Aside(spec, k) != p
  }

  lemma {:induction false} DecidedDistinct(repo: Repo, spec: Spec, keys: seq<Path>, nodes: Nodes)
    requires DecideAll(repo, spec, keys, nodes).r.Ok? && Increasing(keys) && NamesFree(keys, nodes, spec)
    ensures DistinctOuts(DecideAll(repo, spec, keys, nodes).r.value.outs)
  {
    hide DecideNode, MovesAside, Aside;
    if keys != [] {
      var front, k := keys[..|keys| - 1], keys[|keys| - 1];
      assert keys == front + [k];
      assert NamesFree(front, nodes, spec) by { assert forall p :: p in front ==> p in keys; }
      DecidedDistinct(repo, spec, front, nodes);
      DecidedPaths(repo, spec, front, nodes);
      var before := DecideAll(repo, spec, front, nodes);
      LastOnce(keys);
      if k in nodes {
        var d := DecideNode(before.repo, spec, k, nodes[k]).value;
        OutPaths(before.repo, spec, k, nodes[k], d);
        OwnDistinct(before.repo, spec, k, nodes[k], d);
        forall i | 0 <= i < |before.r.value.outs|
          ensures before.r.value.outs[i].path != k && (MovesAside(nodes[k]) ==> before.r.value.outs[i].path != Aside(spec, k))
        {
          assert before.r.value.outs[i] in before.r.value.outs;
          NotOwn(front, k, nodes, spec, before.r.value.outs[i].path);
        }
      }
    }
  }

  lemma NotOwn(front: seq<Path>, k: Path, nodes: Nodes, spec: Spec, q: Path)
    requires OwnPath(front, nodes, spec, q) && k !in front && k in nodes && NamesFree(front + [k], nodes, spec)
    ensures q != k && (MovesAside(nodes[k]) ==> q != Aside(spec, k))
  {
    assert k in front + [k] && forall p :: p in front ==> p in front + [k];
    if q !in front {
      var p :| p in front && p in nodes && MovesAside(nodes[p]) && q == Aside(spec, p);
      if q == Aside(spec, k) { SameTail(p, k, spec.theirsLabel); }
    }
  }

  lemma SameTail(a: string, b: string, l: string)
    requires a + "~" + l == b + "~" + l
    ensures a == b
  {
    assert a + "~" + l == a + ("~" + l) && b + "~" + l == b + ("~" + l);
    SameStem(a, b, "~" + l);
  }

  lemma OwnDistinct(repo: Repo, spec: Spec, k: Path, n: Node, d: Decision)
    requires DecideNode(repo, spec, k, n) == Ok(d)
    ensures DistinctOuts(d.outs)
  {
    hide IsBinary;
    assert |Aside(spec, k)| > |k|;
  }

  // ---- A merge from beginning to end ----------------------------------------------------------------

  /** Nodes that aligning and then settling clashes can give. */
  ghost predicate SettledFrom(order: Order, spec: Spec, x: Input, nodes: Nodes) {
    exists start :: Aligned(x, start) && nodes == Settle(order, start, spec.oursLabel, spec.theirsLabel)
  }

  /** The result comes from deciding these nodes in the order of their paths. */
  ghost predicate DecidedBy(repo: Repo, spec: Spec, keys: seq<Path>, nodes: Nodes, done: Done<TreeMerge>) {
    && Increasing(keys) && (forall k :: k in keys <==> k in nodes) && DecideAll(repo, spec, keys, nodes).r.Ok? && done.r.Ok?
    && done.r.value.paths == DecideAll(repo, spec, keys, nodes).r.value.outs && done.r.value.clean == DecideAll(repo, spec, keys, nodes).r.value.clean
  }

  lemma ResultParts(repo: Repo, spec: Spec, start: Nodes) returns (keys: seq<Path>, nodes: Nodes)
    requires ResultOf(repo, spec, start).r.Ok?
    ensures nodes == Settle(repo.order, start, spec.oursLabel, spec.theirsLabel) && DecidedBy(repo, spec, keys, nodes, ResultOf(repo, spec, start))
  {
    hide DecideAll, Settle, KeysOf, TreeOf, Increasing;
    nodes := Settle(repo.order, start, spec.oursLabel, spec.theirsLabel);
    keys := KeysOf(repo.order, nodes);
    KeysOfNodes(repo.order, nodes);
  }

  lemma MergeParts(repo: Repo, spec: Spec, x: Input, done: Done<TreeMerge>) returns (keys: seq<Path>, nodes: Nodes)
    requires MergeOf(repo, spec, x, done) && done.r.Ok?
    ensures LoadAttrs(repo, x.ours).Ok? && SettledFrom(repo.order, spec, x, nodes)
    ensures DecidedBy(repo, spec.(attrs := LoadAttrs(repo, x.ours).value), keys, nodes, done)
  {
    hide Aligned, Settle, ResultOf, RenamesFound, LoadAttrs, DecidedBy;
    var start :| Aligned(x, start) && done == ResultOf(repo, spec.(attrs := LoadAttrs(repo, x.ours).value), start);
    keys, nodes := ResultParts(repo, spec.(attrs := LoadAttrs(repo, x.ours).value), start);
  }

  /** What `nodes` call for in the index: each its stages, and theirs at the labelled name of what
      moves aside. */
  ghost predicate CallsFor(repo: Repo, spec: Spec, nodes: Nodes, e: IndexEntry) {
    || (e.path in nodes && NodeStands(repo, spec, e.path, nodes[e.path], e.stage, e.leaf))
    || exists k :: k in nodes && MovesAside(nodes[k]) && e.path == Aside(spec, k) && Sides(nodes[k].base, None, nodes[k].theirs, e.stage, e.leaf)
  }

  lemma DecidedIndex(repo: Repo, spec: Spec, keys: seq<Path>, nodes: Nodes, done: Done<TreeMerge>, e: IndexEntry)
    requires DecidedBy(repo, spec, keys, nodes, done) && NamesFree(keys, nodes, spec)
    ensures e in IndexOfPaths(done.r.value.paths) <==> CallsFor(repo, spec, nodes, e)
  {
    hide DecideAll, IndexOfPaths, MovesAside, Sides, NodeStands, Increasing;
    if k :| k in keys && MovesAside(nodes[k]) && e.path == Aside(spec, k) {
      DecidedAside(repo, spec, keys, nodes, k, e);
      forall p | p in nodes && e.path == Aside(spec, p) ensures p == k { SameTail(p, k, spec.theirsLabel); }
    } else {
      DecidedEntries(repo, spec, keys, nodes, e);
    }
  }

  /** The file `nodes` call for at a path: its content, or theirs at the labelled name. */
  ghost function Expected(repo: Repo, spec: Spec, nodes: Nodes, q: Path): Option<WFile> {
    if q in nodes then NodeContent(repo, spec, q, nodes[q])
    else if k :| k in nodes && MovesAside(nodes[k]) && q == Aside(spec, k) then LeafFile(nodes[k].theirs)
    else None
  }

  lemma DecidedFiles(repo: Repo, spec: Spec, keys: seq<Path>, nodes: Nodes, done: Done<TreeMerge>, q: Path)
    requires DecidedBy(repo, spec, keys, nodes, done) && NamesFree(keys, nodes, spec)
    ensures DistinctOuts(done.r.value.paths) && FileSo(q, done.r.value.paths, Expected(repo, spec, nodes, q))
  {
    hide DecideAll, NodeContent, FileSo, DistinctOuts, MovesAside, LeafFile, Increasing;
    DecidedDistinct(repo, spec, keys, nodes);
    if k :| k in keys && MovesAside(nodes[k]) && q == Aside(spec, k) {
      forall p | p in nodes && q == Aside(spec, p) ensures p == k { SameTail(p, k, spec.theirsLabel); }
      DecidedAsideFile(repo, spec, keys, nodes, k);
    } else {
      DecidedFile(repo, spec, keys, nodes, q);
    }
  }

  /** Once everything is written, each path shows its content, or nothing if it was tracked before. */
  lemma ShownFile(repo: Repo, s: State, paths: seq<OutPath>, q: Path, want: Option<WFile>)
    requires FileSo(q, paths, want) && DistinctOuts(paths) && AllSound(paths) && Materialized(repo, s, paths).1.None?
    ensures FileAt(Materialized(repo, s, paths).0.files, q) == if want.Some? then want else if q in Names(s.index) then None else FileAt(s.files, q)
  {
    hide WriteAll, FileFor, Names, Sound;
    if want.Some? {
      var i :| 0 <= i < |paths| && paths[i].path == q;
      assert OutSo(paths[i], want);
      WriteAt(repo, LeftOf(s, paths), paths, i);
    } else {
      NotWritten(paths, q);
      WriteElsewhere(repo, LeftOf(s, paths), paths, q);
      RemovedFile(s.files, StaleOf(s, paths), q);
      StaleNames(s.index, Written(paths), q);
    }
  }

  lemma NotWritten(paths: seq<OutPath>, q: Path)
    requires FileSo(q, paths, None)
    ensures q !in Written(paths)
  {
    hide FileFor;
  }

  /** Nothing about the node is in conflict: no clash, no double rename, no rename of what the other
      side removed, and two different changes that can be reconciled. */
  ghost predicate Agreed(repo: Repo, spec: Spec, q: Path, n: Node) {
    && n.forced.NotForced? && !n.renameRename
    && if n.ours == n.theirs then true
       else if n.ours == n.base then !(n.oursRenamed && n.theirs.None?)
       else if n.theirs == n.base then !(n.theirsRenamed && n.ours.None?)
       else Reconcilable(repo, spec, q, n.base, n.ours, n.theirs)
  }

  lemma NodeClean(repo: Repo, spec: Spec, q: Path, n: Node, d: Decision)
    requires DecideNode(repo, spec, q, n) == Ok(d)
    ensures d.clean <==> Agreed(repo, spec, q, n)
  {
    hide DecideBoth, Reconciles;
    if n.forced.NotForced? && !n.renameRename && n.ours != n.theirs && n.ours != n.base && n.theirs != n.base && n.ours.Some? && n.theirs.Some? {
      if d.clean { CleanBoth(repo, spec, q, n.base, n.ours.value, n.theirs.value, d); } else { Irreconcilable(repo, spec, q, n.base, n.ours.value, n.theirs.value, d); }
    }
  }

  lemma SameReconciling(repo: Repo, more: Repo, spec: Spec, q: Path, n: Node)
    requires Extends(repo, more)
    ensures Agreed(more, spec, q, n) == Agreed(repo, spec, q, n)
  {
    hide IsBinary, CommonMode, KindOf;
    forall x, y, z, out ensures Reconciles(more, spec, q, x, y, z, out) == Reconciles(repo, spec, q, x, y, z, out) {}
  }

  lemma {:induction false} DecidedClean(repo: Repo, spec: Spec, keys: seq<Path>, nodes: Nodes)
    requires DecideAll(repo, spec, keys, nodes).r.Ok?
    ensures DecideAll(repo, spec, keys, nodes).r.value.clean <==> forall q :: q in keys && q in nodes ==> Agreed(repo, spec, q, nodes[q])
  {
    hide DecideNode, Agreed;
    if keys != [] {
      var front, k := keys[..|keys| - 1], keys[|keys| - 1];
      assert keys == front + [k];
      DecidedClean(repo, spec, front, nodes);
      var before := DecideAll(repo, spec, front, nodes);
      if k in nodes {
        NodeClean(before.repo, spec, k, nodes[k], DecideNode(before.repo, spec, k, nodes[k]).value);
        DecideExtends(repo, spec, front, nodes);
        SameReconciling(repo, before.repo, spec, k, nodes[k]);
        assert k in keys;
      }
      assert forall q :: q in keys <==> q in front || q == k;
    }
  }

  // ---- What a whole merge leaves behind ---------------------------------------------------------------

  ghost predicate AllFree(nodes: Nodes, spec: Spec) {
    forall k, p :: k in nodes && MovesAside(nodes[k]) && p in nodes ==> Aside(spec, k) != p
  }

  /** Index and worktree after a merge: what its nodes call for, no more of what was tracked before,
      and everything else as it was. */
  ghost predicate LeavesBehind(repo: Repo, spec: Spec, ours: LeafMap, nodes: Nodes, s: State, t: State) {
    && (forall e: IndexEntry :: e in t.index <==> CallsFor(repo, spec, nodes, e))
    && (forall q :: FileAt(t.files, q) == if Expected(repo, spec, nodes, q).Some? then Expected(repo, spec, nodes, q)
                                          else if q in ours then None else FileAt(s.files, q))
  }

  /** However a result is applied, index and worktree are those of its paths. */
  lemma AppliedShows(w: World, s: State, head: Oid, others: seq<Oid>, message: string, tm: TreeMerge, noCommit: bool, who: Option<string>)
    requires IsOid(head) && AllOids(others) && HEAD in s.refs
    ensures var (t, r) := Applied(w, s, head, others, message, tm, noCommit, who);
            var m := Materialized(RepoOf(w, s), s, tm.paths);
            r.Ok? ==> m.1.None? && t.files == m.0.files && t.index == IndexOfPaths(tm.paths) && r.value.clean == tm.clean
  {
    hide WriteAll, RemoveAll, HeadText, HeadsText, IndexOfPaths;
    if who.Some? {
      SameCheckout(RepoOf(w, s), s, WithCommit(w, s, CommitRec(tm.tree, [head] + others, message, who.value)), tm.paths);
    }
  }

  lemma ItemShows(repo: Repo, p: OutPath)
    requires p.writeFile && Sound(p) && FileFor(repo, p).Ok?
    ensures FileFor(repo, p).value.Some? && ItemLeaf(p).Some? && ItemLeaf(p).value.hash == Blob(FileFor(repo, p).value.value.bytes)
  {
  }

  /** The tree of a result, conflicted or not, has at every path that is written the very bytes that
      stand in the worktree, and at a conflict without a file ours, or theirs if there is no ours. */
  lemma TreeShowsFiles(repo: Repo, s: State, paths: seq<OutPath>, m: LeafMap, i: nat)
    requires AllSound(paths) && DistinctOuts(paths) && Describes(paths, m) && LeafyMap(m) && Materialized(repo, s, paths).1.None?
    requires i < |paths|
    ensures var f, tree, p := FileAt(Materialized(repo, s, paths).0.files, paths[i].path), Files(TreeOf(paths)), paths[i];
            && (p.writeFile ==> f.Some? && p.path in tree && tree[p.path].hash == Blob(f.value.bytes))
            && (p.marker.None? && p.resolved.None? && p.work.None? && p.ours.Some? ==> Get(tree, p.path) == p.ours)
            && (p.marker.None? && p.resolved.None? && p.work.None? && p.ours.None? && p.theirs.Some? ==> Get(tree, p.path) == p.theirs)
  {
    hide WriteAll, FileFor, Sound, TreeOf;
    TreeOfDescribes(paths, m);
    if paths[i].writeFile {
      WriteAt(repo, LeftOf(s, paths), paths, i);
      ItemShows(repo, paths[i]);
    }
  }

  /** `t` is what is left behind for some nodes, and the merge was clean exactly when they all agree. */
  ghost predicate LeftBy(repo: Repo, spec: Spec, x: Input, s: State, t: State, clean: bool) {
    exists nodes :: SettledFrom(repo.order, spec, x, nodes) && LeftFor(repo, spec, x, nodes, s, t, clean)
  }

  ghost predicate LeftFor(repo: Repo, spec: Spec, x: Input, nodes: Nodes, s: State, t: State, clean: bool) {
    && (clean <==> forall q :: q in nodes ==> Agreed(repo, spec, q, nodes[q]))
    && (AllFree(nodes, spec) ==> LeavesBehind(repo, spec, x.ours, nodes, s, t))
  }

  /** A result of merging three trees, applied, leaves in index and worktree what its nodes call for. */
  lemma ResultLeaves(w: World, s: State, heads: seq<Oid>, opts: Options, who: Option<string>, skipShift: bool, repo: Repo, base: Hash, theirs: Hash)
    requires Named(s) && AllOids(heads) && Plan(w, s, heads, opts) == Ok(Compute(skipShift)) && heads != [] && Known(s, heads) && Extends(RepoOf(w, s), repo)
    requires ComputeOf(w, s, HeadOf(s).value, heads, StrategyOf(opts, heads), opts, skipShift)
          == MergedTrees(repo, SpecOf(opts, StrategyOf(opts, heads), heads), base, s.commits[HeadOf(s).value].tree, theirs)
    ensures var spec := SpecOf(opts, StrategyOf(opts, heads), heads);
            var x := TreesInput(repo, spec, base, s.commits[HeadOf(s).value].tree, theirs);
            var (t, r) := MergeOutcome(w, s, heads, opts, who);
            r.Ok? ==> LoadAttrs(repo, x.ours).Ok? && LeftBy(repo, spec.(attrs := LoadAttrs(repo, x.ours).value), x, s, t, r.value.clean)
  {
    hide Plan, MergedTrees, SpecOf, LoadAttrs, Applied, ComputeOf, LeavesBehind, MergeOf, GoodMerge, TreesInput, Named, Agreed, LeftBy, Clean, Readable;
    var head, spec := HeadOf(s).value, SpecOf(opts, StrategyOf(opts, heads), heads);
    var c := ComputeOf(w, s, head, heads, StrategyOf(opts, heads), opts, skipShift);
    if MergeOutcome(w, s, heads, opts, who).1.Ok? {
      PlanKnown(w, s, heads, opts);
      ComputeExtends(w, s, head, heads, StrategyOf(opts, heads), opts, skipShift);
      ComputedGood(w, s, head, heads, StrategyOf(opts, heads), opts, skipShift);
      MergedNeeds(repo, spec, base, s.commits[head].tree, theirs);
      TreesMerge(repo, spec, base, s.commits[head].tree, theirs);
      var x := TreesInput(repo, spec, base, s.commits[head].tree, theirs);
      GoodSound(c.r.value);
      AppliedShows(w, s.(store := c.repo.stored), head, heads, MessageFor(opts.message, heads), c.r.value, opts.noCommit, who);
      HeadClean(w, s);
      ShownAll(s, repo, spec, x, c, MergeOutcome(w, s, heads, opts, who).0, RepoOf(w, s));
    }
  }

  lemma HeadClean(w: World, s: State)
    requires HeadOf(s).Ok? && HeadOf(s).value in s.commits && HeadLeaves(w, s, HeadOf(s).value).Ok?
    ensures HeadLeaves(w, s, HeadOf(s).value).value == Files(s.commits[HeadOf(s).value].tree)
  {
  }

  lemma ShownAll(s: State, repo: Repo, spec: Spec, x: Input, c: Done<TreeMerge>, t: State, was: Repo)
    requires MergeOf(repo, spec, x, c) && c.r.Ok? && AllSound(c.r.value.paths) && Clean(was, s, x.ours)
    requires var m := Materialized(c.repo, s.(store := c.repo.stored), c.r.value.paths);
             m.1.None? && t.files == m.0.files && t.index == IndexOfPaths(c.r.value.paths)
    ensures LoadAttrs(repo, x.ours).Ok? && LeftBy(repo, spec.(attrs := LoadAttrs(repo, x.ours).value), x, s, t, c.r.value.clean)
  {
    hide MergeOf, LoadAttrs, DecidedBy, SettledFrom, LeavesBehind, Materialized, Clean, IndexOfPaths, AllSound, Agreed, AllFree;
    var keys, nodes := MergeParts(repo, spec, x, c);
    var spec1 := spec.(attrs := LoadAttrs(repo, x.ours).value);
    SameSettled(repo.order, spec, spec1, x, nodes);
    DecidedAgrees(repo, spec1, keys, nodes, c);
    if AllFree(nodes, spec1) { ShownNodes(s, repo, spec1, x.ours, keys, nodes, c, t, was); }
    assert LeftFor(repo, spec1, x, nodes, s, t, c.r.value.clean);
  }

  lemma DecidedAgrees(repo: Repo, spec: Spec, keys: seq<Path>, nodes: Nodes, done: Done<TreeMerge>)
    requires DecidedBy(repo, spec, keys, nodes, done)
    ensures done.r.value.clean <==> forall q :: q in nodes ==> Agreed(repo, spec, q, nodes[q])
  {
    hide DecideAll, Agreed, Increasing;
    DecidedClean(repo, spec, keys, nodes);
  }

  lemma ShownNodes(s: State, repo: Repo, spec: Spec, ours: LeafMap, keys: seq<Path>, nodes: Nodes, c: Done<TreeMerge>, t: State, was: Repo)
    requires DecidedBy(repo, spec, keys, nodes, c) && AllFree(nodes, spec) && AllSound(c.r.value.paths) && Clean(was, s, ours)
    requires var m := Materialized(c.repo, s.(store := c.repo.stored), c.r.value.paths);
             m.1.None? && t.files == m.0.files && t.index == IndexOfPaths(c.r.value.paths)
    ensures LeavesBehind(repo, spec, ours, nodes, s, t)
  {
    hide CallsFor, Expected, FileSo, Materialized, Clean, FileAt, IndexOfPaths, Names, DistinctOuts, AllSound, DecideAll, MovesAside, Aside, Increasing;
    assert NamesFree(keys, nodes, spec);
    forall e ensures e in t.index <==> CallsFor(repo, spec, nodes, e) { DecidedIndex(repo, spec, keys, nodes, c, e); }
    forall q ensures FileAt(t.files, q) == if Expected(repo, spec, nodes, q).Some? then Expected(repo, spec, nodes, q)
                                           else if q in ours then None else FileAt(s.files, q) {
      CleanNames(was, s, ours, q);
      DecidedFiles(repo, spec, keys, nodes, c, q);
      ShownFile(c.repo, s.(store := c.repo.stored), c.r.value.paths, q, Expected(repo, spec, nodes, q));
    }
  }

  lemma SameSettled(order: Order, spec: Spec, spec1: Spec, x: Input, nodes: Nodes)
    requires SettledFrom(order, spec, x, nodes) && spec1.oursLabel == spec.oursLabel && spec1.theirsLabel == spec.theirsLabel
    ensures SettledFrom(order, spec1, x, nodes)
  {
    hide Aligned, Settle;
  }

  /** A merge with one merge base leaves at each path what base, HEAD and the incoming commit call for:
      what only one side changed, the combination of two changes, or the three versions in stages
      1, 2 and 3; it is clean exactly when nothing is in conflict. */
  lemma MergeLeaves(w: World, s: State, other: Oid, opts: Options, who: Option<string>, skipShift: bool, base: CommitObj)
    requires Named(s) && IsOid(other) && Plan(w, s, [other], opts) == Ok(Compute(skipShift)) && Known(s, [other]) && other in s.commits
    requires ThreeWayStrategy(StrategyOf(opts, [other])) && (StrategyOf(opts, [other]).Subtree? ==> skipShift)
    requires w.graph.mergeBase(Commit(HeadOf(s).value), Commit(other)) == Ok([base])
    ensures var repo, spec := RepoOf(w, s), SpecOf(opts, StrategyOf(opts, [other]), [other]);
            var x := TreesInput(repo, spec, base.tree, s.commits[HeadOf(s).value].tree, s.commits[other].tree);
            var (t, r) := MergeOutcome(w, s, [other], opts, who);
            r.Ok? ==> LoadAttrs(repo, x.ours).Ok? && LeftBy(repo, spec.(attrs := LoadAttrs(repo, x.ours).value), x, s, t, r.value.clean)
  {
    hide Plan, MergeOutcome, MergedTrees, SpecOf, LoadAttrs, ComputeOf, Named, LeftBy;
    OneBaseResult(w, s, HeadOf(s).value, other, StrategyOf(opts, [other]), opts, skipShift, base);
    ResultLeaves(w, s, [other], opts, who, skipShift, RepoOf(w, s), base.tree, s.commits[other].tree);
  }

  /** The directory to merge under: the one that was given, or the one that was found. */
  ghost predicate Under(w: World, s: State, other: Oid, given: Option<string>, prefix: string)
    requires HeadOf(s).Ok? && HeadOf(s).value in s.commits && other in s.commits
  {
    GoodPrefix(prefix)
    && if given.Some? then given == Some(prefix) else DetectedPrefix(RepoOf(w, s), s.commits[HeadOf(s).value].tree, s.commits[other].tree) == Ok(prefix)
  }

  /** A subtree merge leaves what base and incoming commit call for once all their files are moved
      under the prefix. */
  lemma SubtreeLeaves(w: World, s: State, other: Oid, opts: Options, who: Option<string>, base: CommitObj, prefix: string)
    requires Named(s) && IsOid(other) && Plan(w, s, [other], opts) == Ok(Compute(false)) && Known(s, [other]) && other in s.commits
    requires StrategyOf(opts, [other]).Subtree? && Under(w, s, other, opts.subtreePath, prefix) && base.tree.Tree? && s.commits[other].tree.Tree?
    requires w.graph.mergeBase(Commit(HeadOf(s).value), Commit(other)) == Ok([base])
    ensures var parts, spec := Parts(prefix), SpecOf(opts, Subtree, [other]);
            var repo := Stores(RepoOf(w, s), Wraps(parts, base.tree) + Wraps(parts, s.commits[other].tree));
            var x := TreesInput(repo, spec, Wrap(parts, base.tree), s.commits[HeadOf(s).value].tree, Wrap(parts, s.commits[other].tree));
            var (t, r) := MergeOutcome(w, s, [other], opts, who);
            && Lengthened(Files(base.tree), prefix + "/", x.base) && Lengthened(Files(s.commits[other].tree), prefix + "/", x.theirs)
            && x.ours == Files(s.commits[HeadOf(s).value].tree)
            && (r.Ok? ==> LoadAttrs(repo, x.ours).Ok? && LeftBy(repo, spec.(attrs := LoadAttrs(repo, x.ours).value), x, s, t, r.value.clean))
  {
    hide Plan, MergeOutcome, MergedTrees, SpecOf, LoadAttrs, ComputeOf, Named, LeftBy, Lengthened, Wrap, Wraps, DetectedPrefix, GoodPrefix, RenamesOf, Files;
    var parts := Parts(prefix);
    ShiftedResultIs(w, s, other, opts, base, prefix);
    ShiftedFiles(base.tree, prefix);
    ShiftedFiles(s.commits[other].tree, prefix);
    ResultLeaves(w, s, [other], opts, who, false, Stores(RepoOf(w, s), Wraps(parts, base.tree) + Wraps(parts, s.commits[other].tree)),
                 Wrap(parts, base.tree), Wrap(parts, s.commits[other].tree));
  }

  lemma ShiftedResultIs(w: World, s: State, other: Oid, opts: Options, base: CommitObj, prefix: string)
    requires HeadOf(s).Ok? && HeadOf(s).value in s.commits && other in s.commits && IsOid(other)
    requires StrategyOf(opts, [other]).Subtree? && Under(w, s, other, opts.subtreePath, prefix)
    requires w.graph.mergeBase(Commit(HeadOf(s).value), Commit(other)) == Ok([base])
    ensures var parts := Parts(prefix);
            var repo := Stores(RepoOf(w, s), Wraps(parts, base.tree) + Wraps(parts, s.commits[other].tree));
            ComputeOf(w, s, HeadOf(s).value, [other], Subtree, opts, false) ==
            MergedTrees(repo, SpecOf(opts, Subtree, [other]), Wrap(parts, base.tree), s.commits[HeadOf(s).value].tree, Wrap(parts, s.commits[other].tree))
  {
    hide MergedTrees, SpecOf, Wrap, Wraps, DetectedPrefix, GoodPrefix;
    assert [other][0] == other && AllOids([other]);
    assert [base][0] == base && |[base]| == 1;
    GoodShift(prefix);
  }

  // ---- Without renames and clashes --------------------------------------------------------------------

  /** The paths of three maps. */
  function PathsOf(x: Input): set<Path> { x.base.Keys + x.ours.Keys + x.theirs.Keys }

  /** No renames were found, no path is a directory of another, and names to move aside to are free. */
  ghost predicate PlainInput(spec: Spec, x: Input) {
    && x.oRen == x.tRen == map[] && PrefixFree(x.ours.Keys + x.theirs.Keys)
    && forall k, p :: k in PathsOf(x) && p in PathsOf(x) && MovesAside(PlainAt(x, k)) ==> Aside(spec, k) != p
  }

  lemma NoClashes(x: Input, nodes: Nodes)
    requires Aligned(x, nodes) && x.oRen == x.tRen == map[] && PrefixFree(x.ours.Keys + x.theirs.Keys)
    ensures forall p :: !Clash(nodes, p)
  {
    hide Aligned;
    forall q | q in nodes ensures Live(nodes[q]) ==> q in x.ours.Keys + x.theirs.Keys { PlainNode(x, nodes, q); }
  }

  function PlainAt(x: Input, q: Path): Node { Node(Get(x.base, q), Get(x.ours, q), Get(x.theirs, q), false, false, false, NotForced) }

  /** There every path of the three maps has a node of its own, with just its three leaves. */
  lemma PlainNodes(order: Order, spec: Spec, x: Input, nodes: Nodes)
    requires SettledFrom(order, spec, x, nodes) && PlainInput(spec, x)
    ensures (forall k :: k in nodes <==> k in PathsOf(x)) && (forall q :: q in nodes ==> nodes[q] == PlainAt(x, q)) && AllFree(nodes, spec)
  {
    hide Aligned, Settle, Clash, MadeFor, PrefixFree, MovesAside, Aside;
    var start :| Aligned(x, start) && nodes == Settle(order, start, spec.oursLabel, spec.theirsLabel);
    PlainKeys(x, start);
    NoClashes(x, start);
    SettleLaw(order, start, spec.oursLabel, spec.theirsLabel);
    forall q | q in start ensures start[q] == PlainAt(x, q) { PlainNode(x, start, q); }
  }
}
