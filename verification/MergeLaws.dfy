/** A side that did not change never matters, as long as no path is a directory of another. */
module MergeLaws {
  import opened Wrappers
  import opened Sorting
  import opened Leaves
  import opened Renames
  import opened Align
  import opened Trees
  import opened Decide
  import opened Engine

  // ---- Decisions over all nodes -----------------------------------------------------------------

  /** The node resolves to what `want` has at its path. */
  ghost predicate TakenAt(repo: Repo, spec: Spec, q: Path, n: Node, want: LeafMap) {
    var d := DecideNode(repo, spec, q, n);
    d.Ok? && d.value.clean && d.value.outs == ResolvedTo(q, Get(want, q))
  }

  /** It does, whatever is stored. */
  ghost predicate TakenAnyhow(spec: Spec, q: Path, n: Node, want: LeafMap) { forall repo :: TakenAt(repo, spec, q, n, want) }

  /** So does every node. */
  ghost predicate AllTake(spec: Spec, nodes: Nodes, want: LeafMap) {
    want.Keys <= nodes.Keys && forall q :: q in nodes ==> TakenAnyhow(spec, q, nodes[q], want)
  }

  /** So does every node at its turn. */
  ghost predicate TakesAlong(repo: Repo, spec: Spec, keys: seq<Path>, nodes: Nodes, want: LeafMap) {
    forall i :: 0 <= i < |keys| && keys[i] in nodes ==>
      TakenAt(DecideAll(repo, spec, keys[..i], nodes).repo, spec, keys[i], nodes[keys[i]], want)
  }

  /** The output paths resolve exactly the paths of `want` among `keys`. */
  ghost predicate Resolves(outs: seq<OutPath>, keys: seq<Path>, want: LeafMap) {
    && DistinctOuts(outs)
    && (forall i :: 0 <= i < |outs| ==> outs[i].path in keys && outs[i].path in want && outs[i] == Resolved(outs[i].path, want[outs[i].path]))
    && (forall k :: k in keys && k in want ==> Resolved(k, want[k]) in outs)
  }

  lemma {:induction false} AllKept(repo: Repo, spec: Spec, keys: seq<Path>, nodes: Nodes, want: LeafMap)
    requires Increasing(keys) && TakesAlong(repo, spec, keys, nodes, want) && forall k :: k in keys ==> k in nodes
    ensures var d := DecideAll(repo, spec, keys, nodes).r;
            d.Ok? && d.value.clean && Resolves(d.value.outs, keys, want)
  {
    hide DecideNode, Resolves, Increasing, TakesAlong;
    if keys == [] {
      NoneResolved(want);
    } else {
      var front, k := keys[..|keys| - 1], keys[|keys| - 1];
      assert keys == front + [k];
      FrontAlong(repo, spec, keys, nodes, want);
      AllKept(repo, spec, front, nodes, want);
      LastAlong(repo, spec, keys, nodes, want);
      OneMoreKey(DecideAll(repo, spec, front, nodes).r.value.outs, front, k, want);
    }
  }

  lemma LastAlong(repo: Repo, spec: Spec, keys: seq<Path>, nodes: Nodes, want: LeafMap)
    requires keys != [] && keys[|keys| - 1] in nodes && TakesAlong(repo, spec, keys, nodes, want)
    ensures TakenAt(DecideAll(repo, spec, keys[..|keys| - 1], nodes).repo, spec, keys[|keys| - 1], nodes[keys[|keys| - 1]], want)
  {
    hide TakenAt, DecideAll;
  }

  lemma NoneResolved(want: LeafMap)
    ensures Resolves([], [], want)
  {
  }

  lemma FrontAlong(repo: Repo, spec: Spec, keys: seq<Path>, nodes: Nodes, want: LeafMap)
    requires keys != [] && Increasing(keys) && TakesAlong(repo, spec, keys, nodes, want)
    ensures Increasing(keys[..|keys| - 1]) && TakesAlong(repo, spec, keys[..|keys| - 1], nodes, want)
  {
    hide TakenAt;
    var front := keys[..|keys| - 1];
    forall i | 0 <= i < |front| && front[i] in nodes
      ensures TakenAt(DecideAll(repo, spec, front[..i], nodes).repo, spec, front[i], nodes[front[i]], want)
    {
      assert front[..i] == keys[..i] && front[i] == keys[i];
    }
  }

  lemma OneMoreKey(outs: seq<OutPath>, keys: seq<Path>, k: Path, want: LeafMap)
    requires Resolves(outs, keys, want) && Increasing(keys + [k])
    ensures Resolves(outs + ResolvedTo(k, Get(want, k)), keys + [k], want)
  {
    var more := outs + ResolvedTo(k, Get(want, k));
    assert forall i :: 0 <= i < |keys| ==> (keys + [k])[i] == keys[i] && Less(keys[i], (keys + [k])[|keys|]);
    assert k !in keys;
    forall j | j in keys + [k] && j in want ensures Resolved(j, want[j]) in more {
      if j == k { assert more[|outs|] == Resolved(k, want[k]); }
    }
  }

  /** A marked node keeps the merge from being clean. */
  lemma {:induction false} OneRefused(repo: Repo, spec: Spec, keys: seq<Path>, nodes: Nodes, q: Path)
    requires q in keys && q in nodes && nodes[q].forced != NotForced
    ensures DecideAll(repo, spec, keys, nodes).r.Ok? ==> !DecideAll(repo, spec, keys, nodes).r.value.clean && !spec.trivialOnly
  {
    if keys[|keys| - 1] != q { OneRefused(repo, spec, keys[..|keys| - 1], nodes, q); }
  }

  /** A clean result whose output paths, and whose tree, hold exactly `want`. */
  ghost predicate Took(tm: TreeMerge, want: LeafMap) {
    && tm.clean && tm.markerTree == None
    && (forall i :: 0 <= i < |tm.paths| ==> tm.paths[i].path in want && tm.paths[i] == Resolved(tm.paths[i].path, want[tm.paths[i].path]))
    && (forall k :: k in want ==> Resolved(k, want[k]) in tm.paths)
    && DistinctOuts(tm.paths) && Canonical(tm.tree) && Files(tm.tree) == want
  }

  ghost predicate IsClean(r: Result<TreeMerge, MergeError>) { r.Ok? && r.value.clean }

  /** When every node resolves to `want`, the merge is clean exactly when nothing clashes, and
      then it is `want`, stored. */
  lemma TakesAll(repo: Repo, spec: Spec, nodes: Nodes, done: Done<TreeMerge>, want: LeafMap)
    requires done == ResultOf(repo, spec, nodes) && AllTake(spec, nodes, want) && LeafyMap(want)
    ensures IsClean(done.r) <==> forall p :: !Clash(nodes, p)
    ensures IsClean(done.r) ==> Took(done.r.value, want) && Whole(done.repo, done.r.value.tree)
  {
    hide DecideAll, DecideNode, AllTake, Settle, KeysOf, Took, LeafyMap, Whole, MadeFor, TreeOf;
    SettleLaw(repo.order, nodes, spec.oursLabel, spec.theirsLabel);
    var settled := Settle(repo.order, nodes, spec.oursLabel, spec.theirsLabel);
    var keys := KeysOf(repo.order, settled);
    KeysOfNodes(repo.order, settled);
    if p :| Clash(nodes, p) {
      var q :| q in settled && settled[q].forced != NotForced;
      OneRefused(repo, spec, keys, settled, q);
    } else {
      TakeAlong(repo, spec, keys, nodes, want);
      KeptTook(repo, spec, keys, nodes, want);
    }
  }

  lemma TakeAlong(repo: Repo, spec: Spec, keys: seq<Path>, nodes: Nodes, want: LeafMap)
    requires AllTake(spec, nodes, want) && forall k :: k in keys <==> k in nodes
    ensures TakesAlong(repo, spec, keys, nodes, want) && forall k :: k in want ==> k in keys
  {
    hide TakenAt;
  }

  /** Nodes that resolve one after the other give the stored tree of `want`. */
  lemma KeptTook(repo: Repo, spec: Spec, keys: seq<Path>, nodes: Nodes, want: LeafMap)
    requires Increasing(keys) && TakesAlong(repo, spec, keys, nodes, want) && (forall k :: k in keys ==> k in nodes) && LeafyMap(want)
    requires forall k :: k in want ==> k in keys
    ensures var done := Concluded(spec, DecideAll(repo, spec, keys, nodes));
            IsClean(done.r) && Took(done.r.value, want) && Whole(done.repo, done.r.value.tree)
  {
    hide TakesAlong, DecideAll, Increasing, Whole, MadeFor, TreeOf;
    AllKept(repo, spec, keys, nodes, want);
    var d := DecideAll(repo, spec, keys, nodes);
    ResolvesDescribes(d.r.value.outs, keys, want);
    TreeOfDescribes(d.r.value.outs, want);
    TreeOfWhole(Stores(d.repo, MadeFor(d.r.value.outs)), d.r.value.outs);
  }

  lemma ResolvesDescribes(outs: seq<OutPath>, keys: seq<Path>, want: LeafMap)
    requires Resolves(outs, keys, want) && forall k :: k in want ==> k in keys
    ensures Describes(outs, want)
  {
  }

  // ---- Nodes when ours did not change ----------------------------------------------------------------

  ghost predicate OursUnchanged(n: Node) {
    n.ours == n.base && !n.oursRenamed && !n.renameRename && n.forced == NotForced
  }

  lemma NoOursRenames(x: Input)
    requires Valid(x) && x.ours == x.base
    ensures x.oRen == map[] && Apart(x)
  {
    assert x.oRen.Keys == {};
    forall p | p in x.tRen ensures x.tRen[p] !in x.ours { RenameEnds(x, p); }
  }

  /** The paths of the nodes: what theirs has, and what it lacks without having renamed it. */
  function UnionPaths(base: LeafMap, theirs: LeafMap, ren: RenameMap): set<Path> {
    theirs.Keys + (base.Keys - ren.Keys)
  }

  lemma NodeWhenOursUnchanged(x: Input, nodes: Nodes, q: Path)
    requires Valid(x) && x.ours == x.base && Aligned(x, nodes) && q in nodes
    ensures OursUnchanged(nodes[q]) && nodes[q].theirs == Get(x.theirs, q) && Live(nodes[q])
    ensures q in UnionPaths(x.base, x.theirs, x.tRen)
  {
    NoOursRenames(x);
    if Reached(x, x.base.Keys, q) {
      var p :| p in x.base.Keys && Reaches(x, p, q);
      FilledOnce(x, p, q, nodes[q]);
      RenameEnds(x, p);
    } else {
      assert q in x.base ==> Uses(x, q, q);
    }
  }

  lemma PathsWhenOursUnchanged(x: Input, nodes: Nodes)
    requires Valid(x) && x.ours == x.base && Aligned(x, nodes)
    ensures nodes.Keys == UnionPaths(x.base, x.theirs, x.tRen)
  {
    hide Filled, Valid, Apart, OfferOurs, Consumed;
    NoOursRenames(x);
    forall q | q in nodes ensures q in UnionPaths(x.base, x.theirs, x.tRen) { NodeWhenOursUnchanged(x, nodes, q); }
    forall q | q in UnionPaths(x.base, x.theirs, x.tRen) ensures q in nodes {
      if q in x.base {
        RenameEnds(x, q);
        assert Reaches(x, q, q);
      } else {
        ApartKeeps(x, nodes);
        assert Home(x, q) == q;
      }
    }
  }

  lemma LiveClash(nodes: Nodes, live: set<Path>)
    requires forall q :: q in live <==> q in nodes && Live(nodes[q])
    ensures (forall p :: !Clash(nodes, p)) <==> PrefixFree(live)
  {
    if p, k :| p in live && k in live && Below(k, p) {
      assert Clash(nodes, p);
    }
  }

  /** Merging with an unchanged side `ours` is clean exactly when its attributes can be read and no
      path of theirs, or of the base unless theirs renamed it away, is a directory of another;
      then the result is theirs. */
  lemma OursUnchangedLaw(repo: Repo, spec: Spec, x: Input, done: Done<TreeMerge>)
    requires MergeOf(repo, spec, x, done) && Valid(x) && x.ours == x.base && LeafyMap(x.theirs)
    ensures IsClean(done.r) <==> LoadAttrs(repo, x.ours).Ok? && PrefixFree(UnionPaths(x.base, x.theirs, x.tRen))
    ensures IsClean(done.r) ==> Took(done.r.value, x.theirs) && Whole(done.repo, done.r.value.tree)
  {
    hide Aligned, Took, Valid, ResultOf, LeafyMap, Clash;
    if LoadAttrs(repo, x.ours).Ok? {
      var spec1 := spec.(attrs := LoadAttrs(repo, x.ours).value);
      var nodes :| Aligned(x, nodes) && done == ResultOf(repo, spec1, nodes);
      PathsWhenOursUnchanged(x, nodes);
      forall q | q in nodes ensures Live(nodes[q]) && TakenAnyhow(spec1, q, nodes[q], x.theirs) {
        NodeWhenOursUnchanged(x, nodes, q);
      }
      TakesAll(repo, spec1, nodes, done, x.theirs);
      LiveClash(nodes, nodes.Keys);
    }
  }

  /** The same with the sides exchanged. */
  lemma TheirsUnchangedLaw(repo: Repo, spec: Spec, x: Input, done: Done<TreeMerge>)
    requires MergeOf(repo, spec, x, done) && Valid(x) && x.theirs == x.base && LeafyMap(x.ours)
    ensures IsClean(done.r) <==> LoadAttrs(repo, x.ours).Ok? && PrefixFree(UnionPaths(x.base, x.ours, x.oRen))
    ensures IsClean(done.r) ==> Took(done.r.value, x.ours) && Whole(done.repo, done.r.value.tree)
  {
    hide Aligned, Took, Valid, ResultOf, LeafyMap, Clash;
    if LoadAttrs(repo, x.ours).Ok? {
      var spec1 := spec.(attrs := LoadAttrs(repo, x.ours).value);
      var nodes :| Aligned(x, nodes) && done == ResultOf(repo, spec1, nodes);
      TheirsUnchangedTakes(spec1, x, nodes);
      TakesAll(repo, spec1, nodes, done, x.ours);
      LiveClash(nodes, nodes.Keys);
    }
  }

  lemma TheirsUnchangedTakes(spec: Spec, x: Input, nodes: Nodes)
    requires Valid(x) && x.theirs == x.base && Aligned(x, nodes)
    ensures AllTake(spec, nodes, x.ours) && nodes.Keys == UnionPaths(x.base, x.ours, x.oRen) && forall q :: q in nodes ==> Live(nodes[q])
  {
    hide Aligned, Valid;
    var f := FlipNodes(nodes);
    FlipValid(x);
    AlignFlip(x, nodes);
    PathsWhenOursUnchanged(Flip(x), f);
    forall q | q in nodes ensures Live(nodes[q]) && TakenAnyhow(spec, q, nodes[q], x.ours) {
      NodeWhenOursUnchanged(Flip(x), f, q);
      assert f[q] == FlipNode(nodes[q]);
    }
    assert nodes.Keys == f.Keys;
  }

  // ---- Both sides made the same change -------------------------------------------------------------------

  lemma NodeWhenSame(x: Input, nodes: Nodes, q: Path)
    requires Valid(x) && x.ours == x.theirs && x.oRen == x.tRen && Aligned(x, nodes) && q in nodes
    ensures nodes[q].ours == nodes[q].theirs == Get(x.ours, q) && !nodes[q].renameRename && nodes[q].forced == NotForced
  {
    if Reached(x, x.base.Keys, q) {
      var p :| p in x.base.Keys && Reaches(x, p, q);
      FilledOnce(x, p, q, nodes[q]);
      RenameEnds(x, p);
    }
  }

  lemma PathsWhenSame(x: Input, nodes: Nodes)
    requires Valid(x) && x.ours == x.theirs && x.oRen == x.tRen && Aligned(x, nodes)
    ensures forall q :: q in x.ours ==> q in nodes
  {
  }

  /** When both sides are the same tree and agree on the renames, the merge is clean exactly
      when its attributes can be read and no path of that tree is a directory of another, and
      gives that tree. */
  lemma SameChangeLaw(repo: Repo, spec: Spec, x: Input, done: Done<TreeMerge>)
    requires MergeOf(repo, spec, x, done) && Valid(x) && x.ours == x.theirs && x.oRen == x.tRen && LeafyMap(x.ours)
    ensures IsClean(done.r) <==> LoadAttrs(repo, x.ours).Ok? && PrefixFree(x.ours.Keys)
    ensures IsClean(done.r) ==> Took(done.r.value, x.ours) && Whole(done.repo, done.r.value.tree)
  {
    hide Aligned, Took, Valid, ResultOf, LeafyMap, Clash;
    if LoadAttrs(repo, x.ours).Ok? {
      var spec1 := spec.(attrs := LoadAttrs(repo, x.ours).value);
      var nodes :| Aligned(x, nodes) && done == ResultOf(repo, spec1, nodes);
      PathsWhenSame(x, nodes);
      forall q | q in nodes ensures (Live(nodes[q]) <==> q in x.ours) && TakenAnyhow(spec1, q, nodes[q], x.ours) {
        NodeWhenSame(x, nodes, q);
      }
      TakesAll(repo, spec1, nodes, done, x.ours);
      LiveClash(nodes, x.ours.Keys);
    }
  }

  /** Rename maps that detection finds are valid. */
  lemma FoundValid(repo: Repo, spec: Spec, x: Input)
    requires RenamesFound(repo, spec, x)
    ensures Valid(x)
  {
  }

  /** Detection agrees with itself when no two similar pairs tie. */
  lemma SameRenames(repo: Repo, spec: Spec, x: Input)
    requires RenamesFound(repo, spec, x) && x.ours == x.theirs
    requires spec.renames ==> DistinctScores(repo, spec.renameThreshold, Gone(x.base, x.ours), Gone(x.ours, x.base))
    ensures x.oRen == x.tRen
  {
    if spec.renames {
      OneOutcome(repo, spec.renameThreshold, Gone(x.base, x.ours), Gone(x.ours, x.base), x.oRen, x.tRen);
    }
  }

  /** At the level of objects: a clean result that took a canonical tree is that very tree. */
  lemma SameTree(tm: TreeMerge, h: Hash)
    requires Canonical(h) && Took(tm, Files(h))
    ensures tm.tree == h
  {
    WalkThenStore(tm.tree, h);
  }

  lemma {:induction false} FilesLeafy(h: Hash, n: nat, prefix: string)
    requires h.Tree? && n <= |h.entries|
    ensures LeafyMap(FilesUpTo(h, n, prefix))
    decreases h, n
  {
    if n > 0 {
      FilesLeafy(h, n - 1, prefix);
      var e := h.entries[n - 1];
      if e.mode == DIR && e.hash.Tree? { FilesLeafy(e.hash, |e.hash.entries|, prefix + e.name + "/"); }
    }
  }

  // ---- What the code drops ----------------------------------------------------------------------------------

  const X := Leaf(REGULAR, Blob("x"))
  const Y := Leaf(REGULAR, Blob("y"))

  /** Ours renamed `a` to `b`; theirs kept `a` and added its own `b`. */
  const Clobbered := Input(map["a" := X], map["b" := X], map["a" := X, "b" := Y], map["a" := "b"], map[])

  /** Detection finds that rename and no other. */
  lemma ClobberFound(repo: Repo, spec: Spec, x: Input)
    requires RenamesFound(repo, spec, x) && spec.renames && x.base == Clobbered.base && x.ours == Clobbered.ours && x.theirs == Clobbered.theirs
    ensures x == Clobbered
  {
    hide Similar, Blocked, WithinLimits;
    var dels, adds := Gone(x.base, x.ours), Gone(x.ours, x.base);
    assert dels == map["a" := X] && adds == map["b" := X];
    assert ExactPair(dels, adds, "a", "b");
    assert x.oRen == map["a" := "b"];
    assert Gone(x.base, x.theirs) == map[];
    assert x.tRen == map[];
  }

  /** With renames on, such a merge is clean and keeps no trace of theirs' own `b`. */
  lemma DropsAddedFile(repo: Repo, spec: Spec, x: Input, done: Done<TreeMerge>)
    requires MergeOf(repo, spec, x, done) && spec.renames
    requires x.base == Clobbered.base && x.ours == Clobbered.ours && x.theirs == Clobbered.theirs
    ensures IsClean(done.r) && Took(done.r.value, map["b" := X]) && Y !in Files(done.r.value.tree).Values
  {
    hide ResultOf, Took, Aligned, Detected;
    ClobberFound(repo, spec, x);
    var spec1 := spec.(attrs := LoadAttrs(repo, x.ours).value);
    var nodes :| Aligned(x, nodes) && done == ResultOf(repo, spec1, nodes);
    ClobberResult(repo, spec1, nodes, done);
  }

  lemma ClobberResult(repo: Repo, spec: Spec, nodes: Nodes, done: Done<TreeMerge>)
    requires Aligned(Clobbered, nodes) && done == ResultOf(repo, spec, nodes)
    ensures IsClean(done.r) && Took(done.r.value, map["b" := X]) && Y !in Files(done.r.value.tree).Values
  {
    hide ResultOf, Took, Clash, AllTake, Aligned;
    ClobberNode(nodes);
    var want := map["b" := X];
    forall p ensures !Clash(nodes, p) { NoClash(nodes, "b", p); }
    TakesAll(repo, spec, nodes, done, want);
    TookFiles(done.r.value, want);
  }

  lemma TookFiles(tm: TreeMerge, want: LeafMap)
    requires Took(tm, want)
    ensures Files(tm.tree) == want
  {
  }

  lemma NoClash(nodes: Nodes, q: Path, p: Path)
    requires nodes.Keys == {q}
    ensures !Clash(nodes, p)
  {
  }

  lemma ClobberNode(nodes: Nodes)
    requires Aligned(Clobbered, nodes)
    ensures nodes.Keys == {"b"} && nodes["b"].ours == nodes["b"].theirs == Some(X)
    ensures forall spec :: AllTake(spec, nodes, map["b" := X])
  {
    var x := Clobbered;
    assert Reaches(x, "a", "b");
    forall q ensures q in nodes <==> q == "b" {
      assert Uses(x, "a", "b") && Uses(x, "a", "a");
      if Reached(x, x.base.Keys, q) {
        var p :| p in x.base.Keys && Reaches(x, p, q);
      }
    }
    assert nodes["b"].ours == nodes["b"].theirs == Some(X) by {
      assert OfferOurs(x, "a", "b") == Some(X) && OfferTheirs(x, "a", "b") == Some(X);
    }
  }

  // ---- Every clean merge is a three-way merge per path ----------------------------------------

  /** Of two submodule commits one descends from the other, and that one is taken. */
  ghost predicate Descends(repo: Repo, o: Leaf, t: Leaf, out: Leaf) {
    || (repo.ancestor(o.hash, t.hash) == Some(true) && out == t)
    || (repo.ancestor(o.hash, t.hash) == Some(false) && repo.ancestor(t.hash, o.hash) == Some(true) && out == o)
  }

  /** The mode both sides have, or the one that differs from the base. */
  predicate CommonMode(base: Option<Leaf>, o: Leaf, t: Leaf, mode: nat) {
    if o.mode == t.mode then mode == o.mode
    else base.Some? && (o.mode == base.value.mode || t.mode == base.value.mode)
         && mode == if o.mode == base.value.mode then t.mode else o.mode
  }

  function Bytes(leaf: Option<Leaf>): string { if leaf.Some? && leaf.value.hash.Blob? then leaf.value.hash.bytes else "" }

  /** The text merge of the three contents, of which none is binary, is clean and is the result. */
  ghost predicate Merged(repo: Repo, spec: Spec, q: Path, base: Option<Leaf>, o: Leaf, t: Leaf, out: Leaf) {
    var b, x, y := Bytes(base), Bytes(Some(o)), Bytes(Some(t));
    && o.hash == Blob(x) && t.hash == Blob(y) && (base.Some? ==> base.value.hash == Blob(b))
    && !IsBinary(b) && !IsBinary(x) && !IsBinary(y) && !repo.nonText(spec.attrs, q)
    && repo.mergeText(b, x, y).clean && out.hash == Blob(repo.mergeText(b, x, y).bytes) && CommonMode(base, o, t, out.mode)
  }

  /** What two different changes of one path are combined into. */
  ghost predicate Reconciles(repo: Repo, spec: Spec, q: Path, base: Option<Leaf>, o: Leaf, t: Leaf, out: Leaf) {
    if o.mode == SUBMODULE && t.mode == SUBMODULE then Descends(repo, o, t, out)
    else KindOf(o.mode) == KindOf(t.mode) == Text && Merged(repo, spec, q, base, o, t, out)
  }

  /** A side that did not change yields to the other; two different changes are combined. */
  ghost predicate ThreeWay(repo: Repo, spec: Spec, q: Path, n: Node, out: Option<Leaf>) {
    && n.forced == NotForced && !n.renameRename
    && (n.ours == n.theirs ==> out == n.ours)
    && (n.ours == n.base && n.ours != n.theirs ==> out == n.theirs && !(n.oursRenamed && n.theirs.None?))
    && (n.theirs == n.base && n.ours != n.theirs ==> out == n.ours && !(n.theirsRenamed && n.ours.None?))
    && (n.ours != n.base && n.theirs != n.base && n.ours != n.theirs ==>
          n.ours.Some? && n.theirs.Some? && out.Some? && Reconciles(repo, spec, q, n.base, n.ours.value, n.theirs.value, out.value))
  }

  ghost predicate LeafyNode(n: Node) {
    LeafyLeaf(n.base) && LeafyLeaf(n.ours) && LeafyLeaf(n.theirs)
  }

  /** A clean decision is a three-way take. */
  lemma CleanNode(repo: Repo, spec: Spec, q: Path, n: Node) returns (out: Option<Leaf>)
    requires DecideNode(repo, spec, q, n).Ok? && DecideNode(repo, spec, q, n).value.clean
    ensures DecideNode(repo, spec, q, n).value.outs == ResolvedTo(q, out) && ThreeWay(repo, spec, q, n, out)
    ensures LeafyNode(n) && out.Some? ==> out.value.mode != DIR
  {
    var d := DecideNode(repo, spec, q, n).value;
    out := if n.ours == n.theirs then n.ours
           else if n.ours == n.base then n.theirs
           else if n.theirs == n.base then n.ours
           else d.outs[0].resolved;
    if n.ours.Some? && n.theirs.Some? && n.ours != n.theirs && n.ours != n.base && n.theirs != n.base {
      CleanBoth(repo, spec, q, n.base, n.ours.value, n.theirs.value, d);
    }
  }

  lemma CleanBoth(repo: Repo, spec: Spec, q: Path, base: Option<Leaf>, o: Leaf, t: Leaf, d: Decision)
    requires DecideBoth(repo, spec, q, base, o, t) == Ok(d) && d.clean
    ensures |d.outs| == 1 && d.outs[0].resolved.Some?
    ensures var out := d.outs[0].resolved.value; Reconciles(repo, spec, q, base, o, t, out) && d.outs == [Resolved(q, out)]
    ensures o.mode != DIR && t.mode != DIR ==> d.outs[0].resolved.value.mode != DIR
  {
    hide IsBinary;
  }

  lemma SameCombination(repo: Repo, more: Repo, spec: Spec, q: Path, n: Node, out: Option<Leaf>)
    requires Extends(repo, more) && ThreeWay(more, spec, q, n, out)
    ensures ThreeWay(repo, spec, q, n, out)
  {
    hide IsBinary, KindOf, CommonMode;
  }

  /** A decision that was possible gives the same when more is stored. */
  lemma DecideMore(repo: Repo, more: Repo, spec: Spec, q: Path, n: Node)
    requires Extends(repo, more) && DecideNode(repo, spec, q, n).Ok?
    ensures DecideNode(more, spec, q, n) == DecideNode(repo, spec, q, n)
  {
    hide IsBinary, PickMode, KindOf;
    forall h | BlobBytes(repo, h).Some? ensures BlobBytes(more, h) == BlobBytes(repo, h) {}
  }

  /** In a clean merge every decision is as if made at the end. */
  lemma {:induction false} CleanEach(repo: Repo, spec: Spec, keys: seq<Path>, nodes: Nodes, i: nat)
    requires DecideAll(repo, spec, keys, nodes).r.Ok? && DecideAll(repo, spec, keys, nodes).r.value.clean && i < |keys| && keys[i] in nodes
    ensures var at, end := DecideAll(repo, spec, keys[..i], nodes).repo, DecideAll(repo, spec, keys, nodes).repo;
            var d := DecideNode(end, spec, keys[i], nodes[keys[i]]);
            d.Ok? && d.value.clean && DecideNode(at, spec, keys[i], nodes[keys[i]]) == d && Extends(at, end)
  {
    hide DecideNode;
    var front, k := keys[..|keys| - 1], keys[|keys| - 1];
    var before := DecideAll(repo, spec, front, nodes);
    if i == |keys| - 1 {
      assert keys[..i] == front;
      DecideMore(before.repo, DecideAll(repo, spec, keys, nodes).repo, spec, k, nodes[k]);
    } else {
      CleanEach(repo, spec, front, nodes, i);
      assert front[..i] == keys[..i] && front[i] == keys[i];
      DecideMore(before.repo, DecideAll(repo, spec, keys, nodes).repo, spec, keys[i], nodes[keys[i]]);
    }
  }

  ghost function OutcomeAt(repo: Repo, spec: Spec, nodes: Nodes, q: Path): Option<Leaf>
    requires q in nodes
  {
    match DecideNode(repo, spec, q, nodes[q])
    case Ok(d) => if d.outs == [] then None else d.outs[0].resolved
    case Err(_) => None
  }

  ghost function Outcomes(repo: Repo, spec: Spec, nodes: Nodes): LeafMap {
    map q | q in nodes && OutcomeAt(repo, spec, nodes, q).Some? :: OutcomeAt(repo, spec, nodes, q).value
  }

  ghost predicate LeafyInput(x: Input) { LeafyMap(x.base) && LeafyMap(x.ours) && LeafyMap(x.theirs) }

  lemma NodesLeafy(x: Input, nodes: Nodes, q: Path)
    requires LeafyInput(x) && Aligned(x, nodes) && q in nodes
    ensures LeafyNode(nodes[q])
  {
    hide Filled, Reaches;
    if Reached(x, x.base.Keys, q) {
      FilledLeafy(x, q, nodes[q]);
    }
  }

  lemma FilledLeafy(x: Input, q: Path, n: Node)
    requires LeafyInput(x) && Filled(x, x.base.Keys, q, n)
    ensures LeafyNode(n)
  {
    hide OfferBase, OfferOurs, OfferTheirs, LeafyInput;
    forall p ensures LeafyLeaf(OfferBase(x, p, q)) && LeafyLeaf(OfferOurs(x, p, q)) && LeafyLeaf(OfferTheirs(x, p, q)) {
      OffersLeafy(x, p, q);
    }
    SlotLeafy(n.base, p => OfferBase(x, p, q), x.base.Keys);
    SlotLeafy(n.ours, p => OfferOurs(x, p, q), x.base.Keys);
    SlotLeafy(n.theirs, p => OfferTheirs(x, p, q), x.base.Keys);
  }

  ghost predicate LeafyLeaf(v: Option<Leaf>) { v.Some? ==> v.value.mode != DIR }

  lemma OffersLeafy(x: Input, p: Path, q: Path)
    requires LeafyInput(x)
    ensures LeafyLeaf(OfferBase(x, p, q)) && LeafyLeaf(OfferOurs(x, p, q)) && LeafyLeaf(OfferTheirs(x, p, q))
  {
  }

  lemma SlotLeafy(v: Option<Leaf>, offer: Path -> Option<Leaf>, done: set<Path>)
    requires Slot(v, offer, done) && forall p :: p in done ==> LeafyLeaf(offer(p))
    ensures LeafyLeaf(v)
  {
  }

  /** A clean merge had no clash and took a three-way result at every node. */
  ghost predicate CleanBy(repo: Repo, spec: Spec, x: Input, nodes: Nodes, want: LeafMap) {
    && Aligned(x, nodes) && (forall p :: !Clash(nodes, p)) && want.Keys <= nodes.Keys
    && forall q :: q in nodes ==> ThreeWay(repo, spec, q, nodes[q], Get(want, q))
  }

  lemma CleanMerge(repo: Repo, spec: Spec, x: Input, done: Done<TreeMerge>) returns (nodes: Nodes, want: LeafMap)
    requires MergeOf(repo, spec, x, done) && IsClean(done.r) && LeafyInput(x)
    ensures LoadAttrs(repo, x.ours).Ok? && CleanBy(repo, spec.(attrs := LoadAttrs(repo, x.ours).value), x, nodes, want)
    ensures Took(done.r.value, want) && Whole(done.repo, done.r.value.tree)
  {
    hide Aligned, Took, DecideAll, DecideNode, ThreeWay, LeafyInput, Settle, KeysOf, Clash, MadeFor, TreeOf, Whole;
    var spec1 := spec.(attrs := LoadAttrs(repo, x.ours).value);
    nodes :| Aligned(x, nodes) && done == ResultOf(repo, spec1, nodes);
    SettleLaw(repo.order, nodes, spec.oursLabel, spec.theirsLabel);
    var settled := Settle(repo.order, nodes, spec.oursLabel, spec.theirsLabel);
    var keys := KeysOf(repo.order, settled);
    KeysOfNodes(repo.order, settled);
    if p :| Clash(nodes, p) {
      var q :| q in settled && settled[q].forced != NotForced;
      OneRefused(repo, spec1, keys, settled, q);
    }
    want := Outcomes(DecideAll(repo, spec1, keys, nodes).repo, spec1, nodes);
    forall q | q in nodes ensures LeafyNode(nodes[q]) { NodesLeafy(x, nodes, q); }
    CleanTakes(repo, spec1, keys, nodes);
    KeptTook(repo, spec1, keys, nodes, want);
  }

  /** In a clean merge every node takes its outcome. */
  lemma CleanTakes(repo: Repo, spec: Spec, keys: seq<Path>, nodes: Nodes)
    requires DecideAll(repo, spec, keys, nodes).r.Ok? && DecideAll(repo, spec, keys, nodes).r.value.clean
    requires (forall k :: k in keys <==> k in nodes) && forall q :: q in nodes ==> LeafyNode(nodes[q])
    ensures var want := Outcomes(DecideAll(repo, spec, keys, nodes).repo, spec, nodes);
            && TakesAlong(repo, spec, keys, nodes, want) && LeafyMap(want) && want.Keys <= nodes.Keys
            && forall q :: q in nodes ==> ThreeWay(repo, spec, q, nodes[q], Get(want, q))
  {
    hide DecideNode, DecideAll, ThreeWay, LeafyNode;
    var end := DecideAll(repo, spec, keys, nodes).repo;
    var want := Outcomes(end, spec, nodes);
    DecideExtends(repo, spec, keys, nodes);
    forall i | 0 <= i < |keys|
      ensures TakenAt(DecideAll(repo, spec, keys[..i], nodes).repo, spec, keys[i], nodes[keys[i]], want)
      ensures ThreeWay(repo, spec, keys[i], nodes[keys[i]], Get(want, keys[i])) && (keys[i] in want ==> want[keys[i]].mode != DIR)
    {
      assert keys[i] in keys;
      CleanEach(repo, spec, keys, nodes, i);
      var out := CleanNode(end, spec, keys[i], nodes[keys[i]]);
      SameCombination(repo, end, spec, keys[i], nodes[keys[i]], out);
    }
    forall q | q in nodes ensures ThreeWay(repo, spec, q, nodes[q], Get(want, q)) && (q in want ==> want[q].mode != DIR) {
      assert q in keys;
    }
  }

  // ---- From tree to tree -------------------------------------------------------------------------

  /** The merge of three tree objects. */
  ghost function MergedTrees(repo: Repo, spec: Spec, base: Hash, ours: Hash, theirs: Hash): Done<TreeMerge> {
    if !Readable(repo, base) || !Readable(repo, ours) || !Readable(repo, theirs) then Done(Err(ObjectNotFound), repo)
    else MergedMaps(repo, spec, Files(base), Files(ours), Files(theirs))
  }

  method MergeTrees(repo: Repo, spec: Spec, baseTree: Hash, oursTree: Hash, theirsTree: Hash)
    returns (r: Result<TreeMerge, MergeError>, after: Repo)
    ensures Done(r, after) == MergedTrees(repo, spec, baseTree, oursTree, theirsTree)
  {
    hide MergedMaps;
    after := repo;
    var base := WalkTree(repo, baseTree);
    if base.Err? { return Err(base.error), after; }
    var ours := WalkTree(repo, oursTree);
    if ours.Err? { return Err(ours.error), after; }
    var theirs := WalkTree(repo, theirsTree);
    if theirs.Err? { return Err(theirs.error), after; }
    r, after := MergeMaps(repo, spec, base.value, ours.value, theirs.value);
  }

  lemma MergedExtends(repo: Repo, spec: Spec, base: Hash, ours: Hash, theirs: Hash)
    ensures Extends(repo, MergedTrees(repo, spec, base, ours, theirs).repo)
  {
    hide DecideAll, Settle, KeysOf, AlignOf, InputOf, MadeFor, TreeOf;
    if Readable(repo, base) && Readable(repo, ours) && Readable(repo, theirs) && LoadAttrs(repo, Files(ours)).Ok? {
      var spec1 := spec.(attrs := LoadAttrs(repo, Files(ours)).value);
      var settled := Settle(repo.order, AlignOf(repo.order, TreesInput(repo, spec, base, ours, theirs)), spec.oursLabel, spec.theirsLabel);
      DecideExtends(repo, spec1, KeysOf(repo.order, settled), settled);
    }
  }

  /** What was readable stays readable. */
  lemma ReadableMore(repo: Repo, more: Repo, h: Hash)
    requires Extends(repo, more)
    ensures Readable(repo, h) ==> Readable(more, h)
    ensures forall m :: LoadAttrs(repo, m).Ok? ==> LoadAttrs(more, m).Ok?
  {
    if Whole(repo, h) { WholeMore(repo, more, h, |h.entries|); }
  }

  /** The maps of three trees with the renames found between them. */
  ghost function TreesInput(repo: Repo, spec: Spec, base: Hash, ours: Hash, theirs: Hash): Input {
    InputOf(repo, spec, Files(base), Files(ours), Files(theirs))
  }

  /** What the laws about merged maps need. */
  lemma TreesMerge(repo: Repo, spec: Spec, base: Hash, ours: Hash, theirs: Hash)
    requires Readable(repo, base) && Readable(repo, ours) && Readable(repo, theirs)
    ensures var x := TreesInput(repo, spec, base, ours, theirs);
            && x.base == Files(base) && x.ours == Files(ours) && x.theirs == Files(theirs)
            && LeafyInput(x) && Valid(x) && MergeOf(repo, spec, x, MergedTrees(repo, spec, base, ours, theirs))
  {
    hide MergeOf, Valid, LeafyMap, MergedMaps;
    MergedIsMerge(repo, spec, Files(base), Files(ours), Files(theirs));
    MergeOfValid(repo, spec, TreesInput(repo, spec, base, ours, theirs), MergedTrees(repo, spec, base, ours, theirs));
    TreeLeafy(base);
    TreeLeafy(ours);
    TreeLeafy(theirs);
  }

  predicate Readable(repo: Repo, h: Hash) { h.Zero? || Whole(repo, h) }

  lemma MergeOfValid(repo: Repo, spec: Spec, x: Input, done: Done<TreeMerge>)
    requires MergeOf(repo, spec, x, done)
    ensures Valid(x)
  {
    FoundValid(repo, spec, x);
  }

  lemma TreeLeafy(h: Hash)
    ensures LeafyMap(Files(h))
  {
    if h.Tree? { FilesLeafy(h, |h.entries|, ""); }
  }

  /** Merging from an unchanged tree gives the incoming tree itself, the same object, whether
      or not renames are looked for, unless a path is a directory of another. */
  lemma UnchangedTree(repo: Repo, spec: Spec, base: Hash, ours: Hash, theirs: Hash)
    requires Readable(repo, base) && Readable(repo, ours) && Readable(repo, theirs)
    requires Files(ours) == Files(base) && Canonical(theirs)
    ensures var done, x := MergedTrees(repo, spec, base, ours, theirs), TreesInput(repo, spec, base, ours, theirs);
            && (IsClean(done.r) <==> LoadAttrs(repo, Files(ours)).Ok? && PrefixFree(UnionPaths(Files(base), Files(theirs), x.tRen)))
            && (IsClean(done.r) ==> done.r.value.tree == theirs && Took(done.r.value, Files(theirs)))
  {
    hide MergeOf, Valid, Canonical, MergedTrees, Took;
    var done, x := MergedTrees(repo, spec, base, ours, theirs), TreesInput(repo, spec, base, ours, theirs);
    TreesMerge(repo, spec, base, ours, theirs);
    OursUnchangedLaw(repo, spec, x, done);
    if IsClean(done.r) { SameTree(done.r.value, theirs); }
  }

  /** Merging a tree with itself, from any base, gives that tree. */
  lemma SelfMerge(repo: Repo, spec: Spec, base: Hash, tree: Hash)
    requires Readable(repo, base) && Readable(repo, tree) && Canonical(tree)
    ensures var done := MergedTrees(repo, spec, base, tree, tree);
            && (IsClean(done.r) <==> LoadAttrs(repo, Files(tree)).Ok? && PrefixFree(Files(tree).Keys))
            && (IsClean(done.r) ==> done.r.value.tree == tree && Took(done.r.value, Files(tree)))
  {
    hide MergeOf, Valid, Canonical, MergedTrees, Took;
    TreesMerge(repo, spec, base, tree, tree);
    SameChangeLaw(repo, spec, TreesInput(repo, spec, base, tree, tree), MergedTrees(repo, spec, base, tree, tree));
    if IsClean(MergedTrees(repo, spec, base, tree, tree).r) { SameTree(MergedTrees(repo, spec, base, tree, tree).r.value, tree); }
  }
}
