/** Folding several heads into one tree by trivial takes. */
module Octopus {
  import opened Wrappers
  import opened Sorting
  import opened Leaves
  import opened Renames
  import opened Align
  import opened Trees
  import opened Decide
  import opened Engine
  import opened MergeLaws

  // ---- One step: no renames, trivial takes only ---------------------------------------------------

  ghost predicate Plain(spec: Spec) { spec.trivialOnly && !spec.renames }

  predicate Trivial(b: Option<Leaf>, o: Option<Leaf>, t: Option<Leaf>) { o == t || o == b || t == b }

  function Take(b: Option<Leaf>, o: Option<Leaf>, t: Option<Leaf>): Option<Leaf> { if o == t || t == b then o else t }

  ghost predicate AllTrivial(base: LeafMap, ours: LeafMap, theirs: LeafMap) {
    forall q :: Trivial(Get(base, q), Get(ours, q), Get(theirs, q))
  }

  function TakeAll(base: LeafMap, ours: LeafMap, theirs: LeafMap): LeafMap {
    map q | q in ours.Keys + theirs.Keys && Take(Get(base, q), Get(ours, q), Get(theirs, q)).Some? ::
      Take(Get(base, q), Get(ours, q), Get(theirs, q)).value
  }

  lemma PlainNode(x: Input, nodes: Nodes, q: Path)
    requires x.oRen == x.tRen == map[] && Aligned(x, nodes) && q in nodes
    ensures nodes[q] == Node(Get(x.base, q), Get(x.ours, q), Get(x.theirs, q), false, false, false, NotForced)
  {
    hide Filled, Consumed, Fill;
    if q in x.base { assert Reaches(x, q, q); }
    if Reached(x, x.base.Keys, q) {
      var p :| p in x.base.Keys && Reaches(x, p, q);
      FilledOnce(x, p, q, nodes[q]);
      PlainFill(x, q);
    }
  }

  lemma PlainFill(x: Input, q: Path)
    requires x.oRen == x.tRen == map[]
    ensures Fill(x, q, q, Blank) == Node(Get(x.base, q), Get(x.ours, q), Get(x.theirs, q), false, false, false, NotForced)
  {
  }

  lemma TrivialNode(spec: Spec, q: Path, n: Node)
    requires n == Node(n.base, n.ours, n.theirs, false, false, false, NotForced) && Trivial(n.base, n.ours, n.theirs)
    ensures forall repo :: DecideNode(repo, spec, q, n) == Kept(ResolvedTo(q, Take(n.base, n.ours, n.theirs)))
  {
  }

  lemma PlainKeys(x: Input, nodes: Nodes)
    requires x.oRen == x.tRen == map[] && Aligned(x, nodes)
    ensures nodes.Keys == x.base.Keys + x.ours.Keys + x.theirs.Keys
  {
    hide Filled;
    forall q | q in nodes ensures q in x.base.Keys + x.ours.Keys + x.theirs.Keys {
      if Reached(x, x.base.Keys, q) { var p :| p in x.base.Keys && Reaches(x, p, q); }
    }
    forall q | q in x.base.Keys + x.ours.Keys + x.theirs.Keys ensures q in nodes {
      if q in x.base {
        assert Reaches(x, q, q);
      } else {
        assert forall p :: p in x.base.Keys ==> !Uses(x, p, q);
      }
    }
  }

  /** One step succeeds exactly when our attributes can be read, every path is a trivial take and
      no path of either side is a directory of another; it gives the takes. */
  lemma StepLaw(repo: Repo, spec: Spec, x: Input, done: Done<TreeMerge>)
    requires MergeOf(repo, spec, x, done) && Plain(spec) && LeafyInput(x)
    ensures done.r.Ok? <==> LoadAttrs(repo, x.ours).Ok? && AllTrivial(x.base, x.ours, x.theirs) && PrefixFree(x.ours.Keys + x.theirs.Keys)
    ensures done.r.Ok? ==> Took(done.r.value, TakeAll(x.base, x.ours, x.theirs)) && Whole(done.repo, done.r.value.tree)
    ensures done.r.Err? && LoadAttrs(repo, x.ours).Ok? ==> done.r.error == OctopusConflict
  {
    hide Aligned, Took, DecideAll, DecideNode, ResultOf, LeafyInput, AllTrivial, Whole, PrefixFree, Clash;
    if LoadAttrs(repo, x.ours).Ok? {
      var spec1 := spec.(attrs := LoadAttrs(repo, x.ours).value);
      var nodes :| Aligned(x, nodes) && done == ResultOf(repo, spec1, nodes);
      PlainKeys(x, nodes);
      var live := x.ours.Keys + x.theirs.Keys;
      forall q | q in nodes ensures Live(nodes[q]) <==> q in live { PlainNode(x, nodes, q); }
      LiveClash(nodes, live);
      PlainResult(repo, spec1, nodes, done);
      if AllTrivial(x.base, x.ours, x.theirs) {
        TrivialTakes(spec1, x, nodes);
        TakesAll(repo, spec1, nodes, done, TakeAll(x.base, x.ours, x.theirs));
      } else {
        var q := SomeNotTrivial(x);
        PlainNode(x, nodes, q);
        if forall p :: !Clash(nodes, p) { RefusedAt(repo, spec1, nodes, done, q); }
      }
    }
  }

  /** Where every path is a trivial take, any merge without renames is clean and gives the takes. */
  lemma TrivialMerge(repo: Repo, spec: Spec, x: Input, done: Done<TreeMerge>)
    requires MergeOf(repo, spec, x, done) && x.oRen == x.tRen == map[] && LeafyInput(x) && LoadAttrs(repo, x.ours).Ok?
    requires AllTrivial(x.base, x.ours, x.theirs) && PrefixFree(x.ours.Keys + x.theirs.Keys)
    ensures done.r.Ok? && Took(done.r.value, TakeAll(x.base, x.ours, x.theirs)) && Whole(done.repo, done.r.value.tree)
  {
    hide Aligned, Took, DecideAll, DecideNode, ResultOf, LeafyInput, AllTrivial, Whole, PrefixFree, Clash;
    var spec1 := spec.(attrs := LoadAttrs(repo, x.ours).value);
    var nodes :| Aligned(x, nodes) && done == ResultOf(repo, spec1, nodes);
    PlainKeys(x, nodes);
    var live := x.ours.Keys + x.theirs.Keys;
    forall q | q in nodes ensures Live(nodes[q]) <==> q in live { PlainNode(x, nodes, q); }
    LiveClash(nodes, live);
    TrivialTakes(spec1, x, nodes);
    TakesAll(repo, spec1, nodes, done, TakeAll(x.base, x.ours, x.theirs));
  }

  lemma SomeNotTrivial(x: Input) returns (q: Path)
    requires !AllTrivial(x.base, x.ours, x.theirs)
    ensures !Trivial(Get(x.base, q), Get(x.ours, q), Get(x.theirs, q)) && q in x.base.Keys + x.ours.Keys + x.theirs.Keys
  {
    q :| !Trivial(Get(x.base, q), Get(x.ours, q), Get(x.theirs, q));
  }

  /** Results of trivial merging: refused, or clean and without a clash. */
  lemma PlainResult(repo: Repo, spec: Spec, nodes: Nodes, done: Done<TreeMerge>)
    requires done == ResultOf(repo, spec, nodes) && spec.trivialOnly
    ensures if done.r.Err? then done.r.error == OctopusConflict else done.r.value.clean && forall p :: !Clash(nodes, p)
  {
    hide DecideAll, DecideNode, Settle, KeysOf, Clash;
    SettleLaw(repo.order, nodes, spec.oursLabel, spec.theirsLabel);
    var settled := Settle(repo.order, nodes, spec.oursLabel, spec.theirsLabel);
    var keys := KeysOf(repo.order, settled);
    KeysOfNodes(repo.order, settled);
    PlainErr(repo, spec, keys, settled);
    if p :| Clash(nodes, p) {
      var q :| q in settled && settled[q].forced != NotForced;
      OneRefused(repo, spec, keys, settled, q);
    }
  }

  lemma RefusedAt(repo: Repo, spec: Spec, nodes: Nodes, done: Done<TreeMerge>, q: Path)
    requires done == ResultOf(repo, spec, nodes) && spec.trivialOnly && (forall p :: !Clash(nodes, p))
    requires q in nodes && !Trivial(nodes[q].base, nodes[q].ours, nodes[q].theirs)
    ensures done.r.Err?
  {
    hide DecideAll, DecideNode, Settle, KeysOf, Clash;
    SettleLaw(repo.order, nodes, spec.oursLabel, spec.theirsLabel);
    var keys := KeysOf(repo.order, nodes);
    KeysOfNodes(repo.order, nodes);
    ErrAt(repo, spec, keys, nodes, q);
  }

  /** Trivial takes either resolve or refuse. */
  lemma {:induction false} PlainErr(repo: Repo, spec: Spec, keys: seq<Path>, nodes: Nodes)
    requires spec.trivialOnly
    ensures match DecideAll(repo, spec, keys, nodes).r case Err(e) => e == OctopusConflict case Ok(d) => d.clean
  {
    if keys != [] { PlainErr(repo, spec, keys[..|keys| - 1], nodes); }
  }

  lemma TrivialTakes(spec: Spec, x: Input, nodes: Nodes)
    requires x.oRen == x.tRen == map[] && Aligned(x, nodes) && AllTrivial(x.base, x.ours, x.theirs) && LeafyInput(x)
    ensures AllTake(spec, nodes, TakeAll(x.base, x.ours, x.theirs)) && LeafyMap(TakeAll(x.base, x.ours, x.theirs))
  {
    hide Aligned, DecideNode, TakeAll, LeafyMap;
    var want := TakeAll(x.base, x.ours, x.theirs);
    PlainKeys(x, nodes);
    TakenLeafy(x);
    forall q | q in nodes ensures TakenAnyhow(spec, q, nodes[q], want) {
      PlainNode(x, nodes, q);
      assert Trivial(Get(x.base, q), Get(x.ours, q), Get(x.theirs, q));
      TrivialNode(spec, q, nodes[q]);
      TakenAtPath(x, q);
    }
    assert want.Keys <= nodes.Keys by { TakenKeys(x); }
  }

  lemma TakenLeafy(x: Input)
    requires LeafyInput(x)
    ensures LeafyMap(TakeAll(x.base, x.ours, x.theirs))
  {
  }

  lemma TakenAtPath(x: Input, q: Path)
    requires Trivial(Get(x.base, q), Get(x.ours, q), Get(x.theirs, q))
    ensures Get(TakeAll(x.base, x.ours, x.theirs), q) == Take(Get(x.base, q), Get(x.ours, q), Get(x.theirs, q))
  {
  }

  lemma TakenKeys(x: Input)
    ensures TakeAll(x.base, x.ours, x.theirs).Keys <= x.ours.Keys + x.theirs.Keys
  {
  }

  lemma {:induction false} ErrAt(repo: Repo, spec: Spec, keys: seq<Path>, nodes: Nodes, q: Path)
    requires q in keys && q in nodes && spec.trivialOnly && !Trivial(nodes[q].base, nodes[q].ours, nodes[q].theirs)
    ensures DecideAll(repo, spec, keys, nodes).r.Err?
  {
    if keys[|keys| - 1] != q { ErrAt(repo, spec, keys[..|keys| - 1], nodes, q); }
  }

  // ---- The whole fold -----------------------------------------------------------------------------------

  /** At every path, the maps that differ from the base there agree. */
  ghost predicate Compatible(base: LeafMap, maps: seq<LeafMap>) {
    forall p, i, j :: 0 <= i < |maps| && 0 <= j < |maps| && Get(maps[i], p) != Get(base, p) && Get(maps[j], p) != Get(base, p)
                      ==> Get(maps[i], p) == Get(maps[j], p)
  }

  /** `r` has at each path the one value that differs from the base, or the base's. */
  ghost predicate Combines(base: LeafMap, maps: seq<LeafMap>, r: LeafMap) {
    forall p :: CombinesAt(base, maps, r, p)
  }

  ghost predicate CombinesAt(base: LeafMap, maps: seq<LeafMap>, r: LeafMap, p: Path) {
    if forall i :: 0 <= i < |maps| ==> Get(maps[i], p) == Get(base, p) then Get(r, p) == Get(base, p)
    else Get(r, p) != Get(base, p) && exists i :: 0 <= i < |maps| && Get(r, p) == Get(maps[i], p)
  }

  ghost function AllPaths(maps: seq<LeafMap>): set<Path> { set i, p | 0 <= i < |maps| && p in maps[i] :: p }

  /** The paths of head and heads together, none a directory of another. */
  ghost predicate Flat(base: LeafMap, maps: seq<LeafMap>) { PrefixFree(base.Keys + AllPaths(maps)) }

  lemma CombinedPaths(base: LeafMap, maps: seq<LeafMap>, r: LeafMap)
    requires Combines(base, maps, r)
    ensures r.Keys <= base.Keys + AllPaths(maps)
  {
    forall p | p in r ensures p in base.Keys + AllPaths(maps) {
      assert CombinesAt(base, maps, r, p);
      if i :| 0 <= i < |maps| && Get(maps[i], p) == Get(r, p) { assert p in maps[i]; }
    }
  }

  lemma StepCombinesAt(base: LeafMap, maps: seq<LeafMap>, acc: LeafMap, o: LeafMap, p: Path)
    requires Compatible(base, maps) && Combines(base, maps, acc) && Trivial(Get(base, p), Get(acc, p), Get(o, p))
    ensures CombinesAt(base, maps + [o], TakeAll(base, acc, o), p)
  {
    var all := maps + [o];
    assert CombinesAt(base, maps, acc, p);
    assert all[|maps|] == o && forall i :: 0 <= i < |maps| ==> all[i] == maps[i];
    if i :| 0 <= i < |maps| && Get(acc, p) == Get(maps[i], p) && Get(acc, p) != Get(base, p) {
      assert Get(all[i], p) != Get(base, p);
    }
  }

  /** A step is trivial everywhere exactly when the new head is compatible with all before it. */
  lemma StepCompatible(base: LeafMap, maps: seq<LeafMap>, acc: LeafMap, o: LeafMap)
    requires Compatible(base, maps) && Combines(base, maps, acc)
    ensures AllTrivial(base, acc, o) <==> Compatible(base, maps + [o])
    ensures AllTrivial(base, acc, o) ==> Combines(base, maps + [o], TakeAll(base, acc, o))
  {
    var all := maps + [o];
    assert all[|maps|] == o && forall i :: 0 <= i < |maps| ==> all[i] == maps[i];
    if AllTrivial(base, acc, o) {
      forall p, i, j | 0 <= i < |all| && 0 <= j < |all| && Get(all[i], p) != Get(base, p) && Get(all[j], p) != Get(base, p)
        ensures Get(all[i], p) == Get(all[j], p)
      {
        assert CombinesAt(base, maps, acc, p) && Trivial(Get(base, p), Get(acc, p), Get(o, p));
      }
      forall p ensures CombinesAt(base, all, TakeAll(base, acc, o), p) {
        StepCombinesAt(base, maps, acc, o, p);
      }
    } else {
      var p :| !Trivial(Get(base, p), Get(acc, p), Get(o, p));
      assert CombinesAt(base, maps, acc, p);
      var i :| 0 <= i < |maps| && Get(acc, p) == Get(maps[i], p);
      assert Get(all[i], p) != Get(all[|maps|], p);
    }
  }

  lemma FrontCompatible(base: LeafMap, maps: seq<LeafMap>, n: nat)
    requires n <= |maps| && Compatible(base, maps)
    ensures Compatible(base, maps[..n])
  {
  }

  /** What the heads combine to does not depend on their order. */
  lemma OrderFree(base: LeafMap, maps: seq<LeafMap>, perm: seq<LeafMap>, r: LeafMap, s: LeafMap)
    requires forall m :: m in maps <==> m in perm
    ensures Compatible(base, maps) <==> Compatible(base, perm)
    ensures Flat(base, maps) <==> Flat(base, perm)
    ensures Compatible(base, maps) && Combines(base, maps, r) && Combines(base, perm, s) ==> r == s
  {
    if Compatible(base, maps) { SameCompatible(base, maps, perm); }
    if Compatible(base, perm) { SameCompatible(base, perm, maps); }
    forall p ensures p in AllPaths(maps) <==> p in AllPaths(perm) {
      if p in AllPaths(maps) {
        var i :| 0 <= i < |maps| && p in maps[i];
        assert maps[i] in perm;
      }
      if p in AllPaths(perm) {
        var i :| 0 <= i < |perm| && p in perm[i];
        assert perm[i] in maps;
      }
    }
    if Compatible(base, maps) && Combines(base, maps, r) && Combines(base, perm, s) {
      forall p ensures Get(r, p) == Get(s, p) { SameCombined(base, maps, perm, r, s, p); }
      forall p ensures p in r <==> p in s { assert Get(r, p) == Get(s, p); }
      forall p | p in r ensures r[p] == s[p] { assert Get(r, p) == Get(s, p); }
    }
  }

  lemma SameCompatible(base: LeafMap, maps: seq<LeafMap>, perm: seq<LeafMap>)
    requires Compatible(base, maps) && forall m :: m in perm ==> m in maps
    ensures Compatible(base, perm)
  {
    forall p, i, j | 0 <= i < |perm| && 0 <= j < |perm| && Get(perm[i], p) != Get(base, p) && Get(perm[j], p) != Get(base, p)
      ensures Get(perm[i], p) == Get(perm[j], p)
    {
      assert perm[i] in maps && perm[j] in maps;
    }
  }

  lemma SameCombined(base: LeafMap, maps: seq<LeafMap>, perm: seq<LeafMap>, r: LeafMap, s: LeafMap, p: Path)
    requires Compatible(base, maps) && (forall m :: m in maps <==> m in perm)
    requires CombinesAt(base, maps, r, p) && CombinesAt(base, perm, s, p)
    ensures Get(r, p) == Get(s, p)
  {
    if Get(r, p) != Get(base, p) {
      var i :| 0 <= i < |maps| && Get(r, p) == Get(maps[i], p);
      assert maps[i] in perm;
    }
    if Get(s, p) != Get(base, p) {
      var j :| 0 <= j < |perm| && Get(s, p) == Get(perm[j], p);
      assert perm[j] in maps;
    }
  }

  // ---- Merge bases ------------------------------------------------------------------------------------------

  datatype CommitObj = CommitObj(hash: Hash, tree: Hash)

  /** What the commit graph answers: merge bases, whether it is shallow, and the identity of a
      temporary commit. */
  datatype Graph = Graph(mergeBase: (Hash, Hash) -> Result<seq<CommitObj>, MergeError>, shallow: bool, tempCommit: (Hash, seq<Hash>) -> Hash)

  const VIRTUAL_DEPTH_LIMIT := 32

  function DepthLeft(depth: nat): nat { if depth > VIRTUAL_DEPTH_LIMIT then 0 else VIRTUAL_DEPTH_LIMIT + 1 - depth }

  /** The tree to merge from. */
  ghost function AncestorOf(repo: Repo, g: Graph, spec: Spec, a: Hash, b: Hash, depth: nat): Done<Hash>
    decreases DepthLeft(depth), 1, 0
  {
    if depth > VIRTUAL_DEPTH_LIMIT then Done(Err(VirtualMergeDepth), repo)
    else
      match g.mergeBase(a, b)
      case Err(e) => Done(Err(if e == ObjectNotFound && g.shallow then ShallowHistory else e), repo)
      case Ok(bases) =>
        if bases == [] then
          if g.shallow then Done(Err(ShallowHistory), repo)
          else if !spec.allowUnrelated then Done(Err(UnrelatedHistories), repo)
          else Done(Ok(EmptyTree), Stores(repo, {EmptyTree}))
        else if |bases| == 1 then Done(Ok(bases[0].tree), repo)
        else if spec.trivialOnly then Done(Err(OctopusConflict), repo)
        else
          var left := FoldedUpTo(repo, g, spec, bases, |bases|, depth);
          Done(match left.r { case Err(e) => Err(e) case Ok(c) => Ok(c.tree) }, left.repo)
  }

  /** The virtual commit that the first `n` bases fold to. */
  ghost function FoldedUpTo(repo: Repo, g: Graph, spec: Spec, bases: seq<CommitObj>, n: nat, depth: nat): Done<CommitObj>
    requires 1 <= n <= |bases| && depth <= VIRTUAL_DEPTH_LIMIT
    decreases DepthLeft(depth), 0, n
  {
    if n == 1 then Done(Ok(bases[0]), repo)
    else
      var left := FoldedUpTo(repo, g, spec, bases, n - 1, depth);
      if left.r.Err? then left
      else
        var anc := AncestorOf(left.repo, g, spec, left.r.value.hash, bases[n - 1].hash, depth + 1);
        if anc.r.Err? then Done(Err(anc.r.error), anc.repo)
        else
          var m := MergedTrees(anc.repo, spec, anc.r.value, left.r.value.tree, bases[n - 1].tree);
          Done(match m.r { case Err(e) => Err(e) case Ok(tm) => Ok(Virtual(g, tm.tree, left.r.value, bases[n - 1])) }, m.repo)
  }

  function Virtual(g: Graph, tree: Hash, left: CommitObj, next: CommitObj): CommitObj {
    CommitObj(g.tempCommit(tree, [left.hash, next.hash]), tree)
  }

  method AncestorTree(repo: Repo, g: Graph, spec: Spec, a: Hash, b: Hash, depth: nat) returns (r: Result<Hash, MergeError>, after: Repo)
    ensures Done(r, after) == AncestorOf(repo, g, spec, a, b, depth)
    decreases DepthLeft(depth), 1
  {
    after := repo;
    if depth > VIRTUAL_DEPTH_LIMIT { return Err(VirtualMergeDepth), after; }
    var bases := g.mergeBase(a, b);
    if bases.Err? { return Err(if bases.error == ObjectNotFound && g.shallow then ShallowHistory else bases.error), after; }
    if bases.value == [] {
      if g.shallow { return Err(ShallowHistory), after; }
      if !spec.allowUnrelated { return Err(UnrelatedHistories), after; }
      return Ok(EmptyTree), Stores(repo, {EmptyTree});
    }
    if |bases.value| == 1 { return Ok(bases.value[0].tree), after; }
    if spec.trivialOnly { return Err(OctopusConflict), after; }
    r, after := FoldBases(repo, g, spec, bases.value, depth);
  }

  /** Folds several bases into one tree. */
  method FoldBases(repo: Repo, g: Graph, spec: Spec, bases: seq<CommitObj>, depth: nat) returns (r: Result<Hash, MergeError>, after: Repo)
    requires bases != [] && depth <= VIRTUAL_DEPTH_LIMIT
    ensures var left := FoldedUpTo(repo, g, spec, bases, |bases|, depth);
            after == left.repo && r == match left.r { case Err(e) => Err(e) case Ok(c) => Ok(c.tree) }
    decreases DepthLeft(depth), 0
  {
    hide MergedTrees;
    var left := bases[0];
    after := repo;
    var i := 1;
    while i < |bases|
      invariant 1 <= i <= |bases| && FoldedUpTo(repo, g, spec, bases, i, depth) == Done(Ok(left), after)
    {
      var anc, merged;
      anc, after := AncestorTree(after, g, spec, left.hash, bases[i].hash, depth + 1);
      if anc.Err? {
        FoldStops(repo, g, spec, bases, i + 1, |bases|, depth);
        return anc, after;
      }
      merged, after := MergeTrees(after, spec, anc.value, left.tree, bases[i].tree);
      if merged.Err? {
        FoldStops(repo, g, spec, bases, i + 1, |bases|, depth);
        return Err(merged.error), after;
      }
      left := Virtual(g, merged.value.tree, left, bases[i]);
      i := i + 1;
    }
    r := Ok(left.tree);
  }

  lemma {:induction false} FoldStops(repo: Repo, g: Graph, spec: Spec, bases: seq<CommitObj>, i: nat, n: nat, depth: nat)
    requires 1 <= i <= n <= |bases| && depth <= VIRTUAL_DEPTH_LIMIT && FoldedUpTo(repo, g, spec, bases, i, depth).r.Err?
    ensures FoldedUpTo(repo, g, spec, bases, n, depth) == FoldedUpTo(repo, g, spec, bases, i, depth)
  {
    hide MergedTrees, AncestorOf;
    if i < n { FoldStops(repo, g, spec, bases, i, n - 1, depth); }
  }

  lemma {:induction false} AncestorExtends(repo: Repo, g: Graph, spec: Spec, a: Hash, b: Hash, depth: nat)
    ensures Extends(repo, AncestorOf(repo, g, spec, a, b, depth).repo)
    decreases DepthLeft(depth), 1, 0
  {
    hide MergedTrees;
    if depth <= VIRTUAL_DEPTH_LIMIT {
      match g.mergeBase(a, b)
      case Err(_) =>
      case Ok(bases) => if |bases| > 1 { FoldExtends(repo, g, spec, bases, |bases|, depth); }
    }
  }

  lemma {:induction false} FoldExtends(repo: Repo, g: Graph, spec: Spec, bases: seq<CommitObj>, n: nat, depth: nat)
    requires 1 <= n <= |bases| && depth <= VIRTUAL_DEPTH_LIMIT
    ensures Extends(repo, FoldedUpTo(repo, g, spec, bases, n, depth).repo)
    decreases DepthLeft(depth), 0, n
  {
    hide MergedTrees, AncestorOf;
    if n > 1 {
      FoldExtends(repo, g, spec, bases, n - 1, depth);
      var left := FoldedUpTo(repo, g, spec, bases, n - 1, depth);
      if left.r.Ok? {
        AncestorExtends(left.repo, g, spec, left.r.value.hash, bases[n - 1].hash, depth + 1);
        var anc := AncestorOf(left.repo, g, spec, left.r.value.hash, bases[n - 1].hash, depth + 1);
        if anc.r.Ok? { MergedExtends(anc.repo, spec, anc.r.value, left.r.value.tree, bases[n - 1].tree); }
      }
    }
  }

  ghost predicate OneTree(bases: seq<CommitObj>, tree: Hash) { forall i :: 0 <= i < |bases| ==> bases[i].tree == tree }

  /** A canonical tree that can be read, with no path a directory of another. */
  ghost predicate Steady(repo: Repo, tree: Hash) {
    Readable(repo, tree) && LoadAttrs(repo, Files(tree)).Ok? && Canonical(tree) && PrefixFree(Files(tree).Keys)
  }

  /** Bases that share a tree fold to that tree, from whatever ancestors of theirs. */
  lemma {:induction false} FoldLaw(repo: Repo, g: Graph, spec: Spec, bases: seq<CommitObj>, n: nat, depth: nat, tree: Hash)
    requires 1 <= n <= |bases| && depth <= VIRTUAL_DEPTH_LIMIT && OneTree(bases, tree) && Steady(repo, tree)
    ensures FoldedUpTo(repo, g, spec, bases, n, depth).r.Ok? ==> FoldedUpTo(repo, g, spec, bases, n, depth).r.value.tree == tree
  {
    hide MergedTrees, AncestorOf, Canonical, PrefixFree, Took, LoadAttrs;
    if n > 1 {
      FoldLaw(repo, g, spec, bases, n - 1, depth, tree);
      FoldExtends(repo, g, spec, bases, n - 1, depth);
      var left := FoldedUpTo(repo, g, spec, bases, n - 1, depth);
      if left.r.Ok? {
        AncestorExtends(left.repo, g, spec, left.r.value.hash, bases[n - 1].hash, depth + 1);
        var anc := AncestorOf(left.repo, g, spec, left.r.value.hash, bases[n - 1].hash, depth + 1);
        ReadableMore(repo, anc.repo, tree);
        if anc.r.Ok? { SelfOrNone(anc.repo, spec, anc.r.value, tree); }
      }
    }
  }

  lemma SelfOrNone(repo: Repo, spec: Spec, base: Hash, tree: Hash)
    requires Steady(repo, tree)
    ensures var m := MergedTrees(repo, spec, base, tree, tree); m.r.Ok? ==> m.r.value.tree == tree
  {
    hide Canonical, PrefixFree, Took, LoadAttrs;
    if Readable(repo, base) { SelfMerge(repo, spec, base, tree); }
  }

  /** The tree to merge from is the one all bases share, if they share one. */
  lemma AncestorLaw(repo: Repo, g: Graph, spec: Spec, a: Hash, b: Hash, bases: seq<CommitObj>, tree: Hash)
    requires g.mergeBase(a, b) == Ok(bases) && bases != [] && OneTree(bases, tree)
    ensures |bases| == 1 ==> AncestorOf(repo, g, spec, a, b, 0) == Done(Ok(tree), repo)
    ensures Steady(repo, tree) && AncestorOf(repo, g, spec, a, b, 0).r.Ok? ==> AncestorOf(repo, g, spec, a, b, 0).r.value == tree
  {
    hide Steady;
    if |bases| > 1 && Steady(repo, tree) { FoldLaw(repo, g, spec, bases, |bases|, 0, tree); }
  }

  // ---- Octopus ---------------------------------------------------------------------------------------------------

  /** The result after the first `n` heads. */
  ghost function OctopusUpTo(repo: Repo, g: Graph, spec: Spec, head: CommitObj, others: seq<CommitObj>, n: nat): Done<TreeMerge>
    requires n <= |others|
  {
    if n == 0 then Done(Ok(TreeMerge(true, [], head.tree, None)), repo)
    else
      var last := OctopusUpTo(repo, g, spec, head, others, n - 1);
      if last.r.Err? then last
      else
        var base := AncestorOf(last.repo, g, spec, head.hash, others[n - 1].hash, 0);
        if base.r.Err? then Done(Err(base.r.error), base.repo)
        else MergedTrees(base.repo, spec, base.r.value, last.r.value.tree, others[n - 1].tree)
  }

  ghost function OctopusOf(repo: Repo, g: Graph, spec: Spec, head: CommitObj, others: seq<CommitObj>): Done<TreeMerge> {
    if others == [] then Done(Err(NoMergeHeads), repo) else OctopusUpTo(repo, g, spec, head, others, |others|)
  }

  /** Sequential trivial merges. */
  method MergeOctopus(repo: Repo, g: Graph, spec: Spec, head: CommitObj, others: seq<CommitObj>)
    returns (r: Result<TreeMerge, MergeError>, after: Repo)
    ensures Done(r, after) == OctopusOf(repo, g, spec, head, others)
  {
    hide MergedTrees, AncestorOf;
    after := repo;
    if others == [] { return Err(NoMergeHeads), after; }
    var last := TreeMerge(true, [], head.tree, None);
    var i := 0;
    while i < |others|
      invariant 0 <= i <= |others| && OctopusUpTo(repo, g, spec, head, others, i) == Done(Ok(last), after)
    {
      var base, merged;
      base, after := AncestorTree(after, g, spec, head.hash, others[i].hash, 0);
      if base.Err? {
        OctopusStops(repo, g, spec, head, others, i + 1, |others|);
        return Err(base.error), after;
      }
      merged, after := MergeTrees(after, spec, base.value, last.tree, others[i].tree);
      if merged.Err? {
        OctopusStops(repo, g, spec, head, others, i + 1, |others|);
        return merged, after;
      }
      last := merged.value;
      i := i + 1;
    }
    r := Ok(last);
  }

  lemma {:induction false} OctopusStops(repo: Repo, g: Graph, spec: Spec, head: CommitObj, others: seq<CommitObj>, i: nat, n: nat)
    requires i <= n <= |others| && OctopusUpTo(repo, g, spec, head, others, i).r.Err?
    ensures OctopusUpTo(repo, g, spec, head, others, n) == OctopusUpTo(repo, g, spec, head, others, i)
  {
    hide MergedTrees, AncestorOf;
    if i < n { OctopusStops(repo, g, spec, head, others, i, n - 1); }
  }

  lemma {:induction false} OctopusExtends(repo: Repo, g: Graph, spec: Spec, head: CommitObj, others: seq<CommitObj>, n: nat)
    requires n <= |others|
    ensures Extends(repo, OctopusUpTo(repo, g, spec, head, others, n).repo)
  {
    hide MergedTrees, AncestorOf;
    if n > 0 {
      OctopusExtends(repo, g, spec, head, others, n - 1);
      var last := OctopusUpTo(repo, g, spec, head, others, n - 1);
      if last.r.Ok? {
        AncestorExtends(last.repo, g, spec, head.hash, others[n - 1].hash, 0);
        var base := AncestorOf(last.repo, g, spec, head.hash, others[n - 1].hash, 0);
        if base.r.Ok? { MergedExtends(base.repo, spec, base.r.value, last.r.value.tree, others[n - 1].tree); }
      }
    }
  }

  ghost function TreeMaps(head: CommitObj, others: seq<CommitObj>): (maps: seq<LeafMap>)
    ensures |maps| == |others| + 1 && maps[0] == Files(head.tree)
    ensures forall i :: 0 <= i < |others| ==> maps[i + 1] == Files(others[i].tree)
  {
    [Files(head.tree)] + seq(|others|, i requires 0 <= i < |others| => Files(others[i].tree))
  }

  ghost predicate CanMerge(repo: Repo, tree: Hash) { Readable(repo, tree) && LoadAttrs(repo, Files(tree)).Ok? }

  /** Every head has the one base tree, and the trees of base, head and heads can be read. */
  ghost predicate SharedBase(repo: Repo, g: Graph, spec: Spec, head: CommitObj, others: seq<CommitObj>, base: Hash) {
    && Plain(spec) && Readable(repo, base) && CanMerge(repo, head.tree)
    && forall i :: 0 <= i < |others| ==>
         && CanMerge(repo, others[i].tree)
         && match g.mergeBase(head.hash, others[i].hash) case Ok(bs) => |bs| == 1 && bs[0].tree == base case Err(_) => false
  }

  /** The takes of all heads, one after the other. */
  ghost function Fold(base: LeafMap, maps: seq<LeafMap>): LeafMap
    requires maps != []
  {
    if |maps| == 1 then maps[0] else TakeAll(base, Fold(base, maps[..|maps| - 1]), maps[|maps| - 1])
  }

  /** At each step no path of what is folded so far and of the next head is a directory of another. */
  ghost predicate FlatSteps(base: LeafMap, maps: seq<LeafMap>) {
    forall i :: 1 <= i < |maps| ==> PrefixFree(Fold(base, maps[..i]).Keys + maps[i].Keys)
  }

  lemma FlatStepsMore(base: LeafMap, maps: seq<LeafMap>)
    requires |maps| > 1
    ensures var front, last := maps[..|maps| - 1], maps[|maps| - 1];
            FlatSteps(base, maps) <==> FlatSteps(base, front) && PrefixFree(Fold(base, front).Keys + last.Keys)
  {
    hide PrefixFree, Fold;
    var front := maps[..|maps| - 1];
    forall i | 1 <= i < |front| ensures front[..i] == maps[..i] && front[i] == maps[i] {}
    if FlatSteps(base, maps) { assert PrefixFree(Fold(base, maps[..|maps| - 1]).Keys + maps[|maps| - 1].Keys); }
    if FlatSteps(base, front) && PrefixFree(Fold(base, front).Keys + maps[|maps| - 1].Keys) {
      forall i | 1 <= i < |maps| ensures PrefixFree(Fold(base, maps[..i]).Keys + maps[i].Keys) {
        if i < |front| { assert PrefixFree(Fold(base, front[..i]).Keys + front[i].Keys); }
      }
    }
  }

  /** Folding compatible heads combines them. */
  lemma {:induction false} FoldCombines(base: LeafMap, maps: seq<LeafMap>)
    requires maps != [] && Compatible(base, maps)
    ensures Combines(base, maps, Fold(base, maps))
  {
    hide Compatible, Combines, AllTrivial, TakeAll;
    if |maps| == 1 {
      FoldStart(base, maps);
      assert maps[..1] == maps;
    } else {
      var front := maps[..|maps| - 1];
      FrontCompatible(base, maps, |maps| - 1);
      FoldCombines(base, front);
      assert maps == front + [maps[|maps| - 1]];
      StepCompatible(base, front, Fold(base, front), maps[|maps| - 1]);
    }
  }

  lemma FoldStart(base: LeafMap, maps: seq<LeafMap>)
    requires maps != []
    ensures Compatible(base, maps[..1]) && Combines(base, maps[..1], maps[0])
  {
  }

  /** What the fold has somewhere some head has there. */
  lemma CombinedFrom(base: LeafMap, maps: seq<LeafMap>, r: LeafMap, p: Path) returns (i: nat)
    requires maps != [] && Combines(base, maps, r)
    ensures i < |maps| && Get(maps[i], p) == Get(r, p)
  {
    assert CombinesAt(base, maps, r, p);
    if forall j :: 0 <= j < |maps| ==> Get(maps[j], p) == Get(base, p) { i := 0; } else { i :| 0 <= i < |maps| && Get(r, p) == Get(maps[i], p); }
  }

  /** The first `n` heads, folded. */
  ghost predicate OctopusSoFar(repo: Repo, base: LeafMap, maps: seq<LeafMap>, n: nat, done: Done<TreeMerge>)
    requires n < |maps|
  {
    && Extends(repo, done.repo)
    && (done.r.Ok? <==> Compatible(base, maps[..n + 1]) && FlatSteps(base, maps[..n + 1]))
    && (done.r.Err? ==> done.r.error == OctopusConflict)
    && (done.r.Ok? ==> CanMerge(done.repo, done.r.value.tree) && Files(done.r.value.tree) == Fold(base, maps[..n + 1]))
    && (done.r.Ok? && n > 0 ==> Took(done.r.value, Fold(base, maps[..n + 1])))
  }

  lemma {:induction false} OctopusSteps(repo: Repo, g: Graph, spec: Spec, head: CommitObj, others: seq<CommitObj>, base: Hash, n: nat)
    requires n <= |others| && SharedBase(repo, g, spec, head, others, base)
    ensures OctopusSoFar(repo, Files(base), TreeMaps(head, others), n, OctopusUpTo(repo, g, spec, head, others, n))
  {
    hide MergedTrees, AncestorOf, OctopusSoFar, CanMerge, Plain, SharedBase, LoadAttrs;
    var maps := TreeMaps(head, others);
    SharedFacts(repo, g, spec, head, others, base);
    if n == 0 {
      OctopusStart(repo, Files(base), maps, head.tree);
    } else {
      OctopusSteps(repo, g, spec, head, others, base, n - 1);
      var last := OctopusUpTo(repo, g, spec, head, others, n - 1);
      if last.r.Err? {
        OctopusFailed(repo, Files(base), maps, n, last);
      } else {
        var other := others[n - 1];
        OneBase(repo, last.repo, g, spec, head, others, base, n - 1);
        OctopusStep(repo, spec, base, other.tree, maps, n, last);
      }
    }
  }

  lemma SharedFacts(repo: Repo, g: Graph, spec: Spec, head: CommitObj, others: seq<CommitObj>, base: Hash)
    requires SharedBase(repo, g, spec, head, others, base)
    ensures Plain(spec) && Readable(repo, base) && CanMerge(repo, head.tree)
    ensures forall i :: 0 <= i < |others| ==> CanMerge(repo, others[i].tree)
    ensures forall i :: 0 <= i <= |others| ==> LoadAttrs(repo, TreeMaps(head, others)[i]).Ok?
  {
    hide LoadAttrs;
    var maps := TreeMaps(head, others);
    forall i | 0 <= i <= |others| ensures LoadAttrs(repo, maps[i]).Ok? {
      if i > 0 { assert CanMerge(repo, others[i - 1].tree) && maps[i - 1 + 1] == Files(others[i - 1].tree); }
    }
  }

  lemma OneBase(repo: Repo, more: Repo, g: Graph, spec: Spec, head: CommitObj, others: seq<CommitObj>, base: Hash, i: nat)
    requires SharedBase(repo, g, spec, head, others, base) && i < |others|
    ensures AncestorOf(more, g, spec, head.hash, others[i].hash, 0) == Done(Ok(base), more)
  {
    hide CanMerge, AncestorOf;
    AncestorLaw(more, g, spec, head.hash, others[i].hash, g.mergeBase(head.hash, others[i].hash).value, base);
  }

  lemma OctopusStart(repo: Repo, base: LeafMap, maps: seq<LeafMap>, tree: Hash)
    requires maps != [] && maps[0] == Files(tree) && CanMerge(repo, tree)
    ensures OctopusSoFar(repo, base, maps, 0, Done(Ok(TreeMerge(true, [], tree, None)), repo))
  {
    hide CanMerge, Combines, Compatible;
    FoldStart(base, maps);
    assert maps[..1] == [maps[0]];
  }

  lemma OctopusFailed(repo: Repo, base: LeafMap, maps: seq<LeafMap>, n: nat, done: Done<TreeMerge>)
    requires 0 < n < |maps| && OctopusSoFar(repo, base, maps, n - 1, done) && done.r.Err?
    ensures OctopusSoFar(repo, base, maps, n, done)
  {
    hide CanMerge, Compatible, FlatSteps, Took;
    assert maps[..n + 1][..n] == maps[..n];
    FlatStepsMore(base, maps[..n + 1]);
    if Compatible(base, maps[..n + 1]) { FrontCompatible(base, maps[..n + 1], n); }
  }

  lemma OctopusStep(repo: Repo, spec: Spec, base: Hash, other: Hash, maps: seq<LeafMap>, n: nat, last: Done<TreeMerge>)
    requires 0 < n < |maps| && OctopusSoFar(repo, Files(base), maps, n - 1, last) && last.r.Ok? && Plain(spec)
    requires Readable(repo, base) && CanMerge(repo, other) && maps[n] == Files(other)
    requires forall i :: 0 <= i < |maps| ==> LoadAttrs(repo, maps[i]).Ok?
    ensures OctopusSoFar(repo, Files(base), maps, n, MergedTrees(last.repo, spec, base, last.r.value.tree, other))
  {
    hide MergedTrees, Compatible, FlatSteps, Took, MergeOf, AllTrivial, PrefixFree, Combines, TakeAll, LoadAttrs, LeafyInput, Whole;
    var b := Files(base);
    var done := MergedTrees(last.repo, spec, base, last.r.value.tree, other);
    var front, all := maps[..n], maps[..n + 1];
    assert all[..n] == front && all == front + [maps[n]];
    ReadableMore(repo, last.repo, base);
    ReadableMore(repo, last.repo, other);
    TreesMerge(last.repo, spec, base, last.r.value.tree, other);
    MergedExtends(last.repo, spec, base, last.r.value.tree, other);
    StepLaw(last.repo, spec, TreesInput(last.repo, spec, base, last.r.value.tree, other), done);
    FoldCombines(b, front);
    StepCompatible(b, front, Fold(b, front), maps[n]);
    FlatStepsMore(b, all);
    if Compatible(b, all) { FrontCompatible(b, all, n); }
    if done.r.Ok? {
      TookFiles(done.r.value, Fold(b, all));
      FoldCombines(b, all);
      FoldAttrs(repo, done.repo, b, all);
    }
  }

  /** The attributes file of the fold is that of some head. */
  lemma FoldAttrs(repo: Repo, more: Repo, base: LeafMap, maps: seq<LeafMap>)
    requires maps != [] && Combines(base, maps, Fold(base, maps)) && Extends(repo, more)
    requires forall i :: 0 <= i < |maps| ==> LoadAttrs(repo, maps[i]).Ok?
    ensures LoadAttrs(more, Fold(base, maps)).Ok?
  {
    hide Fold, Combines;
    var i := CombinedFrom(base, maps, Fold(base, maps), ATTRIBUTES);
  }

  /** With one base tree for all heads the fold succeeds exactly when at every path the heads that
      changed it agree, and at each step no path of what is folded and of the next head is a
      directory of another; it gives the base with those changes. */
  lemma OctopusLaw(repo: Repo, g: Graph, spec: Spec, head: CommitObj, others: seq<CommitObj>, base: Hash)
    requires others != [] && SharedBase(repo, g, spec, head, others, base)
    ensures var done, maps := OctopusOf(repo, g, spec, head, others), TreeMaps(head, others);
            && (done.r.Ok? <==> Compatible(Files(base), maps) && FlatSteps(Files(base), maps))
            && (done.r.Ok? ==> Took(done.r.value, Fold(Files(base), maps)) && Combines(Files(base), maps, Fold(Files(base), maps)))
            && (done.r.Err? ==> done.r.error == OctopusConflict)
  {
    hide OctopusUpTo, SharedBase, Compatible, Combines, FlatSteps, Took;
    var maps := TreeMaps(head, others);
    OctopusSteps(repo, g, spec, head, others, base, |others|);
    assert maps[..|others| + 1] == maps;
    if Compatible(Files(base), maps) { FoldCombines(Files(base), maps); }
  }

  /** A flat union is flat at each step, in any order. */
  lemma FlatAnyOrder(base: LeafMap, maps: seq<LeafMap>)
    requires Flat(base, maps) && Compatible(base, maps)
    ensures FlatSteps(base, maps)
  {
    hide Compatible, Combines, Fold;
    forall i | 1 <= i < |maps| ensures PrefixFree(Fold(base, maps[..i]).Keys + maps[i].Keys) {
      FrontCompatible(base, maps, i);
      FoldCombines(base, maps[..i]);
      FlatStep(base, maps, i, Fold(base, maps[..i]));
    }
  }

  lemma FlatStep(base: LeafMap, maps: seq<LeafMap>, i: nat, acc: LeafMap)
    requires i < |maps| && Flat(base, maps) && Combines(base, maps[..i], acc)
    ensures PrefixFree(acc.Keys + maps[i].Keys)
  {
    CombinedPaths(base, maps[..i], acc);
    forall p | p in AllPaths(maps[..i]) ensures p in AllPaths(maps) {
      var j :| 0 <= j < i && p in maps[..i][j];
      assert p in maps[j];
    }
    forall p | p in maps[i] ensures p in AllPaths(maps) {}
  }

  /** With a flat union of paths the order of the heads does not matter: the same success, and
      the same tree. */
  lemma OrderIrrelevant(repo: Repo, g: Graph, spec: Spec, head: CommitObj, others: seq<CommitObj>, perm: seq<CommitObj>, base: Hash)
    requires others != [] && perm != [] && (forall c :: c in others <==> c in perm) && SharedBase(repo, g, spec, head, others, base)
    requires Flat(Files(base), TreeMaps(head, others))
    ensures var a, b := OctopusOf(repo, g, spec, head, others), OctopusOf(repo, g, spec, head, perm);
            && (a.r.Ok? <==> b.r.Ok?) && (a.r.Ok? ==> a.r.value.tree == b.r.value.tree)
  {
    hide OctopusOf, Compatible, Combines, FlatSteps, Flat, Took, CanMerge, Plain;
    var m, n := TreeMaps(head, others), TreeMaps(head, perm);
    SameMaps(head, others, perm);
    SameMaps(head, perm, others);
    forall i | 0 <= i < |perm|
      ensures CanMerge(repo, perm[i].tree)
      ensures match g.mergeBase(head.hash, perm[i].hash) case Ok(bs) => |bs| == 1 && bs[0].tree == base case Err(_) => false
    {
      assert perm[i] in others;
    }
    OctopusLaw(repo, g, spec, head, others, base);
    OctopusLaw(repo, g, spec, head, perm, base);
    OrderFree(Files(base), m, n, Fold(Files(base), m), Fold(Files(base), n));
    if Compatible(Files(base), m) {
      FlatAnyOrder(Files(base), m);
      FlatAnyOrder(Files(base), n);
      TookSame(OctopusOf(repo, g, spec, head, others).r.value, OctopusOf(repo, g, spec, head, perm).r.value, Fold(Files(base), m));
    }
  }

  lemma SameMaps(head: CommitObj, others: seq<CommitObj>, perm: seq<CommitObj>)
    requires forall c :: c in others <==> c in perm
    ensures forall m :: m in TreeMaps(head, others) ==> m in TreeMaps(head, perm)
  {
    var a, b := TreeMaps(head, others), TreeMaps(head, perm);
    forall m | m in a ensures m in b {
      var i :| 0 <= i < |a| && a[i] == m;
      if i == 0 {
        assert b[0] == m;
      } else {
        assert others[i - 1] in perm;
        var j :| 0 <= j < |perm| && perm[j] == others[i - 1];
        assert b[j + 1] == m;
      }
    }
  }

  lemma TookSame(a: TreeMerge, b: TreeMerge, want: LeafMap)
    requires Took(a, want) && Took(b, want)
    ensures a.tree == b.tree
  {
    WalkThenStore(a.tree, b.tree);
  }

  // ---- Folding bases that come from one tree ----------------------------------------------------------------

  ghost function BaseMaps(bases: seq<CommitObj>): (maps: seq<LeafMap>)
    ensures |maps| == |bases| && forall i :: 0 <= i < |bases| ==> maps[i] == Files(bases[i].tree)
  {
    seq(|bases|, i requires 0 <= i < |bases| => Files(bases[i].tree))
  }

  ghost predicate IsTemp(g: Graph, tree: Hash, l: Hash, next: Hash, h: Hash) { h == g.tempCommit(tree, [l, next]) }

  /** `h` is the first base, or names a temporary commit of the first `n` bases in their order. */
  ghost predicate NamesFold(g: Graph, bases: seq<CommitObj>, n: nat, h: Hash)
    requires 1 <= n <= |bases|
  {
    if n == 1 then h == bases[0].hash
    else
      var next := bases[n - 1].hash;
      exists tree, l :: IsTemp(g, tree, l, next, h) && NamesFold(g, bases, n - 1, l)
  }

  /** Whatever the first bases fold to has a single merge base with the next one, with tree `root`. */
  ghost predicate OneRoot(g: Graph, bases: seq<CommitObj>, root: Hash) {
    forall n, h :: 1 <= n < |bases| && NamesFold(g, bases, n, h) ==>
      match g.mergeBase(h, bases[n].hash) case Ok(bs) => |bs| == 1 && bs[0].tree == root case Err(_) => false
  }

  ghost predicate FoldedSoFar(repo: Repo, g: Graph, bases: seq<CommitObj>, root: Hash, n: nat, done: Done<CommitObj>)
    requires 1 <= n <= |bases|
  {
    && Extends(repo, done.repo) && done.r.Ok? && NamesFold(g, bases, n, done.r.value.hash)
    && CanMerge(done.repo, done.r.value.tree) && Files(done.r.value.tree) == Fold(Files(root), BaseMaps(bases)[..n])
  }

  lemma SingleBase(repo: Repo, g: Graph, spec: Spec, a: Hash, b: Hash, depth: nat, tree: Hash)
    requires depth <= VIRTUAL_DEPTH_LIMIT
    requires match g.mergeBase(a, b) case Ok(bs) => |bs| == 1 && bs[0].tree == tree case Err(_) => false
    ensures AncestorOf(repo, g, spec, a, b, depth) == Done(Ok(tree), repo)
  {
  }

  lemma {:induction false} FoldsTo(repo: Repo, g: Graph, spec: Spec, bases: seq<CommitObj>, root: Hash, n: nat, depth: nat)
    requires 1 <= n <= |bases| && depth < VIRTUAL_DEPTH_LIMIT && !spec.renames && OneRoot(g, bases, root) && Readable(repo, root)
    requires (forall i :: 0 <= i < |bases| ==> CanMerge(repo, bases[i].tree))
    requires Compatible(Files(root), BaseMaps(bases)) && FlatSteps(Files(root), BaseMaps(bases))
    ensures FoldedSoFar(repo, g, bases, root, n, FoldedUpTo(repo, g, spec, bases, n, depth))
  {
    hide MergedTrees, AncestorOf, FoldedSoFar, CanMerge, Compatible, FlatSteps, NamesFold, OneRoot;
    var maps := BaseMaps(bases);
    if n == 1 {
      FoldBegins(repo, g, bases, root);
    } else {
      FoldsTo(repo, g, spec, bases, root, n - 1, depth);
      var left := FoldedUpTo(repo, g, spec, bases, n - 1, depth);
      assert left.r.Ok? by { SoFarOk(repo, g, bases, root, n - 1, left); }
      RootAt(repo, g, spec, bases, root, n - 1, depth, left);
      FoldStep(repo, g, spec, bases, root, n, left);
    }
  }

  lemma SoFarOk(repo: Repo, g: Graph, bases: seq<CommitObj>, root: Hash, n: nat, done: Done<CommitObj>)
    requires 1 <= n <= |bases| && FoldedSoFar(repo, g, bases, root, n, done)
    ensures done.r.Ok?
  {
  }

  lemma FoldBegins(repo: Repo, g: Graph, bases: seq<CommitObj>, root: Hash)
    requires bases != [] && CanMerge(repo, bases[0].tree)
    ensures FoldedSoFar(repo, g, bases, root, 1, Done(Ok(bases[0]), repo))
  {
    assert BaseMaps(bases)[..1] == [BaseMaps(bases)[0]];
  }

  lemma RootAt(repo: Repo, g: Graph, spec: Spec, bases: seq<CommitObj>, root: Hash, n: nat, depth: nat, left: Done<CommitObj>)
    requires 1 <= n < |bases| && depth < VIRTUAL_DEPTH_LIMIT && OneRoot(g, bases, root) && FoldedSoFar(repo, g, bases, root, n, left) && left.r.Ok?
    ensures AncestorOf(left.repo, g, spec, left.r.value.hash, bases[n].hash, depth + 1) == Done(Ok(root), left.repo)
  {
    hide AncestorOf, CanMerge, NamesFold, Fold;
    SingleBase(left.repo, g, spec, left.r.value.hash, bases[n].hash, depth + 1, root);
  }

  lemma FoldStep(repo: Repo, g: Graph, spec: Spec, bases: seq<CommitObj>, root: Hash, n: nat, left: Done<CommitObj>)
    requires 1 < n <= |bases| && !spec.renames && FoldedSoFar(repo, g, bases, root, n - 1, left) && left.r.Ok? && Readable(repo, root)
    requires (forall i :: 0 <= i < |bases| ==> CanMerge(repo, bases[i].tree))
    requires Compatible(Files(root), BaseMaps(bases)) && FlatSteps(Files(root), BaseMaps(bases))
    ensures var m := MergedTrees(left.repo, spec, root, left.r.value.tree, bases[n - 1].tree);
            m.r.Ok? && FoldedSoFar(repo, g, bases, root, n, Done(Ok(Virtual(g, m.r.value.tree, left.r.value, bases[n - 1])), m.repo))
  {
    hide MergedTrees, Compatible, FlatSteps, CanMerge, Fold, NamesFold;
    var maps, last := BaseMaps(bases), bases[n - 1];
    var m := MergedTrees(left.repo, spec, root, left.r.value.tree, last.tree);
    assert maps[..n][..n - 1] == maps[..n - 1] && maps[..n][n - 1] == maps[n - 1];
    forall i | 0 <= i < n ensures LoadAttrs(repo, maps[..n][i]).Ok? { CanLoad(repo, bases[i].tree); }
    ReadableMore(repo, left.repo, root);
    CanMore(repo, left.repo, last.tree);
    FrontCompatible(Files(root), maps, n);
    FlatAt(Files(root), maps, n - 1);
    NextMerge(repo, left.repo, spec, root, left.r.value.tree, last.tree, maps[..n]);
    NameNext(g, bases, n, m.r.value.tree, left.r.value.hash);
  }

  lemma CanLoad(repo: Repo, tree: Hash)
    requires CanMerge(repo, tree)
    ensures LoadAttrs(repo, Files(tree)).Ok?
  {
  }

  lemma CanMore(repo: Repo, more: Repo, tree: Hash)
    requires CanMerge(repo, tree) && Extends(repo, more)
    ensures CanMerge(more, tree)
  {
    ReadableMore(repo, more, tree);
  }

  lemma FlatAt(base: LeafMap, maps: seq<LeafMap>, i: nat)
    requires 1 <= i < |maps| && FlatSteps(base, maps)
    ensures PrefixFree(Fold(base, maps[..i]).Keys + maps[i].Keys)
  {
    hide PrefixFree, Fold;
  }

  lemma NameNext(g: Graph, bases: seq<CommitObj>, n: nat, tree: Hash, l: Hash)
    requires 1 < n <= |bases| && NamesFold(g, bases, n - 1, l)
    ensures NamesFold(g, bases, n, g.tempCommit(tree, [l, bases[n - 1].hash]))
  {
    assert IsTemp(g, tree, l, bases[n - 1].hash, g.tempCommit(tree, [l, bases[n - 1].hash]));
  }

  /** Merging the next base into what the bases before it combine to. */
  lemma NextMerge(start: Repo, repo: Repo, spec: Spec, root: Hash, left: Hash, next: Hash, maps: seq<LeafMap>)
    requires |maps| > 1 && maps[|maps| - 1] == Files(next) && Files(left) == Fold(Files(root), maps[..|maps| - 1]) && !spec.renames
    requires Extends(start, repo) && Readable(repo, root) && CanMerge(repo, left) && CanMerge(repo, next) && Compatible(Files(root), maps)
    requires PrefixFree(Fold(Files(root), maps[..|maps| - 1]).Keys + maps[|maps| - 1].Keys) && forall i :: 0 <= i < |maps| ==> LoadAttrs(start, maps[i]).Ok?
    ensures var m := MergedTrees(repo, spec, root, left, next);
            m.r.Ok? && Extends(repo, m.repo) && CanMerge(m.repo, m.r.value.tree) && Files(m.r.value.tree) == Fold(Files(root), maps)
  {
    hide MergedTrees, Compatible, Took, MergeOf, AllTrivial, PrefixFree, Combines, TakeAll, Fold, LoadAttrs, LeafyInput, Whole, Files;
    var b := Files(root);
    NextTrivial(b, maps);
    var m := MergedTrees(repo, spec, root, left, next);
    TreesMerge(repo, spec, root, left, next);
    MergedExtends(repo, spec, root, left, next);
    TrivialMerge(repo, spec, TreesInput(repo, spec, root, left, next), m);
    TookFiles(m.r.value, Fold(b, maps));
    FoldCombines(b, maps);
    FoldAttrs(start, m.repo, b, maps);
  }

  lemma NextTrivial(b: LeafMap, maps: seq<LeafMap>)
    requires |maps| > 1 && Compatible(b, maps)
    ensures var front := Fold(b, maps[..|maps| - 1]); AllTrivial(b, front, maps[|maps| - 1]) && Fold(b, maps) == TakeAll(b, front, maps[|maps| - 1])
  {
    hide Compatible, AllTrivial, Combines, TakeAll;
    var front := maps[..|maps| - 1];
    assert maps == front + [maps[|maps| - 1]];
    FrontCompatible(b, maps, |maps| - 1);
    FoldCombines(b, front);
    StepCompatible(b, front, Fold(b, front), maps[|maps| - 1]);
  }

  /** Several bases that come from one root tree and changed different things fold, without rename
      detection, to the root with all their changes. */
  lemma BasesCombine(repo: Repo, g: Graph, spec: Spec, a: Hash, b: Hash, bases: seq<CommitObj>, root: Hash)
    requires g.mergeBase(a, b) == Ok(bases) && |bases| > 1 && !spec.trivialOnly && !spec.renames && OneRoot(g, bases, root) && Readable(repo, root)
    requires (forall i :: 0 <= i < |bases| ==> CanMerge(repo, bases[i].tree))
    requires Compatible(Files(root), BaseMaps(bases)) && FlatSteps(Files(root), BaseMaps(bases))
    ensures AncestorOf(repo, g, spec, a, b, 0).r.Ok?
    ensures Combines(Files(root), BaseMaps(bases), Files(AncestorOf(repo, g, spec, a, b, 0).r.value))
  {
    hide FoldedUpTo, CanMerge, Compatible, FlatSteps, OneRoot, Combines, NamesFold;
    var maps := BaseMaps(bases);
    FoldsTo(repo, g, spec, bases, root, |bases|, 0);
    assert maps[..|bases|] == maps;
    FoldCombines(Files(root), maps);
  }

  /** What a merge with failing or several bases answers: a walk that misses an object of a cut-off
      history says so, nesting has its limit, and trivial merging takes no virtual base. */
  lemma BaseErrors(repo: Repo, g: Graph, spec: Spec, a: Hash, b: Hash, depth: nat)
    ensures var anc := AncestorOf(repo, g, spec, a, b, depth);
            && (depth > 32 ==> anc == Done(Err(VirtualMergeDepth), repo))
            && (depth <= 32 && g.mergeBase(a, b) == Err(ObjectNotFound) ==> anc == Done(Err(if g.shallow then ShallowHistory else ObjectNotFound), repo))
            && (depth <= 32 && g.mergeBase(a, b).Err? && g.mergeBase(a, b).error != ObjectNotFound ==> anc == Done(Err(g.mergeBase(a, b).error), repo))
            && (depth <= 32 && spec.trivialOnly && g.mergeBase(a, b).Ok? && |g.mergeBase(a, b).value| > 1 ==> anc == Done(Err(OctopusConflict), repo))
  {
    hide FoldedUpTo;
  }

  /** Without a merge base the tree to merge from is empty, if unrelated histories may be merged and
      the history is not cut off. */
  lemma NoBase(repo: Repo, g: Graph, spec: Spec, a: Hash, b: Hash)
    requires g.mergeBase(a, b) == Ok([])
    ensures var anc := AncestorOf(repo, g, spec, a, b, 0);
            && (anc.r.Ok? <==> !g.shallow && spec.allowUnrelated)
            && (anc.r.Ok? ==> Files(anc.r.value) == map[] && Readable(anc.repo, anc.r.value) && Extends(repo, anc.repo))
            && (anc.r.Err? ==> anc == Done(Err(if g.shallow then ShallowHistory else UnrelatedHistories), repo))
  {
  }

  /** Two bases with one merge base of their own: the tree to merge from is their three-way merge
      from there, and when that is clean it holds at every node what the three call for. */
  lemma CrissCross(repo: Repo, g: Graph, spec: Spec, a: Hash, b: Hash, b1: CommitObj, b2: CommitObj, root: CommitObj)
    requires g.mergeBase(a, b) == Ok([b1, b2]) && g.mergeBase(b1.hash, b2.hash) == Ok([root]) && !spec.trivialOnly
    ensures var anc, m := AncestorOf(repo, g, spec, a, b, 0), MergedTrees(repo, spec, root.tree, b1.tree, b2.tree);
            var x := TreesInput(repo, spec, root.tree, b1.tree, b2.tree);
            && (anc.r.Ok? <==> m.r.Ok?) && (anc.r.Ok? ==> anc.r.value == m.r.value.tree)
            && (anc.r.Ok? && m.r.value.clean ==>
                  && x.base == Files(root.tree) && x.ours == Files(b1.tree) && x.theirs == Files(b2.tree) && LoadAttrs(repo, x.ours).Ok?
                  && exists nodes :: CleanBy(repo, spec.(attrs := LoadAttrs(repo, x.ours).value), x, nodes, Files(anc.r.value)))
  {
    hide MergedTrees, CleanBy, MergeOf, LoadAttrs, Took, Whole, LeafyInput;
    var bases := [b1, b2];
    assert bases[0] == b1 && bases[1] == b2;
    SingleBase(repo, g, spec, b1.hash, b2.hash, 1, root.tree);
    assert FoldedUpTo(repo, g, spec, bases, 1, 0) == Done(Ok(b1), repo);
    var m, x := MergedTrees(repo, spec, root.tree, b1.tree, b2.tree), TreesInput(repo, spec, root.tree, b1.tree, b2.tree);
    if m.r.Ok? && m.r.value.clean {
      AllReadable(repo, spec, root.tree, b1.tree, b2.tree);
      TreesMerge(repo, spec, root.tree, b1.tree, b2.tree);
      var nodes, want := CleanMerge(repo, spec, x, m);
      TookFiles(m.r.value, want);
    }
  }

  lemma AllReadable(repo: Repo, spec: Spec, base: Hash, ours: Hash, theirs: Hash)
    requires MergedTrees(repo, spec, base, ours, theirs).r.Ok?
    ensures Readable(repo, base) && Readable(repo, ours) && Readable(repo, theirs)
  {
    hide MergedMaps;
  }

  // ---- Without a flat union the order matters --------------------------------------------------------------------

  const A := map["a" := X]
  const AB := map["a/b" := X]

  /** One head deletes `a`, the other replaces it by `a/b`.  The heads are compatible, and merging
      the deletion first succeeds, but merging it second does not. */
  lemma OrderMatters(repo: Repo, g: Graph, spec: Spec, head: CommitObj, gone: CommitObj, moved: CommitObj, base: Hash)
    requires SharedBase(repo, g, spec, head, [gone, moved], base) && SharedBase(repo, g, spec, head, [moved, gone], base)
    requires Files(base) == Files(head.tree) == A && Files(gone.tree) == map[] && Files(moved.tree) == AB
    ensures Compatible(A, [A, map[], AB])
    ensures var done := OctopusOf(repo, g, spec, head, [gone, moved]); done.r.Ok? && Files(done.r.value.tree) == AB
    ensures OctopusOf(repo, g, spec, head, [moved, gone]).r == Err(OctopusConflict)
  {
    hide OctopusOf, SharedBase, Took, FlatSteps, Compatible, Combines;
    var m, n := TreeMaps(head, [gone, moved]), TreeMaps(head, [moved, gone]);
    assert m == [A, map[], AB] && n == [A, AB, map[]];
    OctopusLaw(repo, g, spec, head, [gone, moved], base);
    OctopusLaw(repo, g, spec, head, [moved, gone], base);
    FoldsFirst(m);
    HeadsAgree(m);
    FoldsSecond(n);
    TookFiles(OctopusOf(repo, g, spec, head, [gone, moved]).r.value, AB);
  }

  lemma FoldsSecond(n: seq<LeafMap>)
    requires n == [A, AB, map[]]
    ensures !FlatSteps(A, n)
  {
    assert n[..1] == [A] && Fold(A, n[..1]) == A;
    var ps := A.Keys + AB.Keys;
    assert "a" in ps && "a/b" in ps && Below("a/b", "a");
    assert !PrefixFree(Fold(A, n[..1]).Keys + n[1].Keys);
  }

  lemma HeadsAgree(m: seq<LeafMap>)
    requires m == [A, map[], AB]
    ensures Compatible(A, m)
  {
  }

  lemma FoldsFirst(m: seq<LeafMap>)
    requires m == [A, map[], AB]
    ensures FlatSteps(A, m) && Fold(A, m) == AB
  {
    assert m[..1] == [A] && m[..2] == [A, map[]] && m[..2][..1] == [A];
    assert Fold(A, m[..1]) == A;
    assert TakeAll(A, A, map[]) == map[];
    assert Fold(A, m[..2]) == map[];
    assert TakeAll(A, map[], AB) == AB;
  }
}
