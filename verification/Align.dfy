/** Lining up three path maps under two rename maps: one node per path of the result. */
module Align {
  import opened Wrappers
  import opened Leaves
  import opened Renames

  datatype Forced = NotForced | MdOurs | MdTheirs | KeepStages

  datatype Node = Node(base: Option<Leaf>, ours: Option<Leaf>, theirs: Option<Leaf>,
                       oursRenamed: bool, theirsRenamed: bool, renameRename: bool, forced: Forced)

  const Blank := Node(None, None, None, false, false, false, NotForced)

  type Nodes = map<Path, Node>

  /** Three path maps and the renames of each side. */
  datatype Input = Input(base: LeafMap, ours: LeafMap, theirs: LeafMap, oRen: RenameMap, tRen: RenameMap)

  ghost predicate Valid(x: Input) {
    Matches(Gone(x.base, x.ours), Gone(x.ours, x.base), x.oRen) && Matches(Gone(x.base, x.theirs), Gone(x.theirs, x.base), x.tRen)
  }

  /** The same merge seen from the other side. */
  function Flip(x: Input): Input { Input(x.base, x.theirs, x.ours, x.tRen, x.oRen) }

  function FlipNode(n: Node): Node {
    Node(n.base, n.theirs, n.ours, n.theirsRenamed, n.oursRenamed, n.renameRename,
         match n.forced case MdOurs => MdTheirs case MdTheirs => MdOurs case f => f)
  }

  function FlipNodes(nodes: Nodes): Nodes { map q | q in nodes :: FlipNode(nodes[q]) }

  // ---- What one base path contributes -----------------------------------------------------------

  /** Both sides renamed the path, to different places. */
  predicate Split(x: Input, p: Path) { p in x.oRen && p in x.tRen && x.oRen[p] != x.tRen[p] }

  function Dest(x: Input, p: Path): Path {
    if p in x.oRen then x.oRen[p] else if p in x.tRen then x.tRen[p] else p
  }

  predicate Reaches(x: Input, p: Path, q: Path) {
    if Split(x, p) then q == x.oRen[p] || q == x.tRen[p] else q == Dest(x, p)
  }

  function OfferBase(x: Input, p: Path, q: Path): Option<Leaf> {
    if Split(x, p) || q != Dest(x, p) then None else Get(x.base, p)
  }

  function OfferOurs(x: Input, p: Path, q: Path): Option<Leaf> {
    if Split(x, p) then (if q == x.oRen[p] then Get(x.ours, q) else None)
    else if q != Dest(x, p) then None
    else Get(x.ours, if p in x.oRen then q else p)
  }

  function OfferTheirs(x: Input, p: Path, q: Path): Option<Leaf> { OfferOurs(Flip(x), p, q) }

  /** The first value put into a slot stays. */
  function OrElse<T>(a: Option<T>, b: Option<T>): Option<T> { if a.Some? then a else b }

  /** A node after base path `p` has been aligned to it. */
  function Fill(x: Input, p: Path, q: Path, n: Node): Node {
    n.(base := OrElse(n.base, OfferBase(x, p, q)),
       ours := OrElse(n.ours, OfferOurs(x, p, q)),
       theirs := OrElse(n.theirs, OfferTheirs(x, p, q)),
       oursRenamed := n.oursRenamed || (p in x.oRen && q == x.oRen[p]),
       theirsRenamed := n.theirsRenamed || (p in x.tRen && q == x.tRen[p]),
       renameRename := n.renameRename || Split(x, p))
  }

  function At(nodes: Nodes, q: Path): Node { if q in nodes then nodes[q] else Blank }

  // ---- What an aligned node map is -----------------------------------------------------------------

  ghost predicate Slot(v: Option<Leaf>, offer: Path -> Option<Leaf>, done: set<Path>) {
    if v.None? then forall p :: p in done ==> offer(p) == None
    else exists p :: p in done && offer(p) == v
  }

  /** A node holds one of the values that the base paths in `done` offer for each slot. */
  ghost predicate Filled(x: Input, done: set<Path>, q: Path, n: Node) {
    && Slot(n.base, p => OfferBase(x, p, q), done)
    && Slot(n.ours, p => OfferOurs(x, p, q), done)
    && Slot(n.theirs, p => OfferTheirs(x, p, q), done)
    && (n.oursRenamed <==> exists p :: p in done && p in x.oRen && q == x.oRen[p])
    && (n.theirsRenamed <==> exists p :: p in done && p in x.tRen && q == x.tRen[p])
    && (n.renameRename <==> exists p :: p in done && Split(x, p) && Reaches(x, p, q))
    && n.forced == NotForced
  }

  ghost predicate Reached(x: Input, done: set<Path>, q: Path) { exists p :: p in done && Reaches(x, p, q) }

  predicate Uses(x: Input, p: Path, q: Path) {
    q == p || (p in x.oRen && q == x.oRen[p]) || (p in x.tRen && q == x.tRen[p])
  }

  ghost predicate Consumed(x: Input, done: set<Path>, q: Path) { exists p :: p in done && Uses(x, p, q) }

  ghost predicate PartAligned(x: Input, done: set<Path>, nodes: Nodes) {
    && (forall q :: q in nodes <==> Reached(x, done, q))
    && forall q :: q in nodes ==> Filled(x, done, q, nodes[q])
  }

  /** A node for every place a base path went to, and one for every other path that no base
      path used up. */
  ghost predicate Aligned(x: Input, nodes: Nodes) {
    && (forall q :: q in nodes <==>
          Reached(x, x.base.Keys, q) || ((q in x.ours || q in x.theirs) && !Consumed(x, x.base.Keys, q)))
    && (forall q :: q in nodes && Reached(x, x.base.Keys, q) ==> Filled(x, x.base.Keys, q, nodes[q]))
    && (forall q :: q in nodes && !Reached(x, x.base.Keys, q) ==>
          nodes[q] == Blank.(ours := Get(x.ours, q), theirs := Get(x.theirs, q)))
  }

  // ---- The algorithm, as a function of the order of the hash maps ----------------------------------

  ghost predicate FilledFrom(x: Input, p: Path, before: Nodes, after: Nodes) {
    && (forall q :: q in after <==> q in before || Reaches(x, p, q))
    && forall q :: q in after ==> after[q] == if Reaches(x, p, q) then Fill(x, p, q, At(before, q)) else before[q]
  }

  /** The nodes after one more base path. */
  function PutBase(x: Input, p: Path, nodes: Nodes): Nodes {
    if Split(x, p) then
      var o, t := x.oRen[p], x.tRen[p];
      nodes[o := Fill(x, p, o, At(nodes, o))][t := Fill(x, p, t, At(nodes, t))]
    else
      nodes[Dest(x, p) := Fill(x, p, Dest(x, p), At(nodes, Dest(x, p)))]
  }

  function AlignBase(x: Input, keys: seq<Path>): Nodes {
    if keys == [] then map[] else PutBase(x, keys[|keys| - 1], AlignBase(x, keys[..|keys| - 1]))
  }

  /** With a node for every other path that is not used up. */
  ghost function WithRest(x: Input, nodes: Nodes): Nodes {
    map q | q in nodes.Keys + x.ours.Keys + x.theirs.Keys && (q in nodes || !Consumed(x, x.base.Keys, q)) ::
      if q in nodes then nodes[q] else Blank.(ours := Get(x.ours, q), theirs := Get(x.theirs, q))
  }

  ghost function AlignOf(order: Order, x: Input): Nodes { WithRest(x, AlignBase(x, order(x.base.Keys))) }

  // ---- The algorithm ------------------------------------------------------------------------------------

  /** Both sides renamed `p`, apart. */
  method PutSplit(x: Input, p: Path, nodes: Nodes) returns (r: Nodes)
    requires Split(x, p)
    ensures r == PutBase(x, p, nodes) && FilledFrom(x, p, nodes, r)
  {
    hide FilledFrom, Fill;
    var o, t := x.oRen[p], x.tRen[p];
    var n := At(nodes, o);
    if n.ours.None? { n := n.(ours := Get(x.ours, o)); }
    n := n.(oursRenamed := true, renameRename := true);
    r := nodes[o := n];
    n := At(r, t);
    if n.theirs.None? { n := n.(theirs := Get(x.theirs, t)); }
    n := n.(theirsRenamed := true, renameRename := true);
    r := r[t := n];
    SplitFills(x, p, At(nodes, o), At(nodes, t));
    SplitFilled(x, p, nodes);
  }

  lemma SplitFills(x: Input, p: Path, a: Node, b: Node)
    requires Split(x, p)
    ensures Fill(x, p, x.oRen[p], a) == a.(ours := OrElse(a.ours, Get(x.ours, x.oRen[p])), oursRenamed := true, renameRename := true)
    ensures Fill(x, p, x.tRen[p], b) == b.(theirs := OrElse(b.theirs, Get(x.theirs, x.tRen[p])), theirsRenamed := true, renameRename := true)
  {
  }

  lemma SplitFilled(x: Input, p: Path, nodes: Nodes)
    requires Split(x, p)
    ensures var o, t := x.oRen[p], x.tRen[p];
            FilledFrom(x, p, nodes, nodes[o := Fill(x, p, o, At(nodes, o))][t := Fill(x, p, t, At(nodes, t))])
  {
  }

  method PutPlain(x: Input, p: Path, nodes: Nodes) returns (r: Nodes)
    requires !Split(x, p) && p in x.base
    ensures r == PutBase(x, p, nodes) && FilledFrom(x, p, nodes, r)
  {
    hide FilledFrom, OfferOurs;
    var dest := Dest(x, p);
    var was := At(nodes, dest);
    var n := if was.base.None? then was.(base := Some(x.base[p])) else was;
    n := PlainOurs(x, p, n);
    n := PlainTheirs(x, p, n);
    assert n == Fill(x, p, dest, was);
    r := nodes[dest := n];
    PlainFilled(x, p, nodes);
  }

  method PlainOurs(x: Input, p: Path, n: Node) returns (r: Node)
    requires !Split(x, p)
    ensures r == n.(ours := OrElse(n.ours, OfferOurs(x, p, Dest(x, p))), oursRenamed := n.oursRenamed || p in x.oRen)
  {
    r := n;
    if p in x.oRen {
      if n.ours.None? { r := r.(ours := Get(x.ours, x.oRen[p])); }
      r := r.(oursRenamed := true);
    } else if p in x.ours {
      if n.ours.None? { r := r.(ours := Some(x.ours[p])); }
    }
  }

  method PlainTheirs(x: Input, p: Path, n: Node) returns (r: Node)
    requires !Split(x, p)
    ensures r == n.(theirs := OrElse(n.theirs, OfferTheirs(x, p, Dest(x, p))), theirsRenamed := n.theirsRenamed || p in x.tRen)
  {
    r := n;
    if p in x.tRen {
      if n.theirs.None? { r := r.(theirs := Get(x.theirs, x.tRen[p])); }
      r := r.(theirsRenamed := true);
    } else if p in x.theirs {
      if n.theirs.None? { r := r.(theirs := Some(x.theirs[p])); }
    }
  }

  lemma PlainFilled(x: Input, p: Path, nodes: Nodes)
    requires !Split(x, p)
    ensures FilledFrom(x, p, nodes, nodes[Dest(x, p) := Fill(x, p, Dest(x, p), At(nodes, Dest(x, p)))])
  {
  }

  lemma FillKeeps(x: Input, done: set<Path>, p: Path, q: Path, n: Node)
    requires Filled(x, done, q, n) || (n == Blank && !Reached(x, done, q))
    requires Reaches(x, p, q)
    ensures Filled(x, done + {p}, q, Fill(x, p, q, n))
  {
    if n == Blank && !Reached(x, done, q) { BlankFilled(x, done, q); }
    var m := Fill(x, p, q, n);
    SlotGrows(n.base, j => OfferBase(x, j, q), done, p, m.base);
    SlotGrows(n.ours, j => OfferOurs(x, j, q), done, p, m.ours);
    SlotGrows(n.theirs, j => OfferTheirs(x, j, q), done, p, m.theirs);
    assert (forall j :: j in done + {p} <==> j in done || j == p);
  }

  lemma BlankFilled(x: Input, done: set<Path>, q: Path)
    requires !Reached(x, done, q)
    ensures Filled(x, done, q, Blank)
  {
  }

  lemma SlotGrows(v: Option<Leaf>, offer: Path -> Option<Leaf>, done: set<Path>, p: Path, w: Option<Leaf>)
    requires Slot(v, offer, done) && w == OrElse(v, offer(p))
    ensures Slot(w, offer, done + {p})
  {
  }

  lemma UnreachedKeeps(x: Input, done: set<Path>, p: Path, q: Path, n: Node)
    requires Filled(x, done, q, n) && !Reaches(x, p, q)
    ensures Filled(x, done + {p}, q, n)
  {
    SlotGrows(n.base, j => OfferBase(x, j, q), done, p, n.base);
    SlotGrows(n.ours, j => OfferOurs(x, j, q), done, p, n.ours);
    SlotGrows(n.theirs, j => OfferTheirs(x, j, q), done, p, n.theirs);
    assert (forall j :: j in done + {p} <==> j in done || j == p);
  }

  lemma StepAligned(x: Input, done: set<Path>, p: Path, before: Nodes, after: Nodes)
    requires PartAligned(x, done, before) && FilledFrom(x, p, before, after)
    ensures PartAligned(x, done + {p}, after)
  {
    hide Filled, Fill, Reaches;
    forall q ensures q in after <==> Reached(x, done + {p}, q) {
      if Reached(x, done, q) {
        var j :| j in done && Reaches(x, j, q);
        assert j in done + {p};
      }
      assert p in done + {p};
    }
    forall q | q in after ensures Filled(x, done + {p}, q, after[q]) {
      if Reaches(x, p, q) {
        FillKeeps(x, done, p, q, At(before, q));
      } else {
        UnreachedKeeps(x, done, p, q, before[q]);
      }
    }
  }

  lemma {:induction false} BaseAligned(x: Input, keys: seq<Path>)
    ensures PartAligned(x, Members(keys), AlignBase(x, keys))
  {
    hide Filled, Reaches, PartAligned;
    if keys == [] {
      StartAligned(x);
    } else {
      var front, p := keys[..|keys| - 1], keys[|keys| - 1];
      BaseAligned(x, front);
      PutFilled(x, p, AlignBase(x, front));
      StepAligned(x, Members(front), p, AlignBase(x, front), AlignBase(x, keys));
      assert keys == front + [p];
      assert Members(front) + {p} == Members(keys);
    }
  }

  lemma StartAligned(x: Input)
    ensures PartAligned(x, Members([]), AlignBase(x, []))
  {
  }

  lemma PutFilled(x: Input, p: Path, nodes: Nodes)
    ensures FilledFrom(x, p, nodes, PutBase(x, p, nodes))
  {
    if Split(x, p) { SplitFilled(x, p, nodes); } else { PlainFilled(x, p, nodes); }
  }

  /** What the function gives is an alignment. */
  lemma AlignOfAligned(order: Order, x: Input)
    ensures Aligned(x, AlignOf(order, x))
  {
    hide PartAligned, WithRest, AlignBase;
    var keys := order(x.base.Keys);
    assert Enumerates(keys, x.base.Keys);
    BaseAligned(x, keys);
    assert Members(keys) == x.base.Keys;
    RestAligned(x, AlignBase(x, keys));
  }

  lemma RestAligned(x: Input, nodes: Nodes)
    requires PartAligned(x, x.base.Keys, nodes)
    ensures Aligned(x, WithRest(x, nodes))
  {
    hide Filled, Reached, Consumed;
    forall q | Reached(x, x.base.Keys, q) ensures Consumed(x, x.base.Keys, q) { ReachedUsed(x, x.base.Keys, q); }
  }

  method UsePaths(x: Input, p: Path, consumed: set<Path>, ghost done: set<Path>) returns (r: set<Path>)
    requires forall q :: q in consumed <==> Consumed(x, done, q)
    ensures forall q :: q in r <==> Consumed(x, done + {p}, q)
  {
    r := consumed + {p};
    if p in x.oRen { r := r + {x.oRen[p]}; }
    if p in x.tRen { r := r + {x.tRen[p]}; }
    forall q ensures q in r <==> Consumed(x, done + {p}, q) {
      if Consumed(x, done, q) {
        var j :| j in done && Uses(x, j, q);
        assert j in done + {p};
      }
      assert p in done + {p};
    }
  }

  /** Lines up the three trees: base paths in the order of their map, then what each side has
      besides. */
  method AlignTrees(order: Order, x: Input) returns (nodes: Nodes)
    ensures nodes == AlignOf(order, x) && Aligned(x, nodes)
  {
    hide Filled, Reaches, Uses, Split, PutBase, FilledFrom, PartAligned, WithRest, Aligned;
    nodes := map[];
    var consumed: set<Path> := {};
    var keys := order(x.base.Keys);
    assert Enumerates(keys, x.base.Keys);
    ghost var done: set<Path> := {};
    var i := 0;
    while i < |keys|
      invariant 0 <= i <= |keys| && nodes == AlignBase(x, keys[..i])
      invariant done == Members(keys[..i]) && forall q :: q in consumed <==> Consumed(x, done, q)
    {
      var p := keys[i];
      assert keys[..i + 1] == keys[..i] + [p] && keys[..i + 1][..i] == keys[..i];
      assert p in x.base.Keys;
      if Split(x, p) { nodes := PutSplit(x, p, nodes); } else { nodes := PutPlain(x, p, nodes); }
      consumed := UsePaths(x, p, consumed, done);
      done := done + {p};
      i := i + 1;
    }
    assert keys[..i] == keys && done == x.base.Keys;
    AlignOfAligned(order, x);
    BaseAligned(x, keys);
    nodes := PutRest(x, consumed, nodes);
  }

  /** What the sides have besides. */
  method PutRest(x: Input, consumed: set<Path>, nodes: Nodes) returns (r: Nodes)
    requires PartAligned(x, x.base.Keys, nodes) && forall q :: q in consumed <==> Consumed(x, x.base.Keys, q)
    ensures r == WithRest(x, nodes)
  {
    hide Filled, Reached, Consumed;
    forall q | q in nodes ensures q in consumed { ReachedUsed(x, x.base.Keys, q); }
    r := PutOurs(x, consumed, nodes);
    r := PutTheirs(x, consumed, r);
  }

  method PutOurs(x: Input, consumed: set<Path>, nodes: Nodes) returns (r: Nodes)
    requires nodes.Keys <= consumed
    ensures forall q :: q in r <==> q in nodes || (q in x.ours && q !in consumed)
    ensures forall q :: q in nodes ==> r[q] == nodes[q]
    ensures forall q :: q in r && q !in consumed ==> r[q] == Blank.(ours := Get(x.ours, q))
  {
    r := nodes;
    var todo := x.ours.Keys;
    while todo != {}
      invariant todo <= x.ours.Keys
      invariant forall q :: q in r <==> q in nodes || (q in x.ours && q !in todo && q !in consumed)
      invariant forall q :: q in nodes ==> r[q] == nodes[q]
      invariant forall q :: q in r && q !in consumed ==> r[q] == Blank.(ours := Get(x.ours, q))
      decreases todo
    {
      var q :| q in todo;
      todo := todo - {q};
      if q !in consumed {
        var n := At(r, q);
        if n.ours.None? { n := n.(ours := Some(x.ours[q])); }
        r := r[q := n];
      }
    }
  }

  method PutTheirs(x: Input, consumed: set<Path>, nodes: Nodes) returns (r: Nodes)
    requires forall q :: q in nodes && q !in consumed ==> nodes[q] == Blank.(ours := Get(x.ours, q)) && q in x.ours
    requires forall q :: q in x.ours && q !in consumed ==> q in nodes
    ensures forall q :: q in r <==> q in nodes || (q in x.theirs && q !in consumed)
    ensures forall q :: q in nodes && q in consumed ==> r[q] == nodes[q]
    ensures forall q :: q in r && q !in consumed ==> r[q] == Blank.(ours := Get(x.ours, q), theirs := Get(x.theirs, q))
  {
    r := nodes;
    var todo := x.theirs.Keys;
    while todo != {}
      invariant todo <= x.theirs.Keys
      invariant forall q :: q in r <==> q in nodes || (q in x.theirs && q !in todo && q !in consumed)
      invariant forall q :: q in nodes && q in consumed ==> r[q] == nodes[q]
      invariant forall q :: q in r && q !in consumed ==>
                  r[q] == Blank.(ours := Get(x.ours, q), theirs := if q in todo then None else Get(x.theirs, q))
      decreases todo
    {
      var q :| q in todo;
      todo := todo - {q};
      if q !in consumed {
        var n := At(r, q);
        if n.theirs.None? { n := n.(theirs := Some(x.theirs[q])); }
        r := r[q := n];
      }
    }
  }

  lemma ReachedUsed(x: Input, done: set<Path>, q: Path)
    requires Reached(x, done, q)
    ensures Consumed(x, done, q)
  {
  }

  // ---- Order and conservation -----------------------------------------------------------------------------

  /** A rename destination of one side is no path of the other, unless both made that rename. */
  ghost predicate Apart(x: Input) {
    && (forall p :: p in x.oRen && x.oRen[p] in x.theirs ==> p in x.tRen && x.tRen[p] == x.oRen[p])
    && (forall p :: p in x.tRen && x.tRen[p] in x.ours ==> p in x.oRen && x.oRen[p] == x.tRen[p])
  }

  lemma OneReaches(x: Input, p: Path, j: Path, q: Path)
    requires Valid(x) && Apart(x) && p in x.base && j in x.base && Reaches(x, p, q) && Reaches(x, j, q)
    ensures p == j
  {
    RenameEnds(x, p);
    RenameEnds(x, j);
  }

  lemma RenameEnds(x: Input, p: Path)
    requires Valid(x)
    ensures p in x.oRen ==> p in x.base && p !in x.ours && x.oRen[p] in x.ours && x.oRen[p] !in x.base
    ensures p in x.tRen ==> p in x.base && p !in x.theirs && x.tRen[p] in x.theirs && x.tRen[p] !in x.base
  {
    assert p in x.oRen ==> x.oRen[p] in x.oRen.Values;
    assert p in x.tRen ==> x.tRen[p] in x.tRen.Values;
  }

  lemma SlotOnce(v: Option<Leaf>, offer: Path -> Option<Leaf>, done: set<Path>, p: Path)
    requires Slot(v, offer, done) && p in done && forall j :: j in done && j != p ==> offer(j) == None
    ensures v == offer(p)
  {
  }

  /** Under `Apart` a node is what its one base path says. */
  lemma FilledOnce(x: Input, p: Path, q: Path, n: Node)
    requires Valid(x) && Apart(x) && p in x.base && Reaches(x, p, q) && Filled(x, x.base.Keys, q, n)
    ensures n == Fill(x, p, q, Blank)
  {
    forall j | j in x.base && j != p
      ensures !Reaches(x, j, q) && OfferBase(x, j, q) == None && OfferOurs(x, j, q) == None && OfferTheirs(x, j, q) == None
    {
      if Reaches(x, j, q) { OneReaches(x, p, j, q); }
    }
    SlotOnce(n.base, j => OfferBase(x, j, q), x.base.Keys, p);
    SlotOnce(n.ours, j => OfferOurs(x, j, q), x.base.Keys, p);
    SlotOnce(n.theirs, j => OfferTheirs(x, j, q), x.base.Keys, p);
    FlagsOnce(x, p, q, n);
  }

  lemma FlagsOnce(x: Input, p: Path, q: Path, n: Node)
    requires p in x.base && Reaches(x, p, q) && Filled(x, x.base.Keys, q, n)
    requires forall j :: j in x.base && j != p ==> !Reaches(x, j, q)
    ensures n.oursRenamed <==> p in x.oRen && q == x.oRen[p]
    ensures n.theirsRenamed <==> p in x.tRen && q == x.tRen[p]
    ensures n.renameRename <==> Split(x, p)
  {
    assert forall j :: j in x.base && j in x.oRen && q == x.oRen[j] ==> Reaches(x, j, q);
    assert forall j :: j in x.base && j in x.tRen && q == x.tRen[j] && !(j in x.oRen && !Split(x, j)) ==> Reaches(x, j, q);
    assert forall j :: j in x.base && j in x.tRen && q == x.tRen[j] ==> Reaches(x, j, q);
  }

  /** Under `Apart` a path that one side renamed is merged at its new place, with what the other side
      did to it at the old one; a path renamed twice, apart, goes to both places without a base. */
  lemma RenameFollowed(x: Input, nodes: Nodes, p: Path)
    requires Valid(x) && Apart(x) && Aligned(x, nodes) && p in x.base
    ensures p in x.oRen && p !in x.tRen ==>
              var q := x.oRen[p]; q in nodes && nodes[q] == Node(Get(x.base, p), Get(x.ours, q), Get(x.theirs, p), true, false, false, NotForced)
    ensures p !in x.oRen && p in x.tRen ==>
              var q := x.tRen[p]; q in nodes && nodes[q] == Node(Get(x.base, p), Get(x.ours, p), Get(x.theirs, q), false, true, false, NotForced)
    ensures p in x.oRen && p in x.tRen && x.oRen[p] == x.tRen[p] ==>
              var q := x.oRen[p]; q in nodes && nodes[q] == Node(Get(x.base, p), Get(x.ours, q), Get(x.theirs, q), true, true, false, NotForced)
    ensures p in x.oRen && p in x.tRen && x.oRen[p] != x.tRen[p] ==>
              var o, t := x.oRen[p], x.tRen[p];
              && o in nodes && nodes[o] == Node(None, Get(x.ours, o), None, true, false, true, NotForced)
              && t in nodes && nodes[t] == Node(None, None, Get(x.theirs, t), false, true, true, NotForced)
    ensures p !in x.oRen && p !in x.tRen ==> p in nodes && nodes[p] == Node(Get(x.base, p), Get(x.ours, p), Get(x.theirs, p), false, false, false, NotForced)
    ensures p in x.oRen || p in x.tRen ==> p !in nodes
  {
    hide Filled, Fill, Reaches, Reached, Consumed, Aligned, Apart;
    RenameEnds(x, p);
    if p in x.oRen || p in x.tRen { OldPlaceGone(x, nodes, p); }
    if p in x.oRen && p in x.tRen && x.oRen[p] != x.tRen[p] {
      FollowedTo(x, nodes, p, x.oRen[p]);
      FollowedTo(x, nodes, p, x.tRen[p]);
      SplitEnds(x, p);
    } else {
      FollowedTo(x, nodes, p, Dest(x, p));
      PlainEnds(x, p);
    }
  }

  lemma FollowedTo(x: Input, nodes: Nodes, p: Path, q: Path)
    requires Valid(x) && Apart(x) && Aligned(x, nodes) && p in x.base
    requires if Split(x, p) then q == x.oRen[p] || q == x.tRen[p] else q == Dest(x, p)
    ensures q in nodes && nodes[q] == Fill(x, p, q, Blank)
  {
    hide Filled, Fill;
    assert Reaches(x, p, q);
    FilledOnce(x, p, q, nodes[q]);
  }

  lemma OldPlaceGone(x: Input, nodes: Nodes, p: Path)
    requires Valid(x) && Apart(x) && Aligned(x, nodes) && p in x.base && (p in x.oRen || p in x.tRen)
    ensures p !in nodes
  {
    hide Filled, Fill, Reaches, Apart;
    assert Uses(x, p, p);
    forall j | j in x.base ensures !Reaches(x, j, p) { NotReached(x, j, p); }
  }

  lemma NotReached(x: Input, j: Path, p: Path)
    requires Valid(x) && j in x.base && p in x.base && (p in x.oRen || p in x.tRen)
    ensures !Reaches(x, j, p)
  {
    hide Matches;
    RenameEnds(x, j);
    RenameEnds(x, p);
  }

  lemma SplitEnds(x: Input, p: Path)
    requires Split(x, p)
    ensures Fill(x, p, x.oRen[p], Blank) == Node(None, Get(x.ours, x.oRen[p]), None, true, false, true, NotForced)
    ensures Fill(x, p, x.tRen[p], Blank) == Node(None, None, Get(x.theirs, x.tRen[p]), false, true, true, NotForced)
  {
  }

  lemma PlainEnds(x: Input, p: Path)
    requires p in x.base && !Split(x, p) && (p in x.oRen ==> x.oRen[p] != p) && (p in x.tRen ==> x.tRen[p] != p)
    ensures var q := Dest(x, p);
            Fill(x, p, q, Blank) == Node(Get(x.base, p), Get(x.ours, if p in x.oRen then q else p), Get(x.theirs, if p in x.tRen then q else p),
                                         p in x.oRen, p in x.tRen, false, NotForced)
  {
  }

  /** Under `Apart` the outcome does not depend on the order in which the maps are walked. */
  lemma AlignedOnce(x: Input, m: Nodes, n: Nodes)
    requires Valid(x) && Apart(x) && Aligned(x, m) && Aligned(x, n)
    ensures m == n
  {
    hide Filled, Reaches, Consumed;
    assert m.Keys == n.Keys;
    forall q | q in m ensures m[q] == n[q] {
      if Reached(x, x.base.Keys, q) {
        var p :| p in x.base.Keys && Reaches(x, p, q);
        FilledOnce(x, p, q, m[q]);
        FilledOnce(x, p, q, n[q]);
      }
    }
  }

  lemma FlipValid(x: Input)
    ensures Valid(x) ==> Valid(Flip(x))
    ensures forall p, q :: Reaches(Flip(x), p, q) <==> Reaches(x, p, q)
    ensures forall p, q :: Uses(Flip(x), p, q) <==> Uses(x, p, q)
    ensures forall p, q :: OfferBase(Flip(x), p, q) == OfferBase(x, p, q)
    ensures Flip(Flip(x)) == x
  {
  }

  lemma FlipFilled(x: Input, done: set<Path>, q: Path, n: Node)
    requires Filled(x, done, q, n)
    ensures Filled(Flip(x), done, q, FlipNode(n))
  {
    FlipValid(x);
    var m := FlipNode(n);
    SlotSame(n.base, p => OfferBase(x, p, q), p => OfferBase(Flip(x), p, q), done);
    SlotSame(n.ours, p => OfferOurs(x, p, q), p => OfferTheirs(Flip(x), p, q), done);
    SlotSame(n.theirs, p => OfferTheirs(x, p, q), p => OfferOurs(Flip(x), p, q), done);
    assert forall p :: Split(Flip(x), p) <==> Split(x, p);
  }

  lemma SlotSame(v: Option<Leaf>, f: Path -> Option<Leaf>, g: Path -> Option<Leaf>, done: set<Path>)
    requires Slot(v, f, done) && forall p :: p in done ==> f(p) == g(p)
    ensures Slot(v, g, done)
  {
  }

  lemma FlipReached(x: Input)
    ensures forall q :: Reached(Flip(x), x.base.Keys, q) <==> Reached(x, x.base.Keys, q)
    ensures forall q :: Consumed(Flip(x), x.base.Keys, q) <==> Consumed(x, x.base.Keys, q)
  {
  }

  /** Alignment treats the two sides alike. */
  lemma AlignFlip(x: Input, nodes: Nodes)
    requires Aligned(x, nodes)
    ensures Aligned(Flip(x), FlipNodes(nodes))
  {
    hide Filled, Reached, Consumed;
    FlipReached(x);
    forall q | q in nodes && Reached(x, x.base.Keys, q) ensures Filled(Flip(x), x.base.Keys, q, FlipNode(nodes[q])) {
      FlipFilled(x, x.base.Keys, q, nodes[q]);
    }
  }

  /** The node that a path of `theirs` belongs to. */
  function Home(x: Input, q: Path): Path { if q in x.base then Dest(x, q) else q }

  /** Every leaf of `theirs` sits in exactly one node, and no other leaf sits on that side. */
  ghost predicate TheirsKept(x: Input, nodes: Nodes) {
    && (forall q :: q in x.theirs ==> Home(x, q) in nodes && nodes[Home(x, q)].theirs == Some(x.theirs[q]))
    && (forall q, r :: q in x.theirs && r in x.theirs && q != r ==> Home(x, q) != Home(x, r))
    && (forall k :: k in nodes && nodes[k].theirs.Some? ==> exists q :: q in x.theirs && Home(x, q) == k)
  }

  ghost predicate OursKept(x: Input, nodes: Nodes) { TheirsKept(Flip(x), FlipNodes(nodes)) }

  /** Ours renamed `p` onto a path that theirs has too, and theirs either still has `p` or did
      not get that path by a rename of its own. */
  ghost predicate Clobbers(x: Input, p: Path) {
    p in x.oRen && x.oRen[p] in x.theirs && (p in x.theirs || x.oRen[p] !in x.tRen.Values)
  }

  lemma NoOffer(x: Input, q: Path, p: Path)
    requires Valid(x) && q in x.theirs && q !in x.base && q !in x.tRen.Values
    requires p in x.oRen && x.oRen[p] == q && p !in x.theirs
    ensures forall j :: j in x.base ==> OfferTheirs(x, j, q) == None
  {
  }

  lemma ClobberLoses(x: Input, nodes: Nodes, p: Path)
    requires Valid(x) && Aligned(x, nodes) && Clobbers(x, p)
    ensures !TheirsKept(x, nodes)
  {
    hide Aligned;
    RenameEnds(x, p);
    var q := x.oRen[p];
    if p in x.theirs {
      assert Home(x, p) == q == Home(x, q);
    } else {
      NoOffer(x, q, p);
      assert Reaches(x, p, q);
      NodeFilled(x, nodes, p, q);
      assert nodes[q].theirs.None?;
      assert Home(x, q) == q;
    }
  }

  lemma NodeFilled(x: Input, nodes: Nodes, p: Path, q: Path)
    requires Aligned(x, nodes) && p in x.base && Reaches(x, p, q)
    ensures q in nodes && Filled(x, x.base.Keys, q, nodes[q])
  {
  }

  /** The only leaf offered for the slot of `q`'s home is `q`'s own. */
  lemma HomeOffer(x: Input, q: Path, p: Path, j: Path)
    requires Valid(x) && q in x.theirs && (forall i :: !Clobbers(x, i)) && j in x.base
    requires if q in x.base then p == q else p in x.tRen && x.tRen[p] == q
    ensures OfferTheirs(x, p, Home(x, q)) == Some(x.theirs[q])
    ensures j != p ==> OfferTheirs(x, j, Home(x, q)) == None
  {
    RenameEnds(x, p);
    RenameEnds(x, j);
    assert !Clobbers(x, j) && !Clobbers(x, p);
    if p in x.oRen && j in x.tRen && x.tRen[j] == x.oRen[p] {
      assert x.oRen[p] in x.theirs;
    }
  }

  lemma KeptAt(x: Input, nodes: Nodes, q: Path)
    requires Valid(x) && Aligned(x, nodes) && q in x.theirs && forall i :: !Clobbers(x, i)
    ensures Home(x, q) in nodes && nodes[Home(x, q)].theirs == Some(x.theirs[q])
  {
    var h := Home(x, q);
    if q in x.base || q in x.tRen.Values {
      var p :| if q in x.base then p == q else p in x.tRen && x.tRen[p] == q;
      RenameEnds(x, p);
      assert Reaches(x, p, h);
      hide Aligned;
      NodeFilled(x, nodes, p, h);
      forall j | j in x.base && j != p ensures OfferTheirs(x, j, h) == None { HomeOffer(x, q, p, j); }
      HomeOffer(x, q, p, p);
      SlotOnce(nodes[h].theirs, j => OfferTheirs(x, j, h), x.base.Keys, p);
    } else {
      Unused(x, q);
    }
  }

  lemma Unused(x: Input, q: Path)
    requires Valid(x) && q in x.theirs && q !in x.base && q !in x.tRen.Values && forall i :: !Clobbers(x, i)
    ensures !Consumed(x, x.base.Keys, q) && !Reached(x, x.base.Keys, q)
  {
    forall j | j in x.base ensures !Uses(x, j, q) && !Reaches(x, j, q) {
      assert !Clobbers(x, j);
      assert j in x.tRen ==> x.tRen[j] in x.tRen.Values;
    }
  }

  lemma HomesApart(x: Input, q: Path, r: Path)
    requires Valid(x) && q in x.theirs && r in x.theirs && q != r && forall i :: !Clobbers(x, i)
    ensures Home(x, q) != Home(x, r)
  {
    RenameEnds(x, q);
    RenameEnds(x, r);
    assert !Clobbers(x, q) && !Clobbers(x, r);
  }

  lemma HasHome(x: Input, nodes: Nodes, k: Path)
    requires Valid(x) && Aligned(x, nodes) && k in nodes && nodes[k].theirs.Some?
    ensures exists q :: q in x.theirs && Home(x, q) == k
  {
    hide Valid, OfferOurs;
    if Reached(x, x.base.Keys, k) {
      hide Aligned;
      var j :| j in x.base && Reaches(x, j, k);
      NodeFilled(x, nodes, j, k);
      var p :| p in x.base.Keys && OfferTheirs(x, p, k) == nodes[k].theirs;
      OfferHome(x, p, k);
    } else {
      assert k in x.theirs;
      assert Uses(x, k, k);
      assert Home(x, k) == k;
    }
  }

  lemma OfferHome(x: Input, p: Path, k: Path)
    requires Valid(x) && p in x.base && OfferTheirs(x, p, k).Some?
    ensures exists q :: q in x.theirs && Home(x, q) == k
  {
    RenameEnds(x, p);
    var q := if p in x.tRen then x.tRen[p] else p;
    assert q in x.theirs && Home(x, q) == k;
  }

  /** Alignment keeps every leaf of `theirs`, in exactly one node each, exactly when no rename
      of ours lands on an unrelated path of theirs.  The code does not check this. */
  lemma TheirsKeptExactly(x: Input, nodes: Nodes)
    requires Valid(x) && Aligned(x, nodes)
    ensures TheirsKept(x, nodes) <==> forall p :: !Clobbers(x, p)
  {
    hide Valid, Aligned, Clobbers, Home;
    if p :| Clobbers(x, p) {
      ClobberLoses(x, nodes, p);
    } else {
      forall q | q in x.theirs ensures Home(x, q) in nodes && nodes[Home(x, q)].theirs == Some(x.theirs[q]) { KeptAt(x, nodes, q); }
      forall q, r | q in x.theirs && r in x.theirs && q != r ensures Home(x, q) != Home(x, r) { HomesApart(x, q, r); }
      forall k | k in nodes && nodes[k].theirs.Some? ensures exists q :: q in x.theirs && Home(x, q) == k { HasHome(x, nodes, k); }
    }
  }

  /** The same on the other side. */
  lemma OursKeptExactly(x: Input, nodes: Nodes)
    requires Valid(x) && Aligned(x, nodes)
    ensures OursKept(x, nodes) <==> forall p :: !Clobbers(Flip(x), p)
  {
    FlipValid(x);
    AlignFlip(x, nodes);
    TheirsKeptExactly(Flip(x), FlipNodes(nodes));
  }

  /** Under `Apart` both sides are kept. */
  lemma ApartKeeps(x: Input, nodes: Nodes)
    requires Valid(x) && Aligned(x, nodes) && Apart(x)
    ensures TheirsKept(x, nodes) && OursKept(x, nodes)
  {
    forall p ensures !Clobbers(x, p) && !Clobbers(Flip(x), p) {
      RenameEnds(x, p);
    }
    TheirsKeptExactly(x, nodes);
    OursKeptExactly(x, nodes);
  }
}
