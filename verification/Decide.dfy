/** Directory/file conflicts between nodes, and what becomes of each node. */
module Decide {
  import opened Wrappers
  import opened Sorting
  import opened Leaves
  import opened Trees
  import opened Align

  /** `attrs` is the text of our attributes file, once it is read. */
  datatype Spec = Spec(renames: bool, renameThreshold: int, trivialOnly: bool, oursLabel: string, theirsLabel: string,
                       allowUnrelated: bool, autoMerge: bool, attrs: Option<string>)

  datatype OutPath = OutPath(path: Path, resolved: Option<Leaf>, base: Option<Leaf>, ours: Option<Leaf>, theirs: Option<Leaf>,
                             marker: Option<string>, work: Option<Leaf>, writeFile: bool, conflict: bool, workMode: nat)

  // ---- Directory/file conflicts ----------------------------------------------------------------

  predicate Live(n: Node) { n.ours.Some? || n.theirs.Some? }

  /** A side's file sits where a side's file has a directory. */
  ghost predicate Clash(nodes: Nodes, p: Path) {
    p in nodes && Live(nodes[p]) && exists k :: k in nodes && Below(k, p) && Live(nodes[k])
  }

  ghost predicate Marked(nodes: Nodes) { exists q :: q in nodes && nodes[q].forced != NotForced }

  /** The paths of the nodes in byte order. */
  function KeysOf(order: Order, nodes: Nodes): seq<Path> { Sort(StringLe, order(nodes.Keys)) }

  lemma KeysOfNodes(order: Order, nodes: Nodes)
    ensures Increasing(KeysOf(order, nodes)) && forall k :: k in KeysOf(order, nodes) <==> k in nodes
  {
    var list := order(nodes.Keys);
    assert Enumerates(list, nodes.Keys);
    StringOrder();
    SortIsSorted(StringLe, list);
    SortedDistinct(list, KeysOf(order, nodes));
  }

  predicate HasBelow(keys: seq<Path>, path: Path) { exists i :: 0 <= i < |keys| && Below(keys[i], path) }

  method HasChildKey(keys: seq<Path>, path: Path) returns (b: bool)
    ensures b <==> HasBelow(keys, path)
  {
    var i := 0;
    while i < |keys|
      invariant 0 <= i <= |keys| && forall j :: 0 <= j < i ==> !Below(keys[j], path)
    {
      if Below(keys[i], path) { return true; }
      i := i + 1;
    }
    b := false;
  }

  datatype Side = Ours | Theirs

  function SideOf(n: Node, side: Side): Option<Leaf> { if side.Ours? then n.ours else n.theirs }

  predicate HasDir(nodes: Nodes, keys: seq<Path>, path: Path, side: Side) {
    exists i :: 0 <= i < |keys| && Below(keys[i], path) && keys[i] in nodes && SideOf(nodes[keys[i]], side).Some?
  }

  method SideHasChild(nodes: Nodes, keys: seq<Path>, path: Path, side: Side) returns (b: bool)
    ensures b <==> HasDir(nodes, keys, path, side)
  {
    var i := 0;
    while i < |keys|
      invariant 0 <= i <= |keys|
      invariant forall j :: 0 <= j < i && Below(keys[j], path) && keys[j] in nodes ==> SideOf(nodes[keys[j]], side).None?
    {
      if Below(keys[i], path) && keys[i] in nodes && SideOf(nodes[keys[i]], side).Some? { return true; }
      i := i + 1;
    }
    b := false;
  }

  function Opposite(side: Side): Side { if side.Ours? then Theirs else Ours }

  function LeafAt(nodes: Nodes, p: Path, side: Side): Option<Leaf> { SideOf(At(nodes, p), side) }

  /** Without one side's leaf and the base. */
  function Bared(n: Node, which: Side): Node {
    if which.Ours? then n.(base := None, ours := None) else n.(base := None, theirs := None)
  }

  /** With one side's leaf of `from`, unless there is one, and marked. */
  function Housing(n: Node, from: Node, which: Side): Node {
    if which.Ours? then n.(base := OrElse(n.base, from.base), ours := OrElse(n.ours, from.ours), forced := MdOurs)
    else n.(base := OrElse(n.base, from.base), theirs := OrElse(n.theirs, from.theirs), forced := MdTheirs)
  }

  /** One side's file out of the way of the other side's directory. */
  function Relocated(nodes: Nodes, path: Path, name: string, which: Side): Nodes {
    var dest := path + "~" + name;
    var housed := nodes[dest := Housing(At(nodes, dest), At(nodes, path), which)];
    var src := Bared(At(housed, path), which);
    if src.base.None? && src.ours.None? && src.theirs.None? && !src.renameRename then housed - {path} else housed[path := src]
  }

  method Relocate(nodes: Nodes, path: Path, name: string, which: Side) returns (r: Nodes)
    requires path in nodes
    ensures r == Relocated(nodes, path, name, which)
  {
    var node := nodes[path];
    var dest := path + "~" + name;
    assert |dest| > |path|;
    var n := At(nodes, dest);
    match which {
      case Theirs => n := n.(base := OrElse(n.base, node.base), theirs := OrElse(n.theirs, node.theirs), forced := MdTheirs);
      case Ours => n := n.(base := OrElse(n.base, node.base), ours := OrElse(n.ours, node.ours), forced := MdOurs);
    }
    r := nodes[dest := n];
    var src := match which { case Theirs => r[path].(base := None, theirs := None) case Ours => r[path].(base := None, ours := None) };
    if src.base.None? && src.ours.None? && src.theirs.None? && !src.renameRename {
      r := r - {path};
    } else {
      r := r[path := src];
    }
  }

  /** What becomes of one path of the snapshot. */
  function SettledAt(nodes: Nodes, keys: seq<Path>, path: Path, oursLabel: string, theirsLabel: string): Nodes {
    if path !in nodes || !HasBelow(keys, path) then nodes
    else
      var n := nodes[path];
      var oursDir, theirsDir := HasDir(nodes, keys, path, Ours), HasDir(nodes, keys, path, Theirs);
      if (!oursDir && !theirsDir) || !Live(n) then nodes
      else if oursDir && n.ours.None? then Relocated(nodes, path, theirsLabel, Theirs)
      else if theirsDir && n.theirs.None? then Relocated(nodes, path, oursLabel, Ours)
      else nodes[path := n.(forced := KeepStages)]
  }

  method SettlePath(nodes: Nodes, keys: seq<Path>, path: Path, oursLabel: string, theirsLabel: string) returns (r: Nodes)
    ensures r == SettledAt(nodes, keys, path, oursLabel, theirsLabel)
  {
    r := nodes;
    var child := HasChildKey(keys, path);
    if !child || path !in nodes { return; }
    var node := nodes[path];
    var oursFile, theirsFile := node.ours.Some?, node.theirs.Some?;
    var oursDir := SideHasChild(nodes, keys, path, Ours);
    var theirsDir := SideHasChild(nodes, keys, path, Theirs);
    if !oursDir && !theirsDir { return; }
    if oursFile && theirsFile {
      r := nodes[path := node.(forced := KeepStages)];
    } else if oursDir && !oursFile && theirsFile {
      r := Relocate(nodes, path, theirsLabel, Theirs);
    } else if theirsDir && !theirsFile && oursFile {
      r := Relocate(nodes, path, oursLabel, Ours);
    } else if oursFile || theirsFile {
      r := nodes[path := node.(forced := KeepStages)];
    }
  }

  /** The nodes after the first `n` paths were settled. */
  function SettledUpTo(nodes: Nodes, keys: seq<Path>, n: nat, oursLabel: string, theirsLabel: string): Nodes
    requires n <= |keys|
  {
    if n == 0 then nodes
    else SettledAt(SettledUpTo(nodes, keys, n - 1, oursLabel, theirsLabel), keys, keys[n - 1], oursLabel, theirsLabel)
  }

  function Settle(order: Order, nodes: Nodes, oursLabel: string, theirsLabel: string): Nodes {
    SettledUpTo(nodes, KeysOf(order, nodes), |KeysOf(order, nodes)|, oursLabel, theirsLabel)
  }

  method ApplyDirectoryFile(order: Order, nodes: Nodes, oursLabel: string, theirsLabel: string) returns (r: Nodes)
    ensures r == Settle(order, nodes, oursLabel, theirsLabel)
  {
    hide SettledAt;
    var keys := KeysOf(order, nodes);
    r := nodes;
    var i := 0;
    while i < |keys|
      invariant 0 <= i <= |keys| && r == SettledUpTo(nodes, keys, i, oursLabel, theirsLabel)
    {
      r := SettlePath(r, keys, keys[i], oursLabel, theirsLabel);
      i := i + 1;
    }
  }

  // ---- What settling does ------------------------------------------------------------------------

  /** No leaf of either side changes place, except that one side's leaf at `path` goes to
      `dest` if nothing is there yet. */
  ghost predicate LeavesKept(nodes: Nodes, path: Path, dest: Path, which: Side, r: Nodes) {
    && (forall p :: p != path && p != dest ==> At(r, p) == At(nodes, p))
    && LeafAt(r, path, Opposite(which)) == LeafAt(nodes, path, Opposite(which))
    && LeafAt(r, dest, Opposite(which)) == LeafAt(nodes, dest, Opposite(which))
    && LeafAt(r, path, which) == None
    && LeafAt(r, dest, which) == OrElse(LeafAt(nodes, dest, which), LeafAt(nodes, path, which))
  }

  lemma RelocatedKeeps(nodes: Nodes, path: Path, name: string, which: Side)
    ensures LeavesKept(nodes, path, path + "~" + name, which, Relocated(nodes, path, name, which))
    ensures path + "~" + name in Relocated(nodes, path, name, which)
    ensures Relocated(nodes, path, name, which)[path + "~" + name].forced == if which.Ours? then MdOurs else MdTheirs
  {
    assert |path + "~" + name| > |path|;
  }

  lemma SettledMarks(nodes: Nodes, keys: seq<Path>, path: Path, oursLabel: string, theirsLabel: string)
    ensures var r := SettledAt(nodes, keys, path, oursLabel, theirsLabel); r == nodes || Marked(r)
    ensures path in keys && (forall k :: k in keys <==> k in nodes) ==>
              (if Clash(nodes, path) then Marked(SettledAt(nodes, keys, path, oursLabel, theirsLabel))
               else SettledAt(nodes, keys, path, oursLabel, theirsLabel) == nodes)
  {
    hide LeavesKept, Relocated;
    RelocatedKeeps(nodes, path, oursLabel, Ours);
    RelocatedKeeps(nodes, path, theirsLabel, Theirs);
    if path in nodes { assert nodes[path := nodes[path].(forced := KeepStages)][path].forced != NotForced; }
  }

  lemma {:induction false} SettledSoFar(nodes: Nodes, keys: seq<Path>, n: nat, oursLabel: string, theirsLabel: string)
    requires n <= |keys| && forall k :: k in keys <==> k in nodes
    ensures var r := SettledUpTo(nodes, keys, n, oursLabel, theirsLabel);
            || (r == nodes && forall j :: 0 <= j < n ==> !Clash(nodes, keys[j]))
            || (Marked(r) && exists j :: 0 <= j < n && Clash(nodes, keys[j]))
  {
    hide SettledAt;
    if n > 0 {
      SettledSoFar(nodes, keys, n - 1, oursLabel, theirsLabel);
      SettledMarks(SettledUpTo(nodes, keys, n - 1, oursLabel, theirsLabel), keys, keys[n - 1], oursLabel, theirsLabel);
      assert keys[n - 1] in keys;
    }
  }

  /** Settling leaves the nodes alone exactly when no file clashes with a directory; otherwise
      some node ends up marked as conflicting. */
  lemma SettleLaw(order: Order, nodes: Nodes, oursLabel: string, theirsLabel: string)
    ensures (forall p :: !Clash(nodes, p)) ==> Settle(order, nodes, oursLabel, theirsLabel) == nodes
    ensures (exists p :: Clash(nodes, p)) ==> Marked(Settle(order, nodes, oursLabel, theirsLabel))
  {
    hide SettledUpTo, KeysOf;
    var keys := KeysOf(order, nodes);
    KeysOfNodes(order, nodes);
    SettledSoFar(nodes, keys, |keys|, oursLabel, theirsLabel);
    if p :| Clash(nodes, p) { assert p in keys; }
  }

  function LabelOf(side: Side, oursLabel: string, theirsLabel: string): string { if side.Ours? then oursLabel else theirsLabel }

  /** No path of the snapshot is where another one would be moved to. */
  ghost predicate LabelsFree(keys: seq<Path>, oursLabel: string, theirsLabel: string) {
    forall k :: k in keys ==> k + "~" + oursLabel !in keys && k + "~" + theirsLabel !in keys
  }

  /** A leaf stays where it was or goes to its labelled place. */
  ghost predicate LeafStays(nodes: Nodes, r: Nodes, p: Path, side: Side, name: string) {
    LeafAt(nodes, p, side).Some? ==>
      LeafAt(r, p, side) == LeafAt(nodes, p, side) || LeafAt(r, p + "~" + name, side) == LeafAt(nodes, p, side)
  }

  /** Only the settled path and its labelled places change. */
  lemma SettledElsewhere(nodes: Nodes, keys: seq<Path>, path: Path, oursLabel: string, theirsLabel: string, p: Path)
    requires p != path && p != path + "~" + oursLabel && p != path + "~" + theirsLabel
    ensures At(SettledAt(nodes, keys, path, oursLabel, theirsLabel), p) == At(nodes, p)
  {
    hide Relocated;
    RelocatedKeeps(nodes, path, oursLabel, Ours);
    RelocatedKeeps(nodes, path, theirsLabel, Theirs);
  }

  lemma SettledHere(nodes: Nodes, keys: seq<Path>, path: Path, oursLabel: string, theirsLabel: string, side: Side)
    requires At(nodes, path + "~" + oursLabel).ours.None? && At(nodes, path + "~" + theirsLabel).theirs.None?
    ensures LeafStays(nodes, SettledAt(nodes, keys, path, oursLabel, theirsLabel), path, side, LabelOf(side, oursLabel, theirsLabel))
  {
    hide Relocated;
    RelocatedKeeps(nodes, path, oursLabel, Ours);
    RelocatedKeeps(nodes, path, theirsLabel, Theirs);
  }

  /** The labelled places of another path keep their leaves. */
  lemma SlotsElsewhere(nodes: Nodes, keys: seq<Path>, path: Path, oursLabel: string, theirsLabel: string, k: Path)
    requires path != k && path != k + "~" + oursLabel && path != k + "~" + theirsLabel
    ensures var r := SettledAt(nodes, keys, path, oursLabel, theirsLabel);
            && At(r, k + "~" + oursLabel).ours == At(nodes, k + "~" + oursLabel).ours
            && At(r, k + "~" + theirsLabel).theirs == At(nodes, k + "~" + theirsLabel).theirs
  {
    hide Relocated, HasDir, HasBelow, Live;
    RelocatedKeeps(nodes, path, oursLabel, Ours);
    RelocatedKeeps(nodes, path, theirsLabel, Theirs);
    SameStem(k, path, "~" + oursLabel);
    SameStem(k, path, "~" + theirsLabel);
    assert k + "~" + oursLabel == k + ("~" + oursLabel) && path + "~" + oursLabel == path + ("~" + oursLabel);
    assert k + "~" + theirsLabel == k + ("~" + theirsLabel) && path + "~" + theirsLabel == path + ("~" + theirsLabel);
  }

  lemma SameStem(a: string, b: string, tail: string)
    ensures a + tail == b + tail ==> a == b
  {
    if a + tail == b + tail {
      assert |a| == |b| && a == (a + tail)[..|a|] && b == (b + tail)[..|b|];
    }
  }

  lemma {:induction false} StaysUpTo(nodes: Nodes, keys: seq<Path>, n: nat, oursLabel: string, theirsLabel: string, k: Path)
    requires n <= |keys| && Increasing(keys) && (forall q :: q in keys <==> q in nodes) && LabelsFree(keys, oursLabel, theirsLabel)
    requires k in keys
    ensures var r := SettledUpTo(nodes, keys, n, oursLabel, theirsLabel);
            if k in keys[..n] then LeafStays(nodes, r, k, Ours, oursLabel) && LeafStays(nodes, r, k, Theirs, theirsLabel)
            else At(r, k) == At(nodes, k) && At(r, k + "~" + oursLabel).ours == None && At(r, k + "~" + theirsLabel).theirs == None
  {
    hide SettledAt, Increasing;
    if n > 0 {
      StaysUpTo(nodes, keys, n - 1, oursLabel, theirsLabel, k);
      var was, path := SettledUpTo(nodes, keys, n - 1, oursLabel, theirsLabel), keys[n - 1];
      assert keys[..n] == keys[..n - 1] + [path] && path in keys;
      if path == k {
        assert k !in keys[..n - 1] by { OnceOnly(keys, n - 1); }
        SettledHere(was, keys, k, oursLabel, theirsLabel, Ours);
        SettledHere(was, keys, k, oursLabel, theirsLabel, Theirs);
      } else {
        SettledElsewhere(was, keys, path, oursLabel, theirsLabel, k);
        SlotsElsewhere(was, keys, path, oursLabel, theirsLabel, k);
      }
    }
  }

  lemma OnceOnly(keys: seq<Path>, i: nat)
    requires Increasing(keys) && i < |keys|
    ensures keys[i] !in keys[..i]
  {
  }

  /** Settling never loses a leaf, as long as no path lies where another one would be moved to:
      each leaf stays or goes to its labelled place. */
  lemma SettleKeepsLeaves(order: Order, nodes: Nodes, oursLabel: string, theirsLabel: string, k: Path, side: Side)
    requires LabelsFree(KeysOf(order, nodes), oursLabel, theirsLabel)
    ensures LeafStays(nodes, Settle(order, nodes, oursLabel, theirsLabel), k, side, LabelOf(side, oursLabel, theirsLabel))
  {
    hide SettledUpTo, KeysOf;
    var keys := KeysOf(order, nodes);
    KeysOfNodes(order, nodes);
    if k in keys {
      StaysUpTo(nodes, keys, |keys|, oursLabel, theirsLabel, k);
      assert keys[..|keys|] == keys;
    }
  }

  // ---- Exactly what settling does -------------------------------------------------------------------

  /** Nor would two paths be moved to one place. */
  ghost predicate LabelsDistinct(keys: seq<Path>, oursLabel: string, theirsLabel: string) {
    LabelsFree(keys, oursLabel, theirsLabel) && forall k, p :: k in keys && p in keys && k + "~" + oursLabel == p + "~" + theirsLabel ==> k == p
  }

  /** The nodes at a path and at its labelled places. */
  ghost predicate SameThree(a: Nodes, b: Nodes, k: Path, oursLabel: string, theirsLabel: string) {
    At(a, k) == At(b, k) && At(a, k + "~" + oursLabel) == At(b, k + "~" + oursLabel) && At(a, k + "~" + theirsLabel) == At(b, k + "~" + theirsLabel)
  }

  lemma SameLabelled(a: string, b: string, l: string)
    requires a + "~" + l == b + "~" + l
    ensures a == b
  {
    assert a + "~" + l == a + ("~" + l) && b + "~" + l == b + ("~" + l);
    SameStem(a, b, "~" + l);
  }

  lemma AloneElsewhere(nodes: Nodes, keys: seq<Path>, path: Path, oursLabel: string, theirsLabel: string, k: Path)
    requires k in keys && path in keys && path != k && LabelsDistinct(keys, oursLabel, theirsLabel)
    ensures SameThree(SettledAt(nodes, keys, path, oursLabel, theirsLabel), nodes, k, oursLabel, theirsLabel)
  {
    hide SettledAt;
    if k + "~" + oursLabel == path + "~" + oursLabel { SameLabelled(k, path, oursLabel); }
    if k + "~" + theirsLabel == path + "~" + theirsLabel { SameLabelled(k, path, theirsLabel); }
    SettledElsewhere(nodes, keys, path, oursLabel, theirsLabel, k);
    SettledElsewhere(nodes, keys, path, oursLabel, theirsLabel, k + "~" + oursLabel);
    SettledElsewhere(nodes, keys, path, oursLabel, theirsLabel, k + "~" + theirsLabel);
  }

  lemma AloneSame(a: Nodes, b: Nodes, keys: seq<Path>, k: Path, oursLabel: string, theirsLabel: string)
    requires SameThree(a, b, k, oursLabel, theirsLabel)
    requires HasDir(a, keys, k, Ours) == HasDir(b, keys, k, Ours) && HasDir(a, keys, k, Theirs) == HasDir(b, keys, k, Theirs)
    ensures SameThree(SettledAt(a, keys, k, oursLabel, theirsLabel), SettledAt(b, keys, k, oursLabel, theirsLabel), k, oursLabel, theirsLabel)
  {
    hide HasDir, HasBelow, Relocated;
    RelocatedSame(a, b, k, theirsLabel, oursLabel, Theirs);
    RelocatedSame(a, b, k, oursLabel, theirsLabel, Ours);
  }

  lemma RelocatedSame(a: Nodes, b: Nodes, k: Path, name: string, other: string, which: Side)
    requires At(a, k) == At(b, k) && At(a, k + "~" + name) == At(b, k + "~" + name) && At(a, k + "~" + other) == At(b, k + "~" + other)
    ensures var r, s := Relocated(a, k, name, which), Relocated(b, k, name, which);
            At(r, k) == At(s, k) && At(r, k + "~" + name) == At(s, k + "~" + name) && At(r, k + "~" + other) == At(s, k + "~" + other)
  {
    assert |k + "~" + name| > |k|;
  }

  lemma DirSame(a: Nodes, b: Nodes, keys: seq<Path>, k: Path, side: Side)
    requires forall q :: q in keys && Below(q, k) ==> At(a, q) == At(b, q)
    ensures HasDir(a, keys, k, side) == HasDir(b, keys, k, side)
  {
    assert forall i :: 0 <= i < |keys| && Below(keys[i], k) ==> At(a, keys[i]) == At(b, keys[i]);
  }

  /** What lies below a path comes after it. */
  lemma BelowLater(keys: seq<Path>, i: nat, q: Path)
    requires Increasing(keys) && i < |keys| && q in keys && Below(q, keys[i])
    ensures q !in keys[..i]
  {
    if q in keys[..i] {
      var j :| 0 <= j < i && keys[j] == q;
      PrefixLe(keys[i], q);
      StringLeTotal(keys[i], q);
    }
  }

  /** Settling all paths is settling each on its own. */
  lemma {:induction false} SettledAlone(nodes: Nodes, keys: seq<Path>, n: nat, oursLabel: string, theirsLabel: string, k: Path)
    requires n <= |keys| && Increasing(keys) && LabelsDistinct(keys, oursLabel, theirsLabel) && k in keys
    ensures SameThree(SettledUpTo(nodes, keys, n, oursLabel, theirsLabel),
                      if k in keys[..n] then SettledAt(nodes, keys, k, oursLabel, theirsLabel) else nodes, k, oursLabel, theirsLabel)
  {
    hide SettledAt, Increasing;
    if n > 0 {
      SettledAlone(nodes, keys, n - 1, oursLabel, theirsLabel, k);
      var was, path := SettledUpTo(nodes, keys, n - 1, oursLabel, theirsLabel), keys[n - 1];
      assert keys[..n] == keys[..n - 1] + [path] && path in keys;
      if path == k {
        assert k !in keys[..n - 1] by { OnceOnly(keys, n - 1); }
        forall q | q in keys && Below(q, k) ensures At(was, q) == At(nodes, q) {
          BelowLater(keys, n - 1, q);
          SettledAlone(nodes, keys, n - 1, oursLabel, theirsLabel, q);
        }
        DirSame(was, nodes, keys, k, Ours);
        DirSame(was, nodes, keys, k, Theirs);
        AloneSame(was, nodes, keys, k, oursLabel, theirsLabel);
      } else {
        AloneElsewhere(was, keys, path, oursLabel, theirsLabel, k);
      }
    }
  }

  /** The side has something below the path. */
  ghost predicate DirOf(nodes: Nodes, k: Path, side: Side) { exists q :: q in nodes && Below(q, k) && SideOf(nodes[q], side).Some? }

  lemma HasDirIs(nodes: Nodes, keys: seq<Path>, k: Path, side: Side)
    requires forall q :: q in keys <==> q in nodes
    ensures HasDir(nodes, keys, k, side) <==> DirOf(nodes, k, side)
    ensures DirOf(nodes, k, side) ==> HasBelow(keys, k)
  {
    if q :| q in nodes && Below(q, k) && SideOf(nodes[q], side).Some? {
      assert q in keys;
      var i :| 0 <= i < |keys| && keys[i] == q;
    }
    if i :| 0 <= i < |keys| && Below(keys[i], k) && keys[i] in nodes && SideOf(nodes[keys[i]], side).Some? { assert keys[i] in nodes; }
  }

  /** A file in the way of the other side's directory moves, with its base, to its path and its
      side's label; where both sides have a file, or one side has file and directory, the node
      keeps its stages; every other node stays as it is. */
  lemma SettleExactly(order: Order, nodes: Nodes, oursLabel: string, theirsLabel: string, k: Path)
    requires LabelsDistinct(KeysOf(order, nodes), oursLabel, theirsLabel) && k in nodes
    ensures var r, n := Settle(order, nodes, oursLabel, theirsLabel), nodes[k];
            var oursDir, theirsDir := DirOf(nodes, k, Ours), DirOf(nodes, k, Theirs);
            if !Live(n) || (!oursDir && !theirsDir) then At(r, k) == n
            else if oursDir && n.ours.None? then
              At(r, k + "~" + theirsLabel) == Blank.(base := n.base, theirs := n.theirs, forced := MdTheirs) && At(r, k).base == At(r, k).theirs == None
            else if theirsDir && n.theirs.None? then
              At(r, k + "~" + oursLabel) == Blank.(base := n.base, ours := n.ours, forced := MdOurs) && At(r, k).base == At(r, k).ours == None
            else At(r, k) == n.(forced := KeepStages)
  {
    hide SettledUpTo, KeysOf, HasDir, HasBelow, DirOf;
    var keys := KeysOf(order, nodes);
    KeysOfNodes(order, nodes);
    SettledAlone(nodes, keys, |keys|, oursLabel, theirsLabel, k);
    assert keys[..|keys|] == keys;
    HasDirIs(nodes, keys, k, Ours);
    HasDirIs(nodes, keys, k, Theirs);
    assert |k + "~" + oursLabel| > |k| && |k + "~" + theirsLabel| > |k|;
  }

  // ---- Deciding one node ---------------------------------------------------------------------------

  datatype LeafKind = Text | Link | GitLink | Other

  function KindOf(mode: nat): LeafKind {
    if mode == REGULAR || mode == EXECUTABLE || mode == DEPRECATED then Text
    else if mode == SYMLINK then Link
    else if mode == SUBMODULE then GitLink
    else Other
  }

  predicate FileOf(l: Leaf) { l.mode != SUBMODULE }

  function Resolved(path: Path, leaf: Leaf): OutPath {
    OutPath(path, Some(leaf), None, None, None, None, Some(leaf), FileOf(leaf), false, leaf.mode)
  }

  function Conflicted(path: Path, base: Option<Leaf>, ours: Option<Leaf>, theirs: Option<Leaf>, marker: Option<string>,
                      work: Option<Leaf>, workMode: nat, writeFile: bool): OutPath {
    OutPath(path, None, base, ours, theirs, marker, work, writeFile, true, workMode)
  }

  /** Only one side's leaf is left, in conflict. */
  function OursOnly(path: Path, base: Option<Leaf>, o: Leaf): OutPath {
    Conflicted(path, base, Some(o), None, None, Some(o), o.mode, FileOf(o))
  }

  function TheirsOnly(path: Path, base: Option<Leaf>, t: Leaf): OutPath {
    Conflicted(path, base, None, Some(t), None, Some(t), t.mode, FileOf(t))
  }

  /** `made` are the blobs stored for it. */
  datatype Decision = Decision(outs: seq<OutPath>, clean: bool, made: set<Hash>)

  type Decided = Result<Decision, MergeError>

  function Kept(outs: seq<OutPath>): Decided { Ok(Decision(outs, true, {})) }

  function Conflict(outs: seq<OutPath>): Decided { Ok(Decision(outs, false, {})) }

  /** A conflict, which a merge of trivial takes refuses. */
  function Refuse(spec: Spec, outs: seq<OutPath>): Decided {
    if spec.trivialOnly then Err(OctopusConflict) else Conflict(outs)
  }

  function ResolvedTo(path: Path, leaf: Option<Leaf>): seq<OutPath> {
    if leaf.Some? then [Resolved(path, leaf.value)] else []
  }

  function OneOf(path: Path, n: Node): seq<OutPath> {
    if n.ours.Some? then [OursOnly(path, n.base, n.ours.value)]
    else if n.theirs.Some? then [TheirsOnly(path, n.base, n.theirs.value)]
    else []
  }

  function DecideNode(repo: Repo, spec: Spec, path: Path, n: Node): Decided {
    match n.forced
    case MdOurs => Refuse(spec, if n.ours.Some? then [OursOnly(path, n.base, n.ours.value)] else [])
    case MdTheirs => Refuse(spec, if n.theirs.Some? then [TheirsOnly(path, n.base, n.theirs.value)] else [])
    case KeepStages => Refuse(spec, [Conflicted(path, n.base, n.ours, n.theirs, None, None, REGULAR, false)])
    case NotForced =>
      if n.renameRename then Refuse(spec, OneOf(path, n))
      else if n.ours == n.theirs then Kept(ResolvedTo(path, n.ours))
      else if n.ours == n.base then
        if n.oursRenamed && n.theirs.None? then Refuse(spec, if n.ours.Some? then [OursOnly(path, n.base, n.ours.value)] else [])
        else Kept(ResolvedTo(path, n.theirs))
      else if n.theirs == n.base then
        if n.theirsRenamed && n.ours.None? then Refuse(spec, if n.theirs.Some? then [TheirsOnly(path, n.base, n.theirs.value)] else [])
        else Kept(ResolvedTo(path, n.ours))
      else if spec.trivialOnly then Err(OctopusConflict)
      else if n.ours.None? || n.theirs.None? then Conflict(OneOf(path, n))
      else DecideBoth(repo, spec, path, n.base, n.ours.value, n.theirs.value)
  }

  function DecideBoth(repo: Repo, spec: Spec, path: Path, base: Option<Leaf>, o: Leaf, t: Leaf): Decided {
    var ko, kt := KindOf(o.mode), KindOf(t.mode);
    if ko.GitLink? && kt.GitLink? then
      (match GitlinkWinner(repo, o, t)
       case Some(w) => Kept([Resolved(path, w)])
       case None => Conflict([Conflicted(path, base, Some(o), Some(t), None, None, SUBMODULE, false)]))
    else if ko != kt then
      Conflict([OursOnly(path, None, o), TheirsOnly(path + "~" + spec.theirsLabel, base, t)])
    else if !ko.Text? then
      Conflict([Conflicted(path, base, Some(o), Some(t), None, Some(o), o.mode, FileOf(o))])
    else
      MergeFiles(repo, spec, path, base, o, t)
  }

  function GitlinkWinner(repo: Repo, o: Leaf, t: Leaf): Option<Leaf> {
    match repo.ancestor(o.hash, t.hash)
    case None => None
    case Some(true) => Some(t)
    case Some(false) => match repo.ancestor(t.hash, o.hash) case Some(true) => Some(o) case _ => None
  }

  predicate IsBinary(bytes: string) { '\0' in bytes[..if |bytes| < 8000 then |bytes| else 8000] }

  function PickMode(base: Option<Leaf>, o: Leaf, t: Leaf): Option<nat> {
    if o.mode == t.mode then Some(o.mode)
    else if base.Some? && o.mode == base.value.mode then Some(t.mode)
    else if base.Some? && t.mode == base.value.mode then Some(o.mode)
    else None
  }

  function MergeFiles(repo: Repo, spec: Spec, path: Path, base: Option<Leaf>, o: Leaf, t: Leaf): Decided {
    var b := if base.Some? then BlobBytes(repo, base.value.hash) else Some("");
    var x, y := BlobBytes(repo, o.hash), BlobBytes(repo, t.hash);
    if b.None? || x.None? || y.None? then Err(ObjectNotFound)
    else if IsBinary(b.value) || IsBinary(x.value) || IsBinary(y.value) || repo.nonText(spec.attrs, path) then
      Conflict([Conflicted(path, base, Some(o), Some(t), None, Some(o), o.mode, true)])
    else
      var m := repo.mergeText(b.value, x.value, y.value);
      var mode := PickMode(base, o, t);
      if !m.clean then
        Conflict([Conflicted(path, base, Some(o), Some(t), Some(m.bytes), None, REGULAR, true)])
      else if mode.None? then
        Ok(Decision([Conflicted(path, base, Some(o), Some(t), None, Some(Leaf(o.mode, Blob(m.bytes))), o.mode, true)], false, {Blob(m.bytes)}))
      else
        Ok(Decision([Resolved(path, Leaf(mode.value, Blob(m.bytes)))], true, {Blob(m.bytes)}))
  }
}
