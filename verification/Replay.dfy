/** Filesystem records: one per path below the root, parents first, and what replaying them builds. */
module Replay {
  import opened Wrappers
  import opened Paths
  import opened MemPaths
  import opened MemTree
  import opened Mem
  import opened Codec
  import opened Image

  const RecordS := Both(Blob, Both(U32, Both(I64, Both(I64, Both(I64, Both(I64, Blob))))))

  const CREATE_PERM := 0x1B6  // octal 666

  // ---- Trees that an image can hold --------------------------------------------------------------

  function KindBits(mode: nat): nat { mode / 0x1000 % 0x10 }

  /** The kind bits of the mode say what the entry is; a directory has no data. */
  predicate Typed(e: Entry) {
    e.mode < 0x1_0000
    && match e.kind
       case Dir => KindBits(e.mode) == 4 && e.data == ""
       case Symlink => KindBits(e.mode) == 10
       case File => KindBits(e.mode) == 8
  }

  predicate Fits64(n: int) { -TWO63 <= n < TWO63 }

  predicate Recordable(e: Entry) {
    Typed(e) && Short(e.data) && Fits64(e.atime) && Fits64(e.mtime) && Fits64(e.uid) && Fits64(e.gid)
  }

  /** Keys are clean absolute paths, children lie in directories, and every field fits the image. */
  ghost predicate GoodTree(t: Tree) {
    && "/" in t && t["/"].kind.Dir? && DirsOnly(t) && |t| < TWO32
    && (forall k :: k in t ==> AbsPath(k) && CleanOf(k) == k && ParentOf(k) in t && Recordable(t[k]) && Short(k))
  }

  // ---- Records -------------------------------------------------------------------------------------------

  function Abs(rel: string): string { "/" + rel }

  datatype Record = Record(path: string, mode: nat, atime: int, mtime: int, uid: int, gid: int, content: string)

  function RecordOf(t: Tree, rel: string): Record
    requires Abs(rel) in t
  {
    var e := t[Abs(rel)];
    Record(rel, e.mode, e.atime, e.mtime, e.uid, e.gid, if e.kind.Dir? then "" else e.data)
  }

  function ValueOf(r: Record): Value {
    Pair(Text(r.path), Pair(Num(r.mode), Pair(Num(r.atime), Pair(Num(r.mtime), Pair(Num(r.uid), Pair(Num(r.gid), Text(r.content)))))))
  }

  /** Each path below the root once, no path before its parent. */
  ghost predicate Preorder(t: Tree, list: seq<string>) {
    && (forall i, j :: 0 <= i < j < |list| ==> list[i] != list[j])
    && (forall i :: 0 <= i < |list| ==> list[i] != "" && Abs(list[i]) in t)
    && (forall k :: k in t && k != "/" ==> exists i :: 0 <= i < |list| && Abs(list[i]) == k)
    && (forall i :: 0 <= i < |list| ==> ParentFirst(list, i))
  }

  ghost predicate ParentFirst(list: seq<string>, i: nat)
    requires i < |list|
  {
    ParentOf(Abs(list[i])) == "/" || exists j :: 0 <= j < i && Abs(list[j]) == ParentOf(Abs(list[i]))
  }

  // ---- Replaying -------------------------------------------------------------------------------------------

  function Stamped(t: Tree, abs: string, r: Record): Tree
    requires abs in t
  {
    t[abs := t[abs].(mode := NewMode(t[abs].mode, r.mode), uid := r.uid, gid := r.gid, atime := r.atime, mtime := r.mtime)]
  }

  /** The tree once the path of a record exists with its content. */
  function Placed(t: Tree, r: Record): Result<Tree, FsError> {
    match AbsIn("/", r.path)
    case Err(e) => Err(e)
    case Ok(abs) =>
      if KindBits(r.mode) == 4 then Ok(WithDir(t, abs))
      else if KindBits(r.mode) == 10 then
        if abs in t then Err(Exist) else Ok(WithDir(t, ParentOf(abs))[abs := NewEntry(MemTree.Symlink, SYMLINK_MODE, r.content)])
      else
        var flags := Flags(true, false, true);
        if OpenError(t, r.path, flags).Some? then Err(OpenError(t, r.path, flags).value)
        else var u := Opened(t, r.path, flags, CREATE_PERM); if abs in u then Ok(u[abs := u[abs].(data := r.content)]) else Err(NotExist)
  }

  function Replayed(t: Tree, r: Record): Result<Tree, FsError> {
    match Placed(t, r)
    case Err(e) => Err(e)
    case Ok(u) => var abs := AbsIn("/", r.path); if abs.Ok? && abs.value in u then Ok(Stamped(u, abs.value, r)) else Err(NotExist)
  }

  function ReplayAll(t: Tree, records: seq<Record>): Result<Tree, FsError> {
    if records == [] then Ok(t)
    else match ReplayAll(t, records[..|records| - 1]) case Err(e) => Err(e) case Ok(u) => Replayed(u, records[|records| - 1])
  }

  /** A key names itself, without its leading slash. */
  lemma RelKey(k: string)
    requires AbsPath(k) && CleanOf(k) == k && k != "/"
    ensures AbsIn("/", k[1..]) == Ok(k) && k[1..] != "" && Abs(k[1..]) == k
  {
    var j, rel := JoinPart(Start, k), k[1..];
    OnePart(Start, k);
    PartsPlain(Start, [k]);
    assert k == "/" + rel && WithSlashes(j.segs) == rel by {
      assert k == "/" + WithSlashes(j.segs);
      assert ("/" + WithSlashes(j.segs))[1..] == WithSlashes(j.segs);
    }
    assert j.segs == [] ==> WithSlashes(j.segs) == "";
    FirstNotSlash(j.segs);
    SplitSegments(j.segs);
    NoDeficit(0, j.segs);
    RootPart(rel);
    WalkOwn([], j.segs);
    assert [] + j.segs == j.segs;
    TwoParts("/", rel);
  }

  lemma RootPart(rel: string)
    ensures JoinPart(Start, "/") == Joined(true, [])
  {
  }

  lemma {:induction false} NoDeficit(depth: nat, segs: seq<string>)
    requires AllPlain(segs)
    ensures Deficit(depth, segs) == 0
    decreases |segs|
  {
    if segs != [] {
      assert Plain(segs[0]);
      NoDeficit(depth + 1, segs[1..]);
    }
  }

  /** What one record needs: its path names the key, whose parent is there. */
  ghost predicate Ready(u: Tree, k: string, rel: string) {
    k !in u && AbsIn("/", rel) == Ok(k) && WithDir(u, ParentOf(k)) == u && WithDir(u, k) == u[k := NewDir]
  }

  lemma ReadyFor(t: Tree, u: Tree, rel: string)
    requires GoodTree(t) && rel != "" && Abs(rel) in t && Abs(rel) !in u && ParentOf(Abs(rel)) in u
    ensures Ready(u, Abs(rel), rel) && Typed(t[Abs(rel)])
  {
    var k := Abs(rel);
    assert k[1..] == rel && |k| > 1;
    assert AbsPath(k) && CleanOf(k) == k && Recordable(t[k]);
    hide GoodTree, AbsIn, CleanOf, AbsPath, ParentOf, WithDir, Recordable;
    RelKey(k);
    ParentChild(k);
    PlaceFacts(u, k);
    assert Typed(t[k]) by { RecordTyped(t[k]); }
  }

  lemma RecordTyped(e: Entry)
    requires Recordable(e)
    ensures Typed(e)
  {
  }

  lemma PlaceFacts(u: Tree, k: string)
    requires |k| > 1 && |ParentOf(k)| < |k| && k !in u && ParentOf(k) in u
    ensures WithDir(u, ParentOf(k)) == u && WithDir(u, k) == u[k := NewDir]
  {
  }

  lemma StampBack(u: Tree, k: string, r: Record, made: Entry, e: Entry)
    requires Typed(e) && KindBits(made.mode) == KindBits(e.mode) && made.kind == e.kind && made.data == e.data
    requires r.mode == e.mode && r.uid == e.uid && r.gid == e.gid && r.atime == e.atime && r.mtime == e.mtime
    ensures Stamped(u[k := made], k, r) == u[k := e]
  {
  }

  /** Replaying one record under an existing parent adds exactly its entry. */
  lemma ReplayOne(t: Tree, u: Tree, rel: string)
    requires Abs(rel) in t && Typed(t[Abs(rel)]) && Ready(u, Abs(rel), rel)
    ensures Replayed(u, RecordOf(t, rel)) == Ok(u[Abs(rel) := t[Abs(rel)]])
  {
    hide AbsIn, WithDir, ParentOf, Stamped, NewMode;
    var k, r := Abs(rel), RecordOf(t, rel);
    var e := t[k];
    match e.kind
    case Dir =>
      assert Placed(u, r) == Ok(u[k := NewDir]);
      StampBack(u, k, r, NewDir, e);
    case Symlink =>
      var made := NewEntry(MemTree.Symlink, SYMLINK_MODE, e.data);
      assert Placed(u, r) == Ok(u[k := made]);
      StampBack(u, k, r, made, e);
    case File =>
      var made := NewEntry(File, FILE_BITS + CREATE_PERM % 512, e.data);
      var empty := made.(data := "");
      assert Opened(u, rel, Flags(true, false, true), CREATE_PERM) == u[k := empty];
      assert u[k := empty][k := u[k := empty][k].(data := e.data)] == u[k := made];
      assert Placed(u, r) == Ok(u[k := made]);
      StampBack(u, k, r, made, e);
  }

  function Records(t: Tree, list: seq<string>): seq<Record>
    requires forall i :: 0 <= i < |list| ==> Abs(list[i]) in t
  {
    seq(|list|, i requires 0 <= i < |list| => RecordOf(t, list[i]))
  }

  function PathsIn(list: seq<string>): set<string> { set i | 0 <= i < |list| :: Abs(list[i]) }

  /** A fresh root and the entries of the first records. */
  ghost predicate Rebuilt(t: Tree, list: seq<string>, u: Tree) {
    && u.Keys == {"/"} + PathsIn(list) && u["/"] == NewDir
    && forall i :: 0 <= i < |list| ==> Abs(list[i]) in t && u[Abs(list[i])] == t[Abs(list[i])]
  }

  lemma RebuiltMore(t: Tree, list: seq<string>, u: Tree, rel: string)
    requires Rebuilt(t, list, u) && rel != "" && Abs(rel) in t && rel !in list
    ensures Rebuilt(t, list + [rel], u[Abs(rel) := t[Abs(rel)]]) && Abs(rel) !in u
  {
    var more := list + [rel];
    assert forall i :: 0 <= i < |list| ==> more[i] == list[i];
    assert more[|list|] == rel;
    forall i | 0 <= i < |list| ensures Abs(list[i]) != Abs(rel) { assert Abs(list[i])[1..] == list[i] && Abs(rel)[1..] == rel; }
    assert |Abs(rel)| > 1;
    forall x ensures x in PathsIn(more) <==> x in PathsIn(list) || x == Abs(rel) {
      if x in PathsIn(more) {
        var i :| 0 <= i < |more| && Abs(more[i]) == x;
        if i < |list| { assert Abs(list[i]) == x; }
      }
      if x in PathsIn(list) {
        var i :| 0 <= i < |list| && Abs(list[i]) == x;
        assert Abs(more[i]) == x;
      }
      assert Abs(more[|list|]) == Abs(rel);
    }
  }

  lemma {:induction false} ReplayFront(t: Tree, list: seq<string>, n: nat)
    requires GoodTree(t) && Preorder(t, list) && n <= |list|
    ensures var r := ReplayAll(map["/" := NewDir], Records(t, list)[..n]); r.Ok? && Rebuilt(t, list[..n], r.value)
  {
    hide GoodTree, Rebuilt, Replayed, RecordOf;
    var records := Records(t, list);
    if n == 0 {
      assert records[..0] == [] && list[..0] == [];
      RebuiltNone(t);
    } else {
      ReplayFront(t, list, n - 1);
      assert records[..n][..n - 1] == records[..n - 1];
      assert list[..n] == list[..n - 1] + [list[n - 1]];
      ReplayStep(t, list, n - 1, ReplayAll(map["/" := NewDir], records[..n - 1]).value);
    }
  }

  lemma RebuiltNone(t: Tree)
    ensures Rebuilt(t, [], map["/" := NewDir])
  {
  }

  lemma ReplayStep(t: Tree, list: seq<string>, n: nat, u: Tree)
    requires GoodTree(t) && Preorder(t, list) && n < |list| && Rebuilt(t, list[..n], u)
    ensures Abs(list[n]) in t && Replayed(u, RecordOf(t, list[n])) == Ok(u[Abs(list[n]) := t[Abs(list[n])]])
    ensures Rebuilt(t, list[..n] + [list[n]], u[Abs(list[n]) := t[Abs(list[n])]])
  {
    hide GoodTree, Replayed, RecordOf, Ready;
    var rel := list[n];
    assert rel !in list[..n];
    RebuiltMore(t, list[..n], u, rel);
    ParentThere(t, list, n, u);
    ReadyFor(t, u, rel);
    ReplayOne(t, u, rel);
  }

  lemma ParentThere(t: Tree, list: seq<string>, n: nat, u: Tree)
    requires Preorder(t, list) && n < |list| && Rebuilt(t, list[..n], u)
    ensures ParentOf(Abs(list[n])) in u
  {
    assert ParentFirst(list, n);
    if j :| 0 <= j < n && Abs(list[j]) == ParentOf(Abs(list[n])) { assert Abs(list[..n][j]) in PathsIn(list[..n]); }
  }

  lemma RebuiltAll(t: Tree, list: seq<string>, u: Tree)
    requires Preorder(t, list) && Rebuilt(t, list, u) && "/" in t
    ensures u == t["/" := NewDir]
  {
  }

  /** Replaying the records of a tree on an empty filesystem rebuilds every path below the root. */
  lemma ReplayRebuilds(t: Tree, list: seq<string>)
    requires GoodTree(t) && Preorder(t, list)
    ensures (forall i :: 0 <= i < |list| ==> Abs(list[i]) in t) && ReplayAll(map["/" := NewDir], Records(t, list)) == Ok(t["/" := NewDir])
  {
    hide Rebuilt, Preorder, RecordOf, ReplayAll, Recordable;
    ListedPaths(t, list);
    ReplayFront(t, list, |list|);
    assert Records(t, list)[..|list|] == Records(t, list) && list[..|list|] == list;
    RebuiltAll(t, list, ReplayAll(map["/" := NewDir], Records(t, list)).value);
  }

  lemma ListedPaths(t: Tree, list: seq<string>)
    requires Preorder(t, list)
    ensures forall i :: 0 <= i < |list| ==> Abs(list[i]) in t
  {
  }
}
