/**
 The in-memory filesystem on values: a flat map from absolute path to entry, the redundant
 per-directory children maps, and what each operation does to them.
*/
module MemTree {
  import opened Paths
  import opened MemPaths

  datatype Kind = File | Dir | Symlink

  /** `mode` keeps the kind bits (octal 170000) above twelve permission bits. */
  datatype Entry = Entry(kind: Kind, mode: nat, data: string, uid: int, gid: int, atime: int, mtime: int)

  type Tree = map<string, Entry>
  type Kids = map<string, map<string, string>>

  const DIR_MODE := 0x41ED      // octal 040755
  const SYMLINK_MODE := 0xA1FF  // octal 120777
  const FILE_BITS := 0x8000     // octal 100000

  function NewEntry(kind: Kind, mode: nat, data: string): Entry { Entry(kind, mode, data, 0, 0, 0, 0) }

  const NewDir := NewEntry(Dir, DIR_MODE, "")

  /** The children maps agree with the keys: every key's parent is a key, and a name is listed
      in a directory exactly when its path is a key. */
  ghost predicate Linked(keys: set<string>, kids: Kids) {
    && kids.Keys == keys && "/" in keys
    && (forall k :: k in keys ==> AbsPath(k) && ParentOf(k) in keys)
    && (forall k, b :: k in keys ==> (b in kids[k] <==> IsName(b) && ChildPath(k, b) in keys))
    && (forall k, b :: k in keys && b in kids[k] ==> kids[k][b] == ChildPath(k, b))
  }

  /** The children maps after `gone` was removed together with whatever it listed: they are exact for
      the remaining keys, but keys below `gone` may have lost their parent. */
  ghost predicate LinkedBut(keys: set<string>, kids: Kids, gone: string) {
    && kids.Keys == keys && "/" in keys && gone !in keys && AbsPath(gone)
    && (forall k :: k in keys ==> AbsPath(k) && (ParentOf(k) in keys || ParentOf(k) == gone))
    && (forall k, b :: k in keys ==> (b in kids[k] <==> IsName(b) && ChildPath(k, b) in keys))
    && (forall k, b :: k in keys && b in kids[k] ==> kids[k][b] == ChildPath(k, b))
  }

  /** Only directories have children. */
  predicate DirsOnly(t: Tree) {
    && ("/" in t ==> t["/"].kind.Dir?)
    && forall k :: k in t && k != "/" && ParentOf(k) in t ==> t[ParentOf(k)].kind.Dir?
  }

  predicate Childless(keys: set<string>, p: string) {
    forall k :: k in keys && k != "/" ==> ParentOf(k) != p
  }

  // ---- Adding one key -----------------------------------------------------------------------

  function AddKid(kids: Kids, p: string): Kids
    requires ParentOf(p) in kids && p !in kids
  {
    kids[p := map[]][ParentOf(p) := kids[ParentOf(p)][BaseOf(p) := p]]
  }

  /** What linking a key into its parent does to the children maps. */
  function WithKid(kids: Kids, p: string): Kids {
    if |p| <= 1 || ParentOf(p) !in kids || BaseOf(p) in kids[ParentOf(p)] then kids
    else kids[ParentOf(p) := kids[ParentOf(p)][BaseOf(p) := p]]
  }

  function WithoutKid(kids: Kids, p: string): Kids {
    if |p| <= 1 || ParentOf(p) !in kids then kids
    else kids[ParentOf(p) := kids[ParentOf(p)] - {BaseOf(p)}]
  }

  lemma AddLinked(keys: set<string>, kids: Kids, p: string)
    requires Linked(keys, kids) && AbsPath(p) && p !in keys && ParentOf(p) in keys
    ensures Linked(keys + {p}, AddKid(kids, p)) && BaseOf(p) !in kids[ParentOf(p)]
  {
    hide AbsPath, ParentOf, BaseOf, ChildPath, IsName;
    ParentChild(p);
    var keys', kids' := keys + {p}, AddKid(kids, p);
    forall k, b | k in keys'
      ensures b in kids'[k] <==> IsName(b) && ChildPath(k, b) in keys'
      ensures b in kids'[k] ==> kids'[k][b] == ChildPath(k, b)
    {
      hide Linked;
      AddListing(keys, kids, p, k, b);
    }
    AddListing(keys, kids, p, ParentOf(p), BaseOf(p));
  }

  lemma AddListing(keys: set<string>, kids: Kids, p: string, k: string, b: string)
    requires Linked(keys, kids) && AbsPath(p) && p !in keys && ParentOf(p) in keys && k in keys + {p}
    ensures var kids' := AddKid(kids, p);
            && k in kids' && (b in kids'[k] <==> IsName(b) && ChildPath(k, b) in keys + {p})
            && (b in kids'[k] ==> kids'[k][b] == ChildPath(k, b))
    ensures k == ParentOf(p) && b == BaseOf(p) ==> b !in kids[k]
  {
    hide AbsPath, ParentOf, BaseOf, ChildPath, IsName;
    assert AbsPath(k);
    ParentChild(p);
    if IsName(b) { ChildParent(k, b); }
  }

  // ---- Directories made on the way ------------------------------------------------------------

  function WithDir(t: Tree, p: string): (r: Tree)
    decreases |p|
    ensures p in r
    ensures forall k :: k in t ==> k in r && r[k] == t[k]
  {
    if p in t then t
    else if |p| <= 1 then t[p := NewDir]
    else if |ParentOf(p)| >= |p| then t[p := NewDir]
    else WithDir(t, ParentOf(p))[p := NewDir]
  }

  /** The nearest ancestor that already exists is a directory. */
  predicate NearestIsDir(t: Tree, p: string)
    decreases |p|
  {
    if p in t then t[p].kind.Dir?
    else if |ParentOf(p)| >= |p| then true
    else NearestIsDir(t, ParentOf(p))
  }

  /** The operation accepts any existing ancestor, so a file can gain children: making a
      directory keeps files childless exactly when the nearest existing ancestor is a directory. */
  lemma {:induction false} WithDirDirsOnly(t: Tree, keys: set<string>, kids: Kids, p: string)
    requires t.Keys == keys && Linked(keys, kids) && AbsPath(p)
    ensures DirsOnly(WithDir(t, p)) <==> DirsOnly(t) && (p in t || NearestIsDir(t, p))
    ensures p !in t ==> WithDir(t, p)[p].kind.Dir?
    ensures forall k :: k in WithDir(t, p) && k !in t ==> |k| <= |p|
    decreases |p|
  {
    if p !in t {
      ParentChild(p);
      var d := ParentOf(p);
      WithDirDirsOnly(t, keys, kids, d);
      var r, r' := WithDir(t, d), WithDir(t, p);
      assert r' == r[p := NewDir] && p !in r;
      assert forall k :: k in r ==> r'[k] == r[k];
      if DirsOnly(r') {
        assert p in r' && r'[d].kind.Dir?;
        forall k | k in r && k != "/" && ParentOf(k) in r ensures r[ParentOf(k)].kind.Dir? { assert k in r'; }
      }
      if DirsOnly(r) && r[d].kind.Dir? {
        forall k | k in r' && k != "/" && ParentOf(k) in r' ensures r'[ParentOf(k)].kind.Dir? {
          if k != p { assert k in r; }
        }
      }
      if d in t {
        assert r == t;
      }
    }
  }

  // ---- Removing one key ------------------------------------------------------------------------

  function DropKid(kids: Kids, p: string): Kids
    requires p in kids && ParentOf(p) in kids
  {
    kids[ParentOf(p) := kids[ParentOf(p)] - {BaseOf(p)}] - {p}
  }

  lemma DropListing(keys: set<string>, kids: Kids, p: string, k: string, b: string)
    requires Linked(keys, kids) && p in keys && p != "/" && k in keys && k != p
    ensures k in DropKid(kids, p)
    ensures b in DropKid(kids, p)[k] <==> IsName(b) && ChildPath(k, b) in keys - {p}
    ensures b in DropKid(kids, p)[k] ==> DropKid(kids, p)[k][b] == ChildPath(k, b)
  {
    hide AbsPath;
    ParentChild(p);
    if IsName(b) { ChildParent(k, b); }
  }

  lemma DropLinkedBut(keys: set<string>, kids: Kids, p: string)
    requires Linked(keys, kids) && p in keys && p != "/"
    ensures LinkedBut(keys - {p}, DropKid(kids, p), p)
  {
    hide AbsPath, ParentOf, BaseOf, ChildPath;
    forall k, b | k in keys - {p}
      ensures b in DropKid(kids, p)[k] <==> IsName(b) && ChildPath(k, b) in keys - {p}
      ensures b in DropKid(kids, p)[k] ==> DropKid(kids, p)[k][b] == ChildPath(k, b)
    {
      DropListing(keys, kids, p, k, b);
    }
  }

  lemma DropParents(keys: set<string>, p: string)
    requires p in keys && p != "/" && forall k :: k in keys ==> AbsPath(k) && ParentOf(k) in keys
    ensures (forall k :: k in keys - {p} ==> ParentOf(k) in keys - {p}) <==> Childless(keys, p)
  {
  }

  /** Removing a key keeps the children maps exact exactly when it has no children. */
  lemma DropLinked(keys: set<string>, kids: Kids, p: string)
    requires Linked(keys, kids) && p in keys && p != "/"
    ensures Linked(keys - {p}, DropKid(kids, p)) <==> Childless(keys, p)
  {
    hide AbsPath, ParentOf, BaseOf, ChildPath;
    DropParents(keys, p);
    forall k, b | k in keys - {p}
      ensures b in DropKid(kids, p)[k] <==> IsName(b) && ChildPath(k, b) in keys - {p}
      ensures b in DropKid(kids, p)[k] ==> DropKid(kids, p)[k][b] == ChildPath(k, b)
    {
      DropListing(keys, kids, p, k, b);
    }
    ParentChild(p);
  }

  lemma NoKidsChildless(keys: set<string>, kids: Kids, p: string)
    requires Linked(keys, kids) && p in keys
    ensures kids[p] == map[] <==> Childless(keys, p)
  {
    if kids[p] == map[] {
      forall k | k in keys && k != "/" ensures ParentOf(k) != p {
        ParentChild(k);
        assert BaseOf(k) !in kids[p];
      }
    } else {
      var b :| b in kids[p];
      ChildParent(p, b);
    }
  }

  // ---- Moving a subtree ------------------------------------------------------------------------------

  function Moved(keys: set<string>, before: string): set<string> { set k | k in keys && Under(k, before) }

  function NewKeys(keys: set<string>, before: string, after: string): set<string> {
    set k | k in keys && Under(k, before) :: NewKey(k, before, after)
  }

  /** The key of the moved subtree that became `n`. */
  function OldKey(n: string, before: string, after: string): string {
    if |after| <= |n| then before + n[|after|..] else n
  }

  /** Prefix substitution on the moved subtree; every other entry stays where it is. */
  function MoveTree<V>(t: map<string, V>, before: string, after: string): map<string, V> {
    (map k | k in t && !Under(k, before) :: t[k])
    + map n | n in NewKeys(t.Keys, before, after) && OldKey(n, before, after) in t :: t[OldKey(n, before, after)]
  }

  lemma MoveKeys<V>(t: map<string, V>, before: string, after: string)
    ensures MoveTree(t, before, after).Keys == t.Keys - Moved(t.Keys, before) + NewKeys(t.Keys, before, after)
    ensures forall k :: k in t && Under(k, before) ==> var n := NewKey(k, before, after);
              n in MoveTree(t, before, after) && MoveTree(t, before, after)[n] == t[k]
  {
    forall k | k in t && Under(k, before)
      ensures OldKey(NewKey(k, before, after), before, after) == k
    {
      OldOfNew(k, before, after);
    }
  }

  lemma OldOfNew(k: string, before: string, after: string)
    requires Under(k, before)
    ensures OldKey(NewKey(k, before, after), before, after) == k
  {
  }

  /** Nothing lies below a path that is not a key. */
  lemma {:induction false} NothingBelow(keys: set<string>, kids: Kids, p: string, k: string)
    requires Linked(keys, kids) && AbsPath(p) && p != "/" && p !in keys && k in keys
    ensures !Under(k, p)
    decreases |k|
  {
    if k != "/" && k != p {
      ParentChild(k);
      UnderParent(k, p);
      NothingBelow(keys, kids, p, ParentOf(k));
    }
  }

  /** Children maps after the move: each directory lost the moved names and gained the new keys. */
  ghost predicate KidsMoved(keys: set<string>, kids: Kids, before: string, after: string, kids': Kids) {
    var moved := NewKeys(keys, before, after);
    && kids'.Keys == keys - Moved(keys, before) + moved
    && forall k, b :: k in kids' ==>
         && (b in kids'[k] <==>
               || (k in kids && k !in moved && b in kids[k] && !(k == ParentOf(before) && b == BaseOf(before)))
               || (IsName(b) && ChildPath(k, b) in moved))
         && (b in kids'[k] ==> kids'[k][b] == ChildPath(k, b))
  }

  /** Whatever lay below the new path either moves away or is overwritten by the move. */
  predicate Covered(keys: set<string>, before: string, after: string) {
    forall k :: k in keys && Under(k, after) && !Under(k, before) ==> k in NewKeys(keys, before, after)
  }

  /** Moving a subtree out of itself keeps every listing exact exactly when nothing is left behind
      below the new path. */
  lemma MoveLinked(keys: set<string>, kids: Kids, before: string, after: string, kids': Kids)
    requires LinkedBut(keys, kids, after) && before in keys && before != "/" && ParentOf(after) in keys
    requires !Under(after, before) && KidsMoved(keys, kids, before, after, kids')
    ensures Linked(kids'.Keys, kids') <==> Covered(keys, before, after)
  {
    hide Under, AbsPath, ParentOf, BaseOf, ChildPath, IsName;
    if Covered(keys, before, after) {
      MoveKeeps(keys, kids, before, after, kids');
    } else {
      var k :| k in keys && Under(k, after) && !Under(k, before) && k !in NewKeys(keys, before, after);
      LeftBehind(keys, kids, before, after, kids', k);
    }
  }

  lemma MoveKeeps(keys: set<string>, kids: Kids, before: string, after: string, kids': Kids)
    requires LinkedBut(keys, kids, after) && before in keys && before != "/" && ParentOf(after) in keys
    requires !Under(after, before) && KidsMoved(keys, kids, before, after, kids') && Covered(keys, before, after)
    ensures Linked(kids'.Keys, kids')
  {
    var moved, keys' := NewKeys(keys, before, after), kids'.Keys;
    forall k | k in keys'
      ensures AbsPath(k) && ParentOf(k) in keys'
    {
      MovedParent(keys, kids, before, after, k);
    }
    forall k, b | k in keys'
      ensures b in kids'[k] <==> IsName(b) && ChildPath(k, b) in keys'
    {
      MovedListing(keys, kids, before, after, kids', k, b);
    }
    assert "/" in keys' by { assert !Under("/", before); }
  }

  /** A key below the new path that the move neither takes along nor overwrites is listed nowhere. */
  lemma {:induction false} LeftBehind(keys: set<string>, kids: Kids, before: string, after: string, kids': Kids, k: string)
    requires LinkedBut(keys, kids, after) && before in keys && before != "/"
    requires KidsMoved(keys, kids, before, after, kids')
    requires k in keys && Under(k, after) && !Under(k, before) && k !in NewKeys(keys, before, after)
    ensures !Linked(kids'.Keys, kids')
    decreases |k|
  {
    hide AbsPath, BaseOf, ChildPath, IsName;
    var d := ParentOf(k);
    RootBelow(k, after);
    ParentChild(k);
    UnderParent(k, after);
    UnderParent(k, before);
    if d in NewKeys(keys, before, after) {
      assert k in kids'.Keys && BaseOf(k) !in kids'[d];
    } else if d in keys {
      LeftBehind(keys, kids, before, after, kids', d);
    } else {
      assert k in kids'.Keys && d !in kids'.Keys;
    }
  }

  lemma RootBelow(k: string, after: string)
    requires AbsPath(after) && AbsPath(k) && after != "/" && Under(k, after)
    ensures k != "/"
  {
  }

  lemma MovedParent(keys: set<string>, kids: Kids, before: string, after: string, k: string)
    requires LinkedBut(keys, kids, after) && before in keys && before != "/" && ParentOf(after) in keys
    requires !Under(after, before)
    requires k in keys - Moved(keys, before) + NewKeys(keys, before, after)
    ensures AbsPath(k) && ParentOf(k) in keys - Moved(keys, before) + NewKeys(keys, before, after)
  {
    if k in NewKeys(keys, before, after) {
      var j :| j in keys && Under(j, before) && k == NewKey(j, before, after);
      NewKeyParent(j, before, after);
      if j == before {
        UnderParent(after, before);
      } else {
        UnderParent(j, before);
        assert j != "/" && ParentOf(j) in keys by { UnderParent(after, before); }
      }
    } else if k != "/" {
      UnderParent(k, before);
      if ParentOf(k) == after { NewKeyParent(before, before, after); }
    }
  }

  lemma MovedListing(keys: set<string>, kids: Kids, before: string, after: string, kids': Kids, k: string, b: string)
    requires LinkedBut(keys, kids, after) && before in keys && before != "/" && Covered(keys, before, after)
    requires !Under(after, before) && KidsMoved(keys, kids, before, after, kids') && k in kids' && AbsPath(k)
    ensures b in kids'[k] <==> IsName(b) && ChildPath(k, b) in kids'
  {
    hide AbsPath;
    var moved := NewKeys(keys, before, after);
    if IsName(b) {
      var c := ChildPath(k, b);
      ChildParent(k, b);
      ParentChild(before);
      UnderParent(c, before);
      if k in moved {
        var j :| j in keys && Under(j, before) && k == NewKey(j, before, after);
        NewKeyParent(j, before, after);
        UnderParent(c, after);
      }
    } else if k in kids {
      assert b !in kids[k];
    }
  }

  // ---- The steps of a move ---------------------------------------------------------------------------

  ghost predicate LongestFirst(ks: seq<string>) {
    forall i, j :: 0 <= i < j < |ks| ==> |ks[i]| >= |ks[j]|
  }

  /** Detached longest first, every key has lost all its children when its turn comes. */
  lemma DetachedEmpty(keys: set<string>, kids: Kids, before: string, after: string, olds: seq<string>, i: nat)
    requires LinkedBut(keys, kids, after) && Members(olds) == Moved(keys, before) && before in keys && before != "/"
    requires i < |olds| && LongestFirst(olds) && NoRepeats(olds)
    ensures olds[i] in DetachAll(kids, olds[..i]) && DetachAll(kids, olds[..i])[olds[i]] == map[]
  {
    hide AbsPath, ParentOf, BaseOf, ChildPath, IsName, Under;
    var k := olds[i];
    assert k in Members(olds);
    DetachedKey(kids, olds[..i], k);
    forall b | b in DetachAll(kids, olds[..i])[k] ensures false {
      DetachedLess(kids, olds[..i], k, b);
      var c := ChildPath(k, b);
      ChildParent(k, b);
      UnderParent(c, before);
      assert c in Members(olds);
      var j: nat :| j < |olds| && olds[j] == c;
      assert j < i;
      DetachedLacks(kids, olds[..i], k, j);
    }
  }

  lemma {:induction false} DetachedLess(kids: Kids, ks: seq<string>, k: string, b: string)
    requires k in DetachAll(kids, ks) && b in DetachAll(kids, ks)[k]
    ensures k in kids && b in kids[k]
  {
    if ks != [] { DetachedLess(kids, ks[..|ks| - 1], k, b); }
  }

  lemma {:induction false} DetachedLacks(kids: Kids, ks: seq<string>, k: string, j: nat)
    requires j < |ks| && |ks[j]| > 1 && ParentOf(ks[j]) == k && k in DetachAll(kids, ks)
    ensures BaseOf(ks[j]) !in DetachAll(kids, ks)[k]
  {
    hide ParentOf, BaseOf;
    var n := |ks| - 1;
    if j < n {
      DetachedLacks(kids, ks[..n], k, j);
    }
  }

  /** Detaching keys one by one. */
  function DetachAll(kids: Kids, ks: seq<string>): Kids {
    if ks == [] then kids
    else WithoutKid(DetachAll(kids, ks[..|ks| - 1]), ks[|ks| - 1]) - {ks[|ks| - 1]}
  }

  /** Linking keys one by one. */
  function LinkAll(kids: Kids, ks: seq<string>): Kids {
    if ks == [] then kids else WithKid(LinkAll(kids, ks[..|ks| - 1]), ks[|ks| - 1])
  }

  /** A directory outside the detached keys loses at most the one name that was linked into it. */
  lemma {:induction false} DetachAllKids(kids: Kids, ks: seq<string>, k: string, top: string)
    requires forall i :: 0 <= i < |ks| && |ks[i]| > 1 && ParentOf(ks[i]) == k ==> ks[i] == top
    ensures k in DetachAll(kids, ks) <==> k in kids && k !in ks
    ensures k in DetachAll(kids, ks) ==>
              DetachAll(kids, ks)[k] ==
              kids[k] - (if top in ks && |top| > 1 && ParentOf(top) == k then {BaseOf(top)} else {})
  {
    hide ParentOf, BaseOf;
    if ks != [] {
      var n := |ks| - 1;
      DetachAllKids(kids, ks[..n], k, top);
      assert forall p :: p in ks <==> p in ks[..n] || p == ks[n];
    }
  }

  lemma WithKidKids(kids: Kids, p: string, k: string, b: string)
    requires AbsPath(p) && p != "/"
    ensures WithKid(kids, p).Keys == kids.Keys
    ensures k in kids ==> (b in WithKid(kids, p)[k] <==> b in kids[k] || (IsName(b) && AbsPath(k) && ChildPath(k, b) == p))
    ensures k in kids && b in WithKid(kids, p)[k] ==>
              WithKid(kids, p)[k][b] == if b in kids[k] then kids[k][b] else ChildPath(k, b)
  {
    ParentChild(p);
    if IsName(b) && AbsPath(k) { ChildParent(k, b); }
  }

  lemma {:induction false} LinkAllKids(kids: Kids, ks: seq<string>, k: string, b: string)
    requires forall i :: 0 <= i < |ks| ==> AbsPath(ks[i]) && ks[i] != "/"
    ensures LinkAll(kids, ks).Keys == kids.Keys
    ensures k in kids ==> (b in LinkAll(kids, ks)[k] <==> b in kids[k] || (IsName(b) && AbsPath(k) && ChildPath(k, b) in ks))
    ensures k in kids && b in LinkAll(kids, ks)[k] ==>
              LinkAll(kids, ks)[k][b] == if b in kids[k] then kids[k][b] else ChildPath(k, b)
  {
    hide AbsPath, ChildPath, WithKid, IsName;
    if ks != [] {
      var n := |ks| - 1;
      LinkAllKids(kids, ks[..n], k, b);
      WithKidKids(LinkAll(kids, ks[..n]), ks[n], k, b);
    }
  }

  /** Inserting entries one by one. */
  function InsertAll<V>(t: map<string, V>, ks: seq<string>, vs: seq<V>): map<string, V>
    requires |ks| == |vs|
  {
    if ks == [] then t else InsertAll(t, ks[..|ks| - 1], vs[..|ks| - 1])[ks[|ks| - 1] := vs[|ks| - 1]]
  }

  ghost predicate NoRepeats(ks: seq<string>) {
    forall i, j :: 0 <= i < j < |ks| ==> ks[i] != ks[j]
  }

  lemma {:induction false} InsertAllEntries<V>(t: map<string, V>, ks: seq<string>, vs: seq<V>)
    requires |ks| == |vs| && NoRepeats(ks)
    ensures forall k :: k in InsertAll(t, ks, vs) <==> k in t || k in ks
    ensures forall i :: 0 <= i < |ks| ==> InsertAll(t, ks, vs)[ks[i]] == vs[i]
    ensures forall k :: k in t && k !in ks ==> InsertAll(t, ks, vs)[k] == t[k]
  {
    if ks != [] {
      var n := |ks| - 1;
      var front := ks[..n];
      InsertAllEntries(t, front, vs[..n]);
      forall k ensures k in ks <==> k in front || k == ks[n] { LastMember(ks, k); }
      var r, r' := InsertAll(t, front, vs[..n]), InsertAll(t, ks, vs);
      assert r' == r[ks[n] := vs[n]];
      forall i | 0 <= i < |ks| ensures r'[ks[i]] == vs[i] {
        if i < n { assert ks[i] == front[i] && vs[i] == vs[..n][i] && ks[i] != ks[n]; }
      }
    }
  }

  lemma LastMember(ks: seq<string>, k: string)
    requires ks != []
    ensures k in ks <==> k in ks[..|ks| - 1] || k == ks[|ks| - 1]
  {
  }

  function Members(ks: seq<string>): set<string> { set k | k in ks }

  /** `olds` lists the moved keys and `news` the keys they become. */
  ghost predicate Plan(keys: set<string>, before: string, after: string, olds: seq<string>, news: seq<string>) {
    && |olds| == |news| && NoRepeats(olds) && Members(olds) == Moved(keys, before)
    && forall i :: 0 <= i < |olds| ==> |before| <= |olds[i]| && news[i] == NewKey(olds[i], before, after)
  }

  lemma PlanNews(keys: set<string>, before: string, after: string, olds: seq<string>, news: seq<string>)
    requires Plan(keys, before, after, olds, news)
    ensures NoRepeats(news) && Members(news) == NewKeys(keys, before, after)
    ensures forall n :: n in news ==> Under(n, after)
  {
    forall i | 0 <= i < |olds| ensures olds[i] in Moved(keys, before) && Under(olds[i], before) && Under(news[i], after) {
      assert olds[i] in Members(olds);
      NewUnder(olds[i], before, after);
    }
    forall i, j | 0 <= i < j < |news| ensures news[i] != news[j] {
      if news[i] == news[j] { NewKeyInjective(olds[i], olds[j], before, after); }
    }
    forall n | n in NewKeys(keys, before, after) ensures n in news {
      var k :| k in keys && Under(k, before) && n == NewKey(k, before, after);
      assert k in Members(olds);
      var i :| 0 <= i < |olds| && olds[i] == k;
      assert news[i] == n;
    }
  }

  lemma NewUnder(k: string, before: string, after: string)
    requires Under(k, before)
    ensures Under(NewKey(k, before, after), after)
  {
  }

  /** Detaching the moved keys and inserting them under their new names is the move. */
  lemma PlanMoves<V>(t: map<string, V>, before: string, after: string, olds: seq<string>, news: seq<string>, vs: seq<V>)
    requires Plan(t.Keys, before, after, olds, news) && |vs| == |olds|
    requires forall i :: 0 <= i < |olds| ==> olds[i] in t && vs[i] == t[olds[i]]
    ensures InsertAll(t - Members(olds), news, vs) == MoveTree(t, before, after)
  {
    PlanNews(t.Keys, before, after, olds, news);
    InsertAllEntries(t - Members(olds), news, vs);
    MoveKeys(t, before, after);
    var r, m := InsertAll(t - Members(olds), news, vs), MoveTree(t, before, after);
    assert r.Keys == m.Keys;
    forall k | k in r ensures r[k] == m[k] {
      if k in news {
        var i :| 0 <= i < |news| && news[i] == k;
        assert olds[i] in Members(olds);
      } else {
        assert k !in Members(news);
      }
    }
  }

  function Blank(n: nat): seq<map<string, string>> { seq(n, i => map[]) }

  ghost function Relinked(kids: Kids, olds: seq<string>, news: seq<string>): Kids {
    LinkAll(InsertAll(DetachAll(kids, olds), news, Blank(|news|)), news)
  }

  /** Detach, insert without children, link again, in any order: every directory lists exactly what it should. */
  lemma PlanKids(keys: set<string>, kids: Kids, before: string, after: string, out: seq<string>, olds: seq<string>, news: seq<string>)
    requires LinkedBut(keys, kids, after) && Plan(keys, before, after, olds, news) && Members(out) == Members(olds) && before in keys && before != "/"
    ensures KidsMoved(keys, kids, before, after, Relinked(kids, out, news))
  {
    hide AbsPath, LinkedBut, Relinked, Plan, ParentOf, BaseOf, ChildPath;
    var kids' := Relinked(kids, out, news);
    assert kids'.Keys == keys - Moved(keys, before) + NewKeys(keys, before, after) by {
      forall k ensures k in kids' <==> k in keys - Moved(keys, before) + NewKeys(keys, before, after) {
        PlanKeys(keys, kids, before, after, out, olds, news, k);
      }
    }
    forall k, b | k in kids'
      ensures b in kids'[k] <==>
                || (k in kids && k !in NewKeys(keys, before, after) && b in kids[k] && !(k == ParentOf(before) && b == BaseOf(before)))
                || (IsName(b) && ChildPath(k, b) in NewKeys(keys, before, after))
      ensures b in kids'[k] ==> kids'[k][b] == ChildPath(k, b)
    {
      PlanListing(keys, kids, before, after, out, olds, news, k, b);
    }
  }

  lemma PlanNewPaths(keys: set<string>, kids: Kids, before: string, after: string, out: seq<string>, olds: seq<string>, news: seq<string>)
    requires LinkedBut(keys, kids, after) && Plan(keys, before, after, olds, news) && Members(out) == Members(olds) && before in keys && before != "/"
    ensures forall i :: 0 <= i < |news| ==> AbsPath(news[i]) && news[i] != "/"
  {
    hide AbsPath;
    forall i | 0 <= i < |news| ensures AbsPath(news[i]) && news[i] != "/" {
      assert olds[i] in Members(olds);
      NewKeyParent(olds[i], before, after);
    }
  }

  lemma PlanKeys(keys: set<string>, kids: Kids, before: string, after: string, out: seq<string>, olds: seq<string>, news: seq<string>, k: string)
    requires LinkedBut(keys, kids, after) && Plan(keys, before, after, olds, news) && Members(out) == Members(olds) && before in keys && before != "/"
    ensures k in Relinked(kids, out, news) <==> k in keys - Moved(keys, before) + NewKeys(keys, before, after)
  {
    hide AbsPath;
    var kids1 := DetachAll(kids, out);
    PlanNews(keys, before, after, olds, news);
    PlanNewPaths(keys, kids, before, after, out, olds, news);
    InsertAllEntries(kids1, news, Blank(|news|));
    LinkAllKids(InsertAll(kids1, news, Blank(|news|)), news, k, "");
    DetachedKey(kids, out, k);
    assert k in out <==> k in Members(out);
    assert k in news <==> k in Members(news);
  }

  lemma PlanListing(keys: set<string>, kids: Kids, before: string, after: string, out: seq<string>, olds: seq<string>, news: seq<string>, k: string, b: string)
    requires LinkedBut(keys, kids, after) && Plan(keys, before, after, olds, news) && Members(out) == Members(olds) && before in keys && before != "/" && k in Relinked(kids, out, news)
    ensures var kids' := Relinked(kids, out, news);
            && (b in kids'[k] <==>
                  || (k in kids && k !in NewKeys(keys, before, after) && b in kids[k] && !(k == ParentOf(before) && b == BaseOf(before)))
                  || (IsName(b) && ChildPath(k, b) in NewKeys(keys, before, after)))
            && (b in kids'[k] ==> kids'[k][b] == ChildPath(k, b))
  {
    PlanKeys(keys, kids, before, after, out, olds, news, k);
    hide AbsPath, ParentOf, BaseOf, ChildPath, LinkAll, DetachAll, InsertAll, Plan;
    var kids1 := DetachAll(kids, out);
    var kids2 := InsertAll(kids1, news, Blank(|news|));
    PlanNews(keys, before, after, olds, news);
    PlanNewPaths(keys, kids, before, after, out, olds, news);
    InsertAllEntries(kids1, news, Blank(|news|));
    LinkAllKids(kids2, news, k, b);
    assert ChildPath(k, b) in news <==> ChildPath(k, b) in Members(news);
    assert k in news <==> k in Members(news);
    MovedSet(keys, before, after, olds, news);
    assert AbsPath(k);
    if k in news {
      var i :| 0 <= i < |news| && news[i] == k;
      assert kids2[k] == Blank(|news|)[i];
    } else {
      DetachedKids(keys, kids, before, after, out, k);
    }
  }

  lemma MovedSet(keys: set<string>, before: string, after: string, olds: seq<string>, news: seq<string>)
    requires Plan(keys, before, after, olds, news)
    ensures Members(olds) == Moved(keys, before)
  {
  }

  lemma DetachedKey(kids: Kids, olds: seq<string>, k: string)
    ensures k in DetachAll(kids, olds) <==> k in kids && k !in olds
    decreases |olds|
  {
  }

  lemma DetachedKids(keys: set<string>, kids: Kids, before: string, after: string, olds: seq<string>, k: string)
    requires LinkedBut(keys, kids, after) && Members(olds) == Moved(keys, before) && before in keys && before != "/" && k in keys && !Under(k, before)
    ensures k in DetachAll(kids, olds)
    ensures DetachAll(kids, olds)[k] == if k == ParentOf(before) then kids[k] - {BaseOf(before)} else kids[k]
  {
    hide ParentOf, BaseOf;
    forall i | 0 <= i < |olds| && |olds[i]| > 1 && ParentOf(olds[i]) == k ensures olds[i] == before {
      assert olds[i] in Members(olds);
      UnderParent(olds[i], before);
    }
    assert k !in Members(olds) && before in Members(olds) && |before| > 1;
    DetachAllKids(kids, olds, k, before);
  }

  /** The two moves the operation does not refuse although no listing can be right afterwards. */
  lemma MoveBreaks(keys: set<string>, kids: Kids, before: string, after: string, kids': Kids)
    requires LinkedBut(keys, kids, after) && before in keys
    requires before == "/" || Under(after, before)
    ensures !Linked(keys - Moved(keys, before) + NewKeys(keys, before, after), kids')
  {
    var keys' := keys - Moved(keys, before) + NewKeys(keys, before, after);
    forall n | n in NewKeys(keys, before, after) ensures Under(n, after) {
      var k :| k in keys && Under(k, before) && n == NewKey(k, before, after);
      NewUnder(k, before, after);
    }
    if before == "/" {
      assert "/" !in keys';
    } else {
      NewUnder(before, before, after);
      assert NewKey(before, before, after) == after;
      assert after in keys';
      UnderParent(after, before);
      ParentChild(after);
      assert ParentOf(after) !in keys';
    }
  }

  /** Keys outside the moved subtree keep their entries, and moving back restores the tree. */
  lemma MoveBack<V>(t: map<string, V>, before: string, after: string)
    requires before in t && forall k :: k in t ==> !Under(k, after)
    ensures forall k :: k in t && !Under(k, before) ==> k in MoveTree(t, before, after) && MoveTree(t, before, after)[k] == t[k]
    ensures MoveTree(MoveTree(t, before, after), after, before) == t
  {
    hide MoveTree, Under, NewKey, OldKey;
    var m := MoveTree(t, before, after);
    var b := MoveTree(m, after, before);
    forall k | k in t ensures k in b && b[k] == t[k] && (!Under(k, before) ==> k in m && m[k] == t[k]) {
      ThereAndBack(t, before, after, k);
    }
    forall k | k in b ensures k in t {
      NothingNew(t, before, after, k);
    }
  }

  lemma ThereAndBack<V>(t: map<string, V>, before: string, after: string, k: string)
    requires k in t && forall j :: j in t ==> !Under(j, after)
    ensures var m := MoveTree(t, before, after); var b := MoveTree(m, after, before);
            k in b && b[k] == t[k] && (!Under(k, before) ==> k in m && m[k] == t[k])
  {
    hide MoveTree;
    var m := MoveTree(t, before, after);
    MoveKeys(t, before, after);
    MoveKeys(m, after, before);
    if Under(k, before) {
      NewUnder(k, before, after);
      OldOfNew(k, before, after);
      assert NewKey(NewKey(k, before, after), after, before) == k;
    } else {
      StaysPut(t, before, after, k);
      StaysPut(m, after, before, k);
    }
  }

  lemma NothingNew<V>(t: map<string, V>, before: string, after: string, k: string)
    requires forall j :: j in t ==> !Under(j, after)
    requires k in MoveTree(MoveTree(t, before, after), after, before)
    ensures k in t
  {
    hide MoveTree;
    var m := MoveTree(t, before, after);
    MoveKeys(t, before, after);
    MoveKeys(m, after, before);
    if k in NewKeys(m.Keys, after, before) {
      var n :| n in m && Under(n, after) && k == NewKey(n, after, before);
      var j :| j in t && Under(j, before) && n == NewKey(j, before, after);
      OldOfNew(j, before, after);
      assert NewKey(n, after, before) == j;
    } else if k in NewKeys(t.Keys, before, after) {
      var j :| j in t && Under(j, before) && k == NewKey(j, before, after);
      NewUnder(j, before, after);
    }
  }

  lemma StaysPut<V>(t: map<string, V>, before: string, after: string, k: string)
    requires k in t && !Under(k, before) && !Under(k, after)
    ensures k in MoveTree(t, before, after) && MoveTree(t, before, after)[k] == t[k]
  {
  }
}
