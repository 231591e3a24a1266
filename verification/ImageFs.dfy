/** Collecting the records of a filesystem, and whole images. */
module ImageFs {
  import opened Wrappers
  import opened Sorting
  import opened Paths
  import opened MemPaths
  import opened MemTree
  import opened Mem
  import opened Codec
  import opened Image
  import opened ImageIO
  import opened ImageRead
  import opened Replay

  // ---- Collecting paths ---------------------------------------------------------------------------

  function KeyOf(dir: string): string { if dir == "" then "/" else Abs(dir) }

  predicate StrictUnder(k: string, top: string) { k != "/" && (top == "/" || (Under(k, top) && k != top)) }

  ghost function KeysBelow(t: Tree, top: string): set<string> { set k | k in t && StrictUnder(k, top) }

  ghost predicate NoDoubles(list: seq<string>) { forall i, j :: 0 <= i < j < |list| ==> list[i] != list[j] }

  /** The parent is `top` or was listed before. */
  ghost predicate Ordered(list: seq<string>, top: string) {
    forall i :: 0 <= i < |list| ==> Above(list, top, i)
  }

  ghost predicate Above(list: seq<string>, top: string, i: nat)
    requires i < |list|
  {
    ParentOf(Abs(list[i])) == top || exists j :: 0 <= j < i && Abs(list[j]) == ParentOf(Abs(list[i]))
  }

  ghost predicate Listed(list: seq<string>, k: string) { exists i :: 0 <= i < |list| && Abs(list[i]) == k }

  /** Below one directory, the name of the one comes first in byte order. */
  ghost predicate Splits(k: string, l: string, dir: string, m: string, n: string) {
    IsName(m) && IsName(n) && Less(m, n) && Under(k, ChildPath(dir, m)) && Under(l, ChildPath(dir, n))
  }

  ghost predicate Precedes(k: string, l: string) { StrictUnder(l, k) || exists dir, m, n :: Splits(k, l, dir, m, n) }

  /** Each directory is followed by what it contains, and siblings stand in byte order. */
  ghost predicate TreeOrder(list: seq<string>) {
    forall i, j :: 0 <= i < j < |list| ==> Precedes(Abs(list[i]), Abs(list[j]))
  }

  /** Exactly the keys strictly below `top`. */
  ghost predicate Subtree(t: Tree, top: string, list: seq<string>) {
    && NoDoubles(list) && Ordered(list, top) && TreeOrder(list)
    && (forall i :: 0 <= i < |list| ==> list[i] != "" && Abs(list[i]) in t && StrictUnder(Abs(list[i]), top))
    && (forall k :: k in t && StrictUnder(k, top) ==> Listed(list, k))
  }

  ghost predicate UnderSome(k: string, top: string, names: seq<string>) {
    exists m :: 0 <= m < |names| && Under(k, ChildPath(top, names[m]))
  }

  /** Exactly the keys at or below some children of `top`. */
  ghost predicate Partial(t: Tree, top: string, names: seq<string>, list: seq<string>) {
    && NoDoubles(list) && Ordered(list, top) && TreeOrder(list)
    && (forall i :: 0 <= i < |list| ==> list[i] != "" && Abs(list[i]) in t && UnderSome(Abs(list[i]), top, names))
    && (forall k :: k in t && UnderSome(k, top, names) ==> Listed(list, k))
  }

  function Names(entries: seq<DirEntry>): seq<string> { seq(|entries|, i requires 0 <= i < |entries| => entries[i].name) }

  function RelChild(dir: string, name: string): string { if dir == "" then name else dir + "/" + name }

  lemma ChildRel(dir: string, name: string)
    ensures Abs(RelChild(dir, name)) == ChildPath(KeyOf(dir), name)
    requires dir == "" || KeyOf(dir) != "/"
  {
  }

  lemma DotKey()
    ensures AbsIn("/", ".") == Ok("/")
  {
    SplitPlain(".");
    RootPart(".");
    TwoParts("/", ".");
    assert ["."][1..] == [];
    assert Walk([], ["."]) == Walk([], []);
    assert Deficit(0, ["."]) == Deficit(0, []);
    assert JoinPart(Joined(true, []), ".") == Joined(true, []);
    assert Render(Joined(true, [])) == "/" + "";
    assert !Crosses(".") && JoinOf(["/", "."]) == "/";
  }

  /** Paths below two children of one directory are different. */
  lemma ApartChildren(k: string, top: string, a: string, b: string)
    requires AbsPath(top) && IsName(a) && IsName(b) && Under(k, ChildPath(top, a)) && Under(k, ChildPath(top, b))
    ensures a == b
  {
    var lead := (if top == "/" then "" else top) + "/";
    assert ChildPath(top, a) == lead + a && ChildPath(top, b) == lead + b;
    NameAt(k, lead, a);
    NameAt(k, lead, b);
    assert (forall i :: 0 <= i < |a| ==> a[i] in a) && (forall i :: 0 <= i < |b| ==> b[i] in b);
  }

  lemma NameAt(k: string, lead: string, a: string)
    requires Under(k, lead + a)
    ensures |lead| + |a| <= |k| && k[|lead|..|lead| + |a|] == a && (|k| > |lead| + |a| ==> k[|lead| + |a|] == '/')
    ensures forall i :: 0 <= i < |a| ==> k[|lead| + i] == a[i]
  {
  }

  /** A key below a directory lies at or below one of its children. */
  lemma {:induction false} ChildAbove(t: Tree, top: string, k: string) returns (b: string)
    requires GoodTree(t) && k in t && top in t && StrictUnder(k, top)
    ensures IsName(b) && ChildPath(top, b) in t && Under(k, ChildPath(top, b))
    decreases |k|
  {
    ParentChild(k);
    var d := ParentOf(k);
    if d == top {
      b := BaseOf(k);
    } else {
      if top != "/" { UnderParent(k, top); }
      assert StrictUnder(d, top) by { if top == "/" { assert d != "/"; } else { NotRoot(d, top); } }
      b := ChildAbove(t, top, d);
      ChildParent(top, b);
      UnderParent(k, ChildPath(top, b));
    }
  }

  lemma NotRoot(d: string, top: string)
    requires Under(d, top) && top != "/" && AbsPath(top)
    ensures d != "/"
  {
  }

  lemma UnderChild(top: string, b: string, k: string)
    requires AbsPath(top) && IsName(b) && AbsPath(k) && Under(k, ChildPath(top, b))
    ensures StrictUnder(k, top)
    ensures k != ChildPath(top, b) ==> StrictUnder(k, ChildPath(top, b))
  {
  }

  /** Adding one child and everything below it. */
  lemma PartialStep(t: Tree, top: string, names: seq<string>, list: seq<string>, rel: string, b: string, sub: seq<string>)
    requires GoodTree(t) && top in t && IsName(b) && b !in names && forall m :: 0 <= m < |names| ==> IsName(names[m]) && Less(names[m], b)
    requires Partial(t, top, names, list) && Abs(rel) == ChildPath(top, b) && Abs(rel) in t && Subtree(t, Abs(rel), sub)
    ensures Partial(t, top, names + [b], list + [rel] + sub)
  {
    hide TreeOrder, Less;
    var all, c, more := list + [rel] + sub, Abs(rel), names + [b];
    ChildParent(top, b);
    assert c[1..] == rel;
    SplitList(list, rel, sub);
    forall i | 0 <= i < |all| ensures all[i] != "" && Abs(all[i]) in t && UnderSome(Abs(all[i]), top, more) {
      if i < |list| {
        var m :| 0 <= m < |names| && Under(Abs(list[i]), ChildPath(top, names[m]));
        assert more[m] == names[m];
      } else {
        assert more[|names|] == b;
        if i > |list| { assert all[i] == sub[i - |list| - 1]; }
      }
    }
    PartialApart(t, top, names, list, rel, b, sub);
    forall k | k in t && UnderSome(k, top, more) ensures Listed(all, k) {
      PartialHas(t, top, names, list, rel, b, sub, k);
    }
    PartialOrder(list, rel, sub, top);
    PartialSorted(t, top, names, list, rel, b, sub);
  }

  lemma PartialSorted(t: Tree, top: string, names: seq<string>, list: seq<string>, rel: string, b: string, sub: seq<string>)
    requires IsName(b) && forall m :: 0 <= m < |names| ==> IsName(names[m]) && Less(names[m], b)
    requires Partial(t, top, names, list) && Abs(rel) == ChildPath(top, b) && Subtree(t, Abs(rel), sub)
    ensures TreeOrder(list + [rel] + sub)
  {
    hide Less, ChildPath, IsName, Ordered, NoDoubles, Precedes;
    var all, c := list + [rel] + sub, Abs(rel);
    SplitList(list, rel, sub);
    forall i, j | 0 <= i < j < |all| ensures Precedes(Abs(all[i]), Abs(all[j])) {
      if j < |list| {
        assert all[i] == list[i] && all[j] == list[j];
      } else if i > |list| {
        assert all[i] == sub[i - |list| - 1] && all[j] == sub[j - |list| - 1];
      } else {
        if j > |list| { assert all[j] == sub[j - |list| - 1]; }
        assert j == |list| || StrictUnder(Abs(all[j]), c);
        if i < |list| {
          assert all[i] == list[i];
          var m :| 0 <= m < |names| && Under(Abs(list[i]), ChildPath(top, names[m]));
          ApartInOrder(Abs(all[i]), Abs(all[j]), top, names[m], b);
        } else {
          BelowPrecedes(c, Abs(all[j]));
        }
      }
    }
  }

  lemma ApartInOrder(k: string, l: string, top: string, m: string, n: string)
    requires IsName(m) && IsName(n) && Less(m, n) && Under(k, ChildPath(top, m)) && (l == ChildPath(top, n) || StrictUnder(l, ChildPath(top, n)))
    ensures Precedes(k, l)
  {
    hide Less;
    assert ChildPath(top, n) != "/";
    assert Splits(k, l, top, m, n);
  }

  lemma BelowPrecedes(k: string, l: string)
    requires StrictUnder(l, k)
    ensures Precedes(k, l)
  {
  }

  lemma SplitList(list: seq<string>, rel: string, sub: seq<string>)
    ensures var all := list + [rel] + sub;
            && |all| == |list| + 1 + |sub| && all[|list|] == rel
            && (forall i :: 0 <= i < |list| ==> all[i] == list[i])
            && (forall i :: 0 <= i < |sub| ==> all[|list| + 1 + i] == sub[i])
  {
  }

  lemma PartialApart(t: Tree, top: string, names: seq<string>, list: seq<string>, rel: string, b: string, sub: seq<string>)
    requires GoodTree(t) && top in t && IsName(b) && b !in names && forall m :: 0 <= m < |names| ==> IsName(names[m])
    requires Partial(t, top, names, list) && Abs(rel) == ChildPath(top, b) && Abs(rel) in t && Subtree(t, Abs(rel), sub)
    ensures NoDoubles(list + [rel] + sub)
  {
    var all, c := list + [rel] + sub, Abs(rel);
    SplitList(list, rel, sub);
    ChildParent(top, b);
    forall i | 0 <= i < |list| ensures !Under(Abs(list[i]), c) {
      var m :| 0 <= m < |names| && Under(Abs(list[i]), ChildPath(top, names[m]));
      if Under(Abs(list[i]), c) { ApartChildren(Abs(list[i]), top, names[m], b); }
    }
    forall i | 0 <= i < |sub| ensures Under(Abs(sub[i]), c) && sub[i] != rel {}
    forall i, j | 0 <= i < j < |all| ensures all[i] != all[j] {
      if i < |list| && j >= |list| {
        assert Under(Abs(all[j]), c) by { if j > |list| { assert all[j] == sub[j - |list| - 1]; } }
      } else if i >= |list| {
        if i > |list| { assert all[i] == sub[i - |list| - 1]; }
        assert all[j] == sub[j - |list| - 1];
      }
    }
  }

  lemma PartialHas(t: Tree, top: string, names: seq<string>, list: seq<string>, rel: string, b: string, sub: seq<string>, k: string)
    requires GoodTree(t) && top in t && IsName(b) && Partial(t, top, names, list) && Abs(rel) == ChildPath(top, b) && Subtree(t, Abs(rel), sub)
    requires k in t && UnderSome(k, top, names + [b])
    ensures Listed(list + [rel] + sub, k)
  {
    var all, c := list + [rel] + sub, Abs(rel);
    SplitList(list, rel, sub);
    var m :| 0 <= m < |names + [b]| && Under(k, ChildPath(top, (names + [b])[m]));
    if m < |names| {
      assert UnderSome(k, top, names) by { assert Under(k, ChildPath(top, names[m])); }
      var i :| 0 <= i < |list| && Abs(list[i]) == k;
      assert Abs(all[i]) == k;
    } else if k == c {
      assert Abs(all[|list|]) == k;
    } else {
      UnderChild(top, b, k);
      var i :| 0 <= i < |sub| && Abs(sub[i]) == k;
      assert Abs(all[|list| + 1 + i]) == k;
    }
  }

  lemma PartialOrder(list: seq<string>, rel: string, sub: seq<string>, top: string)
    requires Ordered(list, top) && ParentOf(Abs(rel)) == top && Ordered(sub, Abs(rel))
    ensures Ordered(list + [rel] + sub, top)
  {
    var all := list + [rel] + sub;
    assert list + ([rel] + sub) == all && all[|list|] == rel;
    assert Above(all, top, |list|);
    hide Above;
    forall i | 0 <= i < |all| ensures Above(all, top, i) {
      if i < |list| {
        AboveFront(list, [rel] + sub, top, i);
      } else if i > |list| {
        AboveBack(list, rel, sub, top, i - |list| - 1);
      }
    }
  }

  lemma AboveFront(list: seq<string>, rest: seq<string>, top: string, i: nat)
    requires Ordered(list, top) && i < |list|
    ensures Above(list + rest, top, i)
  {
    var all := list + rest;
    assert all[i] == list[i] && Above(list, top, i);
    if j :| 0 <= j < i && Abs(list[j]) == ParentOf(Abs(list[i])) { assert Abs(all[j]) == ParentOf(Abs(all[i])); }
  }

  lemma AboveBack(list: seq<string>, rel: string, sub: seq<string>, top: string, n: nat)
    requires Ordered(sub, Abs(rel)) && n < |sub|
    ensures Above(list + [rel] + sub, top, |list| + 1 + n)
  {
    var all := list + [rel] + sub;
    var i := |list| + 1 + n;
    assert all[i] == sub[n] && all[|list|] == rel && Above(sub, Abs(rel), n);
    if j :| 0 <= j < n && Abs(sub[j]) == ParentOf(Abs(sub[n])) {
      assert all[|list| + 1 + j] == sub[j];
      assert Abs(all[|list| + 1 + j]) == ParentOf(Abs(all[i]));
    } else {
      assert Abs(all[|list|]) == ParentOf(Abs(all[i]));
    }
  }

  lemma PartialDone(t: Tree, top: string, entries: seq<DirEntry>, list: seq<string>)
    requires GoodTree(t) && top in t && ListsDir(t, top, entries) && Partial(t, top, Names(entries), list)
    ensures Subtree(t, top, list)
  {
    hide TreeOrder;
    forall i | 0 <= i < |list| ensures StrictUnder(Abs(list[i]), top) {
      var m :| 0 <= m < |Names(entries)| && Under(Abs(list[i]), ChildPath(top, Names(entries)[m]));
      UnderChild(top, entries[m].name, Abs(list[i]));
    }
    forall k | k in t && StrictUnder(k, top) ensures Listed(list, k) {
      var b := ChildAbove(t, top, k);
      var m :| 0 <= m < |entries| && entries[m].name == b;
      assert Under(k, ChildPath(top, Names(entries)[m]));
    }
  }

  /** A file has nothing below it. */
  lemma FileAlone(t: Tree, c: string)
    requires GoodTree(t) && c in t && !t[c].kind.Dir?
    ensures Subtree(t, c, [])
  {
    forall k | k in t ensures !StrictUnder(k, c) {
      if StrictUnder(k, c) { HasBelow(t, c, k); }
    }
  }

  lemma HasBelow(t: Tree, c: string, k: string)
    requires GoodTree(t) && c in t && k in t && StrictUnder(k, c)
    ensures t[c].kind.Dir?
  {
    var b := ChildAbove(t, c, k);
    ChildParent(c, b);
  }

  lemma BelowShrinks(t: Tree, top: string, b: string)
    requires GoodTree(t) && top in t && IsName(b) && ChildPath(top, b) in t
    ensures KeysBelow(t, ChildPath(top, b)) < KeysBelow(t, top)
  {
    var c := ChildPath(top, b);
    ChildParent(top, b);
    UnderChild(top, b, c);
    assert c in KeysBelow(t, top) && c !in KeysBelow(t, c);
    forall k | k in KeysBelow(t, c) ensures k in KeysBelow(t, top) { UnderChild(top, b, k); }
  }

  lemma DirRead(t: Tree, dir: string)
    requires GoodTree(t) && KeyOf(dir) in t && (dir == "" || KeyOf(dir) != "/")
    ensures AbsIn("/", if dir == "" then "." else dir) == Ok(KeyOf(dir))
  {
    if dir == "" {
      DotKey();
    } else {
      RelKey(Abs(dir));
      assert Abs(dir)[1..] == dir;
    }
  }

  /** The paths below a directory, each directory before what it contains. */
  method Collect(fs: Mem, dir: string) returns (list: seq<string>)
    requires fs.Valid() && GoodTree(fs.View()) && KeyOf(dir) in fs.View() && fs.View()[KeyOf(dir)].kind.Dir?
    requires dir == "" || KeyOf(dir) != "/"
    ensures Subtree(fs.View(), KeyOf(dir), list)
    decreases KeysBelow(fs.View(), KeyOf(dir))
  {
    hide GoodTree, Subtree, Partial, AbsIn, Mem.Valid, Mem.View, Typed;
    ghost var t, top := fs.View(), KeyOf(dir);
    DirRead(t, dir);
    var read := fs.ReadDir(if dir == "" then "." else dir);
    var entries := read.value;
    list := [];
    PartialNone(t, top);
    var i := 0;
    while i < |entries|
      invariant 0 <= i <= |entries| && Partial(t, top, Names(entries)[..i], list)
    {
      var path := RelChild(dir, entries[i].name);
      EntryFacts(t, top, entries, i);
      ChildRel(dir, entries[i].name);
      assert Names(entries)[..i + 1] == Names(entries)[..i] + [entries[i].name];
      var sub: seq<string> := [];
      if KindBits(entries[i].mode) == 4 {
        BelowShrinks(t, top, entries[i].name);
        sub := Collect(fs, path);
      } else {
        FileAlone(t, Abs(path));
      }
      PartialStep(t, top, Names(entries)[..i], list, path, entries[i].name, sub);
      list := list + [path] + sub;
      i := i + 1;
    }
    assert Names(entries)[..i] == Names(entries);
    PartialDone(t, top, entries, list);
  }

  lemma PartialNone(t: Tree, top: string)
    ensures forall names: seq<string> :: Partial(t, top, names[..0], [])
  {
  }

  lemma EntryFacts(t: Tree, top: string, entries: seq<DirEntry>, i: nat)
    requires GoodTree(t) && top in t && ListsDir(t, top, entries) && i < |entries|
    ensures IsName(entries[i].name) && ChildPath(top, entries[i].name) in t && entries[i].name !in Names(entries)[..i]
    ensures forall m :: 0 <= m < i ==> IsName(Names(entries)[..i][m]) && Less(Names(entries)[..i][m], entries[i].name)
    ensures KindBits(entries[i].mode) == 4 <==> t[ChildPath(top, entries[i].name)].kind.Dir?
    ensures ChildPath(top, entries[i].name) != "/" && entries[i].name != ""
  {
    hide AbsPath, CleanOf, DirsOnly, Short, ChildPath, IsName, StringLe;
    assert AbsPath(top);
    ChildParent(top, entries[i].name);
    forall m | 0 <= m < i ensures Names(entries)[m] != entries[i].name { assert Less(entries[m].name, entries[i].name); }
  }
}
