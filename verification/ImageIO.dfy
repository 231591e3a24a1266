/** Writing a storage to an image and reading it back. */
module ImageIO {
  import opened Wrappers
  import opened Sorting
  import opened MemPaths
  import opened Codec
  import opened Image
  import opened Layout

  datatype ImageError = InvalidImage | UnsupportedImageVersion | UnsupportedObjectType | InvalidGitFileName | InvalidIndex | Filesystem(error: FsError)

  // ---- Writer ---------------------------------------------------------------------------------------

  class ImageWriter {
    var bytes: string

    constructor ()
      ensures bytes == ""
    {
      bytes := "";
    }

    method Raw(value: string)
      modifies this
      ensures bytes == old(bytes) + value
    {
      bytes := bytes + value;
    }

    method PutByte(n: nat)
      requires n < 256
      modifies this
      ensures bytes == old(bytes) + Encode(StorageS, Byte, Num(n)) && Fits(StorageS, Byte, Num(n))
      ensures bytes == old(bytes) + ByteOf(n)
    {
      assert LittleEndian(n, 1) == [(n % 256) as char] + "";
      Raw([n as char]);
    }

    method PutInt(n: nat, size: nat)
      modifies this
      ensures bytes == old(bytes) + LittleEndian(n, size)
    {
      Raw(LittleEndian(n, size));
    }

    method PutText(value: string)
      modifies this
      requires Short(value)
      ensures bytes == old(bytes) + Encode(StorageS, Blob, Text(value)) && Fits(StorageS, Blob, Text(value))
      ensures bytes == old(bytes) + TextBytes(value)
    {
      PutInt(|value|, 4);
      Raw(value);
    }
  }

  lemma FoldOne<T>(load: (T, Value) -> T, t: T, items: seq<Value>, v: Value)
    ensures Fold(load, t, items + [v]) == load(Fold(load, t, items), v)
  {
  }

  lemma OneLess<T>(m: map<string, T>, todo: set<string>, n: string)
    requires n in todo && n in m
    ensures m - (todo - {n}) == (m - todo)[n := m[n]]
  {
  }

  lemma AllLeft<T>(m: map<string, T>)
    ensures m - m.Keys == map[] && m - {} == m && |m.Keys| == |m|
  {
  }

  lemma {:induction false} KeyCount<T>(m: map<string, T>)
    ensures |m.Keys| == |m|
  {
    if m != map[] {
      var k :| k in m;
      KeyCount(m - {k});
      assert (m - {k}).Keys == m.Keys - {k};
      assert m == (m - {k})[k := m[k]];
    }
  }

  ghost predicate AllFit(s: Schema, items: seq<Value>) { forall i :: 0 <= i < |items| ==> Fits(StorageS, s, items[i]) }

  /** A count and some items of a list have been appended. */
  ghost predicate Wrote(before: string, bytes: string, count: nat, s: Schema, items: seq<Value>) {
    bytes == before + LittleEndian(count, 4) + EncodeItems(StorageS, s, items) && AllFit(s, items)
  }

  lemma WroteNone(before: string, count: nat, s: Schema)
    ensures Wrote(before, before + LittleEndian(count, 4), count, s, [])
  {
  }

  lemma WroteOne(before: string, bytes: string, count: nat, s: Schema, items: seq<Value>, v: Value)
    requires Wrote(before, bytes, count, s, items) && Fits(StorageS, s, v)
    ensures Wrote(before, bytes + Encode(StorageS, s, v), count, s, items + [v])
  {
    hide Encode, EncodeItems, LittleEndian, Fits;
    OneItem(StorageS, s, items, v);
    var c, d := EncodeItems(StorageS, s, items), Encode(StorageS, s, v);
    assert before + LittleEndian(count, 4) + c + d == before + LittleEndian(count, 4) + (c + d);
  }

  /** A complete list is an encoded value. */
  lemma WroteAll(before: string, bytes: string, s: Schema, items: seq<Value>)
    requires Wrote(before, bytes, |items|, s, items) && |items| < TWO32
    ensures Fits(StorageS, Many(s), List(items)) && bytes == before + Encode(StorageS, Many(s), List(items))
  {
  }

  /** Two parts written one after the other are an encoded pair. */
  lemma Append(before: string, between: string, bytes: string, a: Schema, v: Value, b: Schema, x: Value)
    requires between == before + Encode(StorageS, a, v) && bytes == between + Encode(StorageS, b, x)
    requires Fits(StorageS, a, v) && Fits(StorageS, b, x)
    ensures bytes == before + Encode(StorageS, Both(a, b), Pair(v, x)) && Fits(StorageS, Both(a, b), Pair(v, x))
  {
    hide Encode, Fits;
    PairCode(a, v, b, x);
    var c, d := Encode(StorageS, a, v), Encode(StorageS, b, x);
    assert before + c + d == before + (c + d);
  }

  lemma PairCode(a: Schema, v: Value, b: Schema, x: Value)
    ensures Encode(StorageS, Both(a, b), Pair(v, x)) == Encode(StorageS, a, v) + Encode(StorageS, b, x)
    ensures Fits(StorageS, Both(a, b), Pair(v, x)) <==> Fits(StorageS, a, v) && Fits(StorageS, b, x)
  {
  }

  lemma Regroup(a: string, b: string, c: string, d: string)
    ensures a + (b + c) + d == a + (b + (c + d))
  {
    assert a + (b + c) + d == a + (b + (c + d));
  }

  lemma NoObjects(objects: set<Object>)
    ensures PartObjects([], objects, objects) && JoinObjects([]) == ""
  {
  }

  lemma SameCount<T>(names: seq<string>, m: map<string, T>)
    requires PartNames(names, {}, m)
    ensures |names| == |m|
  {
  }

  ghost predicate KnownObject(v: Value) { v.Pair? && v.fst.Num? && KnownKind(v.fst.n) }

  method WriteObject(w: ImageWriter, o: Object) returns (ghost v: Value)
    requires KnownKind(o.kind) && Short(o.content)
    modifies w
    ensures w.bytes == old(w.bytes) + Encode(StorageS, ObjectS, v) && Fits(StorageS, ObjectS, v)
    ensures w.bytes == old(w.bytes) + ObjectBytes(o)
    ensures KnownObject(v) && forall s :: LoadObject(s, v) == s + {o}
  {
    w.PutByte(o.kind);
    w.PutText(o.content);
    v := Pair(Num(o.kind), Text(o.content));
  }

  method WriteObjects(w: ImageWriter, objects: set<Object>) returns (ghost items: seq<Value>, ghost block: string)
    requires forall o :: o in objects ==> KnownKind(o.kind) && Short(o.content)
    modifies w
    ensures Wrote(old(w.bytes), w.bytes, |objects|, ObjectS, items) && |items| == |objects|
    ensures w.bytes == old(w.bytes) + block && ObjectsImage(objects, block)
    ensures Fold(LoadObject, {}, items) == objects && forall i :: 0 <= i < |items| ==> KnownObject(items[i])
  {
    hide PartObjects, JoinObjects, ObjectsImage, ObjectBytes, Wrote, LoadObject, KnownObject, Short;
    items := [];
    ghost var list: seq<Object> := [];
    NoObjects(objects);
    assert Count(|objects|) + "" == Count(|objects|);
    WroteNone(w.bytes, |objects|, ObjectS);
    w.PutInt(|objects|, 4);
    var todo := objects;
    while todo != {}
      invariant todo <= objects && |items| + |todo| == |objects|
      invariant Wrote(old(w.bytes), w.bytes, |objects|, ObjectS, items)
      invariant Fold(LoadObject, {}, items) == objects - todo && forall i :: 0 <= i < |items| ==> KnownObject(items[i])
      invariant PartObjects(list, todo, objects) && w.bytes == old(w.bytes) + (Count(|objects|) + JoinObjects(list))
      decreases todo
    {
      var o :| o in todo;
      OneMoreObject(list, todo, objects, o);
      ghost var done := JoinObjects(list);
      todo := todo - {o};
      ghost var before := w.bytes;
      ghost var v := WriteObject(w, o);
      WroteOne(old(w.bytes), before, |objects|, ObjectS, items, v);
      FoldOne(LoadObject, {}, items, v);
      items := items + [v];
      Regroup(old(w.bytes), Count(|objects|), done, ObjectBytes(o));
      list := list + [o];
    }
    AllObjects(list, objects);
    block := Count(|objects|) + JoinObjects(list);
  }

  /** A list of byte strings. */
  method WriteTexts(w: ImageWriter, texts: seq<string>) returns (ghost items: seq<Value>)
    requires forall i :: 0 <= i < |texts| ==> Short(texts[i])
    modifies w
    ensures Wrote(old(w.bytes), w.bytes, |texts|, Blob, items) && |items| == |texts| && Texts(items) == texts
    ensures forall i :: 0 <= i < |items| ==> items[i] == Text(texts[i])
    ensures w.bytes == old(w.bytes) + TextsBytes(texts)
  {
    hide Wrote, TextBytes;
    assert Count(|texts|) + "" == Count(|texts|);
    items := [];
    WroteNone(w.bytes, |texts|, Blob);
    w.PutInt(|texts|, 4);
    var i := 0;
    while i < |texts|
      invariant 0 <= i <= |texts| && |items| == i
      invariant Wrote(old(w.bytes), w.bytes, |texts|, Blob, items)
      invariant forall j :: 0 <= j < i ==> items[j] == Text(texts[j])
      invariant w.bytes == old(w.bytes) + (Count(|texts|) + JoinTexts(texts[..i]))
    {
      ghost var before := w.bytes;
      OneMoreText(texts, i);
      Regroup(old(w.bytes), Count(|texts|), JoinTexts(texts[..i]), TextBytes(texts[i]));
      w.PutText(texts[i]);
      WroteOne(old(w.bytes), before, |texts|, Blob, items, Text(texts[i]));
      items := items + [Text(texts[i])];
      i := i + 1;
    }
    assert texts[..i] == texts;
  }

  method WriteRef(w: ImageWriter, name: string, x: Ref) returns (ghost v: Value)
    requires Short(name) && GoodRef(x)
    modifies w
    ensures w.bytes == old(w.bytes) + Encode(StorageS, RefS, v) && Fits(StorageS, RefS, v)
    ensures w.bytes == old(w.bytes) + RefBytes(name, x)
    ensures forall m :: LoadRef(m, v) == m[name := x]
  {
    hide Encode, Fits, RefBytes, TextBytes, ByteOf, LoadRef;
    var (kind, value) := match x { case HashRef(h) => (1, h) case SymbolicRef(t) => (2, t) case InvalidRef => (0, "") };
    ghost var b0 := w.bytes;
    w.PutByte(kind);
    ghost var b1 := w.bytes;
    w.PutText(name);
    ghost var b2 := w.bytes;
    w.PutText(value);
    Append(b1, b2, w.bytes, Blob, Text(name), Blob, Text(value));
    v := Pair(Num(kind), Pair(Text(name), Text(value)));
    RefIs(name, x);
    assert b0 + ByteOf(kind) + TextBytes(name) + TextBytes(value) == b0 + (ByteOf(kind) + TextBytes(name) + TextBytes(value));
    Append(b0, b1, w.bytes, Byte, Num(kind), Both(Blob, Blob), v.snd);
  }

  lemma RefIs(name: string, x: Ref)
    requires GoodRef(x)
    ensures var (kind, value) := match x { case HashRef(h) => (1, h) case SymbolicRef(t) => (2, t) case InvalidRef => (0, "") };
            && RefBytes(name, x) == ByteOf(kind) + TextBytes(name) + TextBytes(value)
            && forall m :: LoadRef(m, Pair(Num(kind), Pair(Text(name), Text(value)))) == m[name := x]
  {
    assert x.HashRef? ==> x.hash[..HASH_SIZE] == x.hash;
  }

  method WriteRefs(w: ImageWriter, m: map<string, Ref>) returns (ghost items: seq<Value>, ghost block: string)
    requires forall n :: n in m ==> Short(n) && GoodRef(m[n])
    modifies w
    ensures Wrote(old(w.bytes), w.bytes, |m|, RefS, items) && |items| == |m| && Fold(LoadRef, map[], items) == m
    ensures w.bytes == old(w.bytes) + block && MapImage(m, RefBytes, block)
  {
    hide PartNames, JoinMap, MapImage, RefBytes, Wrote, LoadRef, Short, GoodRef;
    AllLeft(m);
    items := [];
    ghost var names: seq<string> := [];
    NoneNamed(m, RefBytes);
    assert Count(|m|) + "" == Count(|m|);
    WroteNone(w.bytes, |m|, RefS);
    w.PutInt(|m|, 4);
    var todo := m.Keys;
    while todo != {}
      invariant todo <= m.Keys && |items| + |todo| == |m|
      invariant Wrote(old(w.bytes), w.bytes, |m|, RefS, items) && Fold(LoadRef, map[], items) == m - todo
      invariant PartNames(names, todo, m) && (forall i :: 0 <= i < |names| ==> names[i] in m)
      invariant w.bytes == old(w.bytes) + (Count(|m|) + JoinMap(m, names, RefBytes))
      decreases todo
    {
      var n :| n in todo;
      OneLess(m, todo, n);
      OneNamedMore(names, todo, m, n, RefBytes);
      ghost var done := JoinMap(m, names, RefBytes);
      todo := todo - {n};
      ghost var before := w.bytes;
      ghost var v := WriteRef(w, n, m[n]);
      WroteOne(old(w.bytes), before, |m|, RefS, items, v);
      FoldOne(LoadRef, map[], items, v);
      items := items + [v];
      Regroup(old(w.bytes), Count(|m|), done, RefBytes(n, m[n]));
      names := names + [n];
    }
    AllNamed(names, m, RefBytes);
    SameCount(names, m);
    block := Count(|m|) + JoinMap(m, names, RefBytes);
  }

  method WriteRemote(w: ImageWriter, name: string, x: Remote) returns (ghost v: Value)
    requires Short(name) && GoodRemote(x)
    modifies w
    ensures w.bytes == old(w.bytes) + Encode(StorageS, RemoteS, v) && Fits(StorageS, RemoteS, v)
    ensures w.bytes == old(w.bytes) + RemoteBytes(name, x)
    ensures forall m :: LoadRemote(m, v) == m[name := x]
  {
    hide Wrote, Encode, Fits;
    ghost var b0 := w.bytes;
    w.PutText(name);
    ghost var b1 := w.bytes;
    ghost var urls := WriteTexts(w, x.urls);
    WroteAll(b1, w.bytes, Blob, urls);
    ghost var b2 := w.bytes;
    ghost var fetch := WriteTexts(w, x.fetch);
    WroteAll(b2, w.bytes, Blob, fetch);
    ghost var b3 := w.bytes;
    var flag := if x.mirror then 1 else 0;
    w.PutByte(flag);
    v := Pair(Text(name), Pair(List(urls), Pair(List(fetch), Num(flag))));
    Append(b2, b3, w.bytes, Many(Blob), List(fetch), Byte, Num(flag));
    Append(b1, b2, w.bytes, Many(Blob), List(urls), Both(Many(Blob), Byte), v.snd.snd);
    Append(b0, b1, w.bytes, Blob, Text(name), Both(Many(Blob), Both(Many(Blob), Byte)), v.snd);
  }

  method WriteRemotes(w: ImageWriter, m: map<string, Remote>) returns (ghost items: seq<Value>, ghost block: string)
    requires forall n :: n in m ==> Short(n) && GoodRemote(m[n])
    modifies w
    ensures Wrote(old(w.bytes), w.bytes, |m|, RemoteS, items) && |items| == |m| && Fold(LoadRemote, map[], items) == m
    ensures w.bytes == old(w.bytes) + block && MapImage(m, RemoteBytes, block)
  {
    hide PartNames, JoinMap, MapImage, RemoteBytes, Wrote, LoadRemote, Short, GoodRemote;
    AllLeft(m);
    items := [];
    ghost var names: seq<string> := [];
    NoneNamed(m, RemoteBytes);
    assert Count(|m|) + "" == Count(|m|);
    WroteNone(w.bytes, |m|, RemoteS);
    w.PutInt(|m|, 4);
    var todo := m.Keys;
    while todo != {}
      invariant todo <= m.Keys && |items| + |todo| == |m|
      invariant Wrote(old(w.bytes), w.bytes, |m|, RemoteS, items) && Fold(LoadRemote, map[], items) == m - todo
      invariant PartNames(names, todo, m) && (forall i :: 0 <= i < |names| ==> names[i] in m)
      invariant w.bytes == old(w.bytes) + (Count(|m|) + JoinMap(m, names, RemoteBytes))
      decreases todo
    {
      var n :| n in todo;
      OneLess(m, todo, n);
      OneNamedMore(names, todo, m, n, RemoteBytes);
      ghost var done := JoinMap(m, names, RemoteBytes);
      todo := todo - {n};
      ghost var before := w.bytes;
      ghost var v := WriteRemote(w, n, m[n]);
      WroteOne(old(w.bytes), before, |m|, RemoteS, items, v);
      FoldOne(LoadRemote, map[], items, v);
      items := items + [v];
      Regroup(old(w.bytes), Count(|m|), done, RemoteBytes(n, m[n]));
      names := names + [n];
    }
    AllNamed(names, m, RemoteBytes);
    SameCount(names, m);
    block := Count(|m|) + JoinMap(m, names, RemoteBytes);
  }

  method WriteBranch(w: ImageWriter, name: string, x: Branch) returns (ghost v: Value)
    requires Short(name) && Short(x.remote) && Short(x.merge)
    modifies w
    ensures w.bytes == old(w.bytes) + Encode(StorageS, BranchS, v) && Fits(StorageS, BranchS, v)
    ensures w.bytes == old(w.bytes) + BranchBytes(name, x)
    ensures forall m :: LoadBranch(m, v) == m[name := x]
  {
    hide Encode, Fits;
    ghost var b0 := w.bytes;
    w.PutText(name);
    ghost var b1 := w.bytes;
    w.PutText(x.remote);
    ghost var b2 := w.bytes;
    w.PutText(x.merge);
    v := Pair(Text(name), Pair(Text(x.remote), Text(x.merge)));
    Append(b1, b2, w.bytes, Blob, Text(x.remote), Blob, Text(x.merge));
    Append(b0, b1, w.bytes, Blob, Text(name), Both(Blob, Blob), v.snd);
  }

  method WriteBranches(w: ImageWriter, m: map<string, Branch>) returns (ghost items: seq<Value>, ghost block: string)
    requires forall n :: n in m ==> Short(n) && Short(m[n].remote) && Short(m[n].merge)
    modifies w
    ensures Wrote(old(w.bytes), w.bytes, |m|, BranchS, items) && |items| == |m| && Fold(LoadBranch, map[], items) == m
    ensures w.bytes == old(w.bytes) + block && MapImage(m, BranchBytes, block)
  {
    hide PartNames, JoinMap, MapImage, BranchBytes, Wrote, LoadBranch, Short;
    AllLeft(m);
    items := [];
    ghost var names: seq<string> := [];
    NoneNamed(m, BranchBytes);
    assert Count(|m|) + "" == Count(|m|);
    WroteNone(w.bytes, |m|, BranchS);
    w.PutInt(|m|, 4);
    var todo := m.Keys;
    while todo != {}
      invariant todo <= m.Keys && |items| + |todo| == |m|
      invariant Wrote(old(w.bytes), w.bytes, |m|, BranchS, items) && Fold(LoadBranch, map[], items) == m - todo
      invariant PartNames(names, todo, m) && (forall i :: 0 <= i < |names| ==> names[i] in m)
      invariant w.bytes == old(w.bytes) + (Count(|m|) + JoinMap(m, names, BranchBytes))
      decreases todo
    {
      var n :| n in todo;
      OneLess(m, todo, n);
      OneNamedMore(names, todo, m, n, BranchBytes);
      ghost var done := JoinMap(m, names, BranchBytes);
      todo := todo - {n};
      ghost var before := w.bytes;
      ghost var v := WriteBranch(w, n, m[n]);
      WroteOne(old(w.bytes), before, |m|, BranchS, items, v);
      FoldOne(LoadBranch, map[], items, v);
      items := items + [v];
      Regroup(old(w.bytes), Count(|m|), done, BranchBytes(n, m[n]));
      names := names + [n];
    }
    AllNamed(names, m, BranchBytes);
    SameCount(names, m);
    block := Count(|m|) + JoinMap(m, names, BranchBytes);
  }

  method WriteSubmodule(w: ImageWriter, name: string, x: Submodule) returns (ghost v: Value)
    requires Short(name) && Short(x.path) && Short(x.url) && Short(x.branch)
    modifies w
    ensures w.bytes == old(w.bytes) + Encode(StorageS, SubmoduleS, v) && Fits(StorageS, SubmoduleS, v)
    ensures w.bytes == old(w.bytes) + SubmoduleBytes(name, x)
    ensures forall m :: LoadSubmodule(m, v) == m[name := x]
  {
    hide Encode, Fits;
    ghost var b0 := w.bytes;
    w.PutText(name);
    ghost var b1 := w.bytes;
    w.PutText(x.path);
    ghost var b2 := w.bytes;
    w.PutText(x.url);
    ghost var b3 := w.bytes;
    w.PutText(x.branch);
    v := Pair(Text(name), Pair(Text(x.path), Pair(Text(x.url), Text(x.branch))));
    Append(b2, b3, w.bytes, Blob, Text(x.url), Blob, Text(x.branch));
    Append(b1, b2, w.bytes, Blob, Text(x.path), Both(Blob, Blob), v.snd.snd);
    Append(b0, b1, w.bytes, Blob, Text(name), Both(Blob, Both(Blob, Blob)), v.snd);
  }

  method WriteSubmodules(w: ImageWriter, m: map<string, Submodule>) returns (ghost items: seq<Value>, ghost block: string)
    requires forall n :: n in m ==> Short(n) && Short(m[n].path) && Short(m[n].url) && Short(m[n].branch)
    modifies w
    ensures Wrote(old(w.bytes), w.bytes, |m|, SubmoduleS, items) && |items| == |m| && Fold(LoadSubmodule, map[], items) == m
    ensures w.bytes == old(w.bytes) + block && MapImage(m, SubmoduleBytes, block)
  {
    hide PartNames, JoinMap, MapImage, SubmoduleBytes, Wrote, LoadSubmodule, Short;
    AllLeft(m);
    items := [];
    ghost var names: seq<string> := [];
    NoneNamed(m, SubmoduleBytes);
    assert Count(|m|) + "" == Count(|m|);
    WroteNone(w.bytes, |m|, SubmoduleS);
    w.PutInt(|m|, 4);
    var todo := m.Keys;
    while todo != {}
      invariant todo <= m.Keys && |items| + |todo| == |m|
      invariant Wrote(old(w.bytes), w.bytes, |m|, SubmoduleS, items) && Fold(LoadSubmodule, map[], items) == m - todo
      invariant PartNames(names, todo, m) && (forall i :: 0 <= i < |names| ==> names[i] in m)
      invariant w.bytes == old(w.bytes) + (Count(|m|) + JoinMap(m, names, SubmoduleBytes))
      decreases todo
    {
      var n :| n in todo;
      OneLess(m, todo, n);
      OneNamedMore(names, todo, m, n, SubmoduleBytes);
      ghost var done := JoinMap(m, names, SubmoduleBytes);
      todo := todo - {n};
      ghost var before := w.bytes;
      ghost var v := WriteSubmodule(w, n, m[n]);
      WroteOne(old(w.bytes), before, |m|, SubmoduleS, items, v);
      FoldOne(LoadSubmodule, map[], items, v);
      items := items + [v];
      Regroup(old(w.bytes), Count(|m|), done, SubmoduleBytes(n, m[n]));
      names := names + [n];
    }
    AllNamed(names, m, SubmoduleBytes);
    SameCount(names, m);
    block := Count(|m|) + JoinMap(m, names, SubmoduleBytes);
  }

  // ---- Configuration, git files, modules ----------------------------------------------------------

  /** The eight fixed texts. */
  method WriteFields(w: ImageWriter, t: seq<string>) returns (ghost v: Value)
    requires |t| == CONFIG_TEXTS && forall i :: 0 <= i < |t| ==> Short(t[i])
    modifies w
    ensures w.bytes == old(w.bytes) + Encode(StorageS, TextsS, v) && Fits(StorageS, TextsS, v) && TextList(v) == t
    ensures w.bytes == old(w.bytes) + JoinTexts(t)
  {
    hide Encode, Fits, Short, TextBytes;
    assert old(w.bytes) + JoinTexts(t[..0]) == old(w.bytes);
    ghost var b: seq<string> := [w.bytes];
    var i := 0;
    while i < |t|
      invariant 0 <= i <= |t| && |b| == i + 1 && b[0] == old(w.bytes) && b[i] == w.bytes
      invariant forall j :: 0 <= j < i ==> b[j + 1] == b[j] + Encode(StorageS, Blob, Text(t[j])) && Fits(StorageS, Blob, Text(t[j]))
      invariant w.bytes == old(w.bytes) + JoinTexts(t[..i])
    {
      OneMoreText(t, i);
      assert old(w.bytes) + JoinTexts(t[..i]) + TextBytes(t[i]) == old(w.bytes) + (JoinTexts(t[..i]) + TextBytes(t[i]));
      w.PutText(t[i]);
      b := b + [w.bytes];
      i := i + 1;
    }
    assert t[..i] == t;
    v := TextsValue(t, 0);
    TextsWritten(b, t, 0);
    TextsOf(t);
  }

  ghost function TextsValue(t: seq<string>, i: nat): Value
    requires i < |t|
    decreases |t| - i
  {
    if i == |t| - 1 then Text(t[i]) else Pair(Text(t[i]), TextsValue(t, i + 1))
  }

  ghost function TextsSchema(n: nat): Schema { if n <= 1 then Blob else Both(Blob, TextsSchema(n - 1)) }

  lemma {:induction false} TextsWritten(b: seq<string>, t: seq<string>, i: nat)
    requires i < |t| && |b| == |t| + 1
    requires forall j :: 0 <= j < |t| ==> b[j + 1] == b[j] + Encode(StorageS, Blob, Text(t[j])) && Fits(StorageS, Blob, Text(t[j]))
    ensures b[|t|] == b[i] + Encode(StorageS, TextsSchema(|t| - i), TextsValue(t, i)) && Fits(StorageS, TextsSchema(|t| - i), TextsValue(t, i))
    decreases |t| - i
  {
    hide Encode, Fits;
    if i < |t| - 1 {
      TextsWritten(b, t, i + 1);
      Append(b[i], b[i + 1], b[|t|], Blob, Text(t[i]), TextsSchema(|t| - i - 1), TextsValue(t, i + 1));
    }
  }

  lemma TextsOf(t: seq<string>)
    requires |t| == CONFIG_TEXTS
    ensures TextsSchema(8) == TextsS && TextList(TextsValue(t, 0)) == t
  {
    hide TextList;
    assert TextsSchema(2) == Both(Blob, Blob) && TextsSchema(3) == Both(Blob, TextsSchema(2)) && TextsSchema(4) == Both(Blob, TextsSchema(3));
    assert TextsSchema(5) == Both(Blob, TextsSchema(4)) && TextsSchema(6) == Both(Blob, TextsSchema(5)) && TextsSchema(7) == Both(Blob, TextsSchema(6));
    assert TextsValue(t, 6) == Pair(Text(t[6]), TextsValue(t, 7)) && TextsValue(t, 5) == Pair(Text(t[5]), TextsValue(t, 6));
    assert TextsValue(t, 4) == Pair(Text(t[4]), TextsValue(t, 5)) && TextsValue(t, 3) == Pair(Text(t[3]), TextsValue(t, 4));
    assert TextsValue(t, 2) == Pair(Text(t[2]), TextsValue(t, 3)) && TextsValue(t, 1) == Pair(Text(t[1]), TextsValue(t, 2));
    assert TextsValue(t, 0) == Pair(Text(t[0]), TextsValue(t, 1));
    EightTexts(t[0], t[1], t[2], t[3], t[4], t[5], t[6], t[7]);
    assert t == [t[0], t[1], t[2], t[3], t[4], t[5], t[6], t[7]];
  }

  lemma EightTexts(a: string, b: string, c: string, d: string, e: string, f: string, g: string, h: string)
    ensures TextList(Pair(Text(a), Pair(Text(b), Pair(Text(c), Pair(Text(d), Pair(Text(e), Pair(Text(f), Pair(Text(g), Text(h))))))))) == [a, b, c, d, e, f, g, h]
  {
  }

  method WriteConfig(w: ImageWriter, c: Config) returns (ghost v: Value, ghost block: string)
    requires GoodConfig(c)
    modifies w
    ensures w.bytes == old(w.bytes) + Encode(StorageS, ConfigS, v) && Fits(StorageS, ConfigS, v) && LoadConfig(EmptyConfig, v) == c
    ensures w.bytes == old(w.bytes) + block && ConfigImage(c, block)
  {
    hide MapImage, JoinTexts, ConfigImage, Encode, Fits, Wrote, Short, GoodRemote, LoadRemote, LoadBranch, LoadSubmodule, TextList, Fold;
    ghost var b0 := w.bytes;
    var bare := if c.bare then 1 else 0;
    w.PutByte(bare);
    ghost var b1 := w.bytes;
    ghost var texts := WriteFields(w, c.texts);
    ghost var b2 := w.bytes;
    ghost var remotes, r := WriteRemotes(w, c.remotes);
    WroteAll(b2, w.bytes, RemoteS, remotes);
    ghost var b3 := w.bytes;
    ghost var branches, h := WriteBranches(w, c.branches);
    WroteAll(b3, w.bytes, BranchS, branches);
    ghost var b4 := w.bytes;
    ghost var submodules, u := WriteSubmodules(w, c.submodules);
    WroteAll(b4, w.bytes, SubmoduleS, submodules);
    block := FlagByte(c.bare) + JoinTexts(c.texts) + r + h + u;
    ConfigLaid(c, r, h, u);
    FiveParts(b0, FlagByte(c.bare), JoinTexts(c.texts), r, h, u);
    Append(b3, b4, w.bytes, Many(BranchS), List(branches), Many(SubmoduleS), List(submodules));
    ghost var v3 := Pair(List(branches), List(submodules));
    Append(b2, b3, w.bytes, Many(RemoteS), List(remotes), Both(Many(BranchS), Many(SubmoduleS)), v3);
    ghost var v2 := Pair(List(remotes), v3);
    Append(b1, b2, w.bytes, TextsS, texts, Both(Many(RemoteS), Both(Many(BranchS), Many(SubmoduleS))), v2);
    v := Pair(Num(bare), Pair(texts, v2));
    Append(b0, b1, w.bytes, Byte, Num(bare), Both(TextsS, Both(Many(RemoteS), Both(Many(BranchS), Many(SubmoduleS)))), v.snd);
  }

  lemma ConfigLaid(c: Config, r: string, h: string, u: string)
    requires MapImage(c.remotes, RemoteBytes, r) && MapImage(c.branches, BranchBytes, h) && MapImage(c.submodules, SubmoduleBytes, u)
    ensures ConfigImage(c, FlagByte(c.bare) + JoinTexts(c.texts) + r + h + u)
  {
    hide MapImage;
  }

  lemma FiveParts(a: string, b: string, c: string, d: string, e: string, f: string)
    ensures a + b + c + d + e + f == a + (b + c + d + e + f)
  {
  }

  ghost predicate NamedFile(v: Value) { v.Pair? && GitName(TextOf(v.fst)) }

  method WriteFile(w: ImageWriter, name: string, data: string) returns (ghost v: Value)
    requires Short(name) && GitName(name) && Short(data)
    modifies w
    ensures w.bytes == old(w.bytes) + Encode(StorageS, FileS, v) && Fits(StorageS, FileS, v) && NamedFile(v)
    ensures w.bytes == old(w.bytes) + FileBytes(name, data)
    ensures forall m :: LoadFile(m, v) == m[name := data]
  {
    ghost var b0 := w.bytes;
    w.PutText(name);
    ghost var b1 := w.bytes;
    w.PutText(data);
    Append(b0, b1, w.bytes, Blob, Text(name), Blob, Text(data));
    v := Pair(Text(name), Text(data));
  }

  /** Git files go out in byte order of their names. */
  method WriteGitFiles(w: ImageWriter, m: map<string, string>) returns (ghost items: seq<Value>, ghost block: string)
    requires forall n :: n in m ==> Short(n) && GitName(n) && Short(m[n])
    modifies w
    ensures Wrote(old(w.bytes), w.bytes, |m|, FileS, items) && |items| == |m| && Fold(LoadFile, map[], items) == m
    ensures w.bytes == old(w.bytes) + block && FilesImage(m, block)
    ensures forall i :: 0 <= i < |items| ==> NamedFile(items[i])
  {
    hide JoinMap, FilesImage, FileBytes, Names, Wrote, LoadFile, Short, GitName, Increasing, Rest, FilesSoFar;
    KeyCount(m);
    var names := SortedMembers(m.Keys);
    items := [];
    NameList(names, m);
    NoFiles(m, names, w.bytes);
    w.PutInt(|m|, 4);
    var i := 0;
    while i < |names|
      invariant 0 <= i <= |names| == |m|
      invariant FilesSoFar(m, names, i, old(w.bytes), w.bytes, items)
    {
      ghost var before := w.bytes;
      ghost var v := WriteFile(w, names[i], m[names[i]]);
      OneFile(m, names, i, old(w.bytes), before, w.bytes, items, v);
      items := items + [v];
      i := i + 1;
    }
    block := FilesDone(m, names, old(w.bytes), w.bytes, items);
  }

  /** What has been written of the git files, as values and as bytes. */
  ghost predicate FilesSoFar(m: map<string, string>, names: seq<string>, i: nat, start: string, bytes: string, items: seq<Value>) {
    && i <= |names| && |items| == i && Rest(names, 0) == m.Keys && (forall k :: 0 <= k < |names| ==> names[k] in m)
    && Wrote(start, bytes, |m|, FileS, items) && Fold(LoadFile, map[], items) == m - Rest(names, i)
    && (forall j :: 0 <= j < |items| ==> NamedFile(items[j]))
    && bytes == start + (Count(|m|) + JoinMap(m, names[..i], FileBytes))
  }

  lemma NoFiles(m: map<string, string>, names: seq<string>, start: string)
    requires forall n :: n in names <==> n in m
    ensures FilesSoFar(m, names, 0, start, start + Count(|m|), [])
  {
    RestStart(names, m.Keys);
    WroteNone(start, |m|, FileS);
    assert Count(|m|) + JoinMap(m, names[..0], FileBytes) == Count(|m|) && m - m.Keys == map[];
  }

  lemma OneFile(m: map<string, string>, names: seq<string>, i: nat, start: string, before: string, bytes: string, items: seq<Value>, v: Value)
    requires FilesSoFar(m, names, i, start, before, items) && i < |names| && Increasing(names)
    requires bytes == before + Encode(StorageS, FileS, v) && Fits(StorageS, FileS, v) && NamedFile(v)
    requires bytes == before + FileBytes(names[i], m[names[i]]) && forall x :: LoadFile(x, v) == x[names[i] := m[names[i]]]
    ensures FilesSoFar(m, names, i + 1, start, bytes, items + [v])
  {
    hide Wrote, Encode, Fits, NamedFile, LoadFile, FileBytes, Rest, Increasing, JoinMap, Fold;
    RestStep(names, i);
    OneLess(m, Rest(names, i), names[i]);
    WroteOne(start, before, |m|, FileS, items, v);
    FoldOne(LoadFile, map[], items, v);
    FileStep(m, names, i);
    Regroup(start, Count(|m|), JoinMap(m, names[..i], FileBytes), FileBytes(names[i], m[names[i]]));
  }

  lemma FilesDone(m: map<string, string>, names: seq<string>, start: string, bytes: string, items: seq<Value>) returns (block: string)
    requires FilesSoFar(m, names, |names|, start, bytes, items) && Names(names, m) && Increasing(names)
    ensures Wrote(start, bytes, |m|, FileS, items) && |items| == |m| && Fold(LoadFile, map[], items) == m
    ensures (forall i :: 0 <= i < |items| ==> NamedFile(items[i])) && bytes == start + block && FilesImage(m, block)
  {
    hide Wrote, NamedFile, LoadFile, FileBytes, Fold, JoinMap;
    RestEnd(names);
    assert names[..|names|] == names && m - {} == m;
    block := Count(|m|) + JoinMap(m, names, FileBytes);
    FilesLaid(m, names);
  }

  lemma NameList(names: seq<string>, m: map<string, string>)
    requires Increasing(names) && (forall n :: n in names <==> n in m.Keys) && |names| == |m.Keys|
    ensures Names(names, m) && forall i :: 0 <= i < |names| ==> names[i] in m
    ensures JoinMap(m, [], FileBytes) == "" && names[..0] == []
  {
    KeyCount(m);
    forall i, j | 0 <= i < j < |names| ensures names[i] != names[j] { assert Less(names[i], names[j]); }
  }

  lemma FileStep(m: map<string, string>, names: seq<string>, i: nat)
    requires i < |names| && forall i :: 0 <= i < |names| ==> names[i] in m
    ensures JoinMap(m, names[..i + 1], FileBytes) == JoinMap(m, names[..i], FileBytes) + FileBytes(names[i], m[names[i]])
  {
    assert names[..i + 1][..i] == names[..i];
  }

  lemma FilesLaid(m: map<string, string>, names: seq<string>)
    requires Names(names, m) && Increasing(names) && forall i :: 0 <= i < |names| ==> names[i] in m
    ensures FilesImage(m, Count(|m|) + JoinMap(m, names, FileBytes))
  {
  }

  ghost function Rest(names: seq<string>, i: nat): set<string>
    requires i <= |names|
  {
    set n | n in names[i..]
  }

  lemma RestStart(names: seq<string>, keys: set<string>)
    requires forall n :: n in names <==> n in keys
    ensures Rest(names, 0) == keys
  {
  }

  lemma RestEnd(names: seq<string>)
    ensures Rest(names, |names|) == {}
  {
  }

  lemma RestStep(names: seq<string>, i: nat)
    requires Increasing(names) && i < |names|
    ensures Rest(names, i + 1) == Rest(names, i) - {names[i]} && names[i] in Rest(names, i) && names[i] in Rest(names, 0)
  {
  }

  ghost predicate AllNamedFit(decodes: string -> bool, items: seq<Value>) { forall i :: 0 <= i < |items| ==> FitsNamed(StorageS, items[i]) && AdmittedModule(decodes, items[i]) }

  /** A count and some named storages have been appended. */
  ghost predicate WroteNamed(decodes: string -> bool, before: string, bytes: string, count: nat, items: seq<Value>) {
    bytes == before + LittleEndian(count, 4) + EncodeNamed(StorageS, items) && AllNamedFit(decodes, items)
  }

  lemma WroteNamedNone(decodes: string -> bool, before: string, count: nat)
    ensures WroteNamed(decodes, before, before + LittleEndian(count, 4), count, [])
  {
  }

  lemma WroteNamedOne(decodes: string -> bool, before: string, bytes: string, count: nat, items: seq<Value>, name: string, v: Value)
    requires WroteNamed(decodes, before, bytes, count, items) && Short(name) && Fits(StorageS, StorageS, v) && Admitted(decodes, v)
    ensures WroteNamed(decodes, before, bytes + Encode(StorageS, Blob, Text(name)) + Encode(StorageS, StorageS, v), count, items + [Pair(Text(name), v)])
  {
    hide Fits, Encode, EncodeNamed, EncodeText, LittleEndian, Admitted;
    OneNamed(StorageS, items, name, v);
    EncodeBlob(name);
    assert FitsNamed(StorageS, Pair(Text(name), v));
    var c, d, e := EncodeNamed(StorageS, items), EncodeText(name), Encode(StorageS, StorageS, v);
    assert before + LittleEndian(count, 4) + c + d + e == before + LittleEndian(count, 4) + (c + d + e);
  }

  lemma EncodeBlob(name: string)
    ensures Encode(StorageS, Blob, Text(name)) == EncodeText(name)
  {
  }

  lemma WroteNamedAll(decodes: string -> bool, before: string, bytes: string, items: seq<Value>)
    requires WroteNamed(decodes, before, bytes, |items|, items) && |items| < TWO32
    ensures Fits(StorageS, Nested, List(items)) && bytes == before + Encode(StorageS, Nested, List(items))
  {
  }

  lemma ModuleOne(items: seq<Value>, name: string, v: Value, s: Storage)
    requires Load(EmptyStorage, v) == s && name !in LoadModules(map[], items)
    ensures LoadModules(map[], items + [Pair(Text(name), v)]) == LoadModules(map[], items)[name := s]
  {
  }

  method WriteModules(w: ImageWriter, s: Storage, ghost decodes: string -> bool)
    returns (ghost items: seq<Value>, ghost names: seq<string>, ghost images: seq<string>)
    requires forall n :: n in s.modules ==> Short(n) && Good(decodes, s.modules[n])
    modifies w
    ensures WroteNamed(decodes, old(w.bytes), w.bytes, |s.modules|, items) && |items| == |s.modules| && LoadModules(map[], items) == s.modules
    ensures Names(names, s.modules) && |images| == |names| && forall i :: 0 <= i < |names| ==> StorageImage(s.modules[names[i]], images[i])
    ensures w.bytes == old(w.bytes) + (Count(|names|) + JoinNamed(names, images))
    decreases s, 0
  {
    hide Names, JoinNamed, StorageImage, TextBytes, WroteNamed, Good, LoadModules, Load, Admitted, Encode, Fits, ModulesSoFar;
    var m := s.modules;
    AllLeft(m);
    items, names, images := [], [], [];
    NoModules(decodes, m, w.bytes);
    w.PutInt(|m|, 4);
    var todo := m.Keys;
    while todo != {}
      invariant todo <= m.Keys
      invariant ModulesSoFar(decodes, m, old(w.bytes), w.bytes, items, names, images, todo)
      decreases todo
    {
      var n :| n in todo;
      ghost var before, left := w.bytes, todo;
      todo := todo - {n};
      ghost var v, image := WriteModule(w, n, s, decodes);
      OneModule(decodes, m, old(w.bytes), before, w.bytes, items, names, images, left, n, v, image);
      items, names, images := items + [Pair(Text(n), v)], names + [n], images + [image];
    }
    ModulesDone(decodes, m, old(w.bytes), w.bytes, items, names, images);
  }

  method WriteModule(w: ImageWriter, name: string, s: Storage, ghost decodes: string -> bool) returns (ghost v: Value, ghost image: string)
    requires name in s.modules && Short(name) && Good(decodes, s.modules[name])
    modifies w
    ensures w.bytes == old(w.bytes) + Encode(StorageS, Blob, Text(name)) + Encode(StorageS, StorageS, v) && Fits(StorageS, StorageS, v)
    ensures w.bytes == old(w.bytes) + TextBytes(name) + image && StorageImage(s.modules[name], image)
    ensures Load(EmptyStorage, v) == s.modules[name] && Admitted(decodes, v)
    decreases s, 0, 0
  {
    hide Good, Load, Admitted, Encode, Fits, StorageImage, TextBytes;
    w.PutText(name);
    v, image := WriteStorage(w, s.modules[name], decodes);
  }

  /** What has been written of the modules, as values and as bytes. */
  ghost predicate ModulesSoFar(decodes: string -> bool, m: map<string, Storage>, start: string, bytes: string, items: seq<Value>,
                               names: seq<string>, images: seq<string>, todo: set<string>) {
    && |items| + |todo| == |m| && WroteNamed(decodes, start, bytes, |m|, items) && LoadModules(map[], items) == m - todo
    && PartModules(m, names, images, todo) && |images| == |names| && bytes == start + (Count(|m|) + JoinNamed(names, images))
  }

  lemma NoModules(decodes: string -> bool, m: map<string, Storage>, start: string)
    requires |m.Keys| == |m|
    ensures ModulesSoFar(decodes, m, start, start + Count(|m|), [], [], [], m.Keys)
  {
    WroteNamedNone(decodes, start, |m|);
    NoNames(m);
    assert Count(|m|) + "" == Count(|m|) && m - m.Keys == map[];
  }

  lemma OneModule(decodes: string -> bool, m: map<string, Storage>, start: string, before: string, bytes: string, items: seq<Value>,
                  names: seq<string>, images: seq<string>, todo: set<string>, n: string, v: Value, image: string)
    requires ModulesSoFar(decodes, m, start, before, items, names, images, todo) && n in todo && n in m && Short(n)
    requires bytes == before + Encode(StorageS, Blob, Text(n)) + Encode(StorageS, StorageS, v) && Fits(StorageS, StorageS, v)
    requires bytes == before + TextBytes(n) + image && StorageImage(m[n], image)
    requires Load(EmptyStorage, v) == m[n] && Admitted(decodes, v)
    ensures ModulesSoFar(decodes, m, start, bytes, items + [Pair(Text(n), v)], names + [n], images + [image], todo - {n})
  {
    hide WroteNamed, LoadModules, Load, Admitted, Encode, Fits, StorageImage, TextBytes, PartModules, JoinNamed;
    OneLess(m, todo, n);
    WroteNamedOne(decodes, start, before, |m|, items, n, v);
    ModuleOne(items, n, v, m[n]);
    NamedMore(names, images, todo, m, n, image);
    RegroupNamed(start, Count(|m|), JoinNamed(names, images), TextBytes(n), image);
  }

  lemma ModulesDone(decodes: string -> bool, m: map<string, Storage>, start: string, bytes: string, items: seq<Value>,
                    names: seq<string>, images: seq<string>)
    requires ModulesSoFar(decodes, m, start, bytes, items, names, images, {})
    ensures WroteNamed(decodes, start, bytes, |m|, items) && |items| == |m| && LoadModules(map[], items) == m
    ensures Names(names, m) && |images| == |names| && forall i :: 0 <= i < |names| ==> StorageImage(m[names[i]], images[i])
    ensures bytes == start + (Count(|names|) + JoinNamed(names, images))
  {
    hide WroteNamed, LoadModules, StorageImage, JoinNamed, PartModules;
    NamesDone(names, images, m);
    assert m - {} == m;
  }

  /** Part of the modules, each with its image. */
  ghost predicate PartModules(m: map<string, Storage>, names: seq<string>, images: seq<string>, todo: set<string>) {
    && PartNames(names, todo, m) && |images| == |names|
    && forall i :: 0 <= i < |names| ==> names[i] in m && StorageImage(m[names[i]], images[i])
  }

  lemma NoNames(m: map<string, Storage>)
    requires |m.Keys| == |m|
    ensures PartModules(m, [], [], m.Keys) && JoinNamed([], []) == ""
  {
  }

  lemma NamedMore(names: seq<string>, images: seq<string>, todo: set<string>, m: map<string, Storage>, n: string, image: string)
    requires PartModules(m, names, images, todo) && n in todo && n in m && StorageImage(m[n], image)
    ensures PartModules(m, names + [n], images + [image], todo - {n}) && |images| == |names|
    ensures JoinNamed(names + [n], images + [image]) == JoinNamed(names, images) + TextBytes(n) + image
  {
    hide StorageImage, PartNames, TextBytes;
    OneNamedMore(names, todo, m, n, (k, x) => "");
    assert (names + [n])[..|names|] == names && (images + [image])[..|names|] == images;
  }

  lemma RegroupNamed(a: string, b: string, c: string, d: string, e: string)
    ensures a + (b + c) + d + e == a + (b + (c + d + e))
  {
    assert a + (b + c) + d + e == a + (b + (c + d + e));
  }

  lemma NamesDone(names: seq<string>, images: seq<string>, m: map<string, Storage>)
    requires PartModules(m, names, images, {})
    ensures Names(names, m) && |images| == |names| == |m| && forall i :: 0 <= i < |names| ==> StorageImage(m[names[i]], images[i])
  {
    hide StorageImage;
  }

  /** Appends a storage with everything nested in it; loading the written value rebuilds it. */
  method WriteStorage(w: ImageWriter, s: Storage, ghost decodes: string -> bool) returns (ghost v: Value, ghost image: string)
    requires Good(decodes, s)
    modifies w
    ensures w.bytes == old(w.bytes) + Encode(StorageS, StorageS, v) && Fits(StorageS, StorageS, v)
    ensures Load(EmptyStorage, v) == s && Admitted(decodes, v)
    ensures w.bytes == old(w.bytes) + image && StorageImage(s, image)
    decreases s, 1
  {
    hide StorageImage, ConfigImage, FilesImage, ObjectsImage, MapImage, Names, JoinNamed, TextsBytes, TextBytes, Encode, Fits, Wrote, WroteNamed, Good, Load, Admitted, LoadConfig, Fold, LoadModules, Hashes, AllNamedFit;
    GoodParts(decodes, s);
    ghost var b0 := w.bytes;
    w.PutByte(s.algo);
    ghost var b1 := w.bytes;
    ghost var objects, po := WriteObjects(w, s.objects);
    WroteAll(b1, w.bytes, ObjectS, objects);
    ghost var b2 := w.bytes;
    ghost var refs, pr := WriteRefs(w, s.refs);
    WroteAll(b2, w.bytes, RefS, refs);
    ghost var b3 := w.bytes;
    ghost var shallow := WriteTexts(w, s.shallow);
    WroteAll(b3, w.bytes, Blob, shallow);
    ghost var b4 := w.bytes;
    w.PutText(s.index);
    ghost var b5 := w.bytes;
    ghost var config, pc := WriteConfig(w, s.config);
    ghost var b6 := w.bytes;
    ghost var files, pf := WriteGitFiles(w, s.gitFiles);
    WroteAll(b6, w.bytes, FileS, files);
    ghost var b7 := w.bytes;
    ghost var modules, pn, pm := WriteModules(w, s, decodes);
    WroteNamedAll(decodes, b7, w.bytes, modules);
    image := StorageLaid(s, Parts(po, pr, pc, pf, pn, pm), b0, b1, b2, b3, b4, b5, b6, b7, w.bytes);
    ghost var v6 := Pair(List(files), List(modules));
    Append(b6, b7, w.bytes, Many(FileS), List(files), Nested, List(modules));
    ghost var v5 := Pair(config, v6);
    Append(b5, b6, w.bytes, ConfigS, config, FilesS, v6);
    ghost var v4 := Pair(Text(s.index), v5);
    Append(b4, b5, w.bytes, Blob, Text(s.index), SettingsS, v5);
    ghost var v3 := Pair(List(shallow), v4);
    Append(b3, b4, w.bytes, Many(Blob), List(shallow), IndexS, v4);
    ghost var v2 := Pair(List(refs), v3);
    Append(b2, b3, w.bytes, Many(RefS), List(refs), ShallowS, v3);
    ghost var v1 := Pair(List(objects), v2);
    Append(b1, b2, w.bytes, Many(ObjectS), List(objects), RefsS, v2);
    v := Pair(Num(s.algo), v1);
    Append(b0, b1, w.bytes, Byte, Num(s.algo), ObjectsS, v1);
    WroteAdmitted(decodes, b7, w.bytes, |s.modules|, modules);
    LoadedBack(decodes, s, objects, refs, shallow, config, files, modules);
  }

  lemma StorageLaid(s: Storage, p: Parts, b0: string, b1: string, b2: string, b3: string, b4: string, b5: string, b6: string, b7: string, b8: string)
    returns (image: string)
    requires PartsOf(s, p) && b1 == b0 + ByteOf(s.algo) && b2 == b1 + p.objects && b3 == b2 + p.refs && b4 == b3 + TextsBytes(s.shallow)
    requires b5 == b4 + TextBytes(s.index) && b6 == b5 + p.config && b7 == b6 + p.files && b8 == b7 + (Count(|p.names|) + JoinNamed(p.names, p.modules))
    ensures b8 == b0 + image && StorageImage(s, image)
  {
    hide PartsOf, TextsBytes, TextBytes, JoinNamed, LittleEndian, ByteOf;
    var c := Count(|p.names|) + JoinNamed(p.names, p.modules);
    image := ByteOf(s.algo) + p.objects + p.refs + TextsBytes(s.shallow) + TextBytes(s.index) + p.config + p.files
             + Count(|p.names|) + JoinNamed(p.names, p.modules);
    NineParts(b0, ByteOf(s.algo), p.objects, p.refs, TextsBytes(s.shallow), TextBytes(s.index), p.config, p.files, Count(|p.names|), JoinNamed(p.names, p.modules));
  }

  lemma NineParts(z: string, a: string, b: string, c: string, d: string, e: string, f: string, g: string, h: string, i: string)
    ensures z + a + b + c + d + e + f + g + (h + i) == z + (a + b + c + d + e + f + g + h + i)
  {
    FiveParts(z, a, b, c, d, e);
    FiveParts(z, a + b + c + d + e, f, g, h, i);
    assert z + (a + b + c + d + e) + f + g + (h + i) == z + (a + b + c + d + e) + f + g + h + i;
  }

  lemma GoodParts(decodes: string -> bool, s: Storage)
    requires Good(decodes, s)
    ensures s.algo < 256 && |s.objects| < TWO32 && (forall o :: o in s.objects ==> KnownKind(o.kind) && Short(o.content))
    ensures |s.refs| < TWO32 && (forall n :: n in s.refs ==> Short(n) && GoodRef(s.refs[n]))
    ensures |s.shallow| < TWO32 && (forall i :: 0 <= i < |s.shallow| ==> Short(s.shallow[i]) && |s.shallow[i]| == HASH_SIZE)
    ensures Short(s.index) && decodes(s.index) && GoodConfig(s.config)
    ensures |s.gitFiles| < TWO32 && (forall n :: n in s.gitFiles ==> Short(n) && GitName(n) && Short(s.gitFiles[n]))
    ensures |s.modules| < TWO32 && (forall n :: n in s.modules ==> Short(n) && Good(decodes, s.modules[n]))
  {
  }

  lemma WroteAdmitted(decodes: string -> bool, before: string, bytes: string, count: nat, items: seq<Value>)
    requires WroteNamed(decodes, before, bytes, count, items)
    ensures forall i :: 0 <= i < |items| ==> AdmittedModule(decodes, items[i])
  {
  }

  ghost function StorageValue(s: Storage, objects: seq<Value>, refs: seq<Value>, shallow: seq<Value>, config: Value, files: seq<Value>, modules: seq<Value>): Value {
    Pair(Num(s.algo), Pair(List(objects), Pair(List(refs), Pair(List(shallow), Pair(Text(s.index), Pair(config, Pair(List(files), List(modules))))))))
  }

  lemma LoadedBack(decodes: string -> bool, s: Storage, objects: seq<Value>, refs: seq<Value>, shallow: seq<Value>, config: Value, files: seq<Value>, modules: seq<Value>)
    requires Fold(LoadObject, {}, objects) == s.objects && forall i :: 0 <= i < |objects| ==> KnownObject(objects[i])
    requires Fold(LoadRef, map[], refs) == s.refs && LoadConfig(EmptyConfig, config) == s.config
    requires |shallow| == |s.shallow| && forall i :: 0 <= i < |shallow| ==> shallow[i] == Text(s.shallow[i]) && |s.shallow[i]| == HASH_SIZE
    requires Fold(LoadFile, map[], files) == s.gitFiles && forall i :: 0 <= i < |files| ==> NamedFile(files[i])
    requires LoadModules(map[], modules) == s.modules && decodes(s.index) && forall i :: 0 <= i < |modules| ==> AdmittedModule(decodes, modules[i])
    ensures Load(EmptyStorage, StorageValue(s, objects, refs, shallow, config, files, modules)) == s
    ensures Admitted(decodes, StorageValue(s, objects, refs, shallow, config, files, modules))
  {
    HashesSame(s.shallow, shallow);
    var empty: set<Object> := {};
    assert EmptyStorage.objects == empty;
  }

  lemma HashesSame(shallow: seq<string>, items: seq<Value>)
    requires |items| == |shallow| && forall i :: 0 <= i < |items| ==> items[i] == Text(shallow[i])
    requires forall i :: 0 <= i < |shallow| ==> |shallow[i]| == HASH_SIZE
    ensures Hashes(items) == shallow
  {
    forall i | 0 <= i < |shallow| ensures Hashes(items)[i] == shallow[i] { assert shallow[i][..HASH_SIZE] == shallow[i]; }
  }
}
