/** Whole images: magic, version, storage and filesystem, written and restored. */
module ImageFile {
  import opened Wrappers
  import opened MemPaths
  import opened MemTree
  import opened Mem
  import opened Codec
  import opened Image
  import opened Layout
  import opened ImageIO
  import opened ImageRead
  import opened Replay
  import opened ImageFs

  const MAGIC := "GITZIMG1"
  const VERSION := 1
  const BUFFER := 4096

  // ---- Writing records ----------------------------------------------------------------------------

  /** Reads a file in buffers. */
  method ReadFile(fs: Mem, path: string) returns (r: Result<string, FsError>)
    requires fs.Valid()
    ensures OpenError(fs.View(), path, Flags(false, false, false)).None? ==>
              AbsIn("/", path).Ok? && AbsIn("/", path).value in fs.View() && r == Ok(fs.View()[AbsIn("/", path).value].data)
    ensures match OpenError(fs.View(), path, Flags(false, false, false)) case None => true case Some(e) => r == Err(e)
  {
    hide AbsIn;
    var file := fs.Open(path);
    if file.Err? { return Err(file.error); }
    var bytes, pos := "", 0;
    while pos < |file.value.data|
      invariant 0 <= pos <= |file.value.data| && bytes == file.value.data[..pos]
    {
      var count := if |file.value.data| - pos < BUFFER then |file.value.data| - pos else BUFFER;
      assert file.value.data[..pos] + file.value.data[pos..pos + count] == file.value.data[..pos + count];
      bytes := bytes + file.value.data[pos..pos + count];
      pos := pos + count;
    }
    assert file.value.data[..pos] == file.value.data;
    r := Ok(bytes);
  }

  predicate Spaced(x: Record) { Fits64(x.atime) && Fits64(x.mtime) && Fits64(x.uid) && Fits64(x.gid) }

  /** Eight bytes, two's complement. */
  function Int64Bytes(n: int): string
    requires Fits64(n)
  {
    LittleEndian(Unsigned64(n), 8)
  }

  /** Path, mode, access and modification time, owner, group, content. */
  function RecordBytes(x: Record): string
    requires Spaced(x)
  {
    TextBytes(x.path) + Count(x.mode) + Int64Bytes(x.atime) + Int64Bytes(x.mtime) + Int64Bytes(x.uid) + Int64Bytes(x.gid) + TextBytes(x.content)
  }

  method PutInt64(w: ImageWriter, n: int)
    requires Fits64(n)
    modifies w
    ensures w.bytes == old(w.bytes) + Encode(StorageS, I64, Num(n)) && Fits(StorageS, I64, Num(n))
    ensures w.bytes == old(w.bytes) + Int64Bytes(n)
  {
    w.PutInt(Unsigned64(n), 8);
  }

  method PutInt32(w: ImageWriter, n: nat)
    requires n < TWO32
    modifies w
    ensures w.bytes == old(w.bytes) + Encode(StorageS, U32, Num(n)) && Fits(StorageS, U32, Num(n))
    ensures w.bytes == old(w.bytes) + Count(n)
  {
    w.PutInt(n, 4);
  }

  method WriteRecord(w: ImageWriter, fs: Mem, path: string) returns (ghost v: Value)
    requires fs.Valid() && GoodTree(fs.View()) && path != "" && Abs(path) in fs.View()
    modifies w
    ensures w.bytes == old(w.bytes) + Encode(StorageS, RecordS, v) && Fits(StorageS, RecordS, v)
    ensures v == ValueOf(RecordOf(fs.View(), path)) && Spaced(RecordOf(fs.View(), path))
    ensures w.bytes == old(w.bytes) + RecordBytes(RecordOf(fs.View(), path))
  {
    hide Encode, Fits, AbsIn, GoodTree, Mem.Valid, Mem.View, Fits64, Short;
    ghost var t, k := fs.View(), Abs(path);
    RecordFacts(t, path);
    var info := fs.Stat(path);
    var e := info.value;
    var content := "";
    if KindBits(e.mode) == 4 {
    } else if KindBits(e.mode) == 10 {
      var target := fs.Readlink(path);
      content := target.value;
    } else {
      var bytes := ReadFile(fs, path);
      content := bytes.value;
    }
    v := WriteFields(w, path, e, content);
  }

  /** What a record needs of the tree it comes from. */
  lemma RecordFacts(t: Tree, path: string)
    requires GoodTree(t) && path != "" && Abs(path) in t
    ensures AbsIn("/", path) == Ok(Abs(path)) && Short(path)
    ensures var e := t[Abs(path)];
            && Typed(e) && Short(e.data) && Fits64(e.atime) && Fits64(e.mtime) && Fits64(e.uid) && Fits64(e.gid)
            && (e.kind.Dir? <==> KindBits(e.mode) == 4) && (e.kind.Symlink? <==> KindBits(e.mode) == 10)
    ensures OpenError(t, path, Flags(false, false, false)).None? <==> !t[Abs(path)].kind.Dir?
  {
    var k := Abs(path);
    assert k[1..] == path && |k| > 1;
    RelKey(k);
    assert Short(k) && Recordable(t[k]);
    assert forall i :: 0 <= i < |path| ==> path[i] == k[i + 1];
  }

  method WriteFields(w: ImageWriter, path: string, e: Entry, content: string) returns (ghost v: Value)
    requires Short(path) && Short(content) && e.mode < TWO32 && Fits64(e.atime) && Fits64(e.mtime) && Fits64(e.uid) && Fits64(e.gid)
    modifies w
    ensures w.bytes == old(w.bytes) + Encode(StorageS, RecordS, v) && Fits(StorageS, RecordS, v)
    ensures v == ValueOf(Record(path, e.mode, e.atime, e.mtime, e.uid, e.gid, content))
    ensures w.bytes == old(w.bytes) + RecordBytes(Record(path, e.mode, e.atime, e.mtime, e.uid, e.gid, content))
  {
    hide Encode, Fits, Fits64, Short, TextBytes, Int64Bytes, LittleEndian;
    ghost var b0 := w.bytes;
    w.PutText(path);
    ghost var b1 := w.bytes;
    PutInt32(w, e.mode);
    ghost var b2 := w.bytes;
    PutInt64(w, e.atime);
    ghost var b3 := w.bytes;
    PutInt64(w, e.mtime);
    ghost var b4 := w.bytes;
    PutInt64(w, e.uid);
    ghost var b5 := w.bytes;
    PutInt64(w, e.gid);
    ghost var b6 := w.bytes;
    w.PutText(content);
    SevenParts(b0, TextBytes(path), Count(e.mode), Int64Bytes(e.atime), Int64Bytes(e.mtime), Int64Bytes(e.uid), Int64Bytes(e.gid), TextBytes(content));
    v := ValueOf(Record(path, e.mode, e.atime, e.mtime, e.uid, e.gid, content));
    Append(b5, b6, w.bytes, I64, Num(e.gid), Blob, Text(content));
    Append(b4, b5, w.bytes, I64, Num(e.uid), Both(I64, Blob), v.snd.snd.snd.snd.snd);
    Append(b3, b4, w.bytes, I64, Num(e.mtime), Both(I64, Both(I64, Blob)), v.snd.snd.snd.snd);
    Append(b2, b3, w.bytes, I64, Num(e.atime), Both(I64, Both(I64, Both(I64, Blob))), v.snd.snd.snd);
    Append(b1, b2, w.bytes, U32, Num(e.mode), Both(I64, Both(I64, Both(I64, Both(I64, Blob)))), v.snd.snd);
    Append(b0, b1, w.bytes, Blob, Text(path), Both(U32, Both(I64, Both(I64, Both(I64, Both(I64, Blob))))), v.snd);
  }

  lemma SevenParts(z: string, a: string, b: string, c: string, d: string, e: string, f: string, g: string)
    ensures z + a + b + c + d + e + f + g == z + (a + b + c + d + e + f + g)
  {
    FiveParts(z, a, b, c, d, e);
    assert z + (a + b + c + d + e) + f + g == z + (a + b + c + d + e + f + g);
  }

  /** The records of the listed paths one after the other. */
  ghost function JoinRecords(t: Tree, list: seq<string>): string
    requires forall i :: 0 <= i < |list| ==> Abs(list[i]) in t && Spaced(RecordOf(t, list[i]))
  {
    if list == [] then "" else JoinRecords(t, list[..|list| - 1]) + RecordBytes(RecordOf(t, list[|list| - 1]))
  }

  ghost predicate AllSpaced(t: Tree, list: seq<string>) { forall i :: 0 <= i < |list| ==> Abs(list[i]) in t && Spaced(RecordOf(t, list[i])) }

  lemma NoRecords(t: Tree, list: seq<string>)
    ensures AllSpaced(t, list[..0]) && Count(|list|) + JoinRecords(t, list[..0]) == Count(|list|)
  {
  }

  lemma OneRecord(t: Tree, list: seq<string>, i: nat, start: string)
    requires i < |list| && AllSpaced(t, list[..i]) && Abs(list[i]) in t && Spaced(RecordOf(t, list[i]))
    ensures AllSpaced(t, list[..i + 1])
    ensures start + (Count(|list|) + JoinRecords(t, list[..i])) + RecordBytes(RecordOf(t, list[i])) == start + (Count(|list|) + JoinRecords(t, list[..i + 1]))
  {
    hide RecordBytes, RecordOf, LittleEndian;
    assert list[..i + 1][..i] == list[..i];
    var more := list[..i + 1];
    forall k | 0 <= k < |more| ensures Abs(more[k]) in t && Spaced(RecordOf(t, more[k])) {
      if k < i { assert list[..i][k] == more[k]; }
    }
    Regroup(start, Count(|list|), JoinRecords(t, list[..i]), RecordBytes(RecordOf(t, list[i])));
  }

  ghost function RecordValues(t: Tree, list: seq<string>): seq<Value>
    requires forall i :: 0 <= i < |list| ==> Abs(list[i]) in t
  {
    seq(|list|, i requires 0 <= i < |list| => ValueOf(RecordOf(t, list[i])))
  }

  method WriteFilesystem(w: ImageWriter, fs: Mem) returns (ghost list: seq<string>)
    requires fs.Valid() && GoodTree(fs.View())
    modifies w
    ensures Preorder(fs.View(), list) && forall i :: 0 <= i < |list| ==> Abs(list[i]) in fs.View()
    ensures var items := RecordValues(fs.View(), list);
            && Fits(StorageS, Many(RecordS), List(items))
            && w.bytes == old(w.bytes) + Encode(StorageS, Many(RecordS), List(items))
    ensures TreeOrder(list) && AllSpaced(fs.View(), list) && w.bytes == old(w.bytes) + (Count(|list|) + JoinRecords(fs.View(), list))
  {
    hide Encode, Fits, GoodTree, Mem.Valid, Mem.View, Wrote, Preorder, TreeOrder, RecordOf, Subtree, AllSpaced, JoinRecords, RecordBytes, Spaced;
    ghost var t := fs.View();
    RootThere(t);
    var paths := Collect(fs, "");
    list := paths;
    TopPreorder(t, paths);
    ghost var items: seq<Value> := [];
    NoRecords(t, paths);
    WroteNone(w.bytes, |paths|, RecordS);
    w.PutInt(|paths|, 4);
    var i := 0;
    while i < |paths|
      invariant 0 <= i <= |paths| && |items| == i && fs.View() == t && fs.Valid()
      invariant Wrote(old(w.bytes), w.bytes, |paths|, RecordS, items)
      invariant forall j :: 0 <= j < i ==> items[j] == ValueOf(RecordOf(t, paths[j]))
      invariant AllSpaced(t, paths[..i]) && (forall j :: 0 <= j < |paths[..i]| ==> Abs(paths[..i][j]) in t && Spaced(RecordOf(t, paths[..i][j])))
      invariant w.bytes == old(w.bytes) + (Count(|paths|) + JoinRecords(t, paths[..i]))
    {
      ghost var before := w.bytes;
      ghost var v := WriteRecord(w, fs, paths[i]);
      OneRecord(t, paths, i, old(w.bytes));
      WroteOne(old(w.bytes), before, |paths|, RecordS, items, v);
      items := items + [v];
      i := i + 1;
    }
    assert paths[..i] == paths;
    assert items == RecordValues(t, list);
    WroteAll(old(w.bytes), w.bytes, RecordS, items);
  }

  lemma RootThere(t: Tree)
    requires GoodTree(t)
    ensures "/" in t && t["/"].kind.Dir?
  {
  }

  lemma TopPreorder(t: Tree, list: seq<string>)
    requires Subtree(t, "/", list) && GoodTree(t)
    ensures Preorder(t, list) && TreeOrder(list) && |list| < TWO32
    ensures forall i :: 0 <= i < |list| ==> list[i] != "" && Abs(list[i]) in t
  {
    hide TreeOrder;
    forall i | 0 <= i < |list| ensures ParentFirst(list, i) { assert Above(list, "/", i); }
    PathCount(t, list);
  }

  lemma PathCount(t: Tree, list: seq<string>)
    requires NoDoubles(list) && forall i :: 0 <= i < |list| ==> Abs(list[i]) in t
    ensures |list| <= |t|
  {
    var rest := t.Keys;
    Pigeons(list, t.Keys);
    KeyCount(t);
  }

  lemma {:induction false} Pigeons(list: seq<string>, keys: set<string>)
    requires NoDoubles(list) && forall i :: 0 <= i < |list| ==> Abs(list[i]) in keys
    ensures |list| <= |keys|
  {
    if list != [] {
      var n := |list| - 1;
      forall i | 0 <= i < n ensures Abs(list[i]) != Abs(list[n]) {
        assert list[i] != list[n] && Abs(list[i])[1..] == list[i] && Abs(list[n])[1..] == list[n];
      }
      Pigeons(list[..n], keys - {Abs(list[n])});
    }
  }

  // ---- Replaying records ----------------------------------------------------------------------------

  function RecordIn(v: Value): Record {
    match v
    case Pair(Text(path), Pair(Num(mode), Pair(Num(atime), Pair(Num(mtime), Pair(Num(uid), Pair(Num(gid), Text(content))))))) =>
      Record(path, if mode < 0 then 0 else mode, atime, mtime, uid, gid, content)
    case _ => Record("", 0, 0, 0, 0, 0, "")
  }

  function RecordsIn(items: seq<Value>): seq<Record> { seq(|items|, i requires 0 <= i < |items| => RecordIn(items[i])) }

  method TakeInt64(r: ImageReader) returns (x: Option<int>)
    requires r.Valid()
    modifies r`offset
    ensures r.Valid()
    ensures match P(I64, old(r.Rest())) case None => x == None case Some((v, rest)) => x.Some? && v == Num(x.value) && r.Rest() == rest
  {
    var n := r.TakeInt(8);
    x := if n.None? then None else Some(Signed64(n.value));
  }

  lemma Int32Step(b: string)
    requires IsBytes(b)
    ensures P(U32, b) == match ParseNumber(b, 4) case None => None case Some((n, rest)) => Some((Num(n), rest))
  {
  }

  method ReadRecord(r: ImageReader) returns (x: Option<Record>, ghost v: Value)
    requires r.Valid()
    modifies r`offset
    ensures r.Valid()
    ensures match P(RecordS, old(r.Rest())) case None => x == None case Some((u, rest)) => x == Some(RecordIn(u)) && v == u && r.Rest() == rest
  {
    hide ParseNumber, ParseText, P;
    v := List([]);
    PairStep(Blob, Both(U32, Both(I64, Both(I64, Both(I64, Both(I64, Blob))))), r.Rest());
    BlobStep(r.Rest());
    var path := r.TakeText();
    if path.None? { return None, v; }
    PairStep(U32, Both(I64, Both(I64, Both(I64, Both(I64, Blob)))), r.Rest());
    Int32Step(r.Rest());
    var mode := r.TakeInt(4);
    if mode.None? { return None, v; }
    PairStep(I64, Both(I64, Both(I64, Both(I64, Blob))), r.Rest());
    var atime := TakeInt64(r);
    if atime.None? { return None, v; }
    PairStep(I64, Both(I64, Both(I64, Blob)), r.Rest());
    var mtime := TakeInt64(r);
    if mtime.None? { return None, v; }
    PairStep(I64, Both(I64, Blob), r.Rest());
    var uid := TakeInt64(r);
    if uid.None? { return None, v; }
    PairStep(I64, Blob, r.Rest());
    var gid := TakeInt64(r);
    if gid.None? { return None, v; }
    BlobStep(r.Rest());
    var content := r.TakeText();
    if content.None? { return None, v; }
    v := Pair(Text(path.value), Pair(Num(mode.value), Pair(Num(atime.value), Pair(Num(mtime.value), Pair(Num(uid.value), Pair(Num(gid.value), Text(content.value)))))));
    x := Some(Record(path.value, mode.value, atime.value, mtime.value, uid.value, gid.value, content.value));
  }

  /** Creates or truncates a file and writes its content. */
  method PutFile(fs: Mem, path: string, content: string) returns (r: Result<(), FsError>)
    requires fs.Valid()
    modifies fs, fs.nodes.Values
    ensures fs.Valid() && Kept(old(fs.nodes), fs.nodes)
    ensures forall k :: k in fs.nodes && k !in old(fs.nodes) ==> fresh(fs.nodes[k])
    ensures var t, flags := old(fs.View()), Flags(true, false, true);
            match OpenError(t, path, flags)
            case Some(e) => r == Err(e)
            case None =>
              var u := Opened(t, path, flags, CREATE_PERM);
              AbsIn("/", path).Ok? && AbsIn("/", path).value in u && r == Ok(())
              && fs.View() == u[AbsIn("/", path).value := u[AbsIn("/", path).value].(data := content)]
  {
    hide AbsIn, WithDir, Linked, ParentOf;
    var file := fs.OpenFile(path, Flags(true, false, true), CREATE_PERM);
    if file.Err? { return Err(file.error); }
    ghost var k := AbsIn("/", path).value;
    fs.ViewAt(k);
    assert file.value.data == "";
    var n := fs.WriteAt(k, file.value, 0, content);
    assert file.value.data == file.value.data[0..0 + |content|] == content;
    r := Ok(());
  }

  ghost predicate Kept(before: map<string, Node>, after: map<string, Node>) {
    forall k :: k in before ==> k in after && after[k] == before[k]
  }

  method Place(fs: Mem, x: Record) returns (r: Result<(), FsError>)
    requires fs.Valid()
    modifies fs, fs.nodes.Values
    ensures fs.Valid() && Kept(old(fs.nodes), fs.nodes)
    ensures forall k :: k in fs.nodes && k !in old(fs.nodes) ==> fresh(fs.nodes[k])
    ensures match Placed(old(fs.View()), x) case Err(e) => r == Err(e) case Ok(u) => r == Ok(()) && fs.View() == u
  {
    hide AbsIn, WithDir, Linked, ParentOf, Mem.View, Mem.Listing, Mem.Distinct, Opened;
    if KindBits(x.mode) == 4 {
      r := fs.MkdirAll(x.path);
    } else if KindBits(x.mode) == 10 {
      r := fs.Symlink(x.content, x.path);
    } else {
      r := PutFile(fs, x.path, x.content);
    }
  }

  /** Replays one record: place, then mode, owner and times. */
  method ReplayRecord(fs: Mem, x: Record) returns (r: Result<(), FsError>)
    requires fs.Valid()
    modifies fs, fs.nodes.Values
    ensures fs.Valid() && Kept(old(fs.nodes), fs.nodes)
    ensures forall k :: k in fs.nodes && k !in old(fs.nodes) ==> fresh(fs.nodes[k])
    ensures match Replayed(old(fs.View()), x) case Err(e) => r == Err(e) case Ok(u) => r == Ok(()) && fs.View() == u
  {
    hide AbsIn, Placed, Linked, Mem.View, Mem.Listing, Mem.Distinct, Mem.Valid, NewMode;
    r := Place(fs, x);
    if r.Err? { return; }
    PlacedPath(old(fs.View()), x);
    ghost var u := fs.View();
    assert forall n :: n in fs.nodes.Values ==> n in old(fs.nodes.Values) || fresh(n);
    r := fs.Chmod(x.path, x.mode);
    if r.Err? { return; }
    r := fs.Lchown(x.path, x.uid, x.gid);
    r := fs.Chtimes(x.path, x.atime, x.mtime);
    ThreeStamps(u, AbsIn("/", x.path).value, x);
  }

  lemma PlacedPath(t: Tree, x: Record)
    ensures Placed(t, x).Ok? ==> AbsIn("/", x.path).Ok?
  {
  }

  lemma ThreeStamps(u: Tree, k: string, x: Record)
    requires k in u
    ensures var a := u[k := u[k].(mode := NewMode(u[k].mode, x.mode))];
            var b := a[k := a[k].(uid := x.uid, gid := x.gid)];
            b[k := b[k].(atime := x.atime, mtime := x.mtime)] == Stamped(u, k, x)
  {
  }

  lemma ReplayMore(t: Tree, items: seq<Value>, v: Value)
    ensures ReplayAll(t, RecordsIn(items + [v])) ==
            match ReplayAll(t, RecordsIn(items)) case Err(e) => Err(e) case Ok(u) => Replayed(u, RecordIn(v))
  {
    assert RecordsIn(items + [v])[..|items|] == RecordsIn(items);
  }

  lemma {:induction false} ReplayStuck(t: Tree, records: seq<Record>, n: nat)
    requires n <= |records| && ReplayAll(t, records[..n]).Err?
    ensures ReplayAll(t, records).Err?
  {
    if n == |records| { assert records[..n] == records; } else {
      assert records[..|records| - 1][..n] == records[..n];
      ReplayStuck(t, records[..|records| - 1], n);
    }
  }

  /** Whatever follows, a list with a record that cannot be replayed is refused. */
  lemma BadRecord(t: Tree, n: nat, b: string, items: seq<Value>)
    requires IsBytes(b) && ReplayAll(t, RecordsIn(items)).Err?
    ensures Prepend(items, PI(RecordS, n, b)).Some? ==> ReplayAll(t, RecordsIn(Prepend(items, PI(RecordS, n, b)).value.0)).Err?
  {
    if PI(RecordS, n, b).Some? {
      var all := items + PI(RecordS, n, b).value.0;
      assert RecordsIn(all)[..|items|] == RecordsIn(items);
      ReplayStuck(t, RecordsIn(all), |items|);
    }
  }

  method ReadFilesystem(r: ImageReader, fs: Mem) returns (x: Result<(), ImageError>, ghost u: Value)
    requires r.Valid() && fs.Valid()
    modifies r`offset, fs, fs.nodes.Values
    ensures r.Valid() && fs.Valid()
    ensures x.Ok? ==> P(Many(RecordS), old(r.Rest())) == Some((u, r.Rest())) && u.List? && ReplayAll(old(fs.View()), RecordsIn(u.items)) == Ok(fs.View())
    ensures x.Err? ==> match P(Many(RecordS), old(r.Rest())) case None => true case Some((u, _)) => u.List? && ReplayAll(old(fs.View()), RecordsIn(u.items)).Err?
  {
    hide ParseNumber, P, PI, ReplayAll, Replayed, RecordIn, Mem.View, Mem.Valid;
    u := List([]);
    ghost var t := fs.View();
    ListStart(RecordS, r.Rest());
    var n := r.TakeInt(4);
    if n.None? { return Err(InvalidImage), u; }
    ghost var b1, items := r.Rest(), [];
    NothingReplayed(t);
    var i := 0;
    while i < n.value
      invariant 0 <= i <= n.value && r.Valid() && fs.Valid() && |items| == i && Kept(old(fs.nodes), fs.nodes)
      invariant forall k :: k in fs.nodes && k !in old(fs.nodes) ==> fresh(fs.nodes[k])
      invariant PI(RecordS, n.value, b1) == Prepend(items, PI(RecordS, n.value - i, r.Rest()))
      invariant ReplayAll(t, RecordsIn(items)) == Ok(fs.View())
    {
      ListStep(RecordS, n.value - i, r.Rest(), items);
      var record, v := ReadRecord(r);
      if record.None? { return Err(InvalidImage), u; }
      ReplayMore(t, items, v);
      assert forall m :: m in fs.nodes.Values ==> m in old(fs.nodes.Values) || fresh(m);
      var done := ReplayRecord(fs, record.value);
      items := items + [v];
      if done.Err? {
        BadRecord(t, n.value - i - 1, r.Rest(), items);
        return Err(Filesystem(done.error)), u;
      }
      i := i + 1;
    }
    ListEnd(RecordS, r.Rest(), items);
    u := List(items);
    x := Ok(());
  }

  lemma NothingReplayed(t: Tree)
    ensures ReplayAll(t, RecordsIn([])) == Ok(t)
  {
  }

  // ---- Whole images --------------------------------------------------------------------------------------

  /** Magic and version are twelve fixed bytes; the storage and the records of the files follow. */
  method Export(s: Storage, fs: Mem, ghost decodes: string -> bool)
    returns (image: string, ghost v: Value, ghost list: seq<string>, ghost stored: string)
    requires Good(decodes, s) && fs.Valid() && GoodTree(fs.View())
    ensures Fits(StorageS, StorageS, v) && Load(EmptyStorage, v) == s && Admitted(decodes, v)
    ensures Preorder(fs.View(), list) && forall i :: 0 <= i < |list| ==> Abs(list[i]) in fs.View()
    ensures Fits(StorageS, Many(RecordS), List(RecordValues(fs.View(), list)))
    ensures image == MAGIC + LittleEndian(VERSION, 4) + Encode(StorageS, StorageS, v) + Encode(StorageS, Many(RecordS), List(RecordValues(fs.View(), list)))
    ensures StorageImage(s, stored) && AllSpaced(fs.View(), list) && TreeOrder(list)
    ensures image == "GITZIMG1\U{1}\0\0\0" + stored + (Count(|list|) + JoinRecords(fs.View(), list))
  {
    hide StorageImage, TreeOrder, AllSpaced, JoinRecords, Good, Fits, Encode, Load, Admitted, GoodTree, Mem.View, Mem.Valid, Preorder, RecordValues, LittleEndian;
    var w := new ImageWriter();
    w.Raw(MAGIC);
    w.PutInt(VERSION, 4);
    assert "" + MAGIC == MAGIC;
    HeaderBytes();
    v, stored := WriteStorage(w, s, decodes);
    list := WriteFilesystem(w, fs);
    image := w.bytes;
  }

  lemma HeaderBytes()
    ensures MAGIC + LittleEndian(VERSION, 4) == "GITZIMG1\U{1}\0\0\0"
  {
    assert LittleEndian(0, 3) == "\0" + LittleEndian(0, 2) && LittleEndian(0, 2) == "\0" + LittleEndian(0, 1) && LittleEndian(0, 1) == "\0" + LittleEndian(0, 0);
    assert LittleEndian(1, 4) == "\U{1}" + LittleEndian(0, 3);
  }

  /** What restoring an image gives: the storage, and the files as they end up. */
  ghost function Restored(decodes: string -> bool, image: string): Option<(Storage, Tree)>
    requires IsBytes(image)
  {
    match TakeBytes(image, |MAGIC|)
    case None => None
    case Some((magic, b0)) =>
      if magic != MAGIC then None
      else match ParseNumber(b0, 4)
        case None => None
        case Some((version, b1)) => if version != VERSION then None else RestoredBody(decodes, b1)
  }

  ghost function RestoredBody(decodes: string -> bool, b: string): Option<(Storage, Tree)>
    requires IsBytes(b)
  {
    match P(StorageS, b)
    case None => None
    case Some((v, rest)) =>
      if !Admitted(decodes, v) then None
      else match P(Many(RecordS), rest)
        case None => None
        case Some((u, last)) =>
          if last != "" then None
          else match ReplayAll(map["/" := NewDir], RecordsIn(ItemsIn(u))) case Err(_) => None case Ok(t) => Some((Load(EmptyStorage, v), t))
  }

  method Restore(image: string, decodes: string -> bool) returns (r: Result<(Storage, Mem), ImageError>)
    requires IsBytes(image)
    ensures r.Ok? <==> Restored(decodes, image).Some?
    ensures |image| < 12 || image[..8] != "GITZIMG1" ==> r == Err(InvalidImage)
    ensures |image| >= 12 && image[..8] == "GITZIMG1" && image[8..12] != "\U{1}\0\0\0" ==> r == Err(UnsupportedImageVersion)
    ensures r.Ok? ==> fresh(r.value.1) && r.value.1.Valid() && Restored(decodes, image) == Some((r.value.0, r.value.1.View()))
  {
    hide ParseNumber, RestoredBody, Mem.View, Mem.Valid;
    var reader := new ImageReader(image, decodes);
    var magic := reader.Raw(|MAGIC|);
    if magic.None? { return Err(InvalidImage); }
    if magic.value != MAGIC { return Err(InvalidImage); }
    VersionBytes(image);
    var version := reader.TakeInt(4);
    if version.None? { return Err(InvalidImage); }
    if version.value != VERSION { return Err(UnsupportedImageVersion); }
    r := RestoreBody(reader);
  }

  lemma VersionBytes(image: string)
    requires IsBytes(image) && |image| >= 8
    ensures |image| < 12 ==> ParseNumber(image[8..], 4).None?
    ensures |image| >= 12 ==> ParseNumber(image[8..], 4).Some? && (ParseNumber(image[8..], 4).value.0 == VERSION <==> image[8..12] == "\U{1}\0\0\0")
  {
    if |image| >= 12 {
      var s := image[8..12];
      assert image[8..][..4] == s;
      FourBytes(s);
      assert s == [s[0], s[1], s[2], s[3]];
    }
  }

  method RestoreBody(reader: ImageReader) returns (r: Result<(Storage, Mem), ImageError>)
    requires reader.Valid()
    modifies reader`offset
    ensures r.Ok? <==> RestoredBody(reader.decodes, old(reader.Rest())).Some?
    ensures r.Ok? ==> fresh(r.value.1) && r.value.1.Valid() && RestoredBody(reader.decodes, old(reader.Rest())) == Some((r.value.0, r.value.1.View()))
  {
    hide ParseNumber, P, ReplayAll, Load, Admitted, Mem.View, Mem.Valid, RecordsIn;
    var store, v := ReadStorage(reader, EmptyStorage);
    if store.Err? { return Err(store.error); }
    var fs := new Mem();
    var done, u := ReadFilesystem(reader, fs);
    if done.Err? { return Err(done.error); }
    var all := reader.Done();
    if !all { return Err(InvalidImage); }
    r := Ok((store.value, fs));
  }

  lemma RecordsBack(t: Tree, list: seq<string>)
    requires forall i :: 0 <= i < |list| ==> Abs(list[i]) in t
    ensures RecordsIn(RecordValues(t, list)) == Records(t, list)
  {
  }

  /** Restoring an exported image gives back the storage and every path below the root. */
  lemma RestoreUndoesExport(decodes: string -> bool, image: string, s: Storage, t: Tree, v: Value, list: seq<string>)
    requires Fits(StorageS, StorageS, v) && Load(EmptyStorage, v) == s && Admitted(decodes, v) && GoodTree(t)
    requires Preorder(t, list) && forall i :: 0 <= i < |list| ==> Abs(list[i]) in t
    requires Fits(StorageS, Many(RecordS), List(RecordValues(t, list)))
    requires image == MAGIC + LittleEndian(VERSION, 4) + Encode(StorageS, StorageS, v) + Encode(StorageS, Many(RecordS), List(RecordValues(t, list)))
    ensures IsBytes(image) && Restored(decodes, image) == Some((s, t["/" := NewDir]))
  {
    hide Fits, Encode, Load, Admitted, GoodTree, Preorder, ReplayAll, LittleEndian, Parse, ParseNumber;
    var files := List(RecordValues(t, list));
    var c, d := Encode(StorageS, StorageS, v), Encode(StorageS, Many(RecordS), files);
    RoundTrip(StorageS, Many(RecordS), files, "");
    assert d + "" == d;
    RoundTrip(StorageS, StorageS, v, d);
    Powers();
    NumberAgain(VERSION, 4, c + d);
    var b0 := LittleEndian(VERSION, 4) + (c + d);
    assert image == MAGIC + b0;
    assert image[..|MAGIC|] == MAGIC && image[|MAGIC|..] == b0;
    BytesPlus(MAGIC, b0);
    RecordsBack(t, list);
    ReplayRebuilds(t, list);
  }

  /** No strict prefix of an image restores. */
  lemma NoPrefixRestores(decodes: string -> bool, image: string, k: nat)
    requires IsBytes(image) && k < |image| && IsBytes(image[..k]) && Restored(decodes, image).Some?
    ensures Restored(decodes, image[..k]).None?
  {
    hide Parse, ParseNumber, Admitted, Load, ReplayAll;
    var short, y := image[..k], image[k..];
    assert image == short + y;
    if Restored(decodes, short).Some? {
      var b0 := short[|MAGIC|..];
      assert image[|MAGIC|..] == b0 + y && image[..|MAGIC|] == short[..|MAGIC|];
      NumberStays(b0, 4, y);
      var b1 := ParseNumber(b0, 4).value.1;
      ParseStays(StorageS, StorageS, b1, y);
      var rest := P(StorageS, b1).value.1;
      ParseStays(StorageS, Many(RecordS), rest, y);
    }
  }
}
