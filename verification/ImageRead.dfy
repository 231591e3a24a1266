/** Reading a storage back from an image. */
module ImageRead {
  import opened Wrappers
  import opened Codec
  import opened Image
  import opened ImageIO

  // ---- Reader ---------------------------------------------------------------------------------------

  class ImageReader {
    const image: string
    /** Whether the index decoder accepts the bytes. */
    const decodes: string -> bool
    var offset: nat

    constructor (image: string, decodes: string -> bool)
      requires IsBytes(image)
      ensures Valid() && Rest() == image && this.image == image && this.decodes == decodes
    {
      this.image, this.decodes := image, decodes;
      offset := 0;
    }

    ghost predicate Valid()
      reads this
    {
      offset <= |image| && IsBytes(image)
    }

    /** What has not been read yet. */
    ghost function Rest(): (r: string)
      requires Valid()
      reads this
      ensures IsBytes(r)
    {
      image[offset..]
    }

    /** The next `n` bytes, or nothing if there are fewer. */
    method Raw(n: nat) returns (r: Option<string>)
      requires Valid()
      modifies this`offset
      ensures Valid() && (r.Some? ==> IsBytes(r.value))
      ensures match TakeBytes(old(Rest()), n) case None => r == None && Rest() == old(Rest()) case Some((x, rest)) => r == Some(x) && Rest() == rest
    {
      if n > |image| - offset { return None; }
      r := Some(image[offset..offset + n]);
      assert image[offset..][..n] == image[offset..offset + n] && image[offset..][n..] == image[offset + n..];
      offset := offset + n;
    }

    method TakeInt(size: nat) returns (r: Option<nat>)
      requires Valid()
      modifies this`offset
      ensures Valid()
      ensures match ParseNumber(old(Rest()), size) case None => r == None case Some((x, rest)) => r == Some(x) && Rest() == rest
    {
      var x := Raw(size);
      r := if x.None? then None else Some(FromLittleEndian(x.value));
    }

    method TakeText() returns (r: Option<string>)
      requires Valid()
      modifies this`offset
      ensures Valid()
      ensures match ParseText(old(Rest())) case None => r == None case Some((x, rest)) => r == Some(x) && Rest() == rest
    {
      var n := TakeInt(4);
      if n.None? { return None; }
      r := Raw(n.value);
    }

    method Done() returns (b: bool)
      requires Valid()
      ensures b <==> Rest() == ""
    {
      b := offset == |image|;
    }
  }

  // ---- Parsing step by step ---------------------------------------------------------------------------

  function P(s: Schema, b: string): (r: Parsed<Value>)
    requires IsBytes(b)
    ensures r.Some? ==> IsBytes(r.value.1) && |r.value.1| <= |b|
  {
    Parse(StorageS, s, b)
  }

  lemma ByteStep(b: string)
    requires IsBytes(b)
    ensures P(Byte, b) == match ParseNumber(b, 1) case None => None case Some((n, rest)) => Some((Num(n), rest))
  {
  }

  lemma BlobStep(b: string)
    requires IsBytes(b)
    ensures P(Blob, b) == match ParseText(b) case None => None case Some((t, rest)) => Some((Text(t), rest))
  {
  }

  /** A pair parses exactly when its parts do. */
  lemma PairStep(x: Schema, y: Schema, b: string)
    requires IsBytes(b)
    ensures P(x, b).None? ==> P(Both(x, y), b).None?
    ensures P(x, b).Some? ==>
              var (v, rest) := P(x, b).value;
              P(Both(x, y), b) == match P(y, rest) case None => None case Some((w, last)) => Some((Pair(v, w), last))
  {
  }

  function Prepend(items: seq<Value>, p: Parsed<seq<Value>>): Parsed<seq<Value>> {
    match p case None => None case Some((more, rest)) => Some((items + more, rest))
  }

  function PI(s: Schema, n: nat, b: string): Parsed<seq<Value>>
    requires IsBytes(b)
  {
    ParseItems(StorageS, s, n, b)
  }

  lemma ListStart(s: Schema, b: string)
    requires IsBytes(b)
    ensures ParseNumber(b, 4).None? ==> P(Many(s), b).None?
    ensures ParseNumber(b, 4).Some? ==>
              var (n, rest) := ParseNumber(b, 4).value;
              && P(Many(s), b) == (match PI(s, n, rest) case None => None case Some((items, last)) => Some((List(items), last)))
              && PI(s, n, rest) == Prepend([], PI(s, n, rest))
  {
    if ParseNumber(b, 4).Some? {
      var (n, rest) := ParseNumber(b, 4).value;
      if PI(s, n, rest).Some? { assert [] + PI(s, n, rest).value.0 == PI(s, n, rest).value.0; }
    }
  }

  lemma ListStep(s: Schema, n: nat, b: string, items: seq<Value>)
    requires IsBytes(b) && n > 0
    ensures P(s, b).None? ==> Prepend(items, PI(s, n, b)).None?
    ensures P(s, b).Some? ==> var (v, rest) := P(s, b).value; Prepend(items, PI(s, n, b)) == Prepend(items + [v], PI(s, n - 1, rest))
  {
    if P(s, b).Some? {
      var (v, rest) := P(s, b).value;
      if PI(s, n - 1, rest).Some? {
        var more := PI(s, n - 1, rest).value.0;
        assert items + ([v] + more) == items + [v] + more;
      }
    }
  }

  lemma ListEnd(s: Schema, b: string, items: seq<Value>)
    requires IsBytes(b)
    ensures Prepend(items, PI(s, 0, b)) == Some((items, b))
  {
    assert items + [] == items;
  }

  lemma FoldNone<T>(load: (T, Value) -> T, t: T)
    ensures Fold(load, t, []) == t
  {
  }

  ghost predicate AllOf(ok: Value -> bool, items: seq<Value>) { forall i :: 0 <= i < |items| ==> ok(items[i]) }

  lemma AllOfOne(ok: Value -> bool, items: seq<Value>, v: Value)
    requires AllOf(ok, items) && ok(v)
    ensures AllOf(ok, items + [v])
  {
  }

  /** Whatever follows, a list with a refused item is refused. */
  lemma BadItem(s: Schema, ok: Value -> bool, n: nat, b: string, items: seq<Value>)
    requires IsBytes(b) && items != [] && !ok(items[|items| - 1])
    ensures match Prepend(items, PI(s, n, b)) case None => true case Some((all, _)) => !AllOf(ok, all)
  {
    if PI(s, n, b).Some? {
      var all := items + PI(s, n, b).value.0;
      assert all[|items| - 1] == items[|items| - 1];
    }
  }

  // ---- Lists of byte strings ------------------------------------------------------------------------------

  method ReadTexts(r: ImageReader) returns (v: Option<seq<Value>>)
    requires r.Valid()
    modifies r`offset
    ensures r.Valid()
    ensures match P(Many(Blob), old(r.Rest())) case None => v == None case Some((x, rest)) => v.Some? && x == List(v.value) && r.Rest() == rest
  {
    hide ParseNumber, ParseText, P, PI;
    ListStart(Blob, r.Rest());
    var n := r.TakeInt(4);
    if n.None? { return None; }
    ghost var b1 := r.Rest();
    var items: seq<Value> := [];
    var i := 0;
    while i < n.value
      invariant 0 <= i <= n.value && r.Valid() && |items| == i
      invariant PI(Blob, n.value, b1) == Prepend(items, PI(Blob, n.value - i, r.Rest()))
    {
      ListStep(Blob, n.value - i, r.Rest(), items);
      BlobStep(r.Rest());
      var t := r.TakeText();
      if t.None? { return None; }
      items := items + [Text(t.value)];
      i := i + 1;
    }
    ListEnd(Blob, r.Rest(), items);
    v := Some(items);
  }

  // ---- Lists of records --------------------------------------------------------------------------------------

  predicate HasKnownKind(v: Value) { v.Pair? && v.fst.Num? && KnownKind(v.fst.n) }

  predicate HasGitName(v: Value) { v.Pair? && GitName(TextOf(v.fst)) }

  method ReadObject(r: ImageReader) returns (v: Option<Value>)
    requires r.Valid()
    modifies r`offset
    ensures r.Valid()
    ensures match P(ObjectS, old(r.Rest())) case None => v == None case Some((x, rest)) => v == Some(x) && r.Rest() == rest
  {
    hide ParseNumber, ParseText, P;
    PairStep(Byte, Blob, r.Rest());
    ByteStep(r.Rest());
    var kind := r.TakeInt(1);
    if kind.None? { return None; }
    BlobStep(r.Rest());
    var content := r.TakeText();
    if content.None? { return None; }
    v := Some(Pair(Num(kind.value), Text(content.value)));
  }

  method ReadObjects(r: ImageReader, start: set<Object>) returns (x: Result<set<Object>, ImageError>, ghost u: Value)
    requires r.Valid()
    modifies r`offset
    ensures r.Valid()
    ensures x.Ok? ==> P(Many(ObjectS), old(r.Rest())) == Some((u, r.Rest())) && u.List? && x.value == Fold(LoadObject, start, u.items) && AllOf(HasKnownKind, u.items)
    ensures x.Err? ==> match P(Many(ObjectS), old(r.Rest())) case None => true case Some((u, _)) => u.List? && !AllOf(HasKnownKind, u.items)
  {
    hide ParseNumber, P, PI, Fold, LoadObject;
    u := List([]);
    ListStart(ObjectS, r.Rest());
    var n := r.TakeInt(4);
    if n.None? { return Err(InvalidImage), u; }
    ghost var b1, items := r.Rest(), [];
    x := Ok(start);
    FoldNone(LoadObject, start);
    var i := 0;
    while i < n.value
      invariant 0 <= i <= n.value && r.Valid() && x.Ok? && |items| == i
      invariant PI(ObjectS, n.value, b1) == Prepend(items, PI(ObjectS, n.value - i, r.Rest()))
      invariant x.value == Fold(LoadObject, start, items) && AllOf(HasKnownKind, items)
    {
      ListStep(ObjectS, n.value - i, r.Rest(), items);
      var v := ReadObject(r);
      if v.None? { return Err(InvalidImage), u; }
      if !HasKnownKind(v.value) {
        BadItem(ObjectS, HasKnownKind, n.value - i - 1, r.Rest(), items + [v.value]);
        return Err(UnsupportedObjectType), u;
      }
      FoldOne(LoadObject, start, items, v.value);
      AllOfOne(HasKnownKind, items, v.value);
      x := Ok(LoadObject(x.value, v.value));
      items := items + [v.value];
      i := i + 1;
    }
    ListEnd(ObjectS, r.Rest(), items);
    u := List(items);
  }

  method ReadRef(r: ImageReader) returns (v: Option<Value>)
    requires r.Valid()
    modifies r`offset
    ensures r.Valid()
    ensures match P(RefS, old(r.Rest())) case None => v == None case Some((x, rest)) => v == Some(x) && r.Rest() == rest
  {
    hide ParseNumber, ParseText, P;
    PairStep(Byte, Both(Blob, Blob), r.Rest());
    ByteStep(r.Rest());
    var kind := r.TakeInt(1);
    if kind.None? { return None; }
    PairStep(Blob, Blob, r.Rest());
    BlobStep(r.Rest());
    var name := r.TakeText();
    if name.None? { return None; }
    BlobStep(r.Rest());
    var value := r.TakeText();
    if value.None? { return None; }
    v := Some(Pair(Num(kind.value), Pair(Text(name.value), Text(value.value))));
  }

  method ReadRefs(r: ImageReader, start: map<string, Ref>) returns (x: Result<map<string, Ref>, ImageError>, ghost u: Value)
    requires r.Valid()
    modifies r`offset
    ensures r.Valid()
    ensures x.Ok? ==> P(Many(RefS), old(r.Rest())) == Some((u, r.Rest())) && u.List? && x.value == Fold(LoadRef, start, u.items)
    ensures x.Err? ==> match P(Many(RefS), old(r.Rest())) case None => true case Some((u, _)) => u.List? && false
  {
    hide ParseNumber, P, PI, Fold, LoadRef;
    u := List([]);
    ListStart(RefS, r.Rest());
    var n := r.TakeInt(4);
    if n.None? { return Err(InvalidImage), u; }
    ghost var b1, items := r.Rest(), [];
    x := Ok(start);
    FoldNone(LoadRef, start);
    var i := 0;
    while i < n.value
      invariant 0 <= i <= n.value && r.Valid() && x.Ok? && |items| == i
      invariant PI(RefS, n.value, b1) == Prepend(items, PI(RefS, n.value - i, r.Rest()))
      invariant x.value == Fold(LoadRef, start, items)
    {
      ListStep(RefS, n.value - i, r.Rest(), items);
      var v := ReadRef(r);
      if v.None? { return Err(InvalidImage), u; }
      FoldOne(LoadRef, start, items, v.value);
      x := Ok(LoadRef(x.value, v.value));
      items := items + [v.value];
      i := i + 1;
    }
    ListEnd(RefS, r.Rest(), items);
    u := List(items);
  }

  method ReadRemote(r: ImageReader) returns (v: Option<Value>)
    requires r.Valid()
    modifies r`offset
    ensures r.Valid()
    ensures match P(RemoteS, old(r.Rest())) case None => v == None case Some((x, rest)) => v == Some(x) && r.Rest() == rest
  {
    hide ParseNumber, ParseText, P;
    PairStep(Blob, Both(Many(Blob), Both(Many(Blob), Byte)), r.Rest());
    BlobStep(r.Rest());
    var name := r.TakeText();
    if name.None? { return None; }
    PairStep(Many(Blob), Both(Many(Blob), Byte), r.Rest());
    var urls := ReadTexts(r);
    if urls.None? { return None; }
    PairStep(Many(Blob), Byte, r.Rest());
    var fetch := ReadTexts(r);
    if fetch.None? { return None; }
    ByteStep(r.Rest());
    var mirror := r.TakeInt(1);
    if mirror.None? { return None; }
    v := Some(Pair(Text(name.value), Pair(List(urls.value), Pair(List(fetch.value), Num(mirror.value)))));
  }

  method ReadRemotes(r: ImageReader, start: map<string, Remote>) returns (x: Result<map<string, Remote>, ImageError>, ghost u: Value)
    requires r.Valid()
    modifies r`offset
    ensures r.Valid()
    ensures x.Ok? ==> P(Many(RemoteS), old(r.Rest())) == Some((u, r.Rest())) && u.List? && x.value == Fold(LoadRemote, start, u.items)
    ensures x.Err? ==> match P(Many(RemoteS), old(r.Rest())) case None => true case Some((u, _)) => u.List? && false
  {
    hide ParseNumber, P, PI, Fold, LoadRemote;
    u := List([]);
    ListStart(RemoteS, r.Rest());
    var n := r.TakeInt(4);
    if n.None? { return Err(InvalidImage), u; }
    ghost var b1, items := r.Rest(), [];
    x := Ok(start);
    FoldNone(LoadRemote, start);
    var i := 0;
    while i < n.value
      invariant 0 <= i <= n.value && r.Valid() && x.Ok? && |items| == i
      invariant PI(RemoteS, n.value, b1) == Prepend(items, PI(RemoteS, n.value - i, r.Rest()))
      invariant x.value == Fold(LoadRemote, start, items)
    {
      ListStep(RemoteS, n.value - i, r.Rest(), items);
      var v := ReadRemote(r);
      if v.None? { return Err(InvalidImage), u; }
      FoldOne(LoadRemote, start, items, v.value);
      x := Ok(LoadRemote(x.value, v.value));
      items := items + [v.value];
      i := i + 1;
    }
    ListEnd(RemoteS, r.Rest(), items);
    u := List(items);
  }

  method ReadBranch(r: ImageReader) returns (v: Option<Value>)
    requires r.Valid()
    modifies r`offset
    ensures r.Valid()
    ensures match P(BranchS, old(r.Rest())) case None => v == None case Some((x, rest)) => v == Some(x) && r.Rest() == rest
  {
    hide ParseNumber, ParseText, P;
    PairStep(Blob, Both(Blob, Blob), r.Rest());
    BlobStep(r.Rest());
    var name := r.TakeText();
    if name.None? { return None; }
    PairStep(Blob, Blob, r.Rest());
    BlobStep(r.Rest());
    var remote := r.TakeText();
    if remote.None? { return None; }
    BlobStep(r.Rest());
    var merge := r.TakeText();
    if merge.None? { return None; }
    v := Some(Pair(Text(name.value), Pair(Text(remote.value), Text(merge.value))));
  }

  method ReadBranches(r: ImageReader, start: map<string, Branch>) returns (x: Result<map<string, Branch>, ImageError>, ghost u: Value)
    requires r.Valid()
    modifies r`offset
    ensures r.Valid()
    ensures x.Ok? ==> P(Many(BranchS), old(r.Rest())) == Some((u, r.Rest())) && u.List? && x.value == Fold(LoadBranch, start, u.items)
    ensures x.Err? ==> match P(Many(BranchS), old(r.Rest())) case None => true case Some((u, _)) => u.List? && false
  {
    hide ParseNumber, P, PI, Fold, LoadBranch;
    u := List([]);
    ListStart(BranchS, r.Rest());
    var n := r.TakeInt(4);
    if n.None? { return Err(InvalidImage), u; }
    ghost var b1, items := r.Rest(), [];
    x := Ok(start);
    FoldNone(LoadBranch, start);
    var i := 0;
    while i < n.value
      invariant 0 <= i <= n.value && r.Valid() && x.Ok? && |items| == i
      invariant PI(BranchS, n.value, b1) == Prepend(items, PI(BranchS, n.value - i, r.Rest()))
      invariant x.value == Fold(LoadBranch, start, items)
    {
      ListStep(BranchS, n.value - i, r.Rest(), items);
      var v := ReadBranch(r);
      if v.None? { return Err(InvalidImage), u; }
      FoldOne(LoadBranch, start, items, v.value);
      x := Ok(LoadBranch(x.value, v.value));
      items := items + [v.value];
      i := i + 1;
    }
    ListEnd(BranchS, r.Rest(), items);
    u := List(items);
  }

  method ReadSubmodule(r: ImageReader) returns (v: Option<Value>)
    requires r.Valid()
    modifies r`offset
    ensures r.Valid()
    ensures match P(SubmoduleS, old(r.Rest())) case None => v == None case Some((x, rest)) => v == Some(x) && r.Rest() == rest
  {
    hide ParseNumber, ParseText, P;
    PairStep(Blob, Both(Blob, Both(Blob, Blob)), r.Rest());
    BlobStep(r.Rest());
    var name := r.TakeText();
    if name.None? { return None; }
    PairStep(Blob, Both(Blob, Blob), r.Rest());
    BlobStep(r.Rest());
    var path := r.TakeText();
    if path.None? { return None; }
    PairStep(Blob, Blob, r.Rest());
    BlobStep(r.Rest());
    var url := r.TakeText();
    if url.None? { return None; }
    BlobStep(r.Rest());
    var branch := r.TakeText();
    if branch.None? { return None; }
    v := Some(Pair(Text(name.value), Pair(Text(path.value), Pair(Text(url.value), Text(branch.value)))));
  }

  method ReadSubmodules(r: ImageReader, start: map<string, Submodule>) returns (x: Result<map<string, Submodule>, ImageError>, ghost u: Value)
    requires r.Valid()
    modifies r`offset
    ensures r.Valid()
    ensures x.Ok? ==> P(Many(SubmoduleS), old(r.Rest())) == Some((u, r.Rest())) && u.List? && x.value == Fold(LoadSubmodule, start, u.items)
    ensures x.Err? ==> match P(Many(SubmoduleS), old(r.Rest())) case None => true case Some((u, _)) => u.List? && false
  {
    hide ParseNumber, P, PI, Fold, LoadSubmodule;
    u := List([]);
    ListStart(SubmoduleS, r.Rest());
    var n := r.TakeInt(4);
    if n.None? { return Err(InvalidImage), u; }
    ghost var b1, items := r.Rest(), [];
    x := Ok(start);
    FoldNone(LoadSubmodule, start);
    var i := 0;
    while i < n.value
      invariant 0 <= i <= n.value && r.Valid() && x.Ok? && |items| == i
      invariant PI(SubmoduleS, n.value, b1) == Prepend(items, PI(SubmoduleS, n.value - i, r.Rest()))
      invariant x.value == Fold(LoadSubmodule, start, items)
    {
      ListStep(SubmoduleS, n.value - i, r.Rest(), items);
      var v := ReadSubmodule(r);
      if v.None? { return Err(InvalidImage), u; }
      FoldOne(LoadSubmodule, start, items, v.value);
      x := Ok(LoadSubmodule(x.value, v.value));
      items := items + [v.value];
      i := i + 1;
    }
    ListEnd(SubmoduleS, r.Rest(), items);
    u := List(items);
  }

  method ReadFile(r: ImageReader) returns (v: Option<Value>)
    requires r.Valid()
    modifies r`offset
    ensures r.Valid()
    ensures match P(FileS, old(r.Rest())) case None => v == None case Some((x, rest)) => v == Some(x) && r.Rest() == rest
  {
    hide ParseNumber, ParseText, P;
    PairStep(Blob, Blob, r.Rest());
    BlobStep(r.Rest());
    var name := r.TakeText();
    if name.None? { return None; }
    BlobStep(r.Rest());
    var data := r.TakeText();
    if data.None? { return None; }
    v := Some(Pair(Text(name.value), Text(data.value)));
  }

  method ReadGitFiles(r: ImageReader, start: map<string, string>) returns (x: Result<map<string, string>, ImageError>, ghost u: Value)
    requires r.Valid()
    modifies r`offset
    ensures r.Valid()
    ensures x.Ok? ==> P(Many(FileS), old(r.Rest())) == Some((u, r.Rest())) && u.List? && x.value == Fold(LoadFile, start, u.items) && AllOf(HasGitName, u.items)
    ensures x.Err? ==> match P(Many(FileS), old(r.Rest())) case None => true case Some((u, _)) => u.List? && !AllOf(HasGitName, u.items)
  {
    hide ParseNumber, P, PI, Fold, LoadFile;
    u := List([]);
    ListStart(FileS, r.Rest());
    var n := r.TakeInt(4);
    if n.None? { return Err(InvalidImage), u; }
    ghost var b1, items := r.Rest(), [];
    x := Ok(start);
    FoldNone(LoadFile, start);
    var i := 0;
    while i < n.value
      invariant 0 <= i <= n.value && r.Valid() && x.Ok? && |items| == i
      invariant PI(FileS, n.value, b1) == Prepend(items, PI(FileS, n.value - i, r.Rest()))
      invariant x.value == Fold(LoadFile, start, items) && AllOf(HasGitName, items)
    {
      ListStep(FileS, n.value - i, r.Rest(), items);
      var v := ReadFile(r);
      if v.None? { return Err(InvalidImage), u; }
      if !HasGitName(v.value) {
        BadItem(FileS, HasGitName, n.value - i - 1, r.Rest(), items + [v.value]);
        return Err(InvalidGitFileName), u;
      }
      FoldOne(LoadFile, start, items, v.value);
      AllOfOne(HasGitName, items, v.value);
      x := Ok(LoadFile(x.value, v.value));
      items := items + [v.value];
      i := i + 1;
    }
    ListEnd(FileS, r.Rest(), items);
    u := List(items);
  }

  // ---- Configuration ---------------------------------------------------------------------------------------------

  method ReadFields(r: ImageReader) returns (v: Option<Value>)
    requires r.Valid()
    modifies r`offset
    ensures r.Valid()
    ensures match P(TextsS, old(r.Rest())) case None => v == None case Some((x, rest)) => v == Some(x) && r.Rest() == rest
  {
    hide ParseNumber, ParseText, P;
    PairStep(Blob, Both(Blob, Both(Blob, Both(Blob, Both(Blob, Both(Blob, Both(Blob, Blob)))))), r.Rest());
    BlobStep(r.Rest());
    var format := r.TakeText();
    if format.None? { return None; }
    PairStep(Blob, Both(Blob, Both(Blob, Both(Blob, Both(Blob, Both(Blob, Blob))))), r.Rest());
    BlobStep(r.Rest());
    var objectFormat := r.TakeText();
    if objectFormat.None? { return None; }
    PairStep(Blob, Both(Blob, Both(Blob, Both(Blob, Both(Blob, Blob)))), r.Rest());
    BlobStep(r.Rest());
    var userName := r.TakeText();
    if userName.None? { return None; }
    PairStep(Blob, Both(Blob, Both(Blob, Both(Blob, Blob))), r.Rest());
    BlobStep(r.Rest());
    var userEmail := r.TakeText();
    if userEmail.None? { return None; }
    PairStep(Blob, Both(Blob, Both(Blob, Blob)), r.Rest());
    BlobStep(r.Rest());
    var authorName := r.TakeText();
    if authorName.None? { return None; }
    PairStep(Blob, Both(Blob, Blob), r.Rest());
    BlobStep(r.Rest());
    var authorEmail := r.TakeText();
    if authorEmail.None? { return None; }
    PairStep(Blob, Blob, r.Rest());
    BlobStep(r.Rest());
    var committerName := r.TakeText();
    if committerName.None? { return None; }
    BlobStep(r.Rest());
    var committerEmail := r.TakeText();
    if committerEmail.None? { return None; }
    v := Some(Pair(Text(format.value), Pair(Text(objectFormat.value), Pair(Text(userName.value), Pair(Text(userEmail.value), Pair(Text(authorName.value), Pair(Text(authorEmail.value), Pair(Text(committerName.value), Text(committerEmail.value)))))))));
  }

  method ReadConfig(r: ImageReader, start: Config) returns (x: Result<Config, ImageError>, ghost u: Value)
    requires r.Valid()
    modifies r`offset
    ensures r.Valid()
    ensures x.Ok? ==> P(ConfigS, old(r.Rest())) == Some((u, r.Rest())) && x.value == LoadConfig(start, u)
    ensures x.Err? ==> P(ConfigS, old(r.Rest())).None?
  {
    hide ParseNumber, P, Fold, TextList;
    u := List([]);
    PairStep(Byte, Both(TextsS, Both(Many(RemoteS), Both(Many(BranchS), Many(SubmoduleS)))), r.Rest());
    ByteStep(r.Rest());
    var bare := r.TakeInt(1);
    if bare.None? { return Err(InvalidImage), u; }
    PairStep(TextsS, Both(Many(RemoteS), Both(Many(BranchS), Many(SubmoduleS))), r.Rest());
    var texts := ReadFields(r);
    if texts.None? { return Err(InvalidImage), u; }
    PairStep(Many(RemoteS), Both(Many(BranchS), Many(SubmoduleS)), r.Rest());
    var remotes, ur := ReadRemotes(r, start.remotes);
    if remotes.Err? { return Err(remotes.error), u; }
    PairStep(Many(BranchS), Many(SubmoduleS), r.Rest());
    var branches, ub := ReadBranches(r, start.branches);
    if branches.Err? { return Err(branches.error), u; }
    var submodules, us := ReadSubmodules(r, start.submodules);
    if submodules.Err? { return Err(submodules.error), u; }
    u := Pair(Num(bare.value), Pair(texts.value, Pair(ur, Pair(ub, us))));
    x := Ok(Config(bare.value != 0, TextList(texts.value), remotes.value, branches.value, submodules.value));
  }

  // ---- Modules and storage ------------------------------------------------------------------------------------------

  function PN(n: nat, b: string): Parsed<seq<Value>>
    requires IsBytes(b)
  {
    ParseNamed(StorageS, n, b)
  }

  lemma NamedStart(b: string)
    requires IsBytes(b)
    ensures ParseNumber(b, 4).None? ==> P(Nested, b).None?
    ensures ParseNumber(b, 4).Some? ==>
              var (n, rest) := ParseNumber(b, 4).value;
              && P(Nested, b) == (match PN(n, rest) case None => None case Some((items, last)) => Some((List(items), last)))
              && PN(n, rest) == Prepend([], PN(n, rest)) && |rest| < |b|
  {
    if ParseNumber(b, 4).Some? {
      var (n, rest) := ParseNumber(b, 4).value;
      if PN(n, rest).Some? { assert [] + PN(n, rest).value.0 == PN(n, rest).value.0; }
    }
  }

  lemma NamedStep(n: nat, b: string, items: seq<Value>)
    requires IsBytes(b) && n > 0
    ensures ParseText(b).None? ==> Prepend(items, PN(n, b)).None?
    ensures ParseText(b).Some? ==>
              var (name, rest) := ParseText(b).value;
              && |rest| <= |b|
              && (P(StorageS, rest).None? ==> Prepend(items, PN(n, b)).None?)
              && (P(StorageS, rest).Some? ==>
                    var (v, last) := P(StorageS, rest).value;
                    |last| <= |rest| && Prepend(items, PN(n, b)) == Prepend(items + [Pair(Text(name), v)], PN(n - 1, last)))
  {
    if ParseText(b).Some? {
      var (name, rest) := ParseText(b).value;
      if P(StorageS, rest).Some? {
        var (v, last) := P(StorageS, rest).value;
        if PN(n - 1, last).Some? {
          var more := PN(n - 1, last).value.0;
          assert items + ([Pair(Text(name), v)] + more) == items + [Pair(Text(name), v)] + more;
        }
      }
    }
  }

  lemma NamedEnd(b: string, items: seq<Value>)
    requires IsBytes(b)
    ensures Prepend(items, PN(0, b)) == Some((items, b))
  {
    assert items + [] == items;
  }

  ghost predicate AllAdmitted(decodes: string -> bool, items: seq<Value>) { forall i :: 0 <= i < |items| ==> AdmittedModule(decodes, items[i]) }

  lemma BadModule(decodes: string -> bool, n: nat, b: string, items: seq<Value>, name: string, v: Value)
    requires IsBytes(b) && !Admitted(decodes, v)
    ensures match Prepend(items + [Pair(Text(name), v)], PN(n, b)) case None => true case Some((all, _)) => !AllAdmitted(decodes, all)
  {
    if PN(n, b).Some? {
      var all := items + [Pair(Text(name), v)] + PN(n, b).value.0;
      assert all[|items|] == Pair(Text(name), v);
    }
  }

  lemma ModuleStep(start: map<string, Storage>, items: seq<Value>, name: string, v: Value)
    ensures var m := LoadModules(start, items);
            LoadModules(start, items + [Pair(Text(name), v)]) == m[name := Load(if name in m then m[name] else EmptyStorage, v)]
  {
    assert (items + [Pair(Text(name), v)])[..|items|] == items;
  }

  lemma NoModuleYet(start: map<string, Storage>)
    ensures LoadModules(start, []) == start
  {
  }

  method ReadModules(r: ImageReader, start: map<string, Storage>) returns (x: Result<map<string, Storage>, ImageError>, ghost u: Value)
    requires r.Valid()
    modifies r`offset
    ensures r.Valid()
    ensures x.Ok? ==> P(Nested, old(r.Rest())) == Some((u, r.Rest())) && u.List? && AllAdmitted(r.decodes, u.items) && x.value == LoadModules(start, u.items)
    ensures x.Err? ==> match P(Nested, old(r.Rest())) case None => true case Some((u, _)) => u.List? && !AllAdmitted(r.decodes, u.items)
    decreases |r.Rest()|, 0
  {
    hide ParseNumber, ParseText, P, PN, Load, LoadModules, Admitted, AllAdmitted;
    u := List([]);
    NamedStart(r.Rest());
    var n := r.TakeInt(4);
    if n.None? { return Err(InvalidImage), u; }
    ghost var b1, items := r.Rest(), [];
    x := Ok(start);
    NoModuleYet(start);
    NoneRefused(r.decodes);
    var i := 0;
    while i < n.value
      invariant 0 <= i <= n.value && r.Valid() && x.Ok? && |r.Rest()| < |old(r.Rest())|
      invariant PN(n.value, b1) == Prepend(items, PN(n.value - i, r.Rest()))
      invariant x.value == LoadModules(start, items) && AllAdmitted(r.decodes, items)
    {
      NamedStep(n.value - i, r.Rest(), items);
      var name := r.TakeText();
      if name.None? { return Err(InvalidImage), u; }
      ghost var mid := r.Rest();
      var s, v := ReadStorage(r, if name.value in x.value then x.value[name.value] else EmptyStorage);
      if s.Err? {
        if P(StorageS, mid).Some? { BadModule(r.decodes, n.value - i - 1, P(StorageS, mid).value.1, items, name.value, P(StorageS, mid).value.0); }
        return Err(s.error), u;
      }
      ModuleStep(start, items, name.value, v);
      ModuleAdmitted(r.decodes, items, name.value, v);
      x := Ok(x.value[name.value := s.value]);
      items := items + [Pair(Text(name.value), v)];
      i := i + 1;
    }
    NamedEnd(r.Rest(), items);
    u := List(items);
  }

  lemma NoneRefused(decodes: string -> bool)
    ensures AllAdmitted(decodes, [])
  {
  }

  lemma ModuleAdmitted(decodes: string -> bool, items: seq<Value>, name: string, v: Value)
    requires AllAdmitted(decodes, items) && Admitted(decodes, v)
    ensures AllAdmitted(decodes, items + [Pair(Text(name), v)])
  {
  }

  /** Reads a storage, with everything nested in it, on top of `into`. */
  method ReadStorage(r: ImageReader, into: Storage) returns (x: Result<Storage, ImageError>, ghost u: Value)
    requires r.Valid()
    modifies r`offset
    ensures r.Valid()
    ensures x.Ok? ==> P(StorageS, old(r.Rest())) == Some((u, r.Rest())) && Admitted(r.decodes, u) && x.value == Load(into, u)
    ensures x.Err? ==> match P(StorageS, old(r.Rest())) case None => true case Some((u, _)) => !Admitted(r.decodes, u)
    decreases |r.Rest()|, 2
  {
    hide ParseNumber, ParseText, P, Fold, LoadConfig, LoadModules, AdmittedModule, Admitted, AdmittedSettings, AllOf, AllAdmitted;
    AdmittedParts(r.decodes);
    u := List([]);
    PairStep(Byte, ObjectsS, r.Rest());
    ByteStep(r.Rest());
    ByteShrinks(r.Rest());
    var algo := r.TakeInt(1);
    if algo.None? { return Err(InvalidImage), u; }
    PairStep(Many(ObjectS), RefsS, r.Rest());
    var objects, u1 := ReadObjects(r, into.objects);
    if objects.Err? { return Err(objects.error), u; }
    PairStep(Many(RefS), ShallowS, r.Rest());
    var refs, u2 := ReadRefs(r, into.refs);
    if refs.Err? { return Err(refs.error), u; }
    PairStep(Many(Blob), IndexS, r.Rest());
    var shallow := ReadTexts(r);
    if shallow.None? { return Err(InvalidImage), u; }
    PairStep(Blob, SettingsS, r.Rest());
    BlobStep(r.Rest());
    var index := r.TakeText();
    if index.None? { return Err(InvalidImage), u; }
    if !r.decodes(index.value) { return Err(InvalidIndex), u; }
    var rest, u5 := ReadSettings(r, into);
    if rest.Err? { return Err(rest.error), u; }
    u := Pair(Num(algo.value), Pair(u1, Pair(u2, Pair(List(shallow.value), Pair(Text(index.value), u5)))));
    x := Ok(Storage(algo.value, objects.value, refs.value, Hashes(shallow.value), index.value, rest.value.0, rest.value.1, rest.value.2));
  }

  lemma AdmittedParts(decodes: string -> bool)
    ensures forall a: Value, o: Value, b: Value, c: Value, d: string, u: Value | o.List? && u.Pair? && u.snd.Pair? && u.snd.fst.List? && u.snd.snd.List? ::
              Admitted(decodes, Pair(a, Pair(o, Pair(b, Pair(c, Pair(Text(d), u)))))) <==> AllOf(HasKnownKind, o.items) && decodes(d) && AdmittedSettings(decodes, u)
    ensures forall a: Value, o: Value, b: Value, c: Value, d: string, u: Value | !decodes(d) :: !Admitted(decodes, Pair(a, Pair(o, Pair(b, Pair(c, Pair(Text(d), u))))))
    ensures forall a: Value, o: Value, w: Value | o.List? && !AllOf(HasKnownKind, o.items) :: !Admitted(decodes, Pair(a, Pair(o, w)))
    ensures forall u: Value :: AdmittedSettings(decodes, u) ==> u.Pair? && u.snd.Pair? && u.snd.fst.List? && u.snd.snd.List?
  {
  }

  /** The last three parts of a storage: configuration, git files and modules. */
  ghost predicate AdmittedSettings(decodes: string -> bool, u: Value) {
    && u.Pair? && u.snd.Pair? && u.snd.fst.List? && u.snd.snd.List?
    && AllOf(HasGitName, u.snd.fst.items) && AllAdmitted(decodes, u.snd.snd.items)
  }

  method ReadSettings(r: ImageReader, into: Storage)
    returns (x: Result<(Config, map<string, string>, map<string, Storage>), ImageError>, ghost u: Value)
    requires r.Valid()
    modifies r`offset
    ensures r.Valid()
    ensures x.Ok? ==>
              && P(SettingsS, old(r.Rest())) == Some((u, r.Rest())) && AdmittedSettings(r.decodes, u)
              && x.value == (LoadConfig(into.config, u.fst), Fold(LoadFile, into.gitFiles, u.snd.fst.items), LoadModules(into.modules, u.snd.snd.items))
    ensures x.Err? ==> match P(SettingsS, old(r.Rest())) case None => true case Some((u, _)) => u.Pair? && u.snd.Pair? && u.snd.fst.List? && u.snd.snd.List? && !AdmittedSettings(r.decodes, u)
    decreases |r.Rest()|, 1
  {
    hide ParseNumber, P, Fold, LoadConfig, LoadModules, AllOf, AllAdmitted;
    u := List([]);
    PairStep(ConfigS, FilesS, r.Rest());
    var config, u5 := ReadConfig(r, into.config);
    if config.Err? { return Err(config.error), u; }
    PairStep(Many(FileS), Nested, r.Rest());
    ListShape(FileS, r.Rest());
    if P(Many(FileS), r.Rest()).Some? { NamedShape(P(Many(FileS), r.Rest()).value.1); }
    var files, u6 := ReadGitFiles(r, into.gitFiles);
    if files.Err? {
      return Err(files.error), u;
    }
    NamedShape(r.Rest());
    var modules, u7 := ReadModules(r, into.modules);
    if modules.Err? { return Err(modules.error), u; }
    u := Pair(u5, Pair(u6, u7));
    x := Ok((config.value, files.value, modules.value));
  }

  lemma ListShape(s: Schema, b: string)
    requires IsBytes(b)
    ensures P(Many(s), b).Some? ==> P(Many(s), b).value.0.List?
  {
  }

  lemma NamedShape(b: string)
    requires IsBytes(b)
    ensures P(Nested, b).Some? ==> P(Nested, b).value.0.List?
  {
  }

  lemma ByteShrinks(b: string)
    requires IsBytes(b)
    ensures ParseNumber(b, 1).Some? ==> |ParseNumber(b, 1).value.1| < |b|
  {
  }
}
