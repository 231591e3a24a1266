/** The bytes of an image, part by part, without reference to the values that are read back. */
module Layout {
  import opened Wrappers
  import opened Sorting
  import opened Codec
  import opened Image

  // ---- One record of each kind ------------------------------------------------------------------

  function ByteOf(n: nat): string { [(n % 256) as char] }

  function Count(n: nat): string { LittleEndian(n, 4) }

  function TextBytes(t: string): string { Count(|t|) + t }

  /** Kind 1 to 4, then the content. */
  function ObjectBytes(o: Object): string { ByteOf(o.kind) + TextBytes(o.content) }

  /** Type (1 for a hash, 2 for a symbolic reference), name, target. */
  function RefBytes(name: string, x: Ref): string {
    match x
    case HashRef(h) => "\U{1}" + TextBytes(name) + TextBytes(h)
    case SymbolicRef(t) => "\U{2}" + TextBytes(name) + TextBytes(t)
    case InvalidRef => "\0" + TextBytes(name) + TextBytes("")
  }

  function TextsBytes(texts: seq<string>): string { Count(|texts|) + JoinTexts(texts) }

  /** Length-prefixed texts one after the other. */
  function JoinTexts(texts: seq<string>): string {
    if texts == [] then "" else JoinTexts(texts[..|texts| - 1]) + TextBytes(texts[|texts| - 1])
  }

  lemma OneMoreText(texts: seq<string>, i: nat)
    requires i < |texts|
    ensures JoinTexts(texts[..i + 1]) == JoinTexts(texts[..i]) + TextBytes(texts[i])
  {
    assert texts[..i + 1][..i] == texts[..i];
  }

  function FlagByte(b: bool): string { if b then "\U{1}" else "\0" }

  function RemoteBytes(name: string, x: Remote): string {
    TextBytes(name) + TextsBytes(x.urls) + TextsBytes(x.fetch) + FlagByte(x.mirror)
  }

  function BranchBytes(name: string, x: Branch): string { TextBytes(name) + TextBytes(x.remote) + TextBytes(x.merge) }

  function SubmoduleBytes(name: string, x: Submodule): string {
    TextBytes(name) + TextBytes(x.path) + TextBytes(x.url) + TextBytes(x.branch)
  }

  function FileBytes(name: string, data: string): string { TextBytes(name) + TextBytes(data) }

  // ---- Lists --------------------------------------------------------------------------------------

  /** The names are those of the map, each once. */
  ghost predicate Names<T>(names: seq<string>, m: map<string, T>) {
    Distinct(names) && |names| == |m| && forall n :: n in names <==> n in m
  }

  function JoinMap<T>(m: map<string, T>, names: seq<string>, bytes: (string, T) -> string): string
    requires forall i :: 0 <= i < |names| ==> names[i] in m
  {
    if names == [] then ""
    else JoinMap(m, names[..|names| - 1], bytes) + bytes(names[|names| - 1], m[names[|names| - 1]])
  }

  /** A count and one record for each entry of a map, in some order. */
  ghost predicate MapImage<T>(m: map<string, T>, bytes: (string, T) -> string, b: string) {
    exists names :: Names(names, m) && b == Count(|names|) + JoinMap(m, names, bytes)
  }

  /** Part of the names, with `todo` left. */
  ghost predicate PartNames<T>(names: seq<string>, todo: set<string>, m: map<string, T>) {
    Distinct(names) && |names| + |todo| == |m| && forall n :: n in names <==> n in m && n !in todo
  }

  lemma NoneNamed<T>(m: map<string, T>, bytes: (string, T) -> string)
    requires |m.Keys| == |m|
    ensures PartNames([], m.Keys, m) && JoinMap(m, [], bytes) == ""
  {
  }

  lemma OneNamedMore<T>(names: seq<string>, todo: set<string>, m: map<string, T>, n: string, bytes: (string, T) -> string)
    requires PartNames(names, todo, m) && n in todo && n in m
    ensures PartNames(names + [n], todo - {n}, m) && JoinMap(m, names + [n], bytes) == JoinMap(m, names, bytes) + bytes(n, m[n])
  {
    assert (names + [n])[..|names|] == names;
    forall x ensures x in names + [n] <==> x in m && x !in todo - {n} {
      if x in m && x !in todo - {n} && x != n { assert x in names; }
    }
  }

  lemma AllNamed<T>(names: seq<string>, m: map<string, T>, bytes: (string, T) -> string)
    requires PartNames(names, {}, m)
    ensures Names(names, m) && MapImage(m, bytes, Count(|names|) + JoinMap(m, names, bytes))
  {
  }

  function JoinObjects(objects: seq<Object>): string {
    if objects == [] then "" else JoinObjects(objects[..|objects| - 1]) + ObjectBytes(objects[|objects| - 1])
  }

  /** Part of the objects, with `todo` left. */
  ghost predicate PartObjects(list: seq<Object>, todo: set<Object>, objects: set<Object>) {
    Distinct(list) && |list| + |todo| == |objects| && forall o :: o in list <==> o in objects && o !in todo
  }

  lemma OneMoreObject(list: seq<Object>, todo: set<Object>, objects: set<Object>, o: Object)
    requires PartObjects(list, todo, objects) && o in todo && o in objects
    ensures PartObjects(list + [o], todo - {o}, objects) && JoinObjects(list + [o]) == JoinObjects(list) + ObjectBytes(o)
  {
    assert (list + [o])[..|list|] == list;
    forall x ensures x in list + [o] <==> x in objects && x !in todo - {o} {
      if x in objects && x !in todo - {o} && x != o { assert x in list; }
    }
  }

  lemma AllObjects(list: seq<Object>, objects: set<Object>)
    requires PartObjects(list, {}, objects)
    ensures |list| == |objects| && ObjectsImage(objects, Count(|objects|) + JoinObjects(list))
  {
  }

  ghost predicate ObjectsImage(objects: set<Object>, b: string) {
    exists list :: Distinct(list) && (forall o :: o in list <==> o in objects) && |list| == |objects| && b == Count(|list|) + JoinObjects(list)
  }

  // ---- Whole parts ----------------------------------------------------------------------------------

  ghost predicate ConfigImage(c: Config, b: string) {
    exists remotes, branches, submodules ::
      && MapImage(c.remotes, RemoteBytes, remotes) && MapImage(c.branches, BranchBytes, branches)
      && MapImage(c.submodules, SubmoduleBytes, submodules)
      && b == FlagByte(c.bare) + JoinTexts(c.texts) + remotes + branches + submodules
  }

  /** Git files stand in byte order of their names. */
  ghost predicate FilesImage(files: map<string, string>, b: string) {
    exists names :: Names(names, files) && Increasing(names) && b == Count(|names|) + JoinMap(files, names, FileBytes)
  }

  /** The parts of a storage, each of them laid out. */
  datatype Parts = Parts(objects: string, refs: string, config: string, files: string, names: seq<string>, modules: seq<string>)

  function JoinNamed(names: seq<string>, images: seq<string>): string
    requires |names| == |images|
  {
    if names == [] then ""
    else JoinNamed(names[..|names| - 1], images[..|images| - 1]) + TextBytes(names[|names| - 1]) + images[|images| - 1]
  }

  /** Algorithm, objects, references, shallow commits, index, configuration, git files, modules. */
  ghost predicate StorageImage(s: Storage, b: string)
    decreases s, 1
  {
    exists p :: PartsOf(s, p)
      && b == ByteOf(s.algo) + p.objects + p.refs + TextsBytes(s.shallow) + TextBytes(s.index) + p.config + p.files
              + Count(|p.names|) + JoinNamed(p.names, p.modules)
  }

  ghost predicate PartsOf(s: Storage, p: Parts)
    ensures PartsOf(s, p) ==> |p.names| == |p.modules|
    decreases s, 0
  {
    && ObjectsImage(s.objects, p.objects) && MapImage(s.refs, RefBytes, p.refs)
    && ConfigImage(s.config, p.config) && FilesImage(s.gitFiles, p.files)
    && Names(p.names, s.modules) && |p.modules| == |p.names|
    && forall i :: 0 <= i < |p.names| ==> StorageImage(s.modules[p.names[i]], p.modules[i])
  }
}
