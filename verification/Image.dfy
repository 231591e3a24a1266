/** Storage, and the image it is written to and restored from. */
module Image {
  import opened Wrappers
  import opened Codec

  // ---- Storage ----------------------------------------------------------------------------------

  datatype Object = Object(kind: nat, content: string)

  datatype Ref = InvalidRef | HashRef(hash: string) | SymbolicRef(target: string)

  datatype Remote = Remote(urls: seq<string>, fetch: seq<string>, mirror: bool)

  datatype Branch = Branch(remote: string, merge: string)

  datatype Submodule = Submodule(path: string, url: string, branch: string)

  /** `texts` are format version, object format and the three name and email pairs. */
  datatype Config = Config(bare: bool, texts: seq<string>, remotes: map<string, Remote>, branches: map<string, Branch>,
                           submodules: map<string, Submodule>)

  /** `index` is the encoded index.  Objects are addressed by their content. */
  datatype Storage = Storage(algo: nat, objects: set<Object>, refs: map<string, Ref>, shallow: seq<string>, index: string,
                             config: Config, gitFiles: map<string, string>, modules: map<string, Storage>)

  const HASH_SIZE := 20
  const CONFIG_TEXTS := 8
  const EmptyConfig := Config(false, ["", "", "", "", "", "", "", ""], map[], map[], map[])
  const EmptyStorage := Storage(0, {}, map[], [], "", EmptyConfig, map[], map[])

  predicate Short(s: string) { IsBytes(s) && |s| < TWO32 }

  predicate GitName(name: string) { 0 < |name| <= 64 && '/' !in name && '\\' !in name && '\0' !in name }

  predicate KnownKind(k: int) { 1 <= k <= 4 }

  ghost predicate GoodRemote(r: Remote) {
    && |r.urls| < TWO32 && (forall i :: 0 <= i < |r.urls| ==> Short(r.urls[i]))
    && |r.fetch| < TWO32 && (forall i :: 0 <= i < |r.fetch| ==> Short(r.fetch[i]))
  }

  ghost predicate GoodConfig(c: Config) {
    && |c.texts| == CONFIG_TEXTS && (forall i :: 0 <= i < |c.texts| ==> Short(c.texts[i]))
    && |c.remotes| < TWO32 && (forall n :: n in c.remotes ==> Short(n) && GoodRemote(c.remotes[n]))
    && |c.branches| < TWO32 && (forall n :: n in c.branches ==> Short(n) && Short(c.branches[n].remote) && Short(c.branches[n].merge))
    && |c.submodules| < TWO32
    && (forall n :: n in c.submodules ==> Short(n) && Short(c.submodules[n].path) && Short(c.submodules[n].url) && Short(c.submodules[n].branch))
  }

  ghost predicate GoodRef(r: Ref) {
    match r case InvalidRef => false case HashRef(h) => IsBytes(h) && |h| == HASH_SIZE case SymbolicRef(t) => Short(t)
  }

  /** Every field fits the image, references are valid, object kinds are known and the index is one
      that decodes, to any depth. */
  ghost predicate Good(decodes: string -> bool, s: Storage)
    decreases s
  {
    && s.algo < 256
    && |s.objects| < TWO32 && (forall o :: o in s.objects ==> KnownKind(o.kind) && Short(o.content))
    && |s.refs| < TWO32 && (forall n :: n in s.refs ==> Short(n) && GoodRef(s.refs[n]))
    && |s.shallow| < TWO32 && (forall i :: 0 <= i < |s.shallow| ==> IsBytes(s.shallow[i]) && |s.shallow[i]| == HASH_SIZE)
    && Short(s.index) && decodes(s.index) && GoodConfig(s.config)
    && |s.gitFiles| < TWO32 && (forall n :: n in s.gitFiles ==> Short(n) && GitName(n) && Short(s.gitFiles[n]))
    && |s.modules| < TWO32 && (forall n :: n in s.modules ==> Short(n) && Good(decodes, s.modules[n]))
  }

  // ---- Schema ------------------------------------------------------------------------------------

  const ObjectS := Both(Byte, Blob)
  const RefS := Both(Byte, Both(Blob, Blob))
  const RemoteS := Both(Blob, Both(Many(Blob), Both(Many(Blob), Byte)))
  const BranchS := Both(Blob, Both(Blob, Blob))
  const SubmoduleS := Both(Blob, Both(Blob, Both(Blob, Blob)))
  const FileS := Both(Blob, Blob)
  const TextsS := Both(Blob, Both(Blob, Both(Blob, Both(Blob, Both(Blob, Both(Blob, Both(Blob, Blob)))))))
  const ConfigS := Both(Byte, Both(TextsS, Both(Many(RemoteS), Both(Many(BranchS), Many(SubmoduleS)))))
  const FilesS := Both(Many(FileS), Nested)
  const SettingsS := Both(ConfigS, FilesS)
  const IndexS := Both(Blob, SettingsS)
  const ShallowS := Both(Many(Blob), IndexS)
  const RefsS := Both(Many(RefS), ShallowS)
  const ObjectsS := Both(Many(ObjectS), RefsS)
  const StorageS := Both(Byte, ObjectsS)

  // ---- What a value means when it is loaded --------------------------------------------------------

  function TextOf(v: Value): string { if v.Text? then v.s else "" }

  /** At most twenty bytes, padded with zeros. */
  function HashOf(s: string): string {
    if |s| >= HASH_SIZE then s[..HASH_SIZE] else s + seq(HASH_SIZE - |s|, i => '\0')
  }

  function LoadRef(refs: map<string, Ref>, v: Value): map<string, Ref> {
    match v
    case Pair(Num(t), Pair(Text(name), Text(x))) =>
      if t == 1 then refs[name := HashRef(HashOf(x))]
      else if t == 2 then refs[name := SymbolicRef(x)]
      else refs["" := InvalidRef]
    case _ => refs
  }

  function LoadObject(objects: set<Object>, v: Value): set<Object> {
    match v case Pair(Num(k), Text(c)) => if k < 0 then objects else objects + {Object(k, c)} case _ => objects
  }

  function LoadFile(files: map<string, string>, v: Value): map<string, string> {
    match v case Pair(Text(n), Text(d)) => files[n := d] case _ => files
  }

  function Texts(items: seq<Value>): seq<string> { seq(|items|, i requires 0 <= i < |items| => TextOf(items[i])) }

  function LoadRemote(m: map<string, Remote>, v: Value): map<string, Remote> {
    match v
    case Pair(Text(n), Pair(List(u), Pair(List(f), Num(b)))) => m[n := Remote(Texts(u), Texts(f), b != 0)]
    case _ => m
  }

  function LoadBranch(m: map<string, Branch>, v: Value): map<string, Branch> {
    match v case Pair(Text(n), Pair(Text(r), Text(g))) => m[n := Branch(r, g)] case _ => m
  }

  function LoadSubmodule(m: map<string, Submodule>, v: Value): map<string, Submodule> {
    match v case Pair(Text(n), Pair(Text(p), Pair(Text(u), Text(b)))) => m[n := Submodule(p, u, b)] case _ => m
  }

  function Fold<T>(load: (T, Value) -> T, t: T, items: seq<Value>): T {
    if items == [] then t else load(Fold(load, t, items[..|items| - 1]), items[|items| - 1])
  }

  function Hashes(items: seq<Value>): seq<string> { seq(|items|, i requires 0 <= i < |items| => HashOf(TextOf(items[i]))) }

  function ItemsIn(v: Value): seq<Value> { if v.List? then v.items else [] }

  function TextList(v: Value): seq<string> {
    match v
    case Pair(Text(a), Pair(Text(b), Pair(Text(c), Pair(Text(d), Pair(Text(e), Pair(Text(f), Pair(Text(g), Text(h)))))))) => [a, b, c, d, e, f, g, h]
    case _ => []
  }

  function LoadConfig(c: Config, v: Value): Config {
    match v
    case Pair(Num(bare), Pair(texts, Pair(List(remotes), Pair(List(branches), List(submodules))))) =>
      Config(bare != 0, TextList(texts), Fold(LoadRemote, c.remotes, remotes), Fold(LoadBranch, c.branches, branches),
             Fold(LoadSubmodule, c.submodules, submodules))
    case _ => c
  }

  /** Loads a value on top of a storage. */
  function Load(s: Storage, v: Value): Storage
    decreases v
  {
    match v
    case Pair(Num(algo), Pair(List(objects), Pair(List(refs), Pair(List(shallow), Pair(Text(index), Pair(config, Pair(List(files), List(modules)))))))) =>
      Storage(if algo < 0 then 0 else algo, Fold(LoadObject, s.objects, objects), Fold(LoadRef, s.refs, refs), Hashes(shallow), index,
              LoadConfig(s.config, config), Fold(LoadFile, s.gitFiles, files), LoadModules(s.modules, modules))
    case _ => s
  }

  function LoadModules(m: map<string, Storage>, items: seq<Value>): map<string, Storage>
    decreases items
  {
    if items == [] then m else LoadModule(LoadModules(m, items[..|items| - 1]), items[|items| - 1])
  }

  /** A module of that name is loaded on top of the one there is, or of an empty one. */
  function LoadModule(m: map<string, Storage>, v: Value): map<string, Storage>
    decreases v
  {
    match v
    case Pair(Text(name), w) => m[name := Load(if name in m then m[name] else EmptyStorage, w)]
    case _ => m
  }

  /** Restoring accepts known object kinds, indexes that decode and well-formed git-file names only. */
  predicate Admitted(decodes: string -> bool, v: Value)
    decreases v
  {
    match v
    case Pair(_, Pair(List(objects), Pair(_, Pair(_, Pair(Text(index), Pair(_, Pair(List(files), List(modules)))))))) =>
      && decodes(index)
      && (forall i :: 0 <= i < |objects| ==> objects[i].Pair? && objects[i].fst.Num? && KnownKind(objects[i].fst.n))
      && (forall i :: 0 <= i < |files| ==> files[i].Pair? && GitName(TextOf(files[i].fst)))
      && (forall i :: 0 <= i < |modules| ==> AdmittedModule(decodes, modules[i]))
    case _ => false
  }

  predicate AdmittedModule(decodes: string -> bool, v: Value)
    decreases v
  {
    v.Pair? && Admitted(decodes, v.snd)
  }
}
