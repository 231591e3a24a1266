/** Files of a tree by path, and the parts of the object store that merging looks at. */
module Leaves {
  import opened Wrappers

  type Path = string

  const DIR := 0x4000         // octal 040000
  const REGULAR := 0x81A4     // octal 100644
  const DEPRECATED := 0x81B4  // octal 100664
  const EXECUTABLE := 0x81ED  // octal 100755
  const SYMLINK := 0xA000     // octal 120000
  const SUBMODULE := 0xE000   // octal 160000

  /** Hashing is injective, so a hash is the object it names. */
  datatype Hash = Zero | Blob(bytes: string) | Tree(entries: seq<TreeEntry>) | Commit(id: string)

  datatype TreeEntry = TreeEntry(name: string, mode: nat, hash: Hash)

  datatype Leaf = Leaf(mode: nat, hash: Hash)

  type LeafMap = map<Path, Leaf>

  function Get<K, V>(m: map<K, V>, k: K): Option<V> { if k in m then Some(m[k]) else None }

  predicate Below(k: Path, p: Path) { |k| > |p| + 1 && p <= k && k[|p|] == '/' }

  /** No path is a directory of another. */
  ghost predicate PrefixFree(ps: set<Path>) { forall p, k :: p in ps && k in ps ==> !Below(k, p) }

  // ---- Walking a hash map ---------------------------------------------------------------------

  ghost predicate Enumerates(s: seq<Path>, ps: set<Path>) {
    && (forall i, j :: 0 <= i < j < |s| ==> s[i] != s[j])
    && forall p :: p in s <==> p in ps
  }

  ghost function Members<T>(s: seq<T>): set<T> { set x | x in s }

  ghost function Listing(ps: set<Path>): (s: seq<Path>)
    ensures Enumerates(s, ps)
  {
    if ps == {} then []
    else
      var p :| p in ps;
      [p] + Listing(ps - {p})
  }

  /** The order in which a hash map yields its keys: fixed, but otherwise unknown. */
  type Order = f: set<Path> -> seq<Path> | forall ps :: Enumerates(f(ps), ps) ghost witness Listing

  // ---- The repository ----------------------------------------------------------------------------

  datatype TextMerge = TextMerge(clean: bool, bytes: string)

  /** What merging asks of its surroundings: the blobs and trees that are stored, the order of
      hash maps, content similarity, text merging, what an attributes file says of a path, and
      ancestry.  The text merge and its options are one parameter. */
  datatype Repo = Repo(
    stored: set<Hash>,
    order: Order,
    similarity: (string, string) -> Option<int>,
    mergeText: (string, string, string) -> TextMerge,
    nonText: (Option<string>, Path) -> bool,
    ancestor: (Hash, Hash) -> Option<bool>)

  function BlobBytes(repo: Repo, h: Hash): Option<string> {
    if h.Blob? && h in repo.stored then Some(h.bytes) else None
  }

  /** The repository after more objects were stored. */
  function Stores(repo: Repo, hs: set<Hash>): Repo { repo.(stored := repo.stored + hs) }

  /** `more` differs from `repo` at most in objects stored since. */
  ghost predicate Extends(repo: Repo, more: Repo) {
    more == repo.(stored := more.stored) && repo.stored <= more.stored
  }
}
