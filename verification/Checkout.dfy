/**
 Putting the files of a result into the worktree: removing stale ones, making directories and
 writing the rest one after the other, up to the first that cannot be written.
*/
module Checkout {
  import opened Wrappers
  import opened Leaves
  import opened Trees
  import opened Decide
  import opened Engine

  /** What sits at a path of the worktree. */
  datatype WFile = WFile(link: bool, bytes: string) | Folder

  type FileMap = map<Path, WFile>

  // ---- Directories ----------------------------------------------------------------------------

  function LastSlash(p: Path, n: nat): (i: Option<nat>)
    requires n <= |p|
    ensures i.Some? ==> i.value < n
  {
    if n == 0 then None else if p[n - 1] == '/' then Some(n - 1) else LastSlash(p, n - 1)
  }

  /** The directory of a path; the root has no path of its own. */
  function ParentDir(p: Path): (q: Option<Path>)
    ensures q.Some? ==> |q.value| < |p|
  {
    match LastSlash(p, |p|)
    case Some(i) => if i > 0 then Some(p[..i]) else None
    case None => None
  }

  /** `p` is one of the directories above `k`. */
  predicate Within(k: Path, p: Path)
    decreases |k|
  {
    match ParentDir(k) case None => false case Some(q) => q == p || Within(q, p)
  }

  predicate HasChild(files: FileMap, p: Path) { exists k :: k in files && ParentDir(k) == Some(p) }

  /** Every directory of a path is there. */
  ghost predicate Rooted(files: FileMap) {
    forall k :: k in files ==> match ParentDir(k) case None => true case Some(q) => q in files
  }

  /** And nothing lies below a file. */
  ghost predicate Tidy(files: FileMap) {
    forall k :: k in files ==> match ParentDir(k) case None => true case Some(q) => q in files && files[q].Folder?
  }

  function FileAt(files: FileMap, k: Path): (f: Option<WFile>)
    ensures f.Some? ==> f.value.WFile?
  {
    if k in files && files[k].WFile? then Some(files[k]) else None
  }

  // ---- Single operations ------------------------------------------------------------------------

  /** Removing what cannot be removed, a directory with something in it, is passed over. */
  function Removed(files: FileMap, p: Path): FileMap {
    if p in files && !(files[p].Folder? && HasChild(files, p)) then files - {p} else files
  }

  function RemoveAll(files: FileMap, names: seq<Path>): FileMap {
    if names == [] then files else RemoveAll(Removed(files, names[0]), names[1..])
  }

  /** Makes a directory and those above it that are missing; whatever is there already stays. */
  function WithFolder(files: FileMap, p: Path): FileMap
    decreases |p|
  {
    if p in files then files else WithParents(files, p)[p := Folder]
  }

  function WithParents(files: FileMap, p: Path): FileMap
    decreases |p|, 0
  {
    match ParentDir(p) case None => files case Some(q) => WithFolder(files, q)
  }

  /** Replaces what is at a path, unless that is a directory with something in it. */
  function Put(files: FileMap, p: Path, f: WFile): (FileMap, Option<MergeError>) {
    var gone := Removed(files, p);
    if p in gone then (gone, Some(IsDir)) else (WithParents(gone, p)[p := f], None)
  }

  function BlobFile(repo: Repo, leaf: Leaf, mode: nat): Result<Option<WFile>, MergeError> {
    match BlobBytes(repo, leaf.hash)
    case None => Err(ObjectNotFound)
    case Some(bytes) => Ok(Some(WFile(mode == SYMLINK, bytes)))
  }

  /** What is written for one output path; a missing blob is an error. */
  function FileFor(repo: Repo, p: OutPath): Result<Option<WFile>, MergeError> {
    if !p.writeFile then Ok(None)
    else if p.marker.Some? then Ok(Some(WFile(false, p.marker.value)))
    else if p.resolved.Some? then
      if p.resolved.value.mode == SUBMODULE then Ok(None) else BlobFile(repo, p.resolved.value, p.resolved.value.mode)
    else if p.work.Some? then BlobFile(repo, p.work.value, if p.workMode == 0 then p.work.value.mode else p.workMode)
    else Ok(None)
  }

  function WriteOne(repo: Repo, files: FileMap, p: OutPath): (FileMap, Option<MergeError>) {
    if !p.writeFile then (files, None)
    else
      var ready := WithParents(files, p.path);
      match FileFor(repo, p)
      case Err(e) => (ready, Some(e))
      case Ok(None) => (ready, None)
      case Ok(Some(f)) => Put(ready, p.path, f)
  }

  /** The files after writing the output paths in order, up to the first failure. */
  function WriteAll(repo: Repo, files: FileMap, paths: seq<OutPath>): (FileMap, Option<MergeError>) {
    if paths == [] then (files, None)
    else
      var before := WriteAll(repo, files, paths[..|paths| - 1]);
      if before.1.Some? then before else WriteOne(repo, before.0, paths[|paths| - 1])
  }

  lemma {:induction false} WriteStops(repo: Repo, files: FileMap, paths: seq<OutPath>, i: nat)
    requires i <= |paths| && WriteAll(repo, files, paths[..i]).1.Some?
    ensures WriteAll(repo, files, paths) == WriteAll(repo, files, paths[..i])
  {
    hide WriteOne;
    if i == |paths| {
      assert paths[..i] == paths;
    } else {
      assert paths[..|paths| - 1][..i] == paths[..i];
      WriteStops(repo, files, paths[..|paths| - 1], i);
    }
  }

  // ---- Facts about directories ------------------------------------------------------------------

  lemma {:induction false} WithinShorter(k: Path, p: Path)
    requires Within(k, p)
    ensures |p| < |k|
    decreases |k|
  {
    var q := ParentDir(k).value;
    if q != p { WithinShorter(q, p); }
  }

  lemma {:induction false} WithinChain(k: Path, c: Path, p: Path)
    requires Within(k, c) && ParentDir(c) == Some(p)
    ensures Within(k, p)
    decreases |k|
  {
    var q := ParentDir(k).value;
    if q != c { WithinChain(q, c, p); }
  }

  /** On the way down to something there are only directories that are there too. */
  lemma {:induction false} OnTheWay(files: FileMap, k: Path, p: Path)
    requires Rooted(files) && k in files && Within(k, p)
    ensures p in files && HasChild(files, p)
    decreases |k|
  {
    var q := ParentDir(k).value;
    if q != p { OnTheWay(files, q, p); }
  }

  /** What making a directory adds. */
  lemma {:induction false} FolderMade(files: FileMap, p: Path)
    requires Rooted(files)
    ensures Rooted(WithFolder(files, p))
    ensures forall k :: k in WithFolder(files, p) <==> k in files || k == p || Within(p, k)
    ensures forall k :: k in WithFolder(files, p) ==> WithFolder(files, p)[k] == if k in files then files[k] else Folder
    decreases |p|, 1
  {
    if p in files {
      forall k | Within(p, k) ensures k in files { OnTheWay(files, p, k); }
    } else {
      ParentsMade(files, p);
    }
  }

  lemma {:induction false} ParentsMade(files: FileMap, p: Path)
    requires Rooted(files)
    ensures Rooted(WithParents(files, p)) && match ParentDir(p) { case None => true case Some(q) => q in WithParents(files, p) }
    ensures forall k :: k in WithParents(files, p) <==> k in files || Within(p, k)
    ensures forall k :: k in WithParents(files, p) ==> WithParents(files, p)[k] == if k in files then files[k] else Folder
    decreases |p|, 0
  {
    if ParentDir(p).Some? { FolderMade(files, ParentDir(p).value); }
  }

  /** Putting a file replaces what is there, or fails. */
  lemma PutIs(files: FileMap, p: Path, f: WFile)
    requires match ParentDir(p) case None => true case Some(q) => q in files
    ensures Put(files, p, f) == if p in files && files[p].Folder? && HasChild(files, p) then (files, Some(IsDir)) else (files[p := f], None)
  {
    if !(p in files && files[p].Folder? && HasChild(files, p)) {
      var gone := Removed(files, p);
      assert WithParents(gone, p) == gone;
      assert gone[p := f] == files[p := f];
    }
  }

  // ---- Removing stale files --------------------------------------------------------------------

  lemma {:induction false} RemovedKeeps(files: FileMap, names: seq<Path>, k: Path)
    ensures k in RemoveAll(files, names) ==> k in files && RemoveAll(files, names)[k] == files[k]
    ensures k in files && k !in names ==> k in RemoveAll(files, names)
    ensures k in names && k in RemoveAll(files, names) ==> files[k].Folder?
    decreases |names|
  {
    if names != [] {
      RemovedKeeps(Removed(files, names[0]), names[1..], k);
      assert names == [names[0]] + names[1..];
      if k == names[0] && k in RemoveAll(files, names) { assert k in Removed(files, k); }
    }
  }

  lemma {:induction false} RemovedTidy(files: FileMap, names: seq<Path>)
    requires Tidy(files)
    ensures Tidy(RemoveAll(files, names))
    decreases |names|
  {
    if names != [] {
      var p := names[0];
      assert Tidy(Removed(files, p)) by {
        forall k | k in files && ParentDir(k) == Some(p) ensures Removed(files, p) == files { assert HasChild(files, p); }
      }
      RemovedTidy(Removed(files, p), names[1..]);
    }
  }

  lemma TidyRooted(files: FileMap)
    requires Tidy(files)
    ensures Rooted(files)
  {
  }

  lemma RemovedFile(files: FileMap, names: seq<Path>, k: Path)
    ensures FileAt(RemoveAll(files, names), k) == if k in names then None else FileAt(files, k)
  {
    RemovedKeeps(files, names, k);
  }

  /** Making directories replaces no file. */
  lemma {:induction false} ParentsFile(files: FileMap, p: Path, k: Path)
    ensures FileAt(WithParents(files, p), k) == FileAt(files, k)
    decreases |p|
  {
    if ParentDir(p).Some? {
      var q := ParentDir(p).value;
      ParentsFile(files, q, k);
    }
  }

  // ---- When writing gets stuck ----------------------------------------------------------------------

  /** Something is written wherever a file is asked for. */
  predicate Sound(p: OutPath) {
    p.writeFile ==> p.marker.Some? || (p.resolved.Some? && p.resolved.value.mode != SUBMODULE) || (p.resolved.None? && p.work.Some?)
  }

  ghost predicate AllSound(paths: seq<OutPath>) { forall i :: 0 <= i < |paths| ==> Sound(paths[i]) }

  lemma SoundWrites(repo: Repo, p: OutPath)
    requires Sound(p) && p.writeFile
    ensures FileFor(repo, p).Ok? ==> FileFor(repo, p).value.Some? && FileFor(repo, p).value.value.WFile?
    ensures FileFor(repo, p).Err? ==> FileFor(repo, p).error == ObjectNotFound
  {
  }

  ghost predicate WrittenBefore(paths: seq<OutPath>, n: nat, k: Path) {
    exists j :: 0 <= j < n && j < |paths| && paths[j].writeFile && paths[j].path == k
  }

  ghost predicate MadeBefore(paths: seq<OutPath>, n: nat, k: Path) {
    exists j :: 0 <= j < n && j < |paths| && paths[j].writeFile && Within(paths[j].path, k)
  }

  /** A directory with something in it is in the way: it was there, or files below it were
      written before. */
  ghost predicate Blocked(files: FileMap, paths: seq<OutPath>, i: nat)
    requires i < |paths|
  {
    && FileAt(files, paths[i].path).None? && !WrittenBefore(paths, i, paths[i].path)
    && (HasChild(files, paths[i].path) || MadeBefore(paths, i, paths[i].path))
  }

  /** The file is missing from the store or a directory is in the way. */
  ghost predicate StuckAt(repo: Repo, files: FileMap, paths: seq<OutPath>, i: nat) {
    i < |paths| && paths[i].writeFile && (FileFor(repo, paths[i]).Err? || Blocked(files, paths, i))
  }

  ghost predicate FirstStuck(repo: Repo, files: FileMap, paths: seq<OutPath>, i: nat) {
    StuckAt(repo, files, paths, i) && forall j :: 0 <= j < i ==> !StuckAt(repo, files, paths, j)
  }

  /** The last of the first `n` output paths that writes its path. */
  ghost predicate LastAt(paths: seq<OutPath>, n: nat, j: int) {
    && 0 <= j < n && j < |paths| && paths[j].writeFile
    && forall m :: j < m < n && m < |paths| && paths[m].writeFile ==> paths[m].path != paths[j].path
  }

  /** `files` has what the first `n` output paths write. */
  ghost predicate Shows(repo: Repo, paths: seq<OutPath>, n: nat, files: FileMap) {
    forall j :: LastAt(paths, n, j) ==> FileFor(repo, paths[j]) == Ok(Get(files, paths[j].path))
  }

  lemma ShowsAt(repo: Repo, paths: seq<OutPath>, n: nat, files: FileMap, j: nat)
    requires Shows(repo, paths, n, files) && LastAt(paths, n, j)
    ensures j < n && j < |paths| && paths[j].writeFile && FileFor(repo, paths[j]) == Ok(Get(files, paths[j].path))
  {
  }

  lemma {:induction false} SomeLast(paths: seq<OutPath>, n: nat, k: Path) returns (j: nat)
    requires n <= |paths| && WrittenBefore(paths, n, k)
    ensures LastAt(paths, n, j) && paths[j].path == k
    decreases n
  {
    if paths[n - 1].writeFile && paths[n - 1].path == k { j := n - 1; } else { j := SomeLast(paths, n - 1, k); }
  }

  /** The files after the first `n` output paths were written. */
  ghost predicate Laid(repo: Repo, files: FileMap, paths: seq<OutPath>, n: nat, after: FileMap) {
    && Rooted(after)
    && (forall k :: k in after <==> k in files || WrittenBefore(paths, n, k) || MadeBefore(paths, n, k))
    && Shows(repo, paths, n, after)
    && (forall k :: k in after && !WrittenBefore(paths, n, k) ==> after[k] == if k in files then files[k] else Folder)
  }

  lemma LaidStart(repo: Repo, files: FileMap, paths: seq<OutPath>)
    requires Rooted(files)
    ensures Laid(repo, files, paths, 0, files)
  {
  }

  /** What is at the next path, once its directories are made. */
  lemma ReadyAt(repo: Repo, files: FileMap, paths: seq<OutPath>, n: nat, after: FileMap)
    requires n < |paths| && Laid(repo, files, paths, n, after) && AllSound(paths)
    ensures var p, ready := paths[n].path, WithParents(after, paths[n].path);
            if WrittenBefore(paths, n, p) then p in ready && ready[p].WFile?
            else (p in ready <==> p in files || MadeBefore(paths, n, p)) && (p in ready ==> ready[p] == if p in files then files[p] else Folder)
  {
    hide Within, MadeBefore, WrittenBefore, Rooted, WithParents, FileFor, LastAt, Shows;
    var p := paths[n].path;
    LaidRooted(repo, files, paths, n, after);
    ParentsMade(after, p);
    if Within(p, p) { WithinShorter(p, p); }
    if WrittenBefore(paths, n, p) {
      var j := SomeLast(paths, n, p);
      ShowsAt(repo, paths, n, after, j);
      SoundWrites(repo, paths[j]);
    }
  }

  lemma ChildNow(repo: Repo, files: FileMap, paths: seq<OutPath>, n: nat, after: FileMap)
    requires n < |paths| && Laid(repo, files, paths, n, after)
    ensures HasChild(WithParents(after, paths[n].path), paths[n].path) <==> HasChild(files, paths[n].path) || MadeBefore(paths, n, paths[n].path)
  {
    hide Within, Rooted, WithParents;
    var p, ready := paths[n].path, WithParents(after, paths[n].path);
    LaidRooted(repo, files, paths, n, after);
    ParentsMade(after, p);
    if HasChild(ready, p) {
      var c :| c in ready && ParentDir(c) == Some(p);
      if Within(p, c) { WithinShorter(p, c); }
      if c !in files { ChildMade(repo, files, paths, n, after, c, p); }
    }
    if j :| 0 <= j < n && paths[j].writeFile && Within(paths[j].path, p) {
      assert WrittenBefore(paths, n, paths[j].path);
      OnTheWay(after, paths[j].path, p);
      ChildStays(after, ready, p);
    }
    if HasChild(files, p) { ChildStays(files, ready, p); }
  }

  lemma ChildMade(repo: Repo, files: FileMap, paths: seq<OutPath>, n: nat, after: FileMap, c: Path, p: Path)
    requires Laid(repo, files, paths, n, after) && c in after && c !in files && ParentDir(c) == Some(p)
    ensures MadeBefore(paths, n, p)
  {
    if WrittenBefore(paths, n, c) {
      var j :| 0 <= j < n && j < |paths| && paths[j].writeFile && paths[j].path == c;
      assert Within(paths[j].path, p);
    } else {
      var j :| 0 <= j < n && j < |paths| && paths[j].writeFile && Within(paths[j].path, c);
      WithinChain(paths[j].path, c, p);
    }
  }

  /** Whether the next path is blocked can be read off the files before anything was written. */
  lemma BlockedNow(repo: Repo, files: FileMap, paths: seq<OutPath>, n: nat, after: FileMap)
    requires n < |paths| && Laid(repo, files, paths, n, after) && AllSound(paths) && Rooted(files)
    ensures var p, ready := paths[n].path, WithParents(after, paths[n].path);
            p in ready && ready[p].Folder? && HasChild(ready, p) <==> Blocked(files, paths, n)
  {
    hide Laid, Within, WithParents, HasChild, Rooted, AllSound, WrittenBefore, MadeBefore;
    ReadyAt(repo, files, paths, n, after);
    ChildNow(repo, files, paths, n, after);
    if HasChild(files, paths[n].path) { RootedChild(files, paths[n].path); }
  }

  lemma ChildStays(files: FileMap, more: FileMap, p: Path)
    requires HasChild(files, p) && forall k :: k in files ==> k in more
    ensures HasChild(more, p)
  {
    var k :| k in files && ParentDir(k) == Some(p);
    assert k in more;
  }

  lemma RootedChild(files: FileMap, p: Path)
    requires Rooted(files) && HasChild(files, p)
    ensures p in files
  {
  }

  /** One more path that is not stuck. */
  lemma LaidStep(repo: Repo, files: FileMap, paths: seq<OutPath>, n: nat, after: FileMap)
    requires n < |paths| && Laid(repo, files, paths, n, after) && AllSound(paths) && Rooted(files)
    requires !StuckAt(repo, files, paths, n)
    ensures var w := WriteOne(repo, after, paths[n]); w.1.None? && Laid(repo, files, paths, n + 1, w.0)
  {
    var p := paths[n].path;
    if paths[n].writeFile {
      hide Blocked, Put, Rooted, FileFor, Laid;
      var ready := WithParents(after, p);
      SoundWrites(repo, paths[n]);
      BlockedNow(repo, files, paths, n, after);
      ParentsMade(after, p);
      PutIs(ready, p, FileFor(repo, paths[n]).value.value);
      LaidPut(repo, files, paths, n, after, ready, FileFor(repo, paths[n]).value.value);
    } else {
      BeforeStep(paths, n);
      ShowsSkip(repo, paths, n, after);
    }
  }

  lemma LaidPut(repo: Repo, files: FileMap, paths: seq<OutPath>, n: nat, after: FileMap, ready: FileMap, f: WFile)
    requires n < |paths| && Laid(repo, files, paths, n, after) && paths[n].writeFile && FileFor(repo, paths[n]) == Ok(Some(f))
    requires Rooted(ready) && match ParentDir(paths[n].path) { case None => true case Some(q) => q in ready }
    requires forall k :: k in ready <==> k in after || Within(paths[n].path, k)
    requires forall k :: k in ready ==> ready[k] == if k in after then after[k] else Folder
    ensures Laid(repo, files, paths, n + 1, ready[paths[n].path := f])
  {
    hide FileFor, Within, WrittenBefore, MadeBefore, Shows;
    var p, last := paths[n].path, ready[paths[n].path := f];
    BeforeStep(paths, n);
    ShowsStep(repo, paths, n, after, last);
    assert Rooted(last);
  }

  /** Writing one more file keeps what the others wrote. */
  lemma ShowsStep(repo: Repo, paths: seq<OutPath>, n: nat, files: FileMap, more: FileMap)
    requires n < |paths| && Shows(repo, paths, n, files) && paths[n].writeFile && FileFor(repo, paths[n]) == Ok(Get(more, paths[n].path))
    requires forall k :: WrittenBefore(paths, n, k) && k != paths[n].path ==> Get(more, k) == Get(files, k)
    ensures Shows(repo, paths, n + 1, more)
  {
    hide FileFor;
    forall j | LastAt(paths, n + 1, j) ensures FileFor(repo, paths[j]) == Ok(Get(more, paths[j].path)) {
      if j < n {
        WrittenAt(paths, n, j);
        ShowsAt(repo, paths, n, files, j);
      }
    }
  }

  lemma ShowsSkip(repo: Repo, paths: seq<OutPath>, n: nat, files: FileMap)
    requires n < |paths| && Shows(repo, paths, n, files) && !paths[n].writeFile
    ensures Shows(repo, paths, n + 1, files)
  {
    hide FileFor;
    forall j | LastAt(paths, n + 1, j) ensures FileFor(repo, paths[j]) == Ok(Get(files, paths[j].path)) {
      ShowsAt(repo, paths, n, files, j);
    }
  }

  lemma WrittenAt(paths: seq<OutPath>, n: nat, j: nat)
    requires j < n && j < |paths| && paths[j].writeFile
    ensures WrittenBefore(paths, n, paths[j].path)
  {
  }

  lemma BeforeStep(paths: seq<OutPath>, n: nat)
    requires n < |paths|
    ensures forall k :: WrittenBefore(paths, n + 1, k) <==> WrittenBefore(paths, n, k) || (paths[n].writeFile && k == paths[n].path)
    ensures forall k :: MadeBefore(paths, n + 1, k) <==> MadeBefore(paths, n, k) || (paths[n].writeFile && Within(paths[n].path, k))
  {
    hide Within;
    forall k | WrittenBefore(paths, n, k) || (paths[n].writeFile && k == paths[n].path) ensures WrittenBefore(paths, n + 1, k) {
      var j := if paths[n].writeFile && k == paths[n].path then n else var j :| 0 <= j < n && paths[j].writeFile && paths[j].path == k; j;
      assert 0 <= j < n + 1 && paths[j].writeFile && paths[j].path == k;
    }
    forall k | MadeBefore(paths, n, k) || (paths[n].writeFile && Within(paths[n].path, k)) ensures MadeBefore(paths, n + 1, k) {
      var j := if paths[n].writeFile && Within(paths[n].path, k) then n else var j :| 0 <= j < n && paths[j].writeFile && Within(paths[j].path, k); j;
      assert 0 <= j < n + 1 && paths[j].writeFile && Within(paths[j].path, k);
    }
  }

  /** As long as nothing is stuck, everything is written. */
  lemma {:induction false} AllLaid(repo: Repo, files: FileMap, paths: seq<OutPath>, n: nat)
    requires n <= |paths| && Rooted(files) && AllSound(paths)
    requires forall j :: 0 <= j < n ==> !StuckAt(repo, files, paths, j)
    ensures var w := WriteAll(repo, files, paths[..n]); w.1.None? && Laid(repo, files, paths, n, w.0)
  {
    hide StuckAt, Laid, WriteOne, AllSound;
    if n == 0 {
      LaidStart(repo, files, paths);
    } else {
      AllLaid(repo, files, paths, n - 1);
      assert paths[..n][..n - 1] == paths[..n - 1];
      LaidStep(repo, files, paths, n - 1, WriteAll(repo, files, paths[..n - 1]).0);
    }
  }

  /** The error met at a stuck path. */
  function ErrorAt(repo: Repo, p: OutPath): MergeError { match FileFor(repo, p) case Err(e) => e case Ok(_) => IsDir }

  /** Writing stops at the first stuck path, after making the directories for it. */
  lemma StopsAtFirst(repo: Repo, files: FileMap, paths: seq<OutPath>, i: nat)
    requires Rooted(files) && AllSound(paths) && FirstStuck(repo, files, paths, i)
    ensures var before := WriteAll(repo, files, paths[..i]);
            && before.1.None? && Laid(repo, files, paths, i, before.0)
            && WriteAll(repo, files, paths) == (WithParents(before.0, paths[i].path), Some(ErrorAt(repo, paths[i])))
  {
    hide Laid, Put, Blocked;
    AllLaid(repo, files, paths, i);
    var before := WriteAll(repo, files, paths[..i]).0;
    assert paths[..i + 1][..i] == paths[..i];
    SoundWrites(repo, paths[i]);
    BlockedNow(repo, files, paths, i, before);
    LaidRooted(repo, files, paths, i, before);
    ParentsMade(before, paths[i].path);
    if FileFor(repo, paths[i]).Ok? { PutIs(WithParents(before, paths[i].path), paths[i].path, FileFor(repo, paths[i]).value.value); }
    WriteStops(repo, files, paths, i + 1);
  }

  lemma LaidRooted(repo: Repo, files: FileMap, paths: seq<OutPath>, n: nat, after: FileMap)
    requires Laid(repo, files, paths, n, after)
    ensures Rooted(after)
  {
  }

  lemma SomeFirst(repo: Repo, files: FileMap, paths: seq<OutPath>, n: nat) returns (i: nat)
    requires StuckAt(repo, files, paths, n)
    ensures i <= n && FirstStuck(repo, files, paths, i)
    decreases n
  {
    if j :| 0 <= j < n && StuckAt(repo, files, paths, j) { i := SomeFirst(repo, files, paths, j); } else { i := n; }
  }

  /** Writing fails exactly when some path is stuck. */
  lemma FailsExactly(repo: Repo, files: FileMap, paths: seq<OutPath>)
    requires Rooted(files) && AllSound(paths)
    ensures WriteAll(repo, files, paths).1.Some? <==> exists i :: StuckAt(repo, files, paths, i)
    ensures (forall i :: !StuckAt(repo, files, paths, i)) ==> Laid(repo, files, paths, |paths|, WriteAll(repo, files, paths).0)
  {
    hide StuckAt, Laid;
    assert paths[..|paths|] == paths;
    if n :| StuckAt(repo, files, paths, n) {
      var i := SomeFirst(repo, files, paths, n);
      StopsAtFirst(repo, files, paths, i);
    } else {
      AllLaid(repo, files, paths, |paths|);
    }
  }

  // ---- What a checkout that stops has changed -----------------------------------------------------------

  /** What was written before is as it was, and so is everything once stale files are gone and the
      directories for the stuck path are made. */
  ghost predicate Untouched(repo: Repo, files: FileMap, stale: seq<Path>, paths: seq<OutPath>, i: nat)
    requires i < |paths|
  {
    && Shows(repo, paths, i, files)
    && WithParents(RemoveAll(files, stale), paths[i].path) == files
  }

  ghost predicate KeepsWritten(stale: seq<Path>, paths: seq<OutPath>) {
    forall j :: 0 <= j < |paths| && paths[j].writeFile ==> paths[j].path !in stale
  }

  /** A checkout that stops has left the files alone exactly when nothing was touched before. */
  lemma UntouchedExactly(repo: Repo, files: FileMap, stale: seq<Path>, paths: seq<OutPath>, i: nat)
    requires Tidy(files) && AllSound(paths) && KeepsWritten(stale, paths)
    requires FirstStuck(repo, RemoveAll(files, stale), paths, i)
    ensures WriteAll(repo, RemoveAll(files, stale), paths).0 == files <==> Untouched(repo, files, stale, paths, i)
  {
    hide AllSound, FirstStuck, Laid, Tidy, Rooted, Shows;
    var left := RemoveAll(files, stale);
    RemovedTidy(files, stale);
    TidyRooted(left);
    assert i < |paths| by { StuckIndex(repo, left, paths, i); }
    StopsAtFirst(repo, left, paths, i);
    var before := WriteAll(repo, left, paths[..i]).0;
    LaidRooted(repo, left, paths, i, before);
    forall k ensures k in left ==> k in files && left[k] == files[k] { RemovedKeeps(files, stale, k); }
    forall j | 0 <= j < i && paths[j].writeFile && paths[j].path in files ensures paths[j].path in left {
      RemovedKeeps(files, stale, paths[j].path);
    }
    SameOutcome(repo, files, left, paths, i, before);
  }

  lemma StuckIndex(repo: Repo, files: FileMap, paths: seq<OutPath>, i: nat)
    requires FirstStuck(repo, files, paths, i)
    ensures i < |paths| && StuckAt(repo, files, paths, i)
  {
  }

  lemma SameOutcome(repo: Repo, files: FileMap, left: FileMap, paths: seq<OutPath>, i: nat, before: FileMap)
    requires i < |paths| && Laid(repo, left, paths, i, before) && Rooted(left)
    requires forall k :: k in left ==> k in files && left[k] == files[k]
    requires forall j :: 0 <= j < i && paths[j].writeFile && paths[j].path in files ==> paths[j].path in left
    ensures WithParents(before, paths[i].path) == files <==>
            && Shows(repo, paths, i, files)
            && WithParents(left, paths[i].path) == files
  {
    hide FileFor, Within, WithParents, Laid, Shows;
    LaidRooted(repo, left, paths, i, before);
    ParentsMade(before, paths[i].path);
    ParentsMade(left, paths[i].path);
    if WithParents(before, paths[i].path) == files {
      WrittenKept(repo, files, left, paths, i, before);
      OnlyLeft(repo, left, paths, i, before);
      SameLeft(repo, files, left, paths, i, before);
    } else if Shows(repo, paths, i, files) {
      InPlace(repo, files, left, paths, i, before);
      OnlyLeft(repo, left, paths, i, before);
      SameLeft(repo, files, left, paths, i, before);
    }
  }

  lemma WrittenKept(repo: Repo, files: FileMap, left: FileMap, paths: seq<OutPath>, i: nat, before: FileMap)
    requires i < |paths| && Laid(repo, left, paths, i, before)
    requires forall k :: k in before ==> k in files && files[k] == before[k]
    requires forall j :: 0 <= j < i && paths[j].writeFile && paths[j].path in files ==> paths[j].path in left
    ensures forall j :: 0 <= j < i && paths[j].writeFile ==> paths[j].path in left
    ensures Shows(repo, paths, i, files)
  {
    hide FileFor, Within, Shows;
    forall k | WrittenBefore(paths, i, k) ensures k in before {}
    forall j | 0 <= j < i && paths[j].writeFile ensures paths[j].path in before { WrittenAt(paths, i, j); }
    ShowsSame(repo, paths, i, before, files);
  }

  lemma ShowsSame(repo: Repo, paths: seq<OutPath>, n: nat, files: FileMap, more: FileMap)
    requires Shows(repo, paths, n, files) && forall k :: WrittenBefore(paths, n, k) ==> Get(more, k) == Get(files, k)
    ensures Shows(repo, paths, n, more)
  {
    hide FileFor;
    forall j | LastAt(paths, n, j) ensures FileFor(repo, paths[j]) == Ok(Get(more, paths[j].path)) {
      WrittenAt(paths, n, j);
      ShowsAt(repo, paths, n, files, j);
    }
  }

  lemma InPlace(repo: Repo, files: FileMap, left: FileMap, paths: seq<OutPath>, i: nat, before: FileMap)
    requires i < |paths| && Laid(repo, left, paths, i, before)
    requires forall j :: 0 <= j < i && paths[j].writeFile && paths[j].path in files ==> paths[j].path in left
    requires Shows(repo, paths, i, files)
    ensures forall j :: 0 <= j < i && paths[j].writeFile ==> paths[j].path in left
  {
    hide FileFor, Within, Shows, LastAt;
    forall j | 0 <= j < i && paths[j].writeFile ensures paths[j].path in files {
      WrittenAt(paths, i, j);
      var m := SomeLast(paths, i, paths[j].path);
      assert paths[j].path in before;
      ShowsAt(repo, paths, i, before, m);
      ShowsAt(repo, paths, i, files, m);
    }
  }

  /** What was written was in place, and nothing else changed. */
  lemma SameLeft(repo: Repo, files: FileMap, left: FileMap, paths: seq<OutPath>, i: nat, before: FileMap)
    requires i < |paths| && before.Keys == left.Keys
    requires forall k :: k in left ==> k in files && left[k] == files[k]
    requires forall k :: k in left && !WrittenBefore(paths, i, k) ==> before[k] == left[k]
    requires Shows(repo, paths, i, before)
    requires Shows(repo, paths, i, files)
    ensures before == left
  {
    hide FileFor, WrittenBefore, LastAt, Shows;
    forall k | k in left ensures before[k] == left[k] {
      if WrittenBefore(paths, i, k) {
        var j := SomeLast(paths, i, k);
        ShowsAt(repo, paths, i, before, j);
        ShowsAt(repo, paths, i, files, j);
        assert Get(files, k) == Get(before, k);
      }
    }
  }

  /** When all that was written was there before, only contents can differ. */
  lemma OnlyLeft(repo: Repo, left: FileMap, paths: seq<OutPath>, i: nat, before: FileMap)
    requires i <= |paths| && Laid(repo, left, paths, i, before) && Rooted(left)
    requires forall j :: 0 <= j < i && paths[j].writeFile ==> paths[j].path in left
    ensures before.Keys == left.Keys
    ensures forall k :: k in left && !WrittenBefore(paths, i, k) ==> before[k] == left[k]
    ensures Shows(repo, paths, i, before)
  {
    hide FileFor, Shows;
    forall k | k in before ensures k in left {
      if MadeBefore(paths, i, k) {
        var j :| 0 <= j < i && j < |paths| && paths[j].writeFile && Within(paths[j].path, k);
        OnTheWay(left, paths[j].path, k);
      }
    }
  }
}
