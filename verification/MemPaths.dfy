/** Absolute paths as keys of the in-memory filesystem. */
module MemPaths {
  import opened Wrappers
  import opened Paths

  /** Starts with a slash, ends with none, no slash follows another. */
  predicate AbsPath(p: string) {
    && p != "" && p[0] == '/' && (|p| > 1 ==> p[|p| - 1] != '/')
    && forall i :: 0 <= i < |p| - 1 && p[i] == '/' ==> p[i + 1] != '/'
  }

  predicate IsName(b: string) { b != "" && '/' !in b }

  function LastSlash(p: string, i: nat): (r: nat)
    requires i < |p|
    ensures r <= i && (r > 0 ==> p[r] == '/') && forall j :: r < j <= i ==> p[j] != '/'
  {
    if i == 0 || p[i] == '/' then i else LastSlash(p, i - 1)
  }

  function ParentOf(p: string): string {
    if |p| <= 1 then "/"
    else
      var i := LastSlash(p, |p| - 1);
      if i == 0 then "/" else p[..i]
  }

  function BaseOf(p: string): string {
    if |p| <= 1 then p else p[LastSlash(p, |p| - 1) + 1..]
  }

  function ChildPath(dir: string, base: string): string {
    (if dir == "/" then "" else dir) + "/" + base
  }

  method FindParent(p: string) returns (r: string)
    ensures r == ParentOf(p)
  {
    if |p| <= 1 { return "/"; }
    var i := |p| - 1;
    while i > 0 && p[i] != '/'
      invariant 0 <= i < |p| && LastSlash(p, |p| - 1) == LastSlash(p, i)
    {
      i := i - 1;
    }
    if i == 0 { return "/"; }
    r := p[..i];
  }

  method FindBase(p: string) returns (r: string)
    ensures r == BaseOf(p)
  {
    if |p| <= 1 { return p; }
    var i := |p| - 1;
    while i > 0 && p[i] != '/'
      invariant 0 <= i < |p| && LastSlash(p, |p| - 1) == LastSlash(p, i)
    {
      i := i - 1;
    }
    r := p[i + 1..];
  }

  /** Every absolute path but the root is the child of its parent. */
  lemma ParentChild(p: string)
    requires AbsPath(p) && p != "/"
    ensures AbsPath(ParentOf(p)) && IsName(BaseOf(p)) && ChildPath(ParentOf(p), BaseOf(p)) == p
    ensures |ParentOf(p)| < |p| && p != ParentOf(p)
  {
  }

  lemma ChildParent(dir: string, base: string)
    requires AbsPath(dir) && IsName(base)
    ensures var p := ChildPath(dir, base);
            AbsPath(p) && p != "/" && ParentOf(p) == dir && BaseOf(p) == base && |p| > |dir|
  {
    var lead := if dir == "/" then "" else dir;
    var p := ChildPath(dir, base);
    var i := LastSlash(p, |p| - 1);
    assert p[|lead|] == '/' && p[|lead| + 1..] == base && p[..|lead|] == lead;
    assert forall j :: |lead| < j < |p| ==> p[j] == base[j - |lead| - 1] && p[j] in base;
    assert i == |lead|;
  }

  // ---- Moving a subtree ---------------------------------------------------------------------

  /** `k` is `top` or lies below it. */
  predicate Under(k: string, top: string) {
    k == top || (|k| > |top| && top <= k && k[|top|] == '/')
  }

  function NewKey(k: string, before: string, after: string): string
    requires |before| <= |k|
  {
    after + k[|before|..]
  }

  lemma UnderParent(k: string, top: string)
    requires AbsPath(k) && AbsPath(top) && top != "/" && k != "/"
    ensures Under(k, top) && k != top ==> Under(ParentOf(k), top)
    ensures Under(ParentOf(k), top) ==> Under(k, top) && k != top
  {
  }

  /** Moving a subtree moves each parent along with its children and keeps their names. */
  lemma NewKeyParent(k: string, before: string, after: string)
    requires AbsPath(k) && AbsPath(before) && AbsPath(after) && before != "/" && after != "/" && Under(k, before)
    ensures AbsPath(NewKey(k, before, after)) && NewKey(k, before, after) != "/" && Under(NewKey(k, before, after), after)
    ensures k != before ==> |before| <= |ParentOf(k)| && ParentOf(NewKey(k, before, after)) == NewKey(ParentOf(k), before, after)
    ensures k != before ==> BaseOf(NewKey(k, before, after)) == BaseOf(k)
    ensures k == before ==> NewKey(k, before, after) == after
    decreases |k|
  {
    if k == before {
      assert k[|before|..] == "";
    } else {
      ParentChild(k);
      UnderParent(k, before);
      var d := ParentOf(k);
      NewKeyParent(d, before, after);
      NewKeyChild(d, BaseOf(k), before, after);
      ChildParent(NewKey(d, before, after), BaseOf(k));
    }
  }

  lemma NewKeyChild(d: string, b: string, before: string, after: string)
    requires Under(d, before) && before != "/" && |before| > 1 && after != "/" && |after| > 1 && Under(NewKey(d, before, after), after)
    ensures var k, nd := ChildPath(d, b), NewKey(d, before, after);
            Under(k, before) && NewKey(k, before, after) == ChildPath(nd, b) && Under(ChildPath(nd, b), after)
  {
  }

  lemma NewKeyInjective(k: string, k': string, before: string, after: string)
    requires Under(k, before) && Under(k', before) && NewKey(k, before, after) == NewKey(k', before, after)
    ensures k == k'
  {
    assert k[|before|..] == NewKey(k, before, after)[|after|..];
    assert k'[|before|..] == NewKey(k', before, after)[|after|..];
    assert k == k[..|before|] + k[|before|..] && k' == k'[..|before|] + k'[|before|..];
  }

  // ---- From user paths to keys ----------------------------------------------------------------

  lemma {:induction false} SegmentsAbsolute(segs: seq<string>)
    requires AllPlain(segs)
    ensures AbsPath("/" + WithSlashes(segs))
  {
    if segs != [] {
      hide AbsPath;
      var n := |segs| - 1;
      assert Plain(segs[n]);
      SegmentsAbsolute(segs[..n]);
      if n == 0 {
        assert WithSlashes(segs[..0]) == "";
        ChildParent("/", segs[0]);
        assert "/" + segs[0] == ChildPath("/", segs[0]);
      } else {
        FirstNotSlash(segs[..n]);
        var d := "/" + WithSlashes(segs[..n]);
        ChildParent(d, segs[n]);
        assert "/" + WithSlashes(segs) == ChildPath(d, segs[n]);
      }
    }
  }

  datatype FsError = NotExist | Exist | IsDir | NotDir | NotLink | InvalidMode | CrossedBoundary

  /** `toAbs` for a view rooted at `root`. */
  function AbsIn(root: string, path: string): Result<string, FsError> {
    if Crosses(path) then Err(CrossedBoundary)
    else if path != "" && path[0] == '/' then
      if |root| == 1 then Ok(CleanOf(path))
      else if Under(path, root) then
        if Crosses(path[|root|..]) then Err(CrossedBoundary) else Ok(path)
      else Ok(JoinOf([root, path[1..]]))
    else if |root| == 1 then Ok(JoinOf(["/", path]))
    else Ok(JoinOf([root, path]))
  }

  method ToAbs(root: string, path: string) returns (r: Result<string, FsError>)
    ensures r == AbsIn(root, path)
  {
    var crosses := CrossesBoundary(path);
    if crosses { return Err(CrossedBoundary); }
    var abs;
    if path != "" && path[0] == '/' {
      if |root| == 1 {
        abs := Join([path]);
        return Ok(abs);
      }
      if root <= path && (|path| == |root| || path[|root|] == '/') {
        crosses := CrossesBoundary(path[|root|..]);
        if crosses { return Err(CrossedBoundary); }
        return Ok(path);
      }
      abs := Join([root, path[1..]]);
      return Ok(abs);
    }
    if |root| == 1 {
      abs := Join(["/", path]);
    } else {
      abs := Join([root, path]);
    }
    r := Ok(abs);
  }

  lemma JoinAbsolute(root: string, parts: seq<string>)
    requires root != "" && root[0] == '/'
    ensures AbsPath(JoinOf([root] + parts)) && CleanOf(JoinOf([root] + parts)) == JoinOf([root] + parts)
  {
    var all := [root] + parts;
    PartsAppend(Start, [root], parts);
    OnePart(Start, root);
    StaysAbsolute(JoinPart(Start, root), parts);
    PartsPlain(Start, all);
    SegmentsAbsolute(JoinParts(Start, all).segs);
    JoinLeft(all, []);
    assert all + [] == all && [JoinOf(all)] + [] == [JoinOf(all)];
  }

  lemma {:induction false} StaysAbsolute(j: Joined, parts: seq<string>)
    requires j.absolute
    ensures JoinParts(j, parts).absolute
    decreases |parts|
  {
    if parts != [] { StaysAbsolute(JoinPart(j, parts[0]), parts[1..]); }
  }

  /** A key is a clean absolute path, except where a view below `/` hands back a path that
      already lies under its root: there it is clean exactly when the given path was. */
  lemma AbsInClean(root: string, path: string)
    requires root != "" && root[0] == '/' && AbsIn(root, path).Ok?
    ensures var abs := AbsIn(root, path).value;
            if |root| > 1 && path != "" && path[0] == '/' && Under(path, root)
            then abs == path
            else AbsPath(abs) && CleanOf(abs) == abs
  {
    if |root| == 1 {
      assert root == "/";
      JoinAbsolute("/", [path]);
      assert ["/"] + [path] == ["/", path];
      if path != "" && path[0] == '/' {
        JoinAbsolute(path, []);
        assert [path] + [] == [path];
      }
    } else {
      JoinAbsolute(root, [path]);
      assert [root] + [path] == [root, path];
      if path != "" {
        JoinAbsolute(root, [path[1..]]);
        assert [root] + [path[1..]] == [root, path[1..]];
      }
    }
  }

  lemma UncleanPieces()
    ensures Split("/a//b") == ["", "a", "", "b"] && Split("//b") == ["", "", "b"]
  {
    SplitPlain("a");
    SplitPlain("b");
    SplitJoin("", "b");
    SplitJoin("", "/b");
    SplitJoin("a", "/b");
    SplitJoin("", "a//b");
    assert "" + "/" + "b" == "/b" && "" + "/" + "/b" == "//b" && "a" + "/" + "/b" == "a//b" && "" + "/" + "a//b" == "/a//b";
    assert [""] + ["b"] == ["", "b"] && [""] + ["", "b"] == ["", "", "b"] && ["a"] + ["", "b"] == ["a", "", "b"];
    assert [""] + ["a", "", "b"] == ["", "a", "", "b"];
  }

  lemma NoClimb(segs: seq<string>, depth: nat)
    requires forall i :: 0 <= i < |segs| ==> segs[i] != ".."
    ensures Deficit(depth, segs) == 0
    decreases |segs|
  {
  }

  /** Such a view really can produce a key no other view would: here with a doubled slash. */
  lemma UncleanKey()
    ensures AbsIn("/a", "/a//b") == Ok("/a//b") && !AbsPath("/a//b")
  {
    UncleanPieces();
    NoClimb(["", "a", "", "b"], 0);
    NoClimb(["", "", "b"], 0);
    assert "/a//b"[2..] == "//b";
    assert "/a//b"[2] == '/' && "/a//b"[3] == '/';
  }
}
