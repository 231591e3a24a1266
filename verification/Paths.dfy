/**
 Lexical path helpers: joining, cleaning and the chroot boundary check.

 A path is a string; `Split` cuts it at slashes.  Joining walks the pieces with a stack
 of segments and renders the stack again.
*/
module Paths {

  function Split(s: string): (r: seq<string>)
    ensures |r| > 0
  {
    if s == "" then [""]
    else if s[0] == '/' then [""] + Split(s[1..])
    else
      var r := Split(s[1..]);
      [[s[0]] + r[0]] + r[1..]
  }

  predicate Skipped(seg: string) { seg == "" || seg == "." }

  /** The segment stack after one more piece. */
  function Step(stack: seq<string>, seg: string): seq<string> {
    if Skipped(seg) then stack
    else if seg == ".." then (if stack == [] then [] else stack[..|stack| - 1])
    else stack + [seg]
  }

  function Walk(stack: seq<string>, segs: seq<string>): seq<string>
    decreases |segs|
  {
    if segs == [] then stack else Walk(Step(stack, segs[0]), segs[1..])
  }

  /** Segments that survive a walk unchanged. */
  predicate Plain(seg: string) { !Skipped(seg) && seg != ".." && '/' !in seg }

  ghost predicate AllPlain(segs: seq<string>) { forall i :: 0 <= i < |segs| ==> Plain(segs[i]) }

  datatype Joined = Joined(absolute: bool, segs: seq<string>)

  function JoinPart(j: Joined, p: string): Joined {
    if p == "" then j
    else if p[0] == '/' then Joined(true, Walk([], Split(p)))
    else Joined(j.absolute, Walk(j.segs, Split(p)))
  }

  function JoinParts(j: Joined, parts: seq<string>): Joined
    decreases |parts|
  {
    if parts == [] then j else JoinParts(JoinPart(j, parts[0]), parts[1..])
  }

  const Start := Joined(false, [])

  function WithSlashes(segs: seq<string>): string {
    if segs == [] then ""
    else if |segs| == 1 then segs[0]
    else WithSlashes(segs[..|segs| - 1]) + "/" + segs[|segs| - 1]
  }

  function Render(j: Joined): string {
    if !j.absolute && j.segs == [] then "."
    else (if j.absolute then "/" else "") + WithSlashes(j.segs)
  }

  function JoinOf(parts: seq<string>): string { Render(JoinParts(Start, parts)) }

  function CleanOf(p: string): string { JoinOf([p]) }

  // ---- The loops of the source -------------------------------------------------------------

  lemma {:induction false} PartsAppend(j: Joined, a: seq<string>, b: seq<string>)
    ensures JoinParts(j, a + b) == JoinParts(JoinParts(j, a), b)
    decreases |a|
  {
    if a == [] {
      assert a + b == b;
    } else {
      assert (a + b)[1..] == a[1..] + b;
      PartsAppend(JoinPart(j, a[0]), a[1..], b);
    }
  }

  lemma {:induction false} SplitNoSlash(s: string)
    ensures forall i :: 0 <= i < |Split(s)| ==> '/' !in Split(s)[i]
  {
    if s != "" { SplitNoSlash(s[1..]); }
  }

  lemma {:induction false} WalkPlain(stack: seq<string>, segs: seq<string>)
    requires AllPlain(stack) && forall i :: 0 <= i < |segs| ==> '/' !in segs[i]
    ensures AllPlain(Walk(stack, segs))
    decreases |segs|
  {
    if segs != [] { WalkPlain(Step(stack, segs[0]), segs[1..]); }
  }

  lemma {:induction false} PartsPlain(j: Joined, parts: seq<string>)
    requires AllPlain(j.segs)
    ensures AllPlain(JoinParts(j, parts).segs)
    decreases |parts|
  {
    if parts != [] {
      if parts[0] != "" {
        SplitNoSlash(parts[0]);
        WalkPlain([], Split(parts[0]));
        WalkPlain(j.segs, Split(parts[0]));
      }
      PartsPlain(JoinPart(j, parts[0]), parts[1..]);
    }
  }

  method PushSegments(stack: seq<string>, p: string) returns (segs: seq<string>)
    ensures segs == Walk(stack, Split(p))
    ensures AllPlain(stack) ==> AllPlain(segs)
  {
    segs := stack;
    var it := Split(p);
    SplitNoSlash(p);
    if AllPlain(stack) { WalkPlain(stack, it); }
    var i := 0;
    while i < |it|
      invariant 0 <= i <= |it|
      invariant Walk(stack, it) == Walk(segs, it[i..])
    {
      var seg := it[i];
      if !Skipped(seg) {
        if seg == ".." {
          if |segs| > 0 { segs := segs[..|segs| - 1]; }
        } else {
          segs := segs + [seg];
        }
      }
      assert it[i..][1..] == it[i + 1..];
      i := i + 1;
    }
  }

  method Join(parts: seq<string>) returns (r: string)
    ensures r == JoinOf(parts)
  {
    var segs: seq<string>, absolute := [], false;
    var i := 0;
    while i < |parts|
      invariant 0 <= i <= |parts|
      invariant JoinParts(Start, parts) == JoinParts(Joined(absolute, segs), parts[i..])
      invariant AllPlain(segs)
    {
      var p := parts[i];
      assert parts[i..][1..] == parts[i + 1..];
      if p != "" {
        if p[0] == '/' {
          segs, absolute := [], true;
        }
        segs := PushSegments(segs, p);
      }
      i := i + 1;
    }
    r := RenderLoop(absolute, segs);
  }

  method RenderLoop(absolute: bool, segs: seq<string>) returns (r: string)
    requires AllPlain(segs)
    ensures r == Render(Joined(absolute, segs))
  {
    if !absolute && |segs| == 0 { return "."; }
    r := if absolute then "/" else "";
    ghost var lead := r;
    var i := 0;
    while i < |segs|
      invariant 0 <= i <= |segs|
      invariant r == lead + WithSlashes(segs[..i])
      invariant i > 0 ==> r != "" && r[|r| - 1] != '/'
    {
      assert Plain(segs[i]) && segs[i][|segs[i]| - 1] in segs[i];
      if i > 0 || (absolute && |r| > 1) {
        if |r| > 0 && r[|r| - 1] != '/' { r := r + "/"; }
      }
      assert segs[..i + 1][..i] == segs[..i];
      r := r + segs[i];
      i := i + 1;
    }
    assert segs[..i] == segs;
    if |r| == 0 { r := r + "/"; }
  }

  // ---- Rendering and splitting again ----------------------------------------------------------

  lemma {:induction false} SplitJoin(s: string, t: string)
    ensures Split(s + "/" + t) == Split(s) + Split(t)
  {
    if s == "" {
      assert s + "/" + t == "/" + t && ("/" + t)[1..] == t;
    } else {
      assert (s + "/" + t)[1..] == s[1..] + "/" + t && (s + "/" + t)[0] == s[0];
      SplitJoin(s[1..], t);
    }
  }

  lemma {:induction false} SplitPlain(s: string)
    requires '/' !in s
    ensures Split(s) == [s]
  {
    if s != "" {
      SplitPlain(s[1..]);
      assert [s[0]] + s[1..] == s;
    }
  }

  lemma {:induction false} SplitSegments(segs: seq<string>)
    requires AllPlain(segs) && segs != []
    ensures Split(WithSlashes(segs)) == segs
  {
    var n := |segs| - 1;
    if n == 0 {
      SplitPlain(segs[0]);
    } else {
      SplitSegments(segs[..n]);
      SplitJoin(WithSlashes(segs[..n]), segs[n]);
      SplitPlain(segs[n]);
    }
  }

  lemma {:induction false} WalkOwn(stack: seq<string>, segs: seq<string>)
    requires AllPlain(segs)
    ensures Walk(stack, segs) == stack + segs
    decreases |segs|
  {
    if segs != [] { WalkOwn(stack + [segs[0]], segs[1..]); }
  }

  /** A rendered path reads back as the stack it was rendered from, on top of any other part. */
  lemma RenderReads(j: Joined, k: Joined)
    requires AllPlain(j.segs)
    ensures JoinPart(k, Render(j)) == if j.absolute then j else Joined(k.absolute, k.segs + j.segs)
  {
    if j.absolute {
      AbsoluteReads(j.segs);
    } else if j.segs == [] {
      SplitPlain(".");
      assert Walk(k.segs, ["."]) == Walk(k.segs, []);
      assert k.segs + [] == k.segs;
    } else {
      SplitSegments(j.segs);
      WalkOwn(k.segs, j.segs);
      FirstNotSlash(j.segs);
      assert Render(j) == WithSlashes(j.segs);
    }
  }

  lemma RenderBack(j: Joined)
    requires AllPlain(j.segs)
    ensures JoinPart(Start, Render(j)) == j
  {
    RenderReads(j, Start);
    assert [] + j.segs == j.segs;
  }

  lemma AbsoluteReads(segs: seq<string>)
    requires AllPlain(segs)
    ensures Walk([], Split("/" + WithSlashes(segs))) == segs
  {
    var t := WithSlashes(segs);
    assert ("/" + t)[1..] == t;
    var pieces := Split("/" + t);
    assert pieces == [""] + Split(t);
    assert pieces[1..] == Split(t);
    assert Walk([], pieces) == Walk([], Split(t));
    if segs == [] {
      assert Walk([], [""]) == Walk([], []);
    } else {
      SplitSegments(segs);
      WalkOwn([], segs);
    }
  }

  lemma {:induction false} FirstNotSlash(segs: seq<string>)
    requires AllPlain(segs) && segs != []
    ensures WithSlashes(segs) != "" && WithSlashes(segs)[0] != '/'
  {
    if |segs| > 1 { FirstNotSlash(segs[..|segs| - 1]); } else { assert Plain(segs[0]); }
  }

  /** Cleaning twice changes nothing more. */
  lemma CleanIdempotent(p: string)
    ensures CleanOf(CleanOf(p)) == CleanOf(p)
  {
    var j := JoinParts(Start, [p]);
    PartsPlain(Start, [p]);
    RenderBack(j);
    OnePart(Start, p);
    OnePart(Start, Render(j));
  }

  lemma OnePart(j: Joined, p: string)
    ensures JoinParts(j, [p]) == JoinPart(j, p)
  {
  }

  /** Joining a prefix of the parts first never matters. */
  lemma JoinLeft(a: seq<string>, b: seq<string>)
    ensures JoinOf([JoinOf(a)] + b) == JoinOf(a + b)
  {
    var j := JoinParts(Start, a);
    PartsPlain(Start, a);
    RenderBack(j);
    PartsAppend(Start, a, b);
    PartsAppend(Start, [JoinOf(a)], b);
    OnePart(Start, JoinOf(a));
    assert [JoinOf(a)] + b == [Render(j)] + b;
  }

  // ---- The chroot boundary -----------------------------------------------------------------------

  /** How far a walk goes below its start. */
  function Deficit(depth: nat, segs: seq<string>): nat
    decreases |segs|
  {
    if segs == [] then 0
    else if Skipped(segs[0]) then Deficit(depth, segs[1..])
    else if segs[0] == ".." then (if depth == 0 then 1 + Deficit(0, segs[1..]) else Deficit(depth - 1, segs[1..]))
    else Deficit(depth + 1, segs[1..])
  }

  predicate Crosses(p: string) { Deficit(0, Split(p)) > 0 }

  method CrossesBoundary(path: string) returns (r: bool)
    ensures r <==> Crosses(path)
  {
    var p := path;
    while p != "" && p[0] == '/'
      invariant Deficit(0, Split(p)) == Deficit(0, Split(path))
      decreases |p|
    {
      assert Split(p)[1..] == Split(p[1..]);
      p := p[1..];
    }
    if p == "" {
      assert Deficit(0, [""]) == Deficit(0, []);
      return false;
    }
    var depth := 0;
    var it := Split(p);
    var i := 0;
    while i < |it|
      invariant 0 <= i <= |it| && depth >= 0
      invariant Deficit(0, it) == Deficit(depth, it[i..])
    {
      var seg := it[i];
      assert it[i..][1..] == it[i + 1..];
      if !Skipped(seg) {
        if seg == ".." {
          depth := depth - 1;
          if depth < 0 { return true; }
        } else {
          depth := depth + 1;
        }
      }
      i := i + 1;
    }
    r := false;
  }

  function Least(a: nat, b: nat): nat { if a < b then a else b }

  /** A walk over a stack eats exactly its deficit from what was there before. */
  lemma {:induction false} WalkOver(base: seq<string>, top: seq<string>, segs: seq<string>)
    ensures var eaten := Least(Deficit(|top|, segs), |base|);
            Walk(base + top, segs) == base[..|base| - eaten] + Walk(top, segs)
    decreases |segs|
  {
    if segs != [] {
      var s := segs[0];
      if Skipped(s) {
        WalkOver(base, top, segs[1..]);
      } else if s == ".." {
        if top == [] {
          if base == [] {
            WalkOver([], [], segs[1..]);
          } else {
            var base' := base[..|base| - 1];
            assert base + top == base && base' + top == base';
            WalkOver(base', top, segs[1..]);
            var eaten := Least(Deficit(0, segs[1..]), |base'|);
            assert base'[..|base'| - eaten] == base[..|base'| - eaten];
          }
        } else {
          assert (base + top)[..|base + top| - 1] == base + top[..|top| - 1];
          WalkOver(base, top[..|top| - 1], segs[1..]);
        }
      } else {
        assert base + top + [s] == base + (top + [s]);
        WalkOver(base, top + [s], segs[1..]);
      }
    }
  }

  ghost predicate Keeps(root: seq<string>, p: string) {
    root <= Walk(root, Split(p))
  }

  lemma {:induction false} WalkNew(stack: seq<string>, segs: seq<string>, x: string)
    ensures x in Walk(stack, segs) ==> x in stack || x in segs
    decreases |segs|
  {
    if segs != [] { WalkNew(Step(stack, segs[0]), segs[1..], x); }
  }

  /** A name longer than every piece, so none of them. */
  function Longest(segs: seq<string>): (r: string)
    ensures forall i :: 0 <= i < |segs| ==> |segs[i]| < |r|
    ensures |r| > 2 && forall i :: 0 <= i < |r| ==> r[i] == 'x'
  {
    if segs == [] then "xxx"
    else
      var r := Longest(segs[1..]);
      if |segs[0]| < |r| then r else r + seq(|segs[0]|, _ => 'x')
  }

  lemma NotPrefix(a: seq<string>, b: seq<string>)
    requires a != [] && a[0] !in b
    ensures !(a <= b)
  {
  }

  lemma NotCrossing(p: string)
    requires !Crosses(p)
    ensures forall root :: Keeps(root, p)
  {
    forall root: seq<string> ensures Keeps(root, p) {
      WalkOver(root, [], Split(p));
      assert root + [] == root && root[..|root|] == root;
    }
  }

  lemma CrossingLoses(p: string) returns (name: string)
    requires Crosses(p)
    ensures AllPlain([name]) && !Keeps([name], p)
  {
    var segs := Split(p);
    name := Longest(segs);
    var root := [name];
    WalkOver(root, [], segs);
    assert root + [] == root && Walk(root, segs) == Walk([], segs);
    WalkNew([], segs, name);
    assert Plain(name) && AllPlain(root);
    assert name !in Walk(root, segs) && root[0] == name;
    NotPrefix(root, Walk(root, segs));
  }

  /** The segments of a path. */
  function SegmentsOf(p: string): seq<string> { JoinPart(Start, p).segs }

  /** Joining a relative path to a root walks it from the root's segments. */
  lemma JoinedSegments(root: string, p: string)
    requires p == "" || p[0] != '/'
    ensures AllPlain(SegmentsOf(root)) && SegmentsOf(JoinOf([root, p])) == Walk(SegmentsOf(root), Split(p))
  {
    TwoParts(root, p);
    OnePart(Start, root);
    PartsPlain(Start, [root]);
    PartsPlain(Start, [root, p]);
    RenderBack(JoinParts(Start, [root, p]));
    if p == "" { assert Walk(SegmentsOf(root), [""]) == Walk(SegmentsOf(root), []); }
  }

  /** The check refuses a relative path exactly when joining it to some root with segments does not
      keep them all. */
  lemma CrossesExactly(p: string)
    requires p == "" || p[0] != '/'
    ensures !Crosses(p) <==>
            forall root :: SegmentsOf(root) != [] ==> SegmentsOf(root) <= SegmentsOf(JoinOf([root, p]))
  {
    hide Crosses, JoinOf, Walk, Split;
    if Crosses(p) {
      var name := CrossingLoses(p);
      RenderBack(Joined(false, [name]));
      var root := Render(Joined(false, [name]));
      JoinedSegments(root, p);
      assert SegmentsOf(root) == [name] && !(SegmentsOf(root) <= SegmentsOf(JoinOf([root, p])));
    } else {
      NotCrossing(p);
      forall root ensures SegmentsOf(root) <= SegmentsOf(JoinOf([root, p])) {
        JoinedSegments(root, p);
        assert Keeps(SegmentsOf(root), p);
      }
    }
  }

  /** Cleaning the second part first matters exactly when it climbs out of a nonempty first part. */
  lemma JoinRightExactly(a: string, b: string)
    ensures JoinOf([a, CleanOf(b)]) == JoinOf([a, b]) <==>
            (b != "" && b[0] == '/') || !Crosses(b) || JoinPart(Start, a).segs == []
  {
    var ja := JoinPart(Start, a);
    var jb := JoinPart(Start, b);
    TwoParts(a, b);
    TwoParts(a, CleanOf(b));
    OnePart(Start, a);
    OnePart(Start, b);
    PartsPlain(Start, [a]);
    PartsPlain(Start, [b]);
    RenderReads(jb, ja);
    var flat, nested := JoinPart(ja, b), JoinPart(ja, CleanOf(b));
    SameRender(ja, b, CleanOf(b));
    if b == "" {
      assert Deficit(0, [""]) == Deficit(0, []);
    } else if b[0] != '/' {
      WalkOver(ja.segs, [], Split(b));
      assert ja.segs + [] == ja.segs && ja.segs[..|ja.segs|] == ja.segs;
      assert |nested.segs| == |ja.segs| + |jb.segs|;
    }
  }

  lemma SameRender(j: Joined, p: string, p': string)
    requires AllPlain(j.segs)
    ensures Render(JoinPart(j, p)) == Render(JoinPart(j, p')) <==> JoinPart(j, p) == JoinPart(j, p')
  {
    OnePart(j, p);
    OnePart(j, p');
    PartsPlain(j, [p]);
    PartsPlain(j, [p']);
    RenderBack(JoinPart(j, p));
    RenderBack(JoinPart(j, p'));
  }

  lemma TwoParts(a: string, b: string)
    ensures JoinParts(Start, [a, b]) == JoinPart(JoinPart(Start, a), b)
  {
    assert [a, b] == [a] + [b];
    PartsAppend(Start, [a], [b]);
    OnePart(Start, a);
    OnePart(JoinPart(Start, a), b);
  }
}
