/** Refspecs: `[+]<src>:<dst>`, each side with at most one `*`. */
module Refspec {
  import opened Wrappers
  import opened Strings

  datatype SpecError = MalformedSeparator | MalformedWildcard

  function Validate(raw: string): Result<(), SpecError> {
    if Count(raw, ':') != 1 then Err(MalformedSeparator)
    else match IndexOf(raw, ':')
      case None => Err(MalformedSeparator)
      case Some(sep) =>
        if sep == |raw| - 1 then Err(MalformedSeparator)
        else
          var ws, wd := Count(raw[..sep], '*'), Count(raw[sep + 1..], '*');
          if ws == wd && ws < 2 && wd < 2 then Ok(()) else Err(MalformedWildcard)
  }

  predicate IsForceUpdate(raw: string) { |raw| > 0 && raw[0] == '+' }

  function Src(raw: string): string {
    var start := if IsForceUpdate(raw) then 1 else 0;
    match IndexOf(raw, ':')
    case None => raw[start..]
    case Some(end) => if start <= end then raw[start..end] else ""
  }

  predicate IsWildcard(raw: string) { IndexOf(raw, '*').Some? }

  function Star(s: string): nat { match IndexOf(s, '*') case None => 0 case Some(i) => i }

  predicate StartsWith(s: string, p: string) { p <= s }

  predicate EndsWith(s: string, p: string) { |p| <= |s| && s[|s| - |p|..] == p }

  predicate MatchGlob(raw: string, name: string) {
    var source := Src(raw);
    match IndexOf(source, '*')
    case None => false
    case Some(w) => |name| >= w + |source[w + 1..]| && StartsWith(name, source[..w]) && EndsWith(name, source[w + 1..])
  }

  predicate Match(raw: string, name: string) { if IsWildcard(raw) then MatchGlob(raw, name) else Src(raw) == name }

  function Dest(raw: string): string { match IndexOf(raw, ':') case None => raw[if raw == "" then 0 else 1..] case Some(sep) => raw[sep + 1..] }

  /** The slices that `dst` takes are in range. */
  predicate InRange(raw: string, name: string) {
    var source, dest := Src(raw), Dest(raw);
    IsWildcard(raw) ==>
      && Star(source) + 1 <= |source| && Star(dest) + 1 <= |dest|
      && |source| - (Star(source) + 1) <= |name| && Star(source) <= |name| - (|source| - (Star(source) + 1))
  }

  function Dst(raw: string, name: string): string
    requires InRange(raw, name)
  {
    var source, dest := Src(raw), Dest(raw);
    if !IsWildcard(raw) then dest
    else
      var ws, wd := Star(source), Star(dest);
      dest[..wd] + name[ws..|name| - (|source| - (ws + 1))] + dest[wd + 1..]
  }

  function Reverse(raw: string): string {
    match IndexOf(raw, ':') case None => raw case Some(sep) => raw[sep + 1..] + ":" + raw[..sep]
  }

  method MatchAny(list: seq<string>, name: string) returns (b: bool)
    ensures b <==> exists i :: 0 <= i < |list| && Match(list[i], name)
  {
    var i := 0;
    while i < |list|
      invariant 0 <= i <= |list| && forall j :: 0 <= j < i ==> !Match(list[j], name)
    {
      if Match(list[i], name) { return true; }
      i := i + 1;
    }
    b := false;
  }

  // ---- Sides of a valid spec --------------------------------------------------------------------

  /** A spec cut at its one separator. */
  ghost predicate Sides(raw: string, left: string, right: string) {
    && raw == left + ":" + right && ':' !in left && ':' !in right && right != ""
    && Count(left, '*') == Count(right, '*') < 2
  }

  lemma ValidSides(raw: string) returns (left: string, right: string)
    requires Validate(raw).Ok?
    ensures Sides(raw, left, right)
  {
    var sep := IndexOf(raw, ':').value;
    left, right := raw[..sep], raw[sep + 1..];
    assert raw == left + ":" + right;
    CountPlus(left + ":", right, ':');
    CountPlus(left, ":", ':');
    CountNone(left, ':');
    CountNone(right, ':');
  }

  /** Exactly the strings with two such sides are valid. */
  lemma SidesValid(raw: string, left: string, right: string)
    requires Sides(raw, left, right)
    ensures Validate(raw) == Ok(()) && IndexOf(raw, ':') == Some(|left|)
    ensures Dest(raw) == right && Src(raw) == if IsForceUpdate(left) then left[1..] else left
    ensures IsWildcard(raw) <==> '*' in left
    ensures '*' in left <==> '*' in right
    ensures '*' in left <==> Count(left, '*') == 1
  {
    CountPlus(left + ":", right, ':');
    CountPlus(left, ":", ':');
    CountNone(left, ':');
    CountNone(right, ':');
    IndexOfFirst(left, ':', right);
    assert raw[..|left|] == left && raw[|left| + 1..] == right;
    CountNone(left, '*');
    CountNone(right, '*');
    if left != "" { assert raw[0] == left[0] && raw[1..|left|] == left[1..]; }
  }

  // ---- Patterns --------------------------------------------------------------------------------------

  function Fill(p: string, x: string): string
    requires '*' in p
  {
    assert IndexOf(p, '*').Some?;
    p[..Star(p)] + x + p[Star(p) + 1..]
  }

  /** A name that a pattern matches is the pattern filled with its middle part. */
  lemma MatchFills(p: string, name: string)
    requires '*' in p && |name| >= |p| - 1 && StartsWith(name, p[..Star(p)]) && EndsWith(name, p[Star(p) + 1..])
    ensures Star(p) <= |name| - (|p| - (Star(p) + 1)) && Fill(p, name[Star(p)..|name| - (|p| - (Star(p) + 1))]) == name
  {
  }

  lemma FillMatches(p: string, x: string)
    requires '*' in p
    ensures var name := Fill(p, x);
            && |name| == |p| - 1 + |x| && StartsWith(name, p[..Star(p)]) && EndsWith(name, p[Star(p) + 1..])
            && name[Star(p)..|name| - (|p| - (Star(p) + 1))] == x
  {
  }

  // ---- Mapping and mapping back -------------------------------------------------------------------------

  /** On a matched name the slices are in range. */
  lemma DstInRange(raw: string, name: string)
    requires Validate(raw).Ok? && Match(raw, name)
    ensures InRange(raw, name)
  {
  }

  /** What a valid spec maps a matched name to, and by how much the lengths differ. */
  lemma DstShape(raw: string, left: string, right: string, name: string)
    requires Sides(raw, left, right) && Match(raw, name) && InRange(raw, name)
    ensures '*' !in left ==> name == Src(raw) && Dst(raw, name) == right
    ensures '*' in left ==>
              && '*' in Src(raw) && '*' in right
              && exists x :: name == Fill(Src(raw), x) && Dst(raw, name) == Fill(right, x) && |name| == |Src(raw)| - 1 + |x|
  {
    SidesValid(raw, left, right);
    if '*' in left {
      StarStays(left);
      var x := DstFills(raw, right, name);
    }
  }

  lemma StarStays(left: string)
    requires '*' in left
    ensures '*' in if IsForceUpdate(left) then left[1..] else left
  {
  }

  lemma DstFills(raw: string, right: string, name: string) returns (x: string)
    requires IsWildcard(raw) && Match(raw, name) && InRange(raw, name) && Dest(raw) == right && '*' in Src(raw) && '*' in right
    ensures name == Fill(Src(raw), x) && Dst(raw, name) == Fill(right, x) && |name| == |Src(raw)| - 1 + |x|
  {
    GlobFills(raw, name);
    hide IndexOf, Star, StartsWith, EndsWith, MatchGlob, Src, Dest, Match, IsWildcard;
    var p := Src(raw);
    x := name[Star(p)..|name| - (|p| - (Star(p) + 1))];
    FillMatches(p, x);
  }

  lemma GlobFills(raw: string, name: string)
    requires IsWildcard(raw) && Match(raw, name) && '*' in Src(raw)
    ensures var p := Src(raw);
            && Star(p) + 1 <= |p| && |p| - (Star(p) + 1) <= |name| && Star(p) <= |name| - (|p| - (Star(p) + 1))
            && Fill(p, name[Star(p)..|name| - (|p| - (Star(p) + 1))]) == name
  {
    MatchFills(Src(raw), name);
  }

  /** A valid spec matches exactly its source, or the fillings of the wildcard in it. */
  lemma MatchExactly(raw: string, name: string)
    requires Validate(raw).Ok?
    ensures Match(raw, name) <==> if '*' in Src(raw) then exists x :: name == Fill(Src(raw), x) else name == Src(raw)
  {
    StarInSource(raw);
    hide MatchGlob, IndexOf, Fill, Validate, Src, IsWildcard;
    if '*' in Src(raw) {
      if Match(raw, name) { GlobFills(raw, name); }
      if x :| name == Fill(Src(raw), x) { FillGlob(raw, x); }
    }
  }

  lemma StarInSource(raw: string)
    requires Validate(raw).Ok?
    ensures IsWildcard(raw) <==> '*' in Src(raw)
  {
    hide Validate, IsWildcard, Src;
    var left, right := ValidSides(raw);
    SidesValid(raw, left, right);
    if '*' in left { StarStays(left); }
  }

  lemma FillGlob(raw: string, x: string)
    requires IsWildcard(raw) && '*' in Src(raw)
    ensures Match(raw, Fill(Src(raw), x))
  {
    hide Src;
    FillMatches(Src(raw), x);
  }

  /** The reversed spec is valid exactly when the source side is not empty. */
  lemma ReverseValid(raw: string)
    requires Validate(raw).Ok?
    ensures Validate(Reverse(raw)).Ok? <==> IndexOf(raw, ':').value > 0
  {
    var left, right := ValidSides(raw);
    SidesValid(raw, left, right);
    assert Reverse(raw) == right + ":" + left;
    if left != "" {
      SidesValid(Reverse(raw), right, left);
    } else {
      IndexOfFirst(right, ':', left);
    }
  }

  /** Mapping a matched name and mapping the result back through the reversed spec returns the
      name exactly when neither side starts with `+`: reversing leaves the force mark in place,
      so it becomes part of the other side. */
  lemma MapsBack(raw: string, name: string)
    requires Validate(raw).Ok? && Match(raw, name) && IndexOf(raw, ':').value > 0
    ensures InRange(raw, name) && Validate(Reverse(raw)).Ok?
    ensures var image, back := Dst(raw, name), Reverse(raw);
            Match(back, image) && InRange(back, image) && Dst(back, image) == name
            <==> !IsForceUpdate(raw) && !IsForceUpdate(Dest(raw))
  {
    DstInRange(raw, name);
    ReverseValid(raw);
    var left, right := ValidSides(raw);
    SidesValid(raw, left, right);
    var back := right + ":" + left;
    assert Reverse(raw) == back;
    SidesValid(back, right, left);
    DstShape(raw, left, right, name);
    BackAgain(raw, left, right, name, back);
  }

  lemma BackAgain(raw: string, left: string, right: string, name: string, back: string)
    requires Sides(raw, left, right) && Sides(back, right, left) && Match(raw, name) && InRange(raw, name) && Validate(back).Ok?
    ensures var image := Dst(raw, name);
            Match(back, image) && InRange(back, image) && Dst(back, image) == name
            <==> !IsForceUpdate(left) && !IsForceUpdate(right)
  {
    hide Validate, Match, MatchGlob, InRange, Dst, IndexOf, Count;
    if !IsForceUpdate(left) && !IsForceUpdate(right) {
      BackUnmarked(raw, left, right, name, back);
    } else if Match(back, Dst(raw, name)) && InRange(back, Dst(raw, name)) {
      BackMarked(raw, left, right, name, back);
    }
  }

  lemma BackUnmarked(raw: string, left: string, right: string, name: string, back: string)
    requires Sides(raw, left, right) && Sides(back, right, left) && Match(raw, name) && InRange(raw, name) && Validate(back).Ok?
    requires !IsForceUpdate(left) && !IsForceUpdate(right)
    ensures var image := Dst(raw, name); Match(back, image) && InRange(back, image) && Dst(back, image) == name
  {
    var image := Dst(raw, name);
    SidesValid(raw, left, right);
    SidesValid(back, right, left);
    DstShape(raw, left, right, name);
    if '*' in left {
      var x :| name == Fill(left, x) && image == Fill(right, x) && |name| == |left| - 1 + |x|;
      FillMatches(right, x);
      DstInRange(back, image);
    }
  }

  lemma BackMarked(raw: string, left: string, right: string, name: string, back: string)
    requires Sides(raw, left, right) && Sides(back, right, left) && Match(raw, name) && InRange(raw, name)
    requires IsForceUpdate(left) || IsForceUpdate(right)
    requires Match(back, Dst(raw, name)) && InRange(back, Dst(raw, name))
    ensures Dst(back, Dst(raw, name)) != name
  {
    var image := Dst(raw, name);
    SidesValid(raw, left, right);
    SidesValid(back, right, left);
    DstShape(raw, left, right, name);
    DstShape(back, right, left, image);
    if '*' in left { Longer(raw, left, right, name, back); }
  }

  /** With a mark on either side the result is longer than the name. */
  lemma Longer(raw: string, left: string, right: string, name: string, back: string)
    requires Sides(raw, left, right) && Sides(back, right, left) && Match(raw, name) && InRange(raw, name) && '*' in left
    requires Match(back, Dst(raw, name)) && InRange(back, Dst(raw, name)) && (IsForceUpdate(left) || IsForceUpdate(right))
    ensures |Dst(back, Dst(raw, name))| > |name|
  {
    var image := Dst(raw, name);
    SidesValid(raw, left, right);
    SidesValid(back, right, left);
    DstShape(raw, left, right, name);
    DstShape(back, right, left, image);
    var x :| name == Fill(Src(raw), x) && image == Fill(right, x) && |name| == |Src(raw)| - 1 + |x|;
    FillMatches(right, x);
    var y :| image == Fill(Src(back), y) && Dst(back, image) == Fill(left, y) && |image| == |Src(back)| - 1 + |y|;
    FillMatches(left, y);
  }
}
