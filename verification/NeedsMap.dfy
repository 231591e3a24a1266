/**
 Needs maps: the lines of a commit's file that still need an owner, sorted by `cur`.
 `orig` is the line of the child the answer goes back to.
*/
module NeedsMap {
  import opened Wrappers
  import opened LineScript
  import opened History

  datatype LineMap = LineMap(orig: nat, cur: nat, commit: Option<Commit>, fromParent: int)

  type Needs = seq<LineMap>

  ghost predicate Sorted(s: Needs) {
    forall i, j :: 0 <= i < j < |s| ==> s[i].cur < s[j].cur
  }

  ghost predicate OrigSorted(s: Needs) {
    forall i, j :: 0 <= i < j < |s| ==> s[i].orig < s[j].orig
  }

  ghost predicate Below(s: Needs, n: nat) {
    forall i :: 0 <= i < |s| ==> s[i].cur < n
  }

  ghost predicate Unanswered(s: Needs) {
    forall i :: 0 <= i < |s| ==> s[i].commit.None?
  }

  ghost predicate Answered(s: Needs) {
    forall i :: 0 <= i < |s| ==> s[i].commit.Some?
  }

  ghost predicate HasCur(s: Needs, c: nat) {
    exists i :: 0 <= i < |s| && s[i].cur == c
  }

  /** Same lines in the same order; only answers may differ. */
  ghost predicate SameLines(s: Needs, t: Needs) {
    && |s| == |t|
    && forall i :: 0 <= i < |s| ==> s[i].cur == t[i].cur && s[i].orig == t[i].orig
  }

  // ---- Merging the needs maps of several items of one commit --------------------------

  /** Sorted union of two needs maps; on a shared line the first map's entry stays. */
  function Union(s: Needs, t: Needs): (u: Needs) {
    if s == [] then t
    else if t == [] then s
    else if s[0].cur == t[0].cur then [s[0]] + Union(s[1..], t[1..])
    else if s[0].cur < t[0].cur then [s[0]] + Union(s[1..], t)
    else [t[0]] + Union(s, t[1..])
  }

  lemma {:induction false} UnionMembers(s: Needs, t: Needs, x: LineMap)
    ensures x in Union(s, t) ==> x in s || x in t
  {
    if s == [] || t == [] {
    } else if s[0].cur == t[0].cur {
      UnionMembers(s[1..], t[1..], x);
    } else if s[0].cur < t[0].cur {
      UnionMembers(s[1..], t, x);
    } else {
      UnionMembers(s, t[1..], x);
    }
  }

  lemma {:induction false} UnionHasCur(s: Needs, t: Needs, c: nat)
    ensures HasCur(Union(s, t), c) <==> HasCur(s, c) || HasCur(t, c)
  {
    if s == [] || t == [] {
    } else if s[0].cur == t[0].cur {
      UnionHasCur(s[1..], t[1..], c);
      HasCurCons(s, c);
      HasCurCons(t, c);
      HasCurCons(Union(s, t), c);
    } else if s[0].cur < t[0].cur {
      UnionHasCur(s[1..], t, c);
      HasCurCons(s, c);
      HasCurCons(Union(s, t), c);
    } else {
      UnionHasCur(s, t[1..], c);
      HasCurCons(t, c);
      HasCurCons(Union(s, t), c);
    }
  }

  lemma HasCurCons(s: Needs, c: nat)
    requires s != []
    ensures HasCur(s, c) <==> s[0].cur == c || HasCur(s[1..], c)
  {
    if HasCur(s, c) {
      var i :| 0 <= i < |s| && s[i].cur == c;
      assert i > 0 ==> s[1..][i - 1] == s[i];
    }
    if HasCur(s[1..], c) {
      var i :| 0 <= i < |s[1..]| && s[1..][i].cur == c;
      assert s[i + 1].cur == c;
    }
  }

  /** The union of sorted maps is sorted, stays unanswered and stays in range. */
  lemma UnionSorted(s: Needs, t: Needs, n: nat)
    requires Sorted(s) && Sorted(t) && Below(s, n) && Below(t, n) && Unanswered(s) && Unanswered(t)
    ensures Sorted(Union(s, t)) && Below(Union(s, t), n) && Unanswered(Union(s, t))
  {
    hide Union, Sorted;
    UnionRises(s, t);
    forall i | 0 <= i < |Union(s, t)| ensures Union(s, t)[i].cur < n && Union(s, t)[i].commit.None? {
      UnionMembers(s, t, Union(s, t)[i]);
    }
  }

  lemma {:induction false} UnionRises(s: Needs, t: Needs)
    requires Sorted(s) && Sorted(t)
    ensures Sorted(Union(s, t))
  {
    if s != [] && t != [] {
      var s', t' := if s[0].cur <= t[0].cur then s[1..] else s, if t[0].cur <= s[0].cur then t[1..] else t;
      var first := if s[0].cur <= t[0].cur then s[0] else t[0];
      UnionRises(s', t');
      var rest := Union(s', t');
      assert Union(s, t) == [first] + rest;
      forall i | 0 <= i < |rest| ensures first.cur < rest[i].cur { UnionMembers(s', t', rest[i]); }
      hide Union;
      FirstBelow(first, rest);
    }
  }

  lemma FirstBelow(first: LineMap, rest: Needs)
    requires Sorted(rest) && forall i :: 0 <= i < |rest| ==> first.cur < rest[i].cur
    ensures Sorted([first] + rest)
  {
  }

  // ---- Walking the hunks of a parent --------------------------------------------------

  /** The needed lines that lie in equal hunks, each with its line number in the parent. */
  function FromParent(script: seq<Hunk>, needs: Needs): (r: Needs) {
    if needs == [] then []
    else
      var rest := FromParent(script, needs[..|needs| - 1]);
      var n := needs[|needs| - 1];
      var o := Origin(script, n.cur);
      if o.Some? then rest + [LineMap(n.cur, o.value, None, -1)] else rest
  }

  /** Exactly the needed lines lying in equal hunks, with their parent line numbers. */
  lemma {:induction false} FromParentExact(script: seq<Hunk>, needs: Needs, x: LineMap)
    ensures x in FromParent(script, needs) <==>
            x.commit.None? && x.fromParent == -1 && HasCur(needs, x.orig) && Origin(script, x.orig) == Some(x.cur)
  {
    if needs != [] {
      var pre, n := needs[..|needs| - 1], needs[|needs| - 1];
      FromParentExact(script, pre, x);
      if HasCur(needs, x.orig) && n.cur != x.orig {
        var i :| 0 <= i < |needs| && needs[i].cur == x.orig;
        assert pre[i] == needs[i];
      }
      if HasCur(pre, x.orig) {
        var i :| 0 <= i < |pre| && pre[i].cur == x.orig;
        assert needs[i].cur == x.orig;
      }
      assert n.cur == x.orig ==> HasCur(needs, x.orig);
    }
  }

  lemma {:induction false} FromParentSorted(script: seq<Hunk>, needs: Needs)
    requires Sorted(needs)
    ensures var r := FromParent(script, needs);
            Sorted(r) && OrigSorted(r) && Unanswered(r) && Below(r, |OldLines(script)|)
  {
    if needs != [] {
      var pre, n := needs[..|needs| - 1], needs[|needs| - 1];
      var rest := FromParent(script, pre);
      FromParentSorted(script, pre);
      OriginSameLine(script, n.cur);
      if Origin(script, n.cur).Some? {
        forall i | 0 <= i < |rest|
          ensures rest[i].orig < n.cur && rest[i].cur < Origin(script, n.cur).value
        {
          EarlierLines(script, pre, n, rest[i]);
        }
        assert FromParent(script, needs) == rest + [LineMap(n.cur, Origin(script, n.cur).value, None, -1)];
      } else {
        assert FromParent(script, needs) == rest;
      }
    }
  }

  lemma EarlierLines(script: seq<Hunk>, pre: Needs, n: LineMap, x: LineMap)
    requires forall i :: 0 <= i < |pre| ==> pre[i].cur < n.cur
    requires x in FromParent(script, pre) && Origin(script, n.cur).Some?
    ensures x.orig < n.cur && x.cur < Origin(script, n.cur).value
  {
    FromParentExact(script, pre, x);
    OriginIncreasing(script, x.orig, n.cur);
  }

  lemma OriginAtHunk(script: seq<Hunk>, k: nat, i: nat)
    requires k < |script| && |NewLines(script[..k])| <= i
    ensures var n, o, hunk := |NewLines(script[..k])|, |OldLines(script[..k])|, script[k];
            && (hunk.op.Equal? && i < n + |hunk.lines| ==> Origin(script, i) == Some(o + (i - n)))
            && (hunk.op.Insert? && i < n + |hunk.lines| ==> Origin(script, i).None?)
  {
    assert script == script[..k] + script[k..];
    OriginAppend(script[..k], script[k..], i);
  }

  lemma PrefixLines(script: seq<Hunk>, k: nat)
    requires k < |script|
    ensures var add := |script[k].lines|;
            && |NewLines(script[..k + 1])| == |NewLines(script[..k])| + (if script[k].op.Delete? then 0 else add)
            && |OldLines(script[..k + 1])| == |OldLines(script[..k])| + (if script[k].op.Insert? then 0 else add)
  {
    assert script[..k + 1] == script[..k] + [script[k]];
    LinesAppend(script[..k], [script[k]]);
  }

  /** `got` answers the needed lines up to `curl`; `need` is the next one to look for. */
  ghost predicate Taken(script: seq<Hunk>, needs: Needs, need: nat, curl: int, got: Needs) {
    && need <= |needs|
    && (forall m :: 0 <= m < |needs| ==> (m < need <==> needs[m].cur <= curl))
    && got == FromParent(script, needs[..need])
  }

  lemma TakeLine(script: seq<Hunk>, needs: Needs, need: nat, curl: int, got: Needs)
    requires Sorted(needs) && curl >= -1 && Taken(script, needs, need, curl, got)
    ensures var o := Origin(script, curl + 1);
            if need < |needs| && needs[need].cur == curl + 1
            then Taken(script, needs, need + 1, curl + 1, if o.Some? then got + [LineMap(curl + 1, o.value, None, -1)] else got)
            else Taken(script, needs, need, curl + 1, got)
  {
    forall m | 0 <= m < |needs| && m > need
      ensures needs[m].cur > curl + 1
    {
      assert needs[need].cur < needs[m].cur;
    }
    if need < |needs| {
      assert needs[..need + 1][..need] == needs[..need];
    }
  }

  /** Line counters while `hl` lines of hunk `k` were read. */
  ghost predicate At(script: seq<Hunk>, k: nat, hl: nat, prevl: int, curl: int)
    requires k < |script|
  {
    && prevl == |OldLines(script[..k])| - 1 + (if script[k].op.Insert? then 0 else hl)
    && curl == |NewLines(script[..k])| - 1 + (if script[k].op.Delete? then 0 else hl)
  }

  /** The two line counters and the cursor into the needs map, walked over every hunk. */
  method WalkHunks(script: seq<Hunk>, needs: Needs) returns (got: Needs)
    requires Sorted(needs) && Below(needs, |NewLines(script)|)
    ensures got == FromParent(script, needs)
  {
    hide At, Taken, Sorted, Below, OldLines, NewLines, Origin;
    got := [];
    var prevl, curl := -1, -1;
    var need: nat := 0;
    var k := 0;
    WalkStart(script, needs);
    label outer: while k < |script|
      invariant 0 <= k <= |script|
      invariant k < |script| ==> At(script, k, 0, prevl, curl)
      invariant k == |script| ==> curl == |NewLines(script)| - 1
      invariant Taken(script, needs, need, curl, got)
    {
      var lines := |script[k].lines|;
      var hl := 0;
      while hl < lines
        invariant 0 <= hl <= lines
        invariant script[k].op.Delete? ==> hl == 0
        invariant At(script, k, hl, prevl, curl)
        invariant Taken(script, needs, need, curl, got)
      {
        if script[k].op.Delete? {
          AtDeleted(script, k, prevl, curl);
          prevl := prevl + lines;
          NextHunk(script, k, prevl, curl);
          k := k + 1;
          continue outer;
        }
        OriginHere(script, k, hl, prevl, curl);
        TakeLine(script, needs, need, curl, got);
        AtMore(script, k, hl, prevl, curl);
        if script[k].op.Equal? { prevl := prevl + 1; }
        curl := curl + 1;
        if need < |needs| && curl == needs[need].cur {
          if script[k].op.Equal? { got := got + [LineMap(curl, prevl, None, -1)]; }
          need := need + 1;
          if need >= |needs| { break outer; }
        }
        hl := hl + 1;
      }
      NextHunk(script, k, prevl, curl);
      k := k + 1;
    }
    WalkEnd(script, needs, need, curl, got);
  }

  lemma WalkStart(script: seq<Hunk>, needs: Needs)
    ensures |script| > 0 ==> At(script, 0, 0, -1, -1)
    ensures |script| == 0 ==> |NewLines(script)| == 0
    ensures Taken(script, needs, 0, -1, [])
  {
    if |script| > 0 { assert script[..0] == []; }
  }

  lemma WalkEnd(script: seq<Hunk>, needs: Needs, need: nat, curl: int, got: Needs)
    requires Taken(script, needs, need, curl, got) && Below(needs, |NewLines(script)|)
    requires need < |needs| ==> curl == |NewLines(script)| - 1
    ensures got == FromParent(script, needs)
  {
    hide FromParent, NewLines;
    if |needs| > 0 { assert needs[|needs| - 1].cur < |NewLines(script)|; }
    assert needs[..need] == needs;
  }

  lemma AtDeleted(script: seq<Hunk>, k: nat, prevl: int, curl: int)
    requires k < |script| && script[k].op.Delete? && At(script, k, 0, prevl, curl)
    ensures At(script, k, |script[k].lines|, prevl + |script[k].lines|, curl)
  {
  }

  lemma AtMore(script: seq<Hunk>, k: nat, hl: nat, prevl: int, curl: int)
    requires k < |script| && !script[k].op.Delete? && At(script, k, hl, prevl, curl)
    ensures At(script, k, hl + 1, if script[k].op.Equal? then prevl + 1 else prevl, curl + 1)
  {
  }

  /** The next new line, read inside hunk `k`, pairs with the next old line if the hunk is equal. */
  lemma OriginHere(script: seq<Hunk>, k: nat, hl: nat, prevl: int, curl: int)
    requires k < |script| && hl < |script[k].lines| && !script[k].op.Delete? && At(script, k, hl, prevl, curl)
    ensures curl >= -1 && (script[k].op.Equal? ==> prevl >= -1 && Origin(script, curl + 1) == Some(prevl + 1))
    ensures script[k].op.Insert? ==> Origin(script, curl + 1) == None
  {
    OriginAtHunk(script, k, curl + 1);
  }

  lemma NextHunk(script: seq<Hunk>, k: nat, prevl: int, curl: int)
    requires k < |script| && At(script, k, |script[k].lines|, prevl, curl)
    ensures k + 1 < |script| ==> At(script, k + 1, 0, prevl, curl)
    ensures k + 1 == |script| ==> curl == |NewLines(script)| - 1
  {
    PrefixLines(script, k);
    assert k + 1 == |script| ==> script[..k + 1] == script;
  }

  lemma MergeStep(u: Needs, n: nat, t: Needs, pos: nat)
    requires n < |u| && pos < |t|
    ensures var all := u[..n] + Union(u[n..], t[pos..]);
            if u[n].cur == t[pos].cur then all == u[..n + 1] + Union(u[n + 1..], t[pos + 1..])
            else if u[n].cur < t[pos].cur then all == u[..n + 1] + Union(u[n + 1..], t[pos..])
            else all == u[..n] + [t[pos]] + Union(u[n..], t[pos + 1..])
  {
    assert u[n..][1..] == u[n + 1..] && t[pos..][1..] == t[pos + 1..];
    assert u[..n + 1] == u[..n] + [u[n]];
  }

  /** Inserting the lines of `t` one by one keeps the map equal to the union. */
  method MergeInto(s: Needs, t: Needs) returns (u: Needs)
    ensures u == Union(s, t)
  {
    u := s;
    var n, pos := 0, 0;
    assert u[..0] + Union(u[0..], t[0..]) == Union(s, t) by { assert t[0..] == t && u[0..] == u; }
    while pos < |t|
      invariant 0 <= n <= |u| && 0 <= pos <= |t|
      invariant Union(s, t) == u[..n] + Union(u[n..], t[pos..])
      decreases |t| - pos + |u| - n, |t| - pos
    {
      if n == |u| {
        assert u[n..] == [] && u[..n] == u;
        u := u + t[pos..];
        return;
      }
      MergeStep(u, n, t, pos);
      if u[n].cur == t[pos].cur {
        n, pos := n + 1, pos + 1;
      } else if u[n].cur < t[pos].cur {
        n := n + 1;
      } else {
        ghost var before := u;
        u := u[..n] + [t[pos]] + u[n..];
        assert u[..n + 1] == before[..n] + [t[pos]] && u[n + 1..] == before[n..];
        n, pos := n + 1, pos + 1;
      }
    }
    assert t[pos..] == [] && u[..n] + u[n..] == u;
  }

  // ---- Handing answers back ------------------------------------------------------------

  /** The answer `from` holds for the line numbered `c` under `key`. */
  ghost predicate AnswerAt(from: Needs, byOrig: bool, c: nat, d: Option<Commit>) {
    exists i :: 0 <= i < |from| && (if byOrig then from[i].orig else from[i].cur) == c && from[i].commit == d
  }

  ghost predicate Supplies(from: Needs, byOrig: bool, c: nat) {
    exists i :: 0 <= i < |from| && (if byOrig then from[i].orig else from[i].cur) == c
  }

  /** Each line of a merged child takes the commit found for it in the merged map. */
  method CopyAnswers(to: Needs, from: Needs) returns (r: Needs)
    requires Sorted(to) && Sorted(from)
    requires forall i :: 0 <= i < |to| ==> HasCur(from, to[i].cur)
    ensures |r| == |to|
    ensures forall i :: 0 <= i < |to| ==> r[i] == to[i].(commit := r[i].commit)
    ensures forall i, j :: 0 <= i < |to| && 0 <= j < |from| && from[j].cur == to[i].cur ==> r[i].commit == from[j].commit
  {
    r := to;
    var m, p := 0, 0;
    while p < |r|
      invariant 0 <= m <= |from| && 0 <= p <= |r| == |to|
      invariant forall i :: 0 <= i < |to| ==> r[i] == to[i].(commit := r[i].commit)
      invariant forall i, j :: 0 <= i < p && 0 <= j < |from| && from[j].cur == to[i].cur ==> r[i].commit == from[j].commit
      invariant forall i, j :: p <= i < |to| && 0 <= j < m ==> from[j].cur < to[i].cur
      decreases |r| - p + |from| - m
    {
      assert HasCur(from, to[p].cur);
      if m >= |from| { break; }
      if r[p].cur == from[m].cur {
        r := r[p := r[p].(commit := from[m].commit)];
        m, p := m + 1, p + 1;
      } else if r[p].cur < from[m].cur {
        p := p + 1;
      } else {
        m := m + 1;
      }
    }
  }

  /** One line after parent `no` offers `d`: it takes the offer when it has no answer yet
      or when `no` is a lower-numbered parent than the one that answered. */
  function Offer(l: LineMap, d: Option<Commit>, no: int): LineMap {
    if l.commit.None? || no < l.fromParent then l.(commit := d, fromParent := no) else l
  }

  /** `r` is `needs` after one parent's answers were applied. */
  ghost predicate Applied(needs: Needs, from: Needs, byOrig: bool, no: int, r: Needs) {
    && |r| == |needs|
    && forall i :: 0 <= i < |needs| ==>
      if Supplies(from, byOrig, needs[i].cur)
      then exists d :: AnswerAt(from, byOrig, needs[i].cur, d) && r[i] == Offer(needs[i], d, no)
      else r[i] == needs[i]
  }

  /** Line by line over an identical file; the layouts must agree. */
  method ApplyIdentical(needs: Needs, from: Needs, no: int) returns (ok: bool, r: Needs)
    requires Sorted(needs)
    ensures ok <==> SameLines(needs, from)
    ensures ok ==> Applied(needs, from, false, no, r)
  {
    r := needs;
    if |needs| != |from| { return false, r; }
    var i := 0;
    while i < |needs|
      invariant 0 <= i <= |needs| == |from| == |r|
      invariant forall k :: 0 <= k < i ==> needs[k].cur == from[k].cur && needs[k].orig == from[k].orig
      invariant forall k :: 0 <= k < i ==> r[k] == Offer(needs[k], from[k].commit, no)
      invariant forall k :: i <= k < |needs| ==> r[k] == needs[k]
    {
      var l, nm := r[i], from[i];
      if l.cur != nm.cur || l.orig != nm.orig { return false, r; }
      if l.commit.None? || no < l.fromParent {
        r := r[i := l.(commit := nm.commit, fromParent := no)];
      }
      i := i + 1;
    }
    ok := true;
    forall k | 0 <= k < |needs|
      ensures Supplies(from, false, needs[k].cur) && AnswerAt(from, false, needs[k].cur, from[k].commit)
    {
    }
  }

  /** Two-pointer join of the child's lines with the parent's `orig` numbers. */
  method ApplyByOrig(needs: Needs, from: Needs, no: int) returns (r: Needs)
    requires Sorted(needs) && OrigSorted(from)
    ensures Applied(needs, from, true, no, r)
  {
    r := needs;
    var i, k := 0, 0;
    while k < |needs|
      invariant 0 <= i <= |from| && 0 <= k <= |needs| == |r|
      invariant forall j :: 0 <= j < k ==> Applied([needs[j]], from, true, no, [r[j]])
      invariant forall j :: k <= j < |needs| ==> r[j] == needs[j]
      invariant forall j, m :: k <= j < |needs| && 0 <= m < i ==> from[m].orig < needs[j].cur
    {
      while i < |from| && from[i].orig < r[k].cur
        invariant 0 <= i <= |from|
        invariant forall m :: 0 <= m < i ==> from[m].orig < needs[k].cur
      {
        i := i + 1;
      }
      if i == |from| { break; }
      if r[k].cur == from[i].orig {
        assert AnswerAt(from, true, needs[k].cur, from[i].commit);
        if r[k].commit.None? || no < r[k].fromParent {
          r := r[k := r[k].(commit := from[i].commit, fromParent := no)];
        }
        assert r[k] == Offer(needs[k], from[i].commit, no);
      }
      assert Applied([needs[k]], from, true, no, [r[k]]);
      k := k + 1;
    }
    forall j | 0 <= j < |needs|
      ensures Applied([needs[j]], from, true, no, [r[j]])
    {
    }
    forall j | 0 <= j < |needs|
      ensures if Supplies(from, true, needs[j].cur)
              then exists d :: AnswerAt(from, true, needs[j].cur, d) && r[j] == Offer(needs[j], d, no)
              else r[j] == needs[j]
    {
      assert Applied([needs[j]], from, true, no, [r[j]]);
      assert [needs[j]][0] == needs[j] && [r[j]][0] == r[j];
    }
  }

  // ---- Order of the parents does not matter --------------------------------------------

  datatype Offered = Offered(no: int, commit: Option<Commit>)

  function OfferAll(l: LineMap, offers: seq<Offered>): LineMap {
    if offers == [] then l
    else Offer(OfferAll(l, offers[..|offers| - 1]), offers[|offers| - 1].commit, offers[|offers| - 1].no)
  }

  ghost predicate DistinctParents(offers: seq<Offered>) {
    && (forall i :: 0 <= i < |offers| ==> offers[i].no >= 0 && offers[i].commit.Some?)
    && forall i, j :: 0 <= i < j < |offers| ==> offers[i].no != offers[j].no
  }

  /** In whatever order the parents answer, the line holds the answer of the
      lowest-numbered parent that offers one. */
  lemma {:induction false} LowestParentWins(l: LineMap, offers: seq<Offered>, k: nat)
    requires l.commit.None? && DistinctParents(offers) && k < |offers|
    requires forall i :: 0 <= i < |offers| ==> offers[k].no <= offers[i].no
    ensures OfferAll(l, offers) == l.(commit := offers[k].commit, fromParent := offers[k].no)
  {
    var n := |offers| - 1;
    var pre := offers[..n];
    if k < n {
      LowestParentWins(l, pre, k);
    } else if pre != [] {
      var j := Lowest(pre);
      LowestParentWins(l, pre, j);
    }
  }

  lemma {:induction false} Lowest(offers: seq<Offered>) returns (k: nat)
    requires offers != []
    ensures k < |offers| && forall i :: 0 <= i < |offers| ==> offers[k].no <= offers[i].no
  {
    var n := |offers| - 1;
    if n == 0 {
      k := 0;
    } else {
      k := Lowest(offers[..n]);
      assert forall i :: 0 <= i < n ==> offers[..n][i] == offers[i];
      if offers[n].no < offers[k].no { k := n; }
    }
  }

  /** Reordering the parents' answers changes nothing. */
  lemma OfferOrderIrrelevant(l: LineMap, offers: seq<Offered>, offers': seq<Offered>)
    requires l.commit.None? && DistinctParents(offers) && DistinctParents(offers')
    requires multiset(offers) == multiset(offers')
    ensures OfferAll(l, offers) == OfferAll(l, offers')
  {
    assert forall o :: o in offers <==> o in multiset(offers);
    assert forall o :: o in offers' <==> o in multiset(offers');
    assert |offers| == |multiset(offers)| == |multiset(offers')| == |offers'|;
    if offers != [] {
      var k := Lowest(offers);
      assert offers[k] in offers';
      var k' :| 0 <= k' < |offers'| && offers'[k'] == offers[k];
      forall i | 0 <= i < |offers'|
        ensures offers'[k'].no <= offers'[i].no
      {
        assert offers'[i] in offers;
      }
      LowestParentWins(l, offers, k);
      LowestParentWins(l, offers', k');
    }
  }
}
