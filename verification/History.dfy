/**
 Commit history of one file and what it means to blame a line.

 A line script is what the line diff returns: equal and delete hunks spell the old
 file, equal and insert hunks spell the new one.  A history is a finite acyclic graph
 of commits; `parents` lists only the parents that contain the blamed path.
*/
module LineScript {
  import opened Wrappers

  type Line = string

  datatype Op = Equal | Insert | Delete

  datatype Hunk = Hunk(op: Op, lines: seq<Line>)

  function OldLines(s: seq<Hunk>): seq<Line> {
    if s == [] then []
    else (if s[0].op.Insert? then [] else s[0].lines) + OldLines(s[1..])
  }

  function NewLines(s: seq<Hunk>): seq<Line> {
    if s == [] then []
    else (if s[0].op.Delete? then [] else s[0].lines) + NewLines(s[1..])
  }

  ghost predicate IsScript(s: seq<Hunk>, old_: seq<Line>, new_: seq<Line>) {
    OldLines(s) == old_ && NewLines(s) == new_
  }

  function Shift(o: Option<nat>, n: nat): Option<nat> {
    if o.Some? then Some(o.value + n) else None
  }

  /** The old line that an equal hunk pairs with new line `i`, if there is one. */
  function Origin(s: seq<Hunk>, i: nat): Option<nat> {
    if s == [] then None
    else
      var n := |s[0].lines|;
      match s[0].op
      case Equal => if i < n then Some(i) else Shift(Origin(s[1..], i - n), n)
      case Insert => if i < n then None else Origin(s[1..], i - n)
      case Delete => Shift(Origin(s[1..], i), n)
  }

  lemma {:induction false} OriginSameLine(s: seq<Hunk>, i: nat)
    ensures var o := Origin(s, i);
            o.Some? ==> i < |NewLines(s)| && o.value < |OldLines(s)| && NewLines(s)[i] == OldLines(s)[o.value]
  {
    if s != [] {
      var lines, rest := s[0].lines, s[1..];
      var n, olds, news := |lines|, OldLines(rest), NewLines(rest);
      match s[0].op {
        case Equal =>
          if i >= n { OriginSameLine(rest, i - n); }
          BothLater(lines, olds, news, Origin(rest, if i >= n then i - n else 0), i);
        case Insert =>
          if i >= n { OriginSameLine(rest, i - n); }
          Later(lines, news, i);
        case Delete =>
          OriginSameLine(rest, i);
          assert [] + news == news;
          if Origin(rest, i).Some? { Later(lines, olds, Origin(rest, i).value + n); }
      }
    }
  }

  lemma Later(a: seq<Line>, b: seq<Line>, k: nat)
    ensures |a| <= k < |a| + |b| ==> (a + b)[k] == b[k - |a|]
  {
  }

  lemma BothLater(lines: seq<Line>, olds: seq<Line>, news: seq<Line>, o: Option<nat>, i: nat)
    ensures i < |lines| ==> (lines + olds)[i] == (lines + news)[i]
    ensures |lines| <= i < |lines| + |news| ==> (lines + news)[i] == news[i - |lines|]
    ensures o.Some? && o.value < |olds| ==> (lines + olds)[o.value + |lines|] == olds[o.value]
  {
  }

  lemma {:induction false} OriginIncreasing(s: seq<Hunk>, i: nat, i': nat)
    requires i < i' && Origin(s, i).Some? && Origin(s, i').Some?
    ensures Origin(s, i).value < Origin(s, i').value
  {
    var n := |s[0].lines|;
    if s[0].op.Delete? {
      OriginIncreasing(s[1..], i, i');
    } else if i >= n {
      OriginIncreasing(s[1..], i - n, i' - n);
    }
  }

  lemma {:induction false} LinesAppend(s: seq<Hunk>, t: seq<Hunk>)
    ensures NewLines(s + t) == NewLines(s) + NewLines(t)
    ensures OldLines(s + t) == OldLines(s) + OldLines(t)
  {
    if s == [] {
      assert s + t == t && NewLines(s) == [] && OldLines(s) == [];
      assert [] + NewLines(t) == NewLines(t) && [] + OldLines(t) == OldLines(t);
    } else {
      assert (s + t)[1..] == s[1..] + t && (s + t)[0] == s[0];
      LinesAppend(s[1..], t);
      var new0 := if s[0].op.Delete? then [] else s[0].lines;
      var old0 := if s[0].op.Insert? then [] else s[0].lines;
      Grouped(new0, NewLines(s[1..]), NewLines(t));
      Grouped(old0, OldLines(s[1..]), OldLines(t));
    }
  }

  lemma Grouped(a: seq<Line>, b: seq<Line>, c: seq<Line>)
    ensures a + (b + c) == (a + b) + c
  {
  }

  /** A script can be read hunk by hunk: a later new line is found in the later hunks. */
  lemma {:induction false} OriginAppend(s: seq<Hunk>, t: seq<Hunk>, i: nat)
    requires |NewLines(s)| <= i
    ensures Origin(s + t, i) == Shift(Origin(t, i - |NewLines(s)|), |OldLines(s)|)
  {
    if s == [] {
      assert s + t == t;
    } else {
      assert (s + t)[1..] == s[1..] + t;
      OriginAppend(s[1..], t, if s[0].op.Delete? then i else i - |s[0].lines|);
    }
  }
}

module History {
  import opened Wrappers
  import opened LineScript

  /** A commit is named by its hash; hashing is injective here. */
  type Commit = nat

  datatype History = History(
    parents: Commit -> seq<Commit>,
    file: Commit -> seq<Line>,
    committed: Commit -> int,
    authored: Commit -> int,
    diff: (seq<Line>, seq<Line>) -> seq<Hunk>,
    generation: Commit -> nat)

  ghost predicate Valid(h: History) {
    && (forall c, k :: 0 <= k < |h.parents(c)| ==> h.generation(h.parents(c)[k]) < h.generation(c))
    && (forall a, b :: IsScript(h.diff(a, b), a, b))
  }

  /** `Commit.less`: committer date, then author date, then hash. */
  predicate Less(h: History, a: Commit, b: Commit) {
    if h.committed(a) != h.committed(b) then h.committed(a) < h.committed(b)
    else if h.authored(a) != h.authored(b) then h.authored(a) < h.authored(b)
    else a < b
  }

  /** The line of the `k`-th parent that carries line `i` of `c`: the same line of an
      identical blob, otherwise the line an equal hunk pairs it with. */
  function Carry(h: History, c: Commit, k: nat, i: nat): (o: Option<nat>)
    requires Valid(h) && k < |h.parents(c)| && i < |h.file(c)|
    ensures o.Some? ==> o.value < |h.file(h.parents(c)[k])| && h.file(c)[i] == h.file(h.parents(c)[k])[o.value]
  {
    var p := h.parents(c)[k];
    if h.file(p) == h.file(c) then Some(i)
    else
      assert IsScript(h.diff(h.file(p), h.file(c)), h.file(p), h.file(c));
      OriginSameLine(h.diff(h.file(p), h.file(c)), i);
      Origin(h.diff(h.file(p), h.file(c)), i)
  }

  ghost predicate Carried(h: History, c: Commit, i: nat)
    requires Valid(h) && i < |h.file(c)|
  {
    exists k :: 0 <= k < |h.parents(c)| && Carry(h, c, k, i).Some?
  }

  /** `d` is an answer for line `i` of `c`: `c` itself when no parent carries the line,
      otherwise an answer for the line that some parent carries. */
  ghost predicate MayBlame(h: History, c: Commit, i: nat, d: Commit)
    requires Valid(h) && i < |h.file(c)|
    decreases h.generation(c)
  {
    if Carried(h, c, i) then
      exists k :: 0 <= k < |h.parents(c)| && Carry(h, c, k, i).Some?
                  && MayBlame(h, h.parents(c)[k], Carry(h, c, k, i).value, d)
    else d == c
  }

  /** Every answer for line `i` of `c` is an answer for line `i'` of `c'`. */
  ghost predicate Refines(h: History, c: Commit, i: nat, c': Commit, i': nat)
    requires Valid(h)
  {
    && i < |h.file(c)| && i' < |h.file(c')|
    && forall d :: MayBlame(h, c, i, d) ==> MayBlame(h, c', i', d)
  }

  lemma CarryRefines(h: History, c: Commit, k: nat, i: nat)
    requires Valid(h) && k < |h.parents(c)| && i < |h.file(c)| && Carry(h, c, k, i).Some?
    ensures Refines(h, h.parents(c)[k], Carry(h, c, k, i).value, c, i)
  {
  }

  // ---- What an answer means --------------------------------------------------------

  /** A walk from (c, i) to (d, j): each step goes to a parent that carries the line. */
  datatype Trail = Here | Step(parent: nat, rest: Trail)

  ghost predicate Follows(h: History, c: Commit, i: nat, t: Trail, d: Commit, j: nat)
    requires Valid(h) && i < |h.file(c)|
    decreases t
  {
    match t
    case Here => c == d && i == j
    case Step(k, rest) =>
      k < |h.parents(c)| && Carry(h, c, k, i).Some? &&
      Follows(h, h.parents(c)[k], Carry(h, c, k, i).value, rest, d, j)
  }

  /** A blamed commit is reached by carrying steps, still holds the same text, and none of
      its own parents carries the line further; and that describes every answer. */
  lemma {:induction false} BlameHasTrail(h: History, c: Commit, i: nat, d: Commit) returns (t: Trail, j: nat)
    requires Valid(h) && i < |h.file(c)| && MayBlame(h, c, i, d)
    ensures Follows(h, c, i, t, d, j)
    ensures j < |h.file(d)| && h.file(d)[j] == h.file(c)[i] && !Carried(h, d, j)
    decreases h.generation(c)
  {
    if Carried(h, c, i) {
      var k :| 0 <= k < |h.parents(c)| && Carry(h, c, k, i).Some?
               && MayBlame(h, h.parents(c)[k], Carry(h, c, k, i).value, d);
      var t', j' := BlameHasTrail(h, h.parents(c)[k], Carry(h, c, k, i).value, d);
      t, j := Step(k, t'), j';
    } else {
      t, j := Here, i;
    }
  }

  lemma {:induction false} TrailIsBlame(h: History, c: Commit, i: nat, t: Trail, d: Commit, j: nat)
    requires Valid(h) && i < |h.file(c)| && Follows(h, c, i, t, d, j)
    requires j < |h.file(d)| ==> !Carried(h, d, j)
    ensures MayBlame(h, c, i, d)
    decreases t
  {
    match t
    case Here =>
    case Step(k, rest) =>
      assert Carried(h, c, i);
      TrailIsBlame(h, h.parents(c)[k], Carry(h, c, k, i).value, rest, d, j);
  }

  /** When at most one parent ever carries a line, the answer is unique. */
  ghost predicate Linear(h: History)
    requires Valid(h)
  {
    forall c, i, k, k' | 0 <= k < |h.parents(c)| && 0 <= k' < |h.parents(c)| && 0 <= i < |h.file(c)| ::
      Carry(h, c, k, i).Some? && Carry(h, c, k', i).Some? ==> k == k'
  }

  lemma {:induction false} LinearAnswerUnique(h: History, c: Commit, i: nat, d: Commit, d': Commit)
    requires Valid(h) && Linear(h) && i < |h.file(c)| && MayBlame(h, c, i, d) && MayBlame(h, c, i, d')
    ensures d == d'
    decreases h.generation(c)
  {
    if Carried(h, c, i) {
      var k :| 0 <= k < |h.parents(c)| && Carry(h, c, k, i).Some?
               && MayBlame(h, h.parents(c)[k], Carry(h, c, k, i).value, d);
      var k' :| 0 <= k' < |h.parents(c)| && Carry(h, c, k', i).Some?
               && MayBlame(h, h.parents(c)[k'], Carry(h, c, k', i).value, d');
      LinearAnswerUnique(h, h.parents(c)[k], Carry(h, c, k, i).value, d, d');
    }
  }

  // ---- Which answer the walk gives -----------------------------------------------------------

  /** Parent `k` is the lowest-numbered one that carries the line. */
  ghost predicate First(h: History, c: Commit, k: nat, i: nat)
    requires Valid(h) && i < |h.file(c)|
  {
    k < |h.parents(c)| && Carry(h, c, k, i).Some? && forall j :: 0 <= j < k ==> Carry(h, c, j, i).None?
  }

  lemma {:induction false} HasFirst(h: History, c: Commit, i: nat, k: nat) returns (j: nat)
    requires Valid(h) && i < |h.file(c)| && k < |h.parents(c)| && Carry(h, c, k, i).Some?
    ensures j <= k && First(h, c, j, i)
  {
    if l :| 0 <= l < k && Carry(h, c, l, i).Some? { j := HasFirst(h, c, i, l); } else { j := k; }
  }

  /** Parents with one and the same file lead from `c` to `a`. */
  ghost predicate Leads(h: History, c: Commit, a: Commit)
    requires Valid(h)
    decreases h.generation(c)
  {
    c == a || exists k :: 0 <= k < |h.parents(c)| && h.file(h.parents(c)[k]) == h.file(c) && Leads(h, h.parents(c)[k], a)
  }

  /** Parent `k` of `c` has the same file and leads to `p`. */
  ghost predicate LeadsBy(h: History, c: Commit, k: int, p: Commit)
    requires Valid(h)
  {
    0 <= k < |h.parents(c)| && h.file(h.parents(c)[k]) == h.file(c) && Leads(h, h.parents(c)[k], p)
  }

  /** Two parents of `a` lead to `p`. */
  ghost predicate Meet(h: History, a: Commit, p: Commit)
    requires Valid(h)
  {
    exists j, k :: j < k && LeadsBy(h, a, j, p) && LeadsBy(h, a, k, p)
  }

  /** Some commit that `c` leads to has two parents that lead to `p`. */
  ghost predicate Skips(h: History, c: Commit, p: Commit)
    requires Valid(h)
  {
    exists a :: Leads(h, c, a) && Meet(h, a, p)
  }

  /** An answer for the line that parent `k` carries. */
  ghost predicate Via(h: History, c: Commit, k: int, i: nat, d: Commit)
    requires Valid(h) && i < |h.file(c)|
    decreases h.generation(c), 0
  {
    0 <= k < |h.parents(c)| && Carry(h, c, k, i).Some?
    && Blames(h, h.parents(c)[k], Carry(h, c, k, i).value, d, h.file(h.parents(c)[k]) == h.file(c))
  }

  /** The owner the walk finds: the commit itself when no parent carries the line, otherwise what the
      first parent that carries it answers.  Asked by a child with the same file, it may instead be
      what a commit answers that two identical parents lead to. */
  ghost predicate Blames(h: History, c: Commit, i: nat, d: Commit, skip: bool)
    requires Valid(h) && i < |h.file(c)|
    decreases h.generation(c), 1
  {
    || (!Carried(h, c, i) && d == c)
    || (exists k: nat :: First(h, c, k, i) && Via(h, c, k, i, d))
    || (skip && exists p :: Skips(h, c, p) && h.generation(p) < h.generation(c) && i < |h.file(p)| && Blames(h, p, i, d, true))
  }

  lemma {:induction false} LeadsOn(h: History, c: Commit, a: Commit, b: Commit)
    requires Valid(h) && Leads(h, c, a) && Leads(h, a, b)
    ensures Leads(h, c, b) && h.file(b) == h.file(c) && h.generation(b) <= h.generation(c)
    decreases h.generation(c) + h.generation(a)
  {
    if c != a {
      var k :| 0 <= k < |h.parents(c)| && h.file(h.parents(c)[k]) == h.file(c) && Leads(h, h.parents(c)[k], a);
      LeadsOn(h, h.parents(c)[k], a, b);
    } else if a != b {
      var k :| 0 <= k < |h.parents(a)| && h.file(h.parents(a)[k]) == h.file(a) && Leads(h, h.parents(a)[k], b);
      LeadsOn(h, h.parents(a)[k], h.parents(a)[k], b);
    }
  }

  lemma LeadsByOn(h: History, c: Commit, k: int, a: Commit, b: Commit)
    requires Valid(h) && LeadsBy(h, c, k, a) && Leads(h, a, b)
    ensures LeadsBy(h, c, k, b) && Leads(h, c, b) && h.file(b) == h.file(c) && h.generation(b) < h.generation(c)
  {
    LeadsOn(h, h.parents(c)[k], a, b);
  }

  lemma SkipsFacts(h: History, c: Commit, p: Commit)
    requires Valid(h) && Skips(h, c, p)
    ensures Leads(h, c, p) && h.file(p) == h.file(c) && h.generation(p) < h.generation(c)
  {
    hide Leads;
    var a :| Leads(h, c, a) && Meet(h, a, p);
    var j, k :| j < k && LeadsBy(h, a, j, p) && LeadsBy(h, a, k, p);
    SelfLeads(h, p);
    LeadsByOn(h, a, j, p, p);
    LeadsOn(h, c, a, p);
    SelfLeads(h, a);
    LeadsOn(h, c, a, a);
  }

  lemma SelfLeads(h: History, c: Commit)
    requires Valid(h)
    ensures Leads(h, c, c)
  {
  }

  lemma SkipsOn(h: History, c: Commit, b: Commit, p: Commit)
    requires Valid(h) && Leads(h, c, b) && Skips(h, b, p)
    ensures Skips(h, c, p)
  {
    hide Leads, Meet;
    var a :| Leads(h, b, a) && Meet(h, a, p);
    LeadsOn(h, c, b, a);
  }

  /** Every answer of `p` is one of `c`, when asked by a child with the same file. */
  lemma SkipBlames(h: History, c: Commit, p: Commit, i: nat, d: Commit)
    requires Valid(h) && Skips(h, c, p) && i < |h.file(c)|
    ensures i < |h.file(p)| && (Blames(h, p, i, d, true) ==> Blames(h, c, i, d, true))
  {
    hide Skips, First, Via;
    SkipsFacts(h, c, p);
  }

  /** A single identical parent answers for its child. */
  lemma OnlyParentBlames(h: History, c: Commit, i: nat, d: Commit)
    requires Valid(h) && |h.parents(c)| == 1 && h.file(h.parents(c)[0]) == h.file(c) && i < |h.file(c)|
    ensures Blames(h, h.parents(c)[0], i, d, true) ==> Blames(h, c, i, d, true)
  {
    hide Skips;
    assert First(h, c, 0, i);
    if Blames(h, h.parents(c)[0], i, d, true) { assert Via(h, c, 0, i, d); }
  }

  lemma {:induction false} LeadsMay(h: History, c: Commit, p: Commit, i: nat, d: Commit)
    requires Valid(h) && Leads(h, c, p) && i < |h.file(c)| && i < |h.file(p)| && MayBlame(h, p, i, d)
    ensures MayBlame(h, c, i, d)
    decreases h.generation(c)
  {
    if c != p {
      var k :| 0 <= k < |h.parents(c)| && h.file(h.parents(c)[k]) == h.file(c) && Leads(h, h.parents(c)[k], p);
      LeadsMay(h, h.parents(c)[k], p, i, d);
      CarryRefines(h, c, k, i);
    }
  }

  /** What the walk finds is a sound answer. */
  lemma {:induction false} BlamesMay(h: History, c: Commit, i: nat, d: Commit, skip: bool)
    requires Valid(h) && i < |h.file(c)| && Blames(h, c, i, d, skip)
    ensures MayBlame(h, c, i, d)
    decreases h.generation(c)
  {
    hide Skips, MayBlame;
    if !Carried(h, c, i) && d == c {
      Itself(h, c, i);
    } else if k: nat :| First(h, c, k, i) && Via(h, c, k, i, d) {
      var p := h.parents(c)[k];
      BlamesMay(h, p, Carry(h, c, k, i).value, d, h.file(p) == h.file(c));
      CarryRefines(h, c, k, i);
    } else {
      var p :| Skips(h, c, p) && h.generation(p) < h.generation(c) && i < |h.file(p)| && Blames(h, p, i, d, true);
      BlamesMay(h, p, i, d, true);
      SkipsFacts(h, c, p);
      LeadsMay(h, c, p, i, d);
    }
  }

  lemma Itself(h: History, c: Commit, i: nat)
    requires Valid(h) && i < |h.file(c)| && !Carried(h, c, i)
    ensures MayBlame(h, c, i, c)
  {
  }

  /** The owner by the rule that the first parent that carries a line decides. */
  ghost function FirstOwner(h: History, c: Commit, i: nat): Commit
    requires Valid(h) && i < |h.file(c)|
    decreases h.generation(c)
  {
    if k :| 0 <= k < |h.parents(c)| && First(h, c, k, i) then FirstOwner(h, h.parents(c)[k], Carry(h, c, k, i).value) else c
  }

  /** Neither for `c` nor for any commit before it do two identical parents lead to one commit. */
  ghost predicate Apart(h: History, c: Commit)
    requires Valid(h)
    decreases h.generation(c)
  {
    (forall p :: !Meet(h, c, p)) && forall k :: 0 <= k < |h.parents(c)| ==> Apart(h, h.parents(c)[k])
  }

  lemma {:induction false} ApartLeads(h: History, c: Commit, a: Commit)
    requires Valid(h) && Apart(h, c) && Leads(h, c, a)
    ensures Apart(h, a)
    decreases h.generation(c)
  {
    if c != a {
      var k :| 0 <= k < |h.parents(c)| && h.file(h.parents(c)[k]) == h.file(c) && Leads(h, h.parents(c)[k], a);
      ApartLeads(h, h.parents(c)[k], a);
    }
  }

  lemma ApartNoSkip(h: History, c: Commit, p: Commit)
    requires Valid(h) && Apart(h, c)
    ensures !Skips(h, c, p)
  {
    hide Leads, Meet;
    if a :| Leads(h, c, a) && Meet(h, a, p) { ApartLeads(h, c, a); }
  }

  /** There the walk's owner is the one of that rule, and no other. */
  lemma {:induction false} ApartExact(h: History, c: Commit, i: nat, d: Commit, skip: bool)
    requires Valid(h) && i < |h.file(c)| && Apart(h, c)
    ensures Blames(h, c, i, d, skip) <==> d == FirstOwner(h, c, i)
    decreases h.generation(c)
  {
    hide Skips, Meet;
    forall p ensures !Skips(h, c, p) { ApartNoSkip(h, c, p); }
    if k :| 0 <= k < |h.parents(c)| && First(h, c, k, i) {
      ApartExact(h, h.parents(c)[k], Carry(h, c, k, i).value, d, h.file(h.parents(c)[k]) == h.file(c));
      forall l | First(h, c, l, i) ensures l == k { OneFirst(h, c, i, k, l); }
    } else if Carried(h, c, i) {
      var l :| 0 <= l < |h.parents(c)| && Carry(h, c, l, i).Some?;
      var j := HasFirst(h, c, i, l);
    }
  }

  lemma OneFirst(h: History, c: Commit, i: nat, k: nat, l: nat)
    requires Valid(h) && i < |h.file(c)| && First(h, c, k, i) && First(h, c, l, i)
    ensures k == l
  {
  }

  /** The blamed commit is not asked by any child, so its own parents may meet. */
  lemma ParentsApart(h: History, c: Commit, i: nat, d: Commit)
    requires Valid(h) && i < |h.file(c)| && forall k :: 0 <= k < |h.parents(c)| ==> Apart(h, h.parents(c)[k])
    ensures Blames(h, c, i, d, false) <==> d == FirstOwner(h, c, i)
  {
    hide Skips, Meet, Apart;
    if k :| 0 <= k < |h.parents(c)| && First(h, c, k, i) {
      ApartExact(h, h.parents(c)[k], Carry(h, c, k, i).value, d, h.file(h.parents(c)[k]) == h.file(c));
      forall l | First(h, c, l, i) ensures l == k { OneFirst(h, c, i, k, l); }
    } else if Carried(h, c, i) {
      var l :| 0 <= l < |h.parents(c)| && Carry(h, c, l, i).Some?;
      var j := HasFirst(h, c, i, l);
    }
  }

  /** When no parent of `c` has a parent of its own, the first parent that carries a line owns it. */
  lemma ParentlessParents(h: History, c: Commit, i: nat, k: nat, d: Commit)
    requires Valid(h) && i < |h.file(c)| && First(h, c, k, i) && Blames(h, c, i, d, false)
    requires forall j :: 0 <= j < |h.parents(c)| ==> h.parents(h.parents(c)[j]) == []
    ensures d == h.parents(c)[k]
  {
    hide Blames;
    ParentsApart(h, c, i, d);
    OwnerByFirst(h, c, k, i);
  }

  lemma OwnerByFirst(h: History, c: Commit, k: nat, i: nat)
    requires Valid(h) && i < |h.file(c)| && First(h, c, k, i)
    ensures FirstOwner(h, c, i) == FirstOwner(h, h.parents(c)[k], Carry(h, c, k, i).value)
  {
    forall l | First(h, c, l, i) ensures l == k { OneFirst(h, c, i, k, l); }
  }

  // ---- Where the first parent's answer may be lost --------------------------------------------------

  function Replace(a: seq<Line>, b: seq<Line>): seq<Hunk> { [Hunk(Delete, a), Hunk(Insert, b)] }

  function FirstLine(a: seq<Line>, b: seq<Line>): seq<Hunk> {
    if a != [] && b != [] && a[0] == b[0] then [Hunk(Equal, [a[0]])] + Replace(a[1..], b[1..]) else Replace(a, b)
  }

  lemma FirstLineScript(a: seq<Line>, b: seq<Line>)
    ensures IsScript(FirstLine(a, b), a, b)
  {
    hide IsScript, Replace;
    if a != [] && b != [] && a[0] == b[0] {
      Replaced(a[1..], b[1..]);
      KeepFirst(a[0], Replace(a[1..], b[1..]), a[1..], b[1..]);
      assert a == [a[0]] + a[1..] && b == [b[0]] + b[1..];
    } else {
      Replaced(a, b);
    }
  }

  lemma Replaced(a: seq<Line>, b: seq<Line>)
    ensures IsScript(Replace(a, b), a, b)
  {
    var s, t := Replace(a, b), [Hunk(Insert, b)];
    assert s[1..] == t && t[1..] == [];
    assert OldLines(t) == [] && NewLines(t) == b + [] == b;
    assert OldLines(s) == a + [] == a && NewLines(s) == [] + b == b;
  }

  lemma KeepFirst(x: Line, s: seq<Hunk>, a: seq<Line>, b: seq<Line>)
    requires IsScript(s, a, b)
    ensures IsScript([Hunk(Equal, [x])] + s, [x] + a, [x] + b)
  {
    assert ([Hunk(Equal, [x])] + s)[1..] == s;
  }

  /** 5 has the parent 4, and 4 has the parents 1, 2 and 3, of which 2 and 3 come from 0.  All have the
      same line and nothing else, except that 1 has one more. */
  const Diamond := History(
    c => if c == 5 then [4] else if c == 4 then [1, 2, 3] else if c == 3 || c == 2 then [0] else [],
    c => if c == 1 then ["x", "y"] else ["x"], c => c, c => c, (a, b) => FirstLine(a, b), c => c)

  /** The first parent of 4 carries the line and so owns it for 5, but once 2 and 3 have met in 0 the
      walk passes 4 by, and with it an answer that 1 has already given. */
  lemma FirstMayLose()
    ensures Valid(Diamond) && FirstOwner(Diamond, 5, 0) == 1 && Blames(Diamond, 5, 0, 0, false)
  {
    DiamondValid();
    DiamondCarries();
    var h := Diamond;
    OwnerByFirst(h, 5, 0, 0);
    OwnerByFirst(h, 4, 0, 0);
    assert LeadsBy(h, 4, 1, 0) && LeadsBy(h, 4, 2, 0) by { OneParent(h, 2, 0); OneParent(h, 3, 0); }
    assert Leads(h, 4, 4) && Meet(h, 4, 0) && Skips(h, 4, 0);
    assert !Carried(h, 0, 0) && Blames(h, 0, 0, 0, true);
    assert Blames(h, 4, 0, 0, true) && Via(h, 5, 0, 0, 0);
  }

  lemma OneParent(h: History, c: Commit, p: Commit)
    requires Valid(h) && h.parents(c) == [p] && h.file(p) == h.file(c)
    ensures Leads(h, c, p)
  {
    assert h.parents(c)[0] == p && Leads(h, p, p);
  }

  lemma DiamondValid()
    ensures Valid(Diamond)
  {
    forall a, b ensures IsScript(Diamond.diff(a, b), a, b) { FirstLineScript(a, b); }
  }

  lemma DiamondCarries()
    ensures Valid(Diamond) && First(Diamond, 5, 0, 0) && Carry(Diamond, 5, 0, 0) == Some(0)
    ensures First(Diamond, 4, 0, 0) && Carry(Diamond, 4, 0, 0) == Some(0)
  {
    DiamondValid();
    assert FirstLine(["x", "y"], ["x"])[0] == Hunk(Equal, ["x"]);
    assert Origin(FirstLine(["x", "y"], ["x"]), 0) == Some(0);
  }
}
