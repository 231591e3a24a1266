/**
 The state of the blame walk and its invariant.

 Queue items live in an arena and refer to each other by their position in it.  An item
 hands its answers down one or more links; `pending` counts the links that still point
 at an item.  The walk keeps every link truthful: an answer for the owner's line is what the
 child's parent with the link's number answers for the child's line, whatever shortcuts were
 taken in between.
*/
module BlameWalk {
  import opened Wrappers
  import opened LineScript
  import opened History
  import opened NeedsMap

  type ItemId = nat

  datatype ChildToNeedsMap = ChildToNeedsMap(child: ItemId, needs: Needs, identical: bool, parentNo: int)

  datatype QueueItem = QueueItem(
    child: Option<ItemId>,
    merged: seq<ChildToNeedsMap>,
    commit: Commit,
    contents: seq<Line>,
    needs: Needs,
    pending: int,
    identical: bool,
    parentNo: int)

  /** The links an item hands its answers down. */
  function Links(x: QueueItem): seq<ChildToNeedsMap> {
    if x.merged != [] then x.merged
    else if x.child.Some? then [ChildToNeedsMap(x.child.value, x.needs, x.identical, x.parentNo)]
    else []
  }

  /** A link is named by its owner and its position among the owner's links. */
  type Slot = (ItemId, nat)

  predicate IsLink(a: seq<QueueItem>, s: Slot) {
    s.0 < |a| && s.1 < |Links(a[s.0])|
  }

  function LinkOf(a: seq<QueueItem>, s: Slot): ChildToNeedsMap
    requires IsLink(a, s)
  {
    Links(a[s.0])[s.1]
  }

  /** The live links that point at item `c`. */
  ghost function To(a: seq<QueueItem>, live: set<Slot>, c: ItemId): set<Slot> {
    set s | s in live && IsLink(a, s) && LinkOf(a, s).child == c
  }

  /** Arena, queue, the items waiting for parents, and the links still to be used. */
  datatype Walk = Walk(a: seq<QueueItem>, q: seq<ItemId>, waiting: set<ItemId>, live: set<Slot>)

  ghost predicate ItemOk(h: History, x: QueueItem) {
    Sorted(x.needs) && Below(x.needs, |h.file(x.commit)|)
  }

  /** Every answer the item holds came by the parent whose number it is filed under. */
  ghost predicate Sound(h: History, x: QueueItem)
    requires Valid(h)
  {
    && ItemOk(h, x)
    && forall i :: 0 <= i < |x.needs| && x.needs[i].commit.Some? ==> Via(h, x.commit, x.needs[i].fromParent, x.needs[i].cur, x.needs[i].commit.value)
  }

  /** Every answer of a finished item is the owner of its line. */
  ghost predicate Final(h: History, x: QueueItem)
    requires Valid(h)
  {
    && ItemOk(h, x)
    && forall i :: 0 <= i < |x.needs| && x.needs[i].commit.Some? ==> Blames(h, x.commit, x.needs[i].cur, x.needs[i].commit.value, false)
  }

  ghost predicate Within(s: Needs, t: Needs) {
    forall i :: 0 <= i < |s| ==> HasCur(t, s[i].cur)
  }

  /** The child's line that entry `n` of a link answers. */
  function Key(l: ChildToNeedsMap, n: LineMap): nat {
    if l.identical then n.cur else n.orig
  }

  /** What `owner` answers for line `i` its child's parent `no` answers for the child's line `j`. */
  ghost predicate Passes(h: History, owner: Commit, i: nat, skip: bool, child: Commit, no: int, j: nat)
    requires Valid(h)
  {
    i < |h.file(owner)| && j < |h.file(child)| && forall d :: Blames(h, owner, i, d, skip) ==> Via(h, child, no, j, d)
  }

  ghost predicate Truthful(h: History, owner: Commit, l: ChildToNeedsMap, child: Commit)
    requires Valid(h)
  {
    && (forall i :: 0 <= i < |l.needs| ==> Passes(h, owner, l.needs[i].cur, l.identical, child, l.parentNo, Key(l, l.needs[i])))
    && (l.identical ==> LeadsBy(h, child, l.parentNo, owner))
  }

  ghost predicate LinkOk(h: History, owner: QueueItem, l: ChildToNeedsMap, c: QueueItem)
    requires Valid(h)
  {
    && h.generation(owner.commit) < h.generation(c.commit)
    && Sorted(l.needs) && Within(l.needs, owner.needs)
    && (if l.identical then SameLines(l.needs, c.needs) else OrigSorted(l.needs))
    && Truthful(h, owner.commit, l, c.commit)
  }

  /** A live link with number `no` supplies the line. */
  ghost predicate Supplied(a: seq<QueueItem>, live: set<Slot>, c: ItemId, line: nat, no: int) {
    exists s :: s in To(a, live, c) && LinkOf(a, s).parentNo == no && Supplies(LinkOf(a, s).needs, !LinkOf(a, s).identical, line)
  }

  /** The line holds the answer of parent `j`. */
  predicate HeldFrom(n: LineMap, j: int) { n.commit.Some? && n.fromParent == j }

  /** Each line whose first carrier is one of the first `k` parents holds that parent's answer or
      has a live link of that number to supply it. */
  ghost predicate Complete(h: History, a: seq<QueueItem>, live: set<Slot>, c: ItemId, k: nat)
    requires Valid(h) && c < |a| && ItemOk(h, a[c]) && k <= |h.parents(a[c].commit)|
  {
    forall m, j :: 0 <= m < |a[c].needs| && 0 <= j < k && First(h, a[c].commit, j, a[c].needs[m].cur)
                   ==> HeldFrom(a[c].needs[m], j) || Supplied(a, live, c, a[c].needs[m].cur, j)
  }

  /** Live links to one child have different numbers. */
  ghost predicate Numbered(a: seq<QueueItem>, live: set<Slot>) {
    forall s, t :: s in live && t in live && s != t && IsLink(a, s) && IsLink(a, t) && LinkOf(a, s).child == LinkOf(a, t).child
                   ==> LinkOf(a, s).parentNo != LinkOf(a, t).parentNo
  }

  ghost predicate RootOk(h: History, root: Commit, a: seq<QueueItem>) {
    && |a| > 0
    && a[0].commit == root && a[0].child.None? && a[0].merged == [] && !a[0].identical
    && |a[0].needs| == |h.file(root)| && (forall i :: 0 <= i < |a[0].needs| ==> a[0].needs[i].cur == i)
    && (forall y :: 0 < y < |a| ==> h.generation(a[y].commit) < h.generation(root))
  }

  /** An item that was pushed and not yet processed. */
  ghost predicate Fresh(h: History, w: Walk, x: ItemId) {
    && x < |w.a|
    && var i := w.a[x];
       && i.merged == [] && i.pending == 0 && Unanswered(i.needs) && ItemOk(h, i) && i.contents == h.file(i.commit)
       && (if x == 0 then i.child.None? else i.child.Some? && (x, 0) in w.live)
  }

  ghost predicate QueueOk(h: History, w: Walk) {
    && (forall i, j :: 0 <= i < j < |w.q| ==> w.q[i] != w.q[j])
    && (forall x :: x in w.q ==> x !in w.waiting && Fresh(h, w, x))
  }

  ghost predicate OwnsLinks(w: Walk, x: ItemId)
    requires x < |w.a|
  {
    && (forall k :: 0 <= k < |Links(w.a[x])| ==> (x, k) in w.live)
    && (x == 0 <==> Links(w.a[x]) == [])
  }

  /** An item that waits for parents: `pending` is the number of live links to it. */
  ghost predicate Waits(h: History, w: Walk, busy: set<ItemId>, c: ItemId)
    requires Valid(h)
  {
    && c < |w.a| && Sound(h, w.a[c]) && OwnsLinks(w, c)
    && w.a[c].pending == |To(w.a, w.live, c)|
    && (c !in busy ==> Complete(h, w.a, w.live, c, |h.parents(w.a[c].commit)|))
  }

  ghost predicate WaitingOk(h: History, w: Walk, busy: set<ItemId>)
    requires Valid(h)
  {
    forall c :: c in w.waiting ==> Waits(h, w, busy, c)
  }

  ghost predicate LinksOk(h: History, w: Walk, stack: set<ItemId>)
    requires Valid(h)
  {
    forall s :: s in w.live ==>
      && IsLink(w.a, s)
      && (s.0 in w.q || s.0 in w.waiting || s.0 in stack)
      && var l := LinkOf(w.a, s);
         l.child < |w.a| && l.child in w.waiting && LinkOk(h, w.a[s.0], l, w.a[l.child])
  }

  /** The invariant; `stack` holds the items in hand, `busy` those whose parents are being visited. */
  ghost predicate Inv(h: History, root: Commit, w: Walk, stack: set<ItemId>, busy: set<ItemId>)
    requires Valid(h)
  {
    && RootOk(h, root, w.a)
    && QueueOk(h, w)
    && WaitingOk(h, w, busy)
    && LinksOk(h, w, stack)
    && Numbered(w.a, w.live)
    && (forall x :: x in stack ==> x < |w.a| && x !in w.waiting && x !in w.q)
    && (0 in w.q || 0 in w.waiting || 0 in stack)
    && (0 in w.q ==> |w.a| == 1)
  }

  // ---- Steps that change answers and counters, or append items ---------------------------

  ghost predicate SameLink(l: ChildToNeedsMap, l': ChildToNeedsMap) {
    l' == l.(needs := l'.needs) && SameLines(l.needs, l'.needs)
  }

  ghost predicate SameItem(x: QueueItem, x': QueueItem) {
    && x' == x.(needs := x'.needs, merged := x'.merged, pending := x'.pending, contents := x'.contents)
    && SameLines(x.needs, x'.needs)
    && |x.merged| == |x'.merged|
    && forall k :: 0 <= k < |x.merged| ==> SameLink(x.merged[k], x'.merged[k])
  }

  ghost predicate Frame(a: seq<QueueItem>, a': seq<QueueItem>) {
    |a| <= |a'| && forall y :: 0 <= y < |a| ==> SameItem(a[y], a'[y])
  }

  lemma FrameLink(a: seq<QueueItem>, a': seq<QueueItem>, s: Slot)
    requires Frame(a, a') && s.0 < |a|
    ensures IsLink(a', s) <==> IsLink(a, s)
    ensures IsLink(a, s) ==> SameLink(LinkOf(a, s), LinkOf(a', s))
  {
  }

  lemma FrameTo(a: seq<QueueItem>, a': seq<QueueItem>, live: set<Slot>, c: ItemId)
    requires Frame(a, a') && forall s :: s in live ==> IsLink(a, s)
    ensures To(a', live, c) == To(a, live, c)
    ensures forall line, no :: Supplied(a, live, c, line, no) ==> Supplied(a', live, c, line, no)
  {
  }

  lemma FrameNumbers(a: seq<QueueItem>, a': seq<QueueItem>, live: set<Slot>, live': set<Slot>)
    requires Frame(a, a') && Numbered(a, live) && live' <= live && forall s :: s in live ==> IsLink(a, s)
    ensures Numbered(a', live')
  {
    hide Frame;
    forall s | s in live' ensures s in live && IsLink(a, s) && IsLink(a', s) && SameLink(LinkOf(a, s), LinkOf(a', s)) {
      FrameLink(a, a', s);
    }
  }

  lemma FrameLinkOk(h: History, owner: QueueItem, l: ChildToNeedsMap, c: QueueItem,
                    owner': QueueItem, l': ChildToNeedsMap, c': QueueItem)
    requires Valid(h) && LinkOk(h, owner, l, c)
    requires SameItem(owner, owner') && SameLink(l, l') && SameItem(c, c')
    ensures LinkOk(h, owner', l', c')
  {
  }

  /** Everything about live links survives a step that only changes answers and counters. */
  lemma FrameLinks(h: History, w: Walk, stack: set<ItemId>, a': seq<QueueItem>)
    requires Valid(h) && LinksOk(h, w, stack) && Frame(w.a, a')
    ensures LinksOk(h, w.(a := a'), stack)
  {
    forall s | s in w.live
      ensures IsLink(a', s) && var l := LinkOf(a', s);
              l.child < |a'| && l.child in w.waiting && LinkOk(h, a'[s.0], l, a'[l.child])
    {
      FrameLink(w.a, a', s);
      var l := LinkOf(w.a, s);
      FrameLinkOk(h, w.a[s.0], l, w.a[l.child], a'[s.0], LinkOf(a', s), a'[l.child]);
    }
  }

  lemma FrameRoot(h: History, root: Commit, a: seq<QueueItem>, a': seq<QueueItem>)
    requires RootOk(h, root, a) && Frame(a, a') && |a| == |a'|
    ensures RootOk(h, root, a')
  {
  }

  // ---- Handing one link's answers to its child -------------------------------------------

  lemma AppliedSame(needs: Needs, from: Needs, byOrig: bool, no: int, r: Needs)
    requires Applied(needs, from, byOrig, no, r)
    ensures SameLines(needs, r)
  {
  }

  function AfterApply(w: Walk, s: Slot, r: Needs): Walk
    requires IsLink(w.a, s) && LinkOf(w.a, s).child < |w.a|
  {
    var c := LinkOf(w.a, s).child;
    Walk(w.a[c := w.a[c].(needs := r, pending := w.a[c].pending - 1)], w.q, w.waiting, w.live - {s})
  }

  /** The link's answers are all there and own the owner's lines. */
  ghost predicate LinkAnswers(h: History, owner: Commit, l: ChildToNeedsMap)
    requires Valid(h)
  {
    && Answered(l.needs)
    && forall i :: 0 <= i < |l.needs| ==>
         l.needs[i].cur < |h.file(owner)| && Blames(h, owner, l.needs[i].cur, l.needs[i].commit.value, false)
  }

  lemma ApplySound(h: History, owner: Commit, l: ChildToNeedsMap, c: QueueItem, r: Needs)
    requires Valid(h) && Truthful(h, owner, l, c.commit) && LinkAnswers(h, owner, l)
    requires Sound(h, c) && Applied(c.needs, l.needs, !l.identical, l.parentNo, r)
    ensures Sound(h, c.(needs := r))
  {
    forall i | 0 <= i < |r| && r[i].commit.Some?
      ensures r[i].cur < |h.file(c.commit)| && Via(h, c.commit, r[i].fromParent, r[i].cur, r[i].commit.value)
    {
      if Supplies(l.needs, !l.identical, c.needs[i].cur) {
        OfferedAnswer(h, owner, l, c.commit, c.needs[i], r[i]);
      }
    }
    AppliedSame(c.needs, l.needs, !l.identical, l.parentNo, r);
    SameItemOk(h, c, r);
  }

  lemma SameItemOk(h: History, c: QueueItem, r: Needs)
    requires ItemOk(h, c) && SameLines(c.needs, r)
    ensures ItemOk(h, c.(needs := r))
  {
  }

  lemma OfferedAnswer(h: History, owner: Commit, l: ChildToNeedsMap, child: Commit, n: LineMap, n': LineMap)
    requires Valid(h) && Truthful(h, owner, l, child) && LinkAnswers(h, owner, l)
    requires n.cur < |h.file(child)| && n'.commit.Some?
    requires n.commit.Some? ==> Via(h, child, n.fromParent, n.cur, n.commit.value)
    requires exists d :: AnswerAt(l.needs, !l.identical, n.cur, d) && n' == Offer(n, d, l.parentNo)
    ensures Via(h, child, n'.fromParent, n.cur, n'.commit.value)
    ensures n'.cur == n.cur && n'.fromParent == if n.commit.None? || l.parentNo < n.fromParent then l.parentNo else n.fromParent
  {
    hide Via;
    var d :| AnswerAt(l.needs, !l.identical, n.cur, d) && n' == Offer(n, d, l.parentNo);
    var i :| 0 <= i < |l.needs| && Key(l, l.needs[i]) == n.cur && l.needs[i].commit == d;
    assert Passes(h, owner, l.needs[i].cur, l.identical, child, l.parentNo, n.cur);
    Asked(h, owner, l.needs[i].cur, d.value, l.identical);
  }

  /** An owner of a line is also what an identical child may be answered. */
  lemma Asked(h: History, c: Commit, i: nat, d: Commit, skip: bool)
    requires Valid(h) && i < |h.file(c)| && Blames(h, c, i, d, false)
    ensures Blames(h, c, i, d, skip)
  {
  }

  /** A line that its first carrier answers holds that answer from then on. */
  lemma OfferedFirst(h: History, owner: Commit, l: ChildToNeedsMap, c: QueueItem, r: Needs, m: nat, j: nat)
    requires Valid(h) && Truthful(h, owner, l, c.commit) && LinkAnswers(h, owner, l) && Sound(h, c)
    requires Applied(c.needs, l.needs, !l.identical, l.parentNo, r) && m < |c.needs| && First(h, c.commit, j, c.needs[m].cur)
    ensures m < |r| && r[m].cur == c.needs[m].cur
    ensures HeldFrom(c.needs[m], j) || (l.parentNo == j && Supplies(l.needs, !l.identical, c.needs[m].cur)) ==> HeldFrom(r[m], j)
  {
    hide First, Via, Truthful, Blames;
    var n := c.needs[m];
    if Supplies(l.needs, !l.identical, n.cur) {
      Answers(l, n, r[m]);
      OfferedAnswer(h, owner, l, c.commit, n, r[m]);
      NotBefore(h, c.commit, j, n.cur, r[m].fromParent, r[m].commit.value);
      if n.commit.Some? { NotBefore(h, c.commit, j, n.cur, n.fromParent, n.commit.value); }
    }
  }

  lemma Answers(l: ChildToNeedsMap, n: LineMap, n': LineMap)
    requires Answered(l.needs) && exists d :: AnswerAt(l.needs, !l.identical, n.cur, d) && n' == Offer(n, d, l.parentNo)
    ensures n'.commit.Some? && n'.cur == n.cur
  {
  }

  /** Nothing comes by a parent before the first carrier. */
  lemma NotBefore(h: History, c: Commit, j: nat, i: nat, no: int, d: Commit)
    requires Valid(h) && i < |h.file(c)| && First(h, c, j, i) && Via(h, c, no, i, d)
    ensures j <= no
  {
  }

  lemma ApplyComplete(h: History, w: Walk, s: Slot, stack: set<ItemId>, r: Needs)
    requires Valid(h) && LinksOk(h, w, stack) && s in w.live && LinkAnswers(h, w.a[s.0].commit, LinkOf(w.a, s))
    requires var l := LinkOf(w.a, s);
             && Sound(h, w.a[l.child]) && Applied(w.a[l.child].needs, l.needs, !l.identical, l.parentNo, r)
             && Complete(h, w.a, w.live, l.child, |h.parents(w.a[l.child].commit)|)
    ensures var c := LinkOf(w.a, s).child; var w' := AfterApply(w, s, r);
            ItemOk(h, w'.a[c]) && Complete(h, w'.a, w'.live, c, |h.parents(w'.a[c].commit)|)
  {
    var l := LinkOf(w.a, s);
    var c := w.a[l.child];
    var w' := AfterApply(w, s, r);
    assert Frame(w.a, w'.a);
    FrameTo(w.a, w'.a, w'.live, l.child);
    assert Truthful(h, w.a[s.0].commit, l, c.commit) by { assert LinkOk(h, w.a[s.0], l, c); }
    assert ItemOk(h, w'.a[l.child]) by { AppliedSame(c.needs, l.needs, !l.identical, l.parentNo, r); }
    forall m, j | 0 <= m < |r| && 0 <= j < |h.parents(c.commit)| && First(h, c.commit, j, r[m].cur)
      ensures HeldFrom(r[m], j) || Supplied(w'.a, w'.live, l.child, r[m].cur, j)
    {
      hide Frame, LinksOk, Sound, LinkAnswers, Truthful, LinkOk, Supplied, First;
      ApplyLine(h, w, s, r, m, j);
    }
  }

  lemma ApplyLine(h: History, w: Walk, s: Slot, r: Needs, m: nat, j: nat)
    requires Valid(h) && IsLink(w.a, s) && LinkOf(w.a, s).child < |w.a| && LinkAnswers(h, w.a[s.0].commit, LinkOf(w.a, s))
    requires var l := LinkOf(w.a, s);
             && Sound(h, w.a[l.child]) && Applied(w.a[l.child].needs, l.needs, !l.identical, l.parentNo, r)
             && Truthful(h, w.a[s.0].commit, l, w.a[l.child].commit)
             && Complete(h, w.a, w.live, l.child, |h.parents(w.a[l.child].commit)|)
    requires var c := w.a[LinkOf(w.a, s).child]; m < |r| == |c.needs| && c.needs[m].cur == r[m].cur && j < |h.parents(c.commit)| && First(h, c.commit, j, c.needs[m].cur)
    requires var w', c := AfterApply(w, s, r), LinkOf(w.a, s).child;
             forall line, no :: Supplied(w.a, w'.live, c, line, no) ==> Supplied(w'.a, w'.live, c, line, no)
    ensures var w', c := AfterApply(w, s, r), LinkOf(w.a, s).child; HeldFrom(r[m], j) || Supplied(w'.a, w'.live, c, r[m].cur, j)
  {
    hide Sound, First, LinkAnswers, Truthful, Supplied, Applied;
    var l := LinkOf(w.a, s);
    OfferedFirst(h, w.a[s.0].commit, l, w.a[l.child], r, m, j);
    if !HeldFrom(r[m], j) {
      assert Supplied(w.a, w.live, l.child, r[m].cur, j);
      SuppliedElsewhere(w.a, w.live, s, l.child, r[m].cur, j);
    }
  }

  /** A line that this link does not supply under that number is supplied by another one. */
  lemma SuppliedElsewhere(a: seq<QueueItem>, live: set<Slot>, s: Slot, c: ItemId, line: nat, no: int)
    requires Supplied(a, live, c, line, no) && IsLink(a, s)
    requires !(LinkOf(a, s).parentNo == no && Supplies(LinkOf(a, s).needs, !LinkOf(a, s).identical, line))
    ensures Supplied(a, live - {s}, c, line, no)
  {
  }

  /** A step that leaves item `y` and the live links to it alone keeps `y` waiting properly. */
  lemma StillWaits(h: History, w: Walk, w': Walk, busy: set<ItemId>, y: ItemId)
    requires Valid(h) && Waits(h, w, busy, y) && Frame(w.a, w'.a) && w'.a[y] == w.a[y]
    requires forall s :: s in w.live ==> IsLink(w.a, s)
    requires forall k :: 0 <= k < |Links(w.a[y])| ==> (y, k) in w'.live
    requires To(w'.a, w'.live, y) == To(w.a, w.live, y)
    ensures Waits(h, w', busy, y)
  {
    if y !in busy {
      forall m, j | 0 <= m < |w.a[y].needs| && 0 <= j < |h.parents(w.a[y].commit)| && First(h, w.a[y].commit, j, w.a[y].needs[m].cur)
        ensures HeldFrom(w.a[y].needs[m], j) || Supplied(w'.a, w'.live, y, w.a[y].needs[m].cur, j)
      {
        hide First;
        if Supplied(w.a, w.live, y, w.a[y].needs[m].cur, j) { StillSupplied(w.a, w'.a, w.live, w'.live, y, w.a[y].needs[m].cur, j); }
      }
    }
  }

  lemma StillSupplied(a: seq<QueueItem>, a': seq<QueueItem>, live: set<Slot>, live': set<Slot>, c: ItemId, line: nat, no: int)
    requires Frame(a, a') && To(a, live, c) <= To(a', live', c) && Supplied(a, live, c, line, no)
    ensures Supplied(a', live', c, line, no)
  {
  }

  lemma StillFresh(h: History, w: Walk, w': Walk)
    requires QueueOk(h, w) && w'.q == w.q && w'.waiting <= w.waiting && |w.a| <= |w'.a|
    requires forall x :: x in w.q ==> w'.a[x] == w.a[x] && ((x, 0) in w.live ==> (x, 0) in w'.live)
    ensures QueueOk(h, w')
  {
  }

  /** Handing down one link keeps the invariant, with that link gone and its child's counter one lower. */
  lemma Deliver(h: History, root: Commit, w: Walk, stack: set<ItemId>, s: Slot, r: Needs)
    requires Valid(h) && Inv(h, root, w, stack, {}) && s in w.live && s.0 in stack
    requires var l := LinkOf(w.a, s);
             && LinkAnswers(h, w.a[s.0].commit, l)
             && Applied(w.a[l.child].needs, l.needs, !l.identical, l.parentNo, r)
    ensures Inv(h, root, AfterApply(w, s, r), stack, {})
  {
    hide Waits, Applied, LinkAnswers, RootOk, Frame, LinkOk;
    var l := LinkOf(w.a, s);
    var w' := AfterApply(w, s, r);
    assert Waits(h, w, {}, l.child);
    DeliverFrame(w, s, r);
    FrameRoot(h, root, w.a, w'.a);
    FrameLinks(h, w, stack, w'.a);
    FrameNumbers(w.a, w'.a, w.live, w'.live);
    StillFresh(h, w, w');
    forall y | y in w.waiting
      ensures Waits(h, w', {}, y)
    {
      assert Waits(h, w, {}, y);
      if y == l.child {
        DeliverChild(h, w, stack, s, r);
      } else {
        DeliverOther(h, w, stack, s, r, y);
      }
    }
  }

  lemma DeliverFrame(w: Walk, s: Slot, r: Needs)
    requires IsLink(w.a, s) && LinkOf(w.a, s).child < |w.a|
    requires var l := LinkOf(w.a, s); Applied(w.a[l.child].needs, l.needs, !l.identical, l.parentNo, r)
    ensures Frame(w.a, AfterApply(w, s, r).a)
  {
  }

  lemma DeliverOther(h: History, w: Walk, stack: set<ItemId>, s: Slot, r: Needs, y: ItemId)
    requires Valid(h) && LinksOk(h, w, stack) && s in w.live && Waits(h, w, {}, y) && y != LinkOf(w.a, s).child && y != s.0
    requires Frame(w.a, AfterApply(w, s, r).a)
    ensures Waits(h, AfterApply(w, s, r), {}, y)
  {
    hide Complete, Sound;
    var w' := AfterApply(w, s, r);
    FrameTo(w.a, w'.a, w'.live, y);
    assert To(w.a, w'.live, y) == To(w.a, w.live, y);
    StillWaits(h, w, w', {}, y);
  }

  lemma DeliverChild(h: History, w: Walk, stack: set<ItemId>, s: Slot, r: Needs)
    requires Valid(h) && LinksOk(h, w, stack) && s in w.live
    requires var l := LinkOf(w.a, s);
             && Waits(h, w, {}, l.child) && s.0 !in w.waiting && l.child in w.waiting
             && LinkAnswers(h, w.a[s.0].commit, l)
             && Applied(w.a[l.child].needs, l.needs, !l.identical, l.parentNo, r)
    requires Frame(w.a, AfterApply(w, s, r).a)
    ensures Waits(h, AfterApply(w, s, r), {}, LinkOf(w.a, s).child)
  {
    var l := LinkOf(w.a, s);
    var c := l.child;
    var w' := AfterApply(w, s, r);
    FrameTo(w.a, w'.a, w'.live, c);
    assert To(w'.a, w'.live, c) == To(w.a, w.live, c) - {s};
    ApplySound(h, w.a[s.0].commit, l, w.a[c], r);
    ApplyComplete(h, w, s, stack, r);
    forall k | 0 <= k < |Links(w'.a[c])| ensures (c, k) in w'.live { FrameLink(w.a, w'.a, (c, k)); }
    FrameLink(w.a, w'.a, (c, 0));
  }

  // ---- What a chain of finished items leaves alone ------------------------------------------

  ghost predicate SameCommits(a: seq<QueueItem>, a': seq<QueueItem>) {
    |a| <= |a'| && forall y :: 0 <= y < |a| ==> a'[y].commit == a[y].commit
  }

  /** Every waiting item outside `busy` still has a live link to wait for. */
  ghost predicate Alive(w: Walk, busy: set<ItemId>) {
    forall c :: c in w.waiting && c !in busy && c < |w.a| ==> w.a[c].pending > 0
  }

  /** From `w` to `w'` no item is queued, links only get used up, the links in `done` among them,
      and the items in `stack` keep their state and their other links. */
  ghost predicate After(w: Walk, w': Walk, stack: set<ItemId>, done: set<Slot>) {
    && |w'.a| == |w.a| && w'.q == w.q && w'.waiting <= w.waiting && w'.live <= w.live - done
    && SameCommits(w.a, w'.a)
    && (forall y :: y in stack && y < |w.a| ==> w'.a[y] == w.a[y])
    && (forall t :: t in w.live && t.0 in stack && t !in done ==> t in w'.live)
  }

  // ---- Finishing an item -------------------------------------------------------------------

  /** All parents have answered: a line that some parent carries holds the first one's answer. */
  ghost predicate Ready(h: History, x: QueueItem)
    requires Valid(h)
  {
    && Sound(h, x)
    && forall i, j: nat :: 0 <= i < |x.needs| && First(h, x.commit, j, x.needs[i].cur) ==> HeldFrom(x.needs[i], j)
  }

  lemma AllParentsDone(h: History, w: Walk, c: ItemId)
    requires Valid(h) && Waits(h, w, {}, c) && w.a[c].pending == 0
    ensures To(w.a, w.live, c) == {} && Ready(h, w.a[c])
  {
  }

  /** An item no live link points at can be taken in hand. */
  lemma TakeInHand(h: History, root: Commit, w: Walk, stack: set<ItemId>, c: ItemId)
    requires Valid(h) && Inv(h, root, w, stack, {}) && c in w.waiting && To(w.a, w.live, c) == {}
    ensures Inv(h, root, w.(waiting := w.waiting - {c}), stack + {c}, {})
    ensures OwnsLinks(w.(waiting := w.waiting - {c}), c)
  {
    var w' := w.(waiting := w.waiting - {c});
    assert Waits(h, w, {}, c);
    forall s | s in w.live
      ensures LinkOf(w.a, s).child != c
    {
      assert s !in To(w.a, w.live, c);
    }
    forall y | y in w'.waiting ensures Waits(h, w', {}, y) { assert Waits(h, w, {}, y); }
    StillFresh(h, w, w');
  }

  /** An item in hand may fill in answers without disturbing anything else. */
  lemma AnswerInHand(h: History, root: Commit, w: Walk, stack: set<ItemId>, x: ItemId, x': QueueItem)
    requires Valid(h) && Inv(h, root, w, stack, {}) && x in stack && SameItem(w.a[x], x')
    ensures Inv(h, root, w.(a := w.a[x := x']), stack, {})
    ensures OwnsLinks(w, x) ==> OwnsLinks(w.(a := w.a[x := x']), x)
  {
    var w' := w.(a := w.a[x := x']);
    forall y | 0 <= y < |w.a| ensures SameItem(w.a[y], w'.a[y]) {}
    FrameRoot(h, root, w.a, w'.a);
    FrameLinks(h, w, stack, w'.a);
    FrameNumbers(w.a, w'.a, w.live, w'.live);
    StillFresh(h, w, w');
    forall y | y in w.waiting
      ensures Waits(h, w', {}, y)
    {
      assert Waits(h, w, {}, y);
      FrameTo(w.a, w'.a, w.live, y);
      StillWaits(h, w, w', {}, y);
    }
  }

  /** An item whose links are all used up leaves the walk. */
  lemma PutDown(h: History, root: Commit, w: Walk, stack: set<ItemId>, x: ItemId)
    requires Valid(h) && Inv(h, root, w, stack, {}) && 0 in w.waiting && x in stack
    requires forall k: nat :: k < |Links(w.a[x])| ==> (x, k) !in w.live
    ensures Inv(h, root, w, stack - {x}, {})
  {
    forall s | s in w.live
      ensures s.0 != x
    {
      assert IsLink(w.a, s) && s == (s.0, s.1);
    }
  }

  /** Lines still without an answer belong to the item's own commit. */
  ghost predicate Filled(x: QueueItem, r: Needs) {
    && |r| == |x.needs|
    && forall i :: 0 <= i < |r| ==>
         r[i] == if x.needs[i].commit.None? then x.needs[i].(commit := Some(x.commit), fromParent := -1) else x.needs[i]
  }

  lemma FilledFinal(h: History, x: QueueItem, r: Needs)
    requires Valid(h) && Ready(h, x) && Filled(x, r)
    ensures SameLines(x.needs, r) && Answered(r) && Final(h, x.(needs := r))
  {
    hide First, Via, Blames;
    forall i | 0 <= i < |r| ensures r[i].cur < |h.file(x.commit)| && Blames(h, x.commit, r[i].cur, r[i].commit.value, false) {
      OwnerFound(h, x, i);
    }
  }

  /** A line that no parent carries has no answer yet; one that is carried has the first carrier's. */
  lemma OwnerFound(h: History, x: QueueItem, i: nat)
    requires Valid(h) && Ready(h, x) && i < |x.needs|
    ensures var n := x.needs[i];
            n.cur < |h.file(x.commit)| && Blames(h, x.commit, n.cur, if n.commit.Some? then n.commit.value else x.commit, false)
  {
    var n := x.needs[i];
    if k :| 0 <= k < |h.parents(x.commit)| && Carry(h, x.commit, k, n.cur).Some? {
      var j := HasFirst(h, x.commit, n.cur, k);
      assert HeldFrom(n, j);
      assert Via(h, x.commit, j, n.cur, n.commit.value);
    } else {
      assert !Carried(h, x.commit, n.cur);
    }
  }

  /** What the walk promises once the root item is finished. */
  ghost predicate RootDone(h: History, root: Commit, a: seq<QueueItem>)
    requires Valid(h)
  {
    RootOk(h, root, a) && Answered(a[0].needs) && Final(h, a[0])
  }
}
