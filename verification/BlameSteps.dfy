/**
 How processing one commit changes the walk: collapsing items that are identical to the
 same child, skipping a chain of identical children, merging items, visiting parents.
*/
module BlameSteps {
  import opened Wrappers
  import opened LineScript
  import opened History
  import opened NeedsMap
  import opened BlameWalk

  // ---- Popping -----------------------------------------------------------------------------

  function Without(q: seq<ItemId>, k: nat): seq<ItemId>
    requires k < |q|
  {
    q[..k] + q[k + 1..]
  }

  lemma WithoutMembers(q: seq<ItemId>, k: nat, x: ItemId)
    requires k < |q| && forall i, j :: 0 <= i < j < |q| ==> q[i] != q[j]
    ensures x in Without(q, k) <==> x in q && x != q[k]
    ensures forall i, j :: 0 <= i < j < |q| - 1 ==> Without(q, k)[i] != Without(q, k)[j]
  {
  }

  lemma Pop(h: History, root: Commit, w: Walk, stack: set<ItemId>, k: nat)
    requires Valid(h) && Inv(h, root, w, stack, {}) && k < |w.q|
    ensures w.q[k] < |w.a| && w.q[k] !in stack && (forall x :: x in Without(w.q, k) ==> x in w.q)
    ensures var w' := w.(q := Without(w.q, k));
            Inv(h, root, w', stack + {w.q[k]}, {}) && Fresh(h, w', w.q[k])
  {
    var w' := w.(q := Without(w.q, k));
    assert w.q[k] in w.q && Fresh(h, w, w.q[k]);
    forall x ensures x in w'.q <==> x in w.q && x != w.q[k] { WithoutMembers(w.q, k, x); }
    WithoutMembers(w.q, k, 0);
    forall c | c in w.waiting ensures Waits(h, w', {}, c) { assert Waits(h, w, {}, c); }
  }

  // ---- Items identical to the same child -----------------------------------------------------

  function Lower(i: int, j: int): int { if i < j then i else j }

  /** Twin `y` is counted off their child `c`; `x` keeps the lower number of the two. */
  function TwinDropped(w: Walk, x: ItemId, y: ItemId, c: ItemId): Walk
    requires x < |w.a| && y < |w.a| && c < |w.a|
  {
    var a := w.a[c := w.a[c].(pending := w.a[c].pending - 1)];
    Walk(a[x := a[x].(parentNo := Lower(a[x].parentNo, w.a[y].parentNo))], w.q, w.waiting, w.live - {(y, 0)})
  }

  /** What a fresh item in hand says about its only link. */
  lemma OwnLink(h: History, root: Commit, w: Walk, stack: set<ItemId>, x: ItemId)
    requires Valid(h) && Inv(h, root, w, stack, {}) && x in stack && Fresh(h, w, x) && w.a[x].child.Some?
    ensures var c := w.a[x].child.value; var l := LinkOf(w.a, (x, 0));
            && l == ChildToNeedsMap(c, w.a[x].needs, w.a[x].identical, w.a[x].parentNo) && |Links(w.a[x])| == 1 && w.a[x].merged == []
            && x != 0 && (x, 0) in w.live && c < |w.a| && c in w.waiting && c !in stack && c !in w.q
            && Waits(h, w, {}, c) && LinkOk(h, w.a[x], l, w.a[c]) && (x, 0) in To(w.a, w.live, c)
  {
  }

  /** Two items in hand for one commit, both copies of child `c`: one of them is enough, with the
      lower number. */
  lemma DropTwin(h: History, root: Commit, w: Walk, stack: set<ItemId>, x: ItemId, y: ItemId, c: ItemId)
    requires Valid(h) && Inv(h, root, w, stack, {}) && x in stack && y in stack && x != y
    requires Fresh(h, w, x) && Fresh(h, w, y) && w.a[x].commit == w.a[y].commit
    requires w.a[x].child == Some(c) && w.a[x].identical && w.a[y].child == Some(c) && w.a[y].identical
    ensures c in w.waiting && c < |w.a| && w.a[c].pending >= 2 && x != c && w.a[x].parentNo != w.a[y].parentNo
    ensures Inv(h, root, TwinDropped(w, x, y, c), stack - {y}, {})
    ensures forall z :: z in stack && z != y && Fresh(h, w, z) ==> Fresh(h, TwinDropped(w, x, y, c), z)
    ensures Meet(h, w.a[c].commit, w.a[x].commit)
  {
    hide LinkOk, Waits, RootOk, Complete, Sound, QueueOk, Fresh, Meet;
    OwnLink(h, root, w, stack, x);
    OwnLink(h, root, w, stack, y);
    var lx, ly := LinkOf(w.a, (x, 0)), LinkOf(w.a, (y, 0));
    TwinsMeet(h, w.a[x], lx, w.a[y], ly, w.a[c]);
    var w' := TwinDropped(w, x, y, c);
    assert |{(x, 0), (y, 0)}| == 2;
    CardLe({(x, 0), (y, 0)}, To(w.a, w.live, c));
    CountedLinks(h, w, c);
    TwinSlots(w, x, y, c);
    TwinRoot(h, root, w.a, w'.a);
    TwinLinks(h, w, stack, x, y, c);
    TwinNumbers(w, x, y, c);
    TwinFresh(h, w, stack, x, y, c);
    LinkLayout(h, w.a[x], lx, w.a[c]);
    forall z | z in w.waiting
      ensures Waits(h, w', {}, z)
    {
      if z == c { TwinChild(h, w, x, y, c); } else { TwinWaits(h, w, x, y, c, z); }
    }
  }

  /** Identical links of different numbers from one commit: two parents of the child lead there. */
  lemma TwinsMeet(h: History, x: QueueItem, lx: ChildToNeedsMap, y: QueueItem, ly: ChildToNeedsMap, c: QueueItem)
    requires Valid(h) && LinkOk(h, x, lx, c) && LinkOk(h, y, ly, c) && lx.identical && ly.identical
    requires x.commit == y.commit && lx.parentNo != ly.parentNo
    ensures Meet(h, c.commit, x.commit)
  {
    hide Leads, Passes;
    assert LeadsBy(h, c.commit, lx.parentNo, x.commit) && LeadsBy(h, c.commit, ly.parentNo, x.commit);
  }

  /** The links that stay, and those to `c` and to others. */
  lemma TwinSlots(w: Walk, x: ItemId, y: ItemId, c: ItemId)
    requires x < |w.a| && y < |w.a| && c < |w.a| && x != c && x != y && (forall s :: s in w.live ==> IsLink(w.a, s))
    requires w.a[x].merged == [] && {(x, 0), (y, 0)} <= To(w.a, w.live, c)
    ensures var w' := TwinDropped(w, x, y, c);
            && (forall s :: s in w.live ==>
                  && IsLink(w'.a, s)
                  && LinkOf(w'.a, s) == if s == (x, 0) then LinkOf(w.a, s).(parentNo := Lower(LinkOf(w.a, s).parentNo, w.a[y].parentNo)) else LinkOf(w.a, s))
            && To(w'.a, w'.live, c) == To(w.a, w.live, c) - {(y, 0)}
            && forall z :: z != c ==> To(w'.a, w'.live, z) == To(w.a, w.live, z)
  {
    var w' := TwinDropped(w, x, y, c);
    forall s | s in w.live
      ensures IsLink(w'.a, s) && LinkOf(w'.a, s)
                == if s == (x, 0) then LinkOf(w.a, s).(parentNo := Lower(LinkOf(w.a, s).parentNo, w.a[y].parentNo)) else LinkOf(w.a, s)
    {
      assert IsLink(w.a, s) && s == (s.0, s.1);
    }
    hide IsLink, LinkOf, TwinDropped;
    forall z | z != c ensures To(w'.a, w'.live, z) == To(w.a, w.live, z) {}
  }

  lemma TwinRoot(h: History, root: Commit, a: seq<QueueItem>, a': seq<QueueItem>)
    requires RootOk(h, root, a) && |a'| == |a|
    requires forall y :: 0 <= y < |a| ==> a'[y] == a[y].(pending := a'[y].pending, parentNo := a'[y].parentNo)
    ensures RootOk(h, root, a')
  {
  }

  lemma SameEnds(h: History, x: QueueItem, l: ChildToNeedsMap, c: QueueItem, x': QueueItem, c': QueueItem)
    requires Valid(h) && LinkOk(h, x, l, c) && x'.commit == x.commit && x'.needs == x.needs && c'.commit == c.commit && c'.needs == c.needs
    ensures LinkOk(h, x', l, c')
  {
  }

  /** A twin's number is as good as one's own. */
  lemma TwinLink(h: History, x: QueueItem, lx: ChildToNeedsMap, y: QueueItem, ly: ChildToNeedsMap, c: QueueItem)
    requires Valid(h) && LinkOk(h, x, lx, c) && LinkOk(h, y, ly, c) && lx.identical && ly.identical && x.commit == y.commit
    ensures LinkOk(h, x, lx.(parentNo := Lower(lx.parentNo, ly.parentNo)), c)
  {
    hide Passes, LeadsBy;
    forall i | 0 <= i < |lx.needs| ensures Passes(h, x.commit, lx.needs[i].cur, true, c.commit, ly.parentNo, lx.needs[i].cur) {
      assert lx.needs[i].cur == ly.needs[i].cur;
      assert Passes(h, y.commit, ly.needs[i].cur, true, c.commit, ly.parentNo, ly.needs[i].cur);
    }
  }

  lemma TwinLinks(h: History, w: Walk, stack: set<ItemId>, x: ItemId, y: ItemId, c: ItemId)
    requires Valid(h) && LinksOk(h, w, stack) && c < |w.a| && x < |w.a| && x != y && x != c && x in stack && x !in w.waiting
    requires y !in w.waiting && y !in w.q && y < |w.a| && |Links(w.a[y])| <= 1 && w.a[x].merged == []
    requires {(x, 0), (y, 0)} <= To(w.a, w.live, c) && w.a[x].commit == w.a[y].commit && w.a[x].identical && w.a[y].identical && w.a[y].merged == []
    ensures LinksOk(h, TwinDropped(w, x, y, c), stack - {y})
  {
    hide LinkOk;
    var w' := TwinDropped(w, x, y, c);
    TwinSlots(w, x, y, c);
    forall s | s in w'.live
      ensures IsLink(w'.a, s) && (s.0 in w'.q || s.0 in w'.waiting || s.0 in stack - {y})
      ensures var l := LinkOf(w'.a, s); l.child < |w'.a| && l.child in w'.waiting && LinkOk(h, w'.a[s.0], l, w'.a[l.child])
    {
      assert s in w.live && IsLink(w.a, s) && s == (s.0, s.1);
      var l := LinkOf(w.a, s);
      if s == (x, 0) {
        TwinLink(h, w.a[x], l, w.a[y], LinkOf(w.a, (y, 0)), w.a[c]);
      }
      SameEnds(h, w.a[s.0], LinkOf(w'.a, s), w.a[l.child], w'.a[s.0], w'.a[l.child]);
    }
  }

  lemma TwinNumbers(w: Walk, x: ItemId, y: ItemId, c: ItemId)
    requires Numbered(w.a, w.live) && x < |w.a| && y < |w.a| && c < |w.a| && x != c && x != y && (forall s :: s in w.live ==> IsLink(w.a, s))
    requires w.a[x].merged == [] && w.a[y].merged == [] && {(x, 0), (y, 0)} <= To(w.a, w.live, c)
    ensures Numbered(TwinDropped(w, x, y, c).a, TwinDropped(w, x, y, c).live)
  {
    var w' := TwinDropped(w, x, y, c);
    TwinSlots(w, x, y, c);
    hide IsLink, To;
    forall s, t | s in w'.live && t in w'.live && s != t && IsLink(w'.a, s) && IsLink(w'.a, t) && LinkOf(w'.a, s).child == LinkOf(w'.a, t).child
      ensures LinkOf(w'.a, s).parentNo != LinkOf(w'.a, t).parentNo
    {
      assert LinkOf(w.a, s).parentNo != LinkOf(w.a, t).parentNo;
      if s == (x, 0) { OtherNumber(w, x, y, c, t); }
      if t == (x, 0) { OtherNumber(w, x, y, c, s); }
    }
  }

  lemma OtherNumber(w: Walk, x: ItemId, y: ItemId, c: ItemId, t: Slot)
    requires Numbered(w.a, w.live) && {(x, 0), (y, 0)} <= To(w.a, w.live, c) && w.a[y].merged == []
    requires t in w.live && t != (y, 0) && IsLink(w.a, t) && LinkOf(w.a, t).child == c
    ensures LinkOf(w.a, t).parentNo != w.a[y].parentNo
  {
    assert IsLink(w.a, (y, 0)) && LinkOf(w.a, (y, 0)).parentNo == w.a[y].parentNo;
  }

  lemma TwinFresh(h: History, w: Walk, stack: set<ItemId>, x: ItemId, y: ItemId, c: ItemId)
    requires QueueOk(h, w) && x < |w.a| && y < |w.a| && c < |w.a| && c in w.waiting && c !in stack && y !in w.q && x !in w.q && x in stack
    ensures QueueOk(h, TwinDropped(w, x, y, c))
    ensures forall z :: z in stack && z != y && Fresh(h, w, z) ==> Fresh(h, TwinDropped(w, x, y, c), z)
  {
  }

  lemma CountedLinks(h: History, w: Walk, c: ItemId)
    requires Valid(h) && Waits(h, w, {}, c)
    ensures w.a[c].pending == |To(w.a, w.live, c)|
  {
  }

  lemma TwinWaits(h: History, w: Walk, x: ItemId, y: ItemId, c: ItemId, z: ItemId)
    requires Valid(h) && (forall s :: s in w.live ==> IsLink(w.a, s)) && Waits(h, w, {}, z) && z != x && z != y && z != c && x != y && x != c
    requires x < |w.a| && y < |w.a| && c < |w.a| && w.a[x].merged == [] && {(x, 0), (y, 0)} <= To(w.a, w.live, c)
    ensures Waits(h, TwinDropped(w, x, y, c), {}, z)
  {
    hide LinkOf, Sound, Complete, Supplies;
    var w' := TwinDropped(w, x, y, c);
    TwinSlots(w, x, y, c);
    forall line, no | Supplied(w.a, w.live, z, line, no) ensures Supplied(w'.a, w'.live, z, line, no) {
      var s :| s in To(w.a, w.live, z) && LinkOf(w.a, s).parentNo == no && Supplies(LinkOf(w.a, s).needs, !LinkOf(w.a, s).identical, line);
      ToOther(w, c, z, s, (x, 0));
      assert s in To(w'.a, w'.live, z);
    }
    KeepsWaiting(h, w, w', {}, z);
  }

  lemma ToOther(w: Walk, c: ItemId, z: ItemId, s: Slot, t: Slot)
    requires s in To(w.a, w.live, z) && t in To(w.a, w.live, c) && z != c
    ensures s != t && s in w.live
  {
  }

  /** The child of two twins still gets every line, from the one that stays. */
  lemma TwinChild(h: History, w: Walk, x: ItemId, y: ItemId, c: ItemId)
    requires Valid(h) && (forall s :: s in w.live ==> IsLink(w.a, s)) && Waits(h, w, {}, c) && x != y && x != c && y != c
    requires x < |w.a| && y < |w.a| && w.a[x].merged == [] && w.a[y].merged == [] && {(x, 0), (y, 0)} <= To(w.a, w.live, c)
    requires LinkOk(h, w.a[x], LinkOf(w.a, (x, 0)), w.a[c]) && LinkOk(h, w.a[y], LinkOf(w.a, (y, 0)), w.a[c]) && w.a[x].identical && w.a[y].identical
    ensures Waits(h, TwinDropped(w, x, y, c), {}, c)
  {
    hide First, Supplies, LinkOk, To, Via, LinkOf;
    var w' := TwinDropped(w, x, y, c);
    TwinSlots(w, x, y, c);
    forall m, j | 0 <= m < |w.a[c].needs| && 0 <= j < |h.parents(w.a[c].commit)| && First(h, w.a[c].commit, j, w.a[c].needs[m].cur)
      ensures HeldFrom(w.a[c].needs[m], j) || Supplied(w'.a, w'.live, c, w.a[c].needs[m].cur, j)
    {
      if !HeldFrom(w.a[c].needs[m], j) { TwinSupplied(h, w, x, y, c, m, j); }
    }
    LiveTo(w.a, w.live, c, (y, 0));
  }

  lemma TwinSupplied(h: History, w: Walk, x: ItemId, y: ItemId, c: ItemId, m: nat, j: nat)
    requires Valid(h) && (forall s :: s in w.live ==> IsLink(w.a, s)) && x != y && x != c && c < |w.a| && m < |w.a[c].needs|
    requires x < |w.a| && y < |w.a| && w.a[x].merged == [] && w.a[y].merged == [] && {(x, 0), (y, 0)} <= To(w.a, w.live, c)
    requires LinkOk(h, w.a[x], LinkOf(w.a, (x, 0)), w.a[c]) && LinkOk(h, w.a[y], LinkOf(w.a, (y, 0)), w.a[c]) && w.a[x].identical && w.a[y].identical
    requires w.a[c].needs[m].cur < |h.file(w.a[c].commit)| && First(h, w.a[c].commit, j, w.a[c].needs[m].cur)
    requires Supplied(w.a, w.live, c, w.a[c].needs[m].cur, j)
    ensures Supplied(TwinDropped(w, x, y, c).a, TwinDropped(w, x, y, c).live, c, w.a[c].needs[m].cur, j)
  {
    hide First, Supplies, Passes;
    var w', line := TwinDropped(w, x, y, c), w.a[c].needs[m].cur;
    TwinSlots(w, x, y, c);
    var s :| s in To(w.a, w.live, c) && LinkOf(w.a, s).parentNo == j && Supplies(LinkOf(w.a, s).needs, !LinkOf(w.a, s).identical, line);
    if s == (x, 0) || s == (y, 0) {
      NoLater(h, w.a[c].commit, j, line, w.a[x].parentNo, w.a[x].commit);
      NoLater(h, w.a[c].commit, j, line, w.a[y].parentNo, w.a[y].commit);
      CopySupplies(LinkOf(w.a, (x, 0)).needs, w.a[c].needs, m);
      assert (x, 0) in To(w'.a, w'.live, c);
    } else {
      assert s in To(w'.a, w'.live, c);
    }
  }

  lemma LiveTo(a: seq<QueueItem>, live: set<Slot>, c: ItemId, s: Slot)
    requires s in To(a, live, c)
    ensures s in live && s == (s.0, s.1)
  {
  }

  /** A parent with the same file carries every line, so the first carrier does not come after it. */
  lemma NoLater(h: History, c: Commit, j: nat, i: nat, no: int, p: Commit)
    requires Valid(h) && i < |h.file(c)| && First(h, c, j, i) && LeadsBy(h, c, no, p)
    ensures j <= no
  {
    assert Carry(h, c, no, i).Some?;
  }

  lemma CopySupplies(s: Needs, t: Needs, m: nat)
    requires SameLines(s, t) && m < |t|
    ensures Supplies(s, false, t[m].cur)
  {
  }

  lemma CardLe(s: set<Slot>, t: set<Slot>)
    requires s <= t
    ensures |s| <= |t|
  {
    if s != {} {
      var e :| e in s;
      CardLe(s - {e}, t - {e});
    }
  }

  // ---- Skipping a child that waits for this item only ------------------------------------------

  function Skipped(w: Walk, x: ItemId, b: ItemId): Walk
    requires x < |w.a| && b < |w.a|
  {
    Walk(w.a[x := w.a[x].(child := w.a[b].child, parentNo := w.a[b].parentNo)], w.q, w.waiting - {b}, w.live - {(b, 0)})
  }

  /** The item answers its child's child directly; the child between them leaves the walk. */
  lemma SkipChild(h: History, root: Commit, w: Walk, x: ItemId, b: ItemId)
    requires Valid(h) && Inv(h, root, w, {x}, {}) && Fresh(h, w, x) && w.a[x].child == Some(b) && w.a[x].identical
    requires b < |w.a| && w.a[b].identical && w.a[b].merged == [] && w.a[b].pending == 1 && Skips(h, w.a[b].commit, w.a[x].commit)
    ensures w.a[b].child.Some? && Inv(h, root, Skipped(w, x, b), {x}, {}) && Fresh(h, Skipped(w, x, b), x)
    ensures w.a[b].child.value < |w.a| && h.generation(w.a[w.a[b].child.value].commit) > h.generation(w.a[b].commit)
    ensures Skips(h, w.a[w.a[b].child.value].commit, w.a[x].commit)
  {
    hide LinkOk, Waits, Complete, Sound, Skips;
    OwnLink(h, root, w, {x}, x);
    OwnLinkOfChild(h, root, w, {x}, b);
    CountedLinks(h, w, b);
    OnlyMember(To(w.a, w.live, b), (x, 0));
    var w' := Skipped(w, x, b);
    SkipLinks(h, w, x, b);
    SkipNumbers(w, x, b);
    LinkSkips(h, w.a[b], LinkOf(w.a, (b, 0)), w.a[w.a[b].child.value], w.a[x].commit);
    StillFresh(h, w, w');
    forall y | y in w'.waiting
      ensures Waits(h, w', {}, y)
    {
      SkipWaits(h, w, x, b, y);
    }
  }

  lemma LinkSkips(h: History, b: QueueItem, l: ChildToNeedsMap, c: QueueItem, p: Commit)
    requires Valid(h) && LinkOk(h, b, l, c) && l.identical && Skips(h, b.commit, p)
    ensures Skips(h, c.commit, p)
  {
    hide Skips, Passes;
    SelfLeads(h, b.commit);
    LeadsByOn(h, c.commit, l.parentNo, b.commit, b.commit);
    SkipsOn(h, c.commit, b.commit, p);
  }

  lemma SkipNumbers(w: Walk, x: ItemId, b: ItemId)
    requires Numbered(w.a, w.live) && (forall s :: s in w.live ==> IsLink(w.a, s)) && x < |w.a| && b < |w.a| && x != b
    requires w.a[x].merged == [] && (x, 0) in w.live && w.a[b].merged == [] && w.a[b].child.Some? && (b, 0) in w.live
    ensures Numbered(Skipped(w, x, b).a, Skipped(w, x, b).live)
  {
    var w' := Skipped(w, x, b);
    forall s | s in w'.live
      ensures s in w.live && s != (b, 0) && IsLink(w'.a, s)
      ensures var t := if s == (x, 0) then (b, 0) else s; LinkOf(w'.a, s).child == LinkOf(w.a, t).child && LinkOf(w'.a, s).parentNo == LinkOf(w.a, t).parentNo
    {
      assert IsLink(w.a, s) && s == (s.0, s.1);
    }
    hide IsLink, LinkOf;
    forall s, t | s in w'.live && t in w'.live && s != t && IsLink(w'.a, s) && IsLink(w'.a, t) && LinkOf(w'.a, s).child == LinkOf(w'.a, t).child
      ensures LinkOf(w'.a, s).parentNo != LinkOf(w'.a, t).parentNo
    {
      var s0, t0 := if s == (x, 0) then (b, 0) else s, if t == (x, 0) then (b, 0) else t;
      assert LinkOf(w.a, s0).parentNo != LinkOf(w.a, t0).parentNo;
    }
  }

  lemma OwnLinkOfChild(h: History, root: Commit, w: Walk, stack: set<ItemId>, b: ItemId)
    requires Valid(h) && Inv(h, root, w, stack, {}) && b in w.waiting && b < |w.a| && w.a[b].merged == [] && w.a[b].identical
    ensures b != 0 && w.a[b].child.Some? && (b, 0) in w.live && Waits(h, w, {}, b)
    ensures var c := w.a[b].child.value;
            c < |w.a| && c in w.waiting && LinkOk(h, w.a[b], LinkOf(w.a, (b, 0)), w.a[c])
    ensures h.generation(w.a[w.a[b].child.value].commit) > h.generation(w.a[b].commit)
  {
    assert RootOk(h, root, w.a);
    assert Waits(h, w, {}, b);
    assert (b, 0) in w.live;
  }

  lemma SkipLinks(h: History, w: Walk, x: ItemId, b: ItemId)
    requires Valid(h) && LinksOk(h, w, {x}) && Fresh(h, w, x) && w.a[x].child == Some(b) && w.a[x].identical && x != 0
    requires b in w.waiting && x !in w.waiting && x !in w.q && b !in w.q
    requires b < |w.a| && w.a[b].identical && w.a[b].merged == [] && w.a[b].child.Some? && (b, 0) in w.live
    requires To(w.a, w.live, b) == {(x, 0)} && Skips(h, w.a[b].commit, w.a[x].commit)
    ensures LinksOk(h, Skipped(w, x, b), {x})
  {
    hide LinkOk, Skips;
    var w' := Skipped(w, x, b);
    var c := w.a[b].child.value;
    assert x != b;
    forall s | s in w'.live
      ensures IsLink(w'.a, s) && (s.0 in w'.q || s.0 in w'.waiting || s.0 in {x})
      ensures var l := LinkOf(w'.a, s);
              l.child < |w'.a| && l.child in w'.waiting && LinkOk(h, w'.a[s.0], l, w'.a[l.child])
    {
      assert IsLink(w.a, s) && s == (s.0, s.1);
      if s == (x, 0) {
        SkipLink(h, w.a[x], LinkOf(w.a, (x, 0)), w.a[b], LinkOf(w.a, (b, 0)), w.a[c], LinkOf(w'.a, (x, 0)), w'.a[x]);
        assert c != b && c != x by { assert LinkOf(w.a, (b, 0)).child == c; GenerationsDiffer(h, w.a[b], LinkOf(w.a, (b, 0)), w.a[c]); }
      } else {
        assert s !in To(w.a, w.live, b);
        assert s.0 != b && s.0 != x;
      }
    }
  }

  lemma GenerationsDiffer(h: History, x: QueueItem, l: ChildToNeedsMap, c: QueueItem)
    requires Valid(h) && LinkOk(h, x, l, c)
    ensures x != c
  {
  }

  lemma OnlyMember(s: set<Slot>, e: Slot)
    requires |s| == 1 && e in s
    ensures s == {e}
  {
    assert |s - {e}| == 0;
  }

  lemma SkipLink(h: History, x: QueueItem, lx: ChildToNeedsMap, b: QueueItem, lb: ChildToNeedsMap, c: QueueItem,
                 l: ChildToNeedsMap, x': QueueItem)
    requires Valid(h) && LinkOk(h, x, lx, b) && LinkOk(h, b, lb, c) && lx.identical && lb.identical && lb.needs == b.needs
    requires l == lx.(child := lb.child, parentNo := lb.parentNo) && Skips(h, b.commit, x.commit)
    requires x' == x.(child := x'.child, parentNo := x'.parentNo)
    ensures LinkOk(h, x', l, c)
  {
    hide Skips, LeadsBy, Blames, Via;
    SkipsFacts(h, b.commit, x.commit);
    LeadsByOn(h, c.commit, lb.parentNo, b.commit, x.commit);
    forall i | 0 <= i < |l.needs| ensures Passes(h, x.commit, l.needs[i].cur, true, c.commit, lb.parentNo, l.needs[i].cur) {
      assert l.needs[i].cur == lb.needs[i].cur;
      assert Passes(h, b.commit, lb.needs[i].cur, true, c.commit, lb.parentNo, lb.needs[i].cur);
      forall d ensures Blames(h, x.commit, l.needs[i].cur, d, true) ==> Blames(h, b.commit, l.needs[i].cur, d, true) {
        SkipBlames(h, b.commit, x.commit, l.needs[i].cur, d);
      }
    }
  }

  lemma SkipWaits(h: History, w: Walk, x: ItemId, b: ItemId, y: ItemId)
    requires Valid(h) && LinksOk(h, w, {x}) && Fresh(h, w, x) && w.a[x].child == Some(b) && w.a[x].identical && x != 0
    requires b < |w.a| && w.a[b].identical && w.a[b].merged == [] && w.a[b].child.Some? && (b, 0) in w.live
    requires y in w.waiting && y != x && y != b && Waits(h, w, {}, y) && x != b
    ensures Waits(h, Skipped(w, x, b), {}, y)
  {
    hide LinkOk, SameLines, Sound, Supplied;
    var w' := Skipped(w, x, b);
    LinkLayout(h, w.a[x], LinkOf(w.a, (x, 0)), w.a[b]);
    forall line, no | Supplied(w.a, w.live, y, line, no)
      ensures Supplied(w'.a, w'.live, y, line, no)
    {
      SkipSupplied(h, w, x, b, y, line, no);
    }
    SkipTo(w, x, b, y);
    KeepsWaiting(h, w, w', {}, y);
  }

  lemma SkipTo(w: Walk, x: ItemId, b: ItemId, y: ItemId)
    requires x < |w.a| && w.a[x].merged == [] && w.a[x].child == Some(b) && (x, 0) in w.live
    requires b < |w.a| && w.a[b].merged == [] && w.a[b].child.Some? && (b, 0) in w.live && x != b && y != b
    requires forall s :: s in w.live ==> IsLink(w.a, s)
    ensures |To(Skipped(w, x, b).a, Skipped(w, x, b).live, y)| == |To(w.a, w.live, y)|
  {
    var w' := Skipped(w, x, b);
    forall s | s in w.live ensures s == (s.0, s.1) && IsLink(w'.a, s) && (s.0 != x ==> LinkOf(w'.a, s) == LinkOf(w.a, s)) {}
    if y == w.a[b].child.value {
      assert To(w'.a, w'.live, y) == To(w.a, w.live, y) - {(b, 0)} + {(x, 0)};
    } else {
      assert To(w'.a, w'.live, y) == To(w.a, w.live, y);
    }
  }

  /** An item that is left alone, with as many live links to it and no line losing its supply. */
  lemma KeepsWaiting(h: History, w: Walk, w': Walk, busy: set<ItemId>, y: ItemId)
    requires Valid(h) && Waits(h, w, busy, y) && y < |w'.a| && w'.a[y] == w.a[y]
    requires forall k :: 0 <= k < |Links(w.a[y])| ==> (y, k) in w'.live
    requires |To(w'.a, w'.live, y)| == |To(w.a, w.live, y)|
    requires forall line, no :: Supplied(w.a, w.live, y, line, no) ==> Supplied(w'.a, w'.live, y, line, no)
    ensures Waits(h, w', busy, y)
  {
  }

  lemma LinkLayout(h: History, x: QueueItem, l: ChildToNeedsMap, c: QueueItem)
    requires Valid(h) && LinkOk(h, x, l, c) && l.identical
    ensures SameLines(l.needs, c.needs)
  {
  }

  lemma SkipSupplied(h: History, w: Walk, x: ItemId, b: ItemId, y: ItemId, line: nat, no: int)
    requires Valid(h) && x < |w.a| && w.a[x].merged == [] && w.a[x].child == Some(b) && w.a[x].identical && (x, 0) in w.live
    requires b < |w.a| && w.a[b].identical && w.a[b].merged == [] && w.a[b].child.Some? && (b, 0) in w.live
    requires y != b && x != b && SameLines(w.a[x].needs, w.a[b].needs)
    requires forall s :: s in w.live ==> IsLink(w.a, s)
    requires Supplied(w.a, w.live, y, line, no)
    ensures Supplied(Skipped(w, x, b).a, Skipped(w, x, b).live, y, line, no)
  {
    var w' := Skipped(w, x, b);
    var s :| s in To(w.a, w.live, y) && LinkOf(w.a, s).parentNo == no && Supplies(LinkOf(w.a, s).needs, !LinkOf(w.a, s).identical, line);
    if s == (b, 0) {
      var i :| 0 <= i < |w.a[b].needs| && w.a[b].needs[i].cur == line;
      assert w.a[x].needs[i].cur == line;
      assert Supplies(LinkOf(w'.a, (x, 0)).needs, false, line) && (x, 0) in To(w'.a, w'.live, y);
    } else {
      assert s == (s.0, s.1);
      assert s in To(w'.a, w'.live, y) && LinkOf(w'.a, s) == LinkOf(w.a, s);
    }
  }

  // ---- Merging the items of one commit ---------------------------------------------------------

  /** Item `x`, which already answers several children, also takes over the link of `y`. */
  function Joined(w: Walk, x: ItemId, y: ItemId): Walk
    requires x < |w.a| && y < |w.a| && w.a[y].child.Some?
  {
    var l := ChildToNeedsMap(w.a[y].child.value, w.a[y].needs, w.a[y].identical, w.a[y].parentNo);
    var x' := w.a[x].(merged := w.a[x].merged + [l], needs := Union(w.a[x].needs, w.a[y].needs));
    Walk(w.a[x := x'], w.q, w.waiting, w.live - {(y, 0)} + {(x, |w.a[x].merged|)})
  }

  /** An item in hand that already carries merged links. */
  ghost predicate Joining(h: History, w: Walk, x: ItemId) {
    && x < |w.a| && x != 0
    && var i := w.a[x];
       && i.merged != [] && i.child.None? && !i.identical && i.pending == 0 && Unanswered(i.needs) && ItemOk(h, i)
       && i.contents == h.file(i.commit)
       && forall k :: 0 <= k < |i.merged| ==> (x, k) in w.live
  }

  lemma WithinUnion(s: Needs, t: Needs, u: Needs)
    requires Within(s, t) || Within(s, u)
    ensures Within(s, Union(t, u))
  {
    forall i | 0 <= i < |s| ensures HasCur(Union(t, u), s[i].cur) { UnionHasCur(t, u, s[i].cur); }
  }

  lemma WiderOwner(h: History, x: QueueItem, l: ChildToNeedsMap, c: QueueItem, x': QueueItem)
    requires Valid(h) && LinkOk(h, x, l, c) && x'.commit == x.commit && Within(l.needs, x'.needs)
    ensures LinkOk(h, x', l, c)
  {
  }

  lemma LinkWithin(h: History, x: QueueItem, l: ChildToNeedsMap, c: QueueItem)
    requires Valid(h) && LinkOk(h, x, l, c)
    ensures Within(l.needs, x.needs)
  {
  }

  /** The first merged link of an item is its own. */
  function FirstJoined(w: Walk, x: ItemId): Walk
    requires x < |w.a| && w.a[x].child.Some?
  {
    var l := ChildToNeedsMap(w.a[x].child.value, w.a[x].needs, w.a[x].identical, w.a[x].parentNo);
    w.(a := w.a[x := w.a[x].(merged := [l], child := None, identical := false)])
  }

  lemma JoinFirst(h: History, root: Commit, w: Walk, stack: set<ItemId>, x: ItemId)
    requires Valid(h) && Inv(h, root, w, stack, {}) && x in stack && Fresh(h, w, x) && x != 0
    ensures Inv(h, root, FirstJoined(w, x), stack, {}) && Joining(h, FirstJoined(w, x), x)
    ensures forall z :: z in stack && z != x && Fresh(h, w, z) ==> Fresh(h, FirstJoined(w, x), z)
  {
    hide LinkOk, Waits, Complete, Sound, Supplied;
    OwnLink(h, root, w, stack, x);
    var w' := FirstJoined(w, x);
    forall s | s in w.live
      ensures IsLink(w'.a, s) && LinkOf(w'.a, s) == LinkOf(w.a, s) && LinkOf(w.a, s).child != x
      ensures LinkOk(h, w'.a[s.0], LinkOf(w'.a, s), w'.a[LinkOf(w'.a, s).child])
    {
      assert IsLink(w.a, s);
      assert s.0 == x ==> s == (x, 0);
      LinkWithin(h, w.a[s.0], LinkOf(w.a, s), w.a[LinkOf(w.a, s).child]);
      WiderOwner(h, w.a[s.0], LinkOf(w.a, s), w.a[LinkOf(w.a, s).child], w'.a[s.0]);
    }
    assert Numbered(w'.a, w'.live);
    SameLinksWait(h, w, w', {});
  }

  /** When every live link stays as it is, every waiting item that is left alone keeps waiting. */
  lemma SameLinksWait(h: History, w: Walk, w': Walk, busy: set<ItemId>)
    requires Valid(h) && WaitingOk(h, w, busy) && w'.waiting == w.waiting && w'.live == w.live && |w.a| <= |w'.a|
    requires forall s :: s in w.live ==> IsLink(w.a, s) && IsLink(w'.a, s) && LinkOf(w'.a, s) == LinkOf(w.a, s)
    requires forall y :: y in w.waiting && y < |w.a| ==> w'.a[y] == w.a[y]
    ensures WaitingOk(h, w', busy)
  {
    forall y | y in w.waiting
      ensures Waits(h, w', busy, y)
    {
      assert Waits(h, w, busy, y);
      assert To(w'.a, w'.live, y) == To(w.a, w.live, y);
      forall line, no | Supplied(w.a, w.live, y, line, no)
        ensures Supplied(w'.a, w'.live, y, line, no)
      {
        var s :| s in To(w.a, w.live, y) && LinkOf(w.a, s).parentNo == no && Supplies(LinkOf(w.a, s).needs, !LinkOf(w.a, s).identical, line);
        assert s in To(w'.a, w'.live, y);
      }
      KeepsWaiting(h, w, w', busy, y);
    }
  }

  lemma JoinItem(h: History, root: Commit, w: Walk, stack: set<ItemId>, x: ItemId, y: ItemId)
    requires Valid(h) && Inv(h, root, w, stack, {}) && x in stack && y in stack && x != y && y != 0
    requires Joining(h, w, x) && Fresh(h, w, y) && w.a[x].commit == w.a[y].commit
    ensures w.a[y].child.Some?
    ensures Inv(h, root, Joined(w, x, y), stack - {y}, {}) && Joining(h, Joined(w, x, y), x)
    ensures forall z :: z in stack && z != x && z != y && Fresh(h, w, z) ==> Fresh(h, Joined(w, x, y), z)
  {
    hide LinkOk, Waits, Complete, Sound, Supplied, Within, RootOk;
    OwnLink(h, root, w, stack, y);
    var w' := Joined(w, x, y);
    UnionSorted(w.a[x].needs, w.a[y].needs, |h.file(w.a[x].commit)|);
    JoinLinks(h, w, stack, x, y);
    JoinNumbers(w, x, y);
    JoinRoot(h, root, w, x, w'.a[x]);
    forall z | z in w.waiting
      ensures Waits(h, w', {}, z)
    {
      JoinWaits(h, w, x, y, z);
    }
    JoinFresh(h, w, stack, x, y);
  }

  lemma JoinRoot(h: History, root: Commit, w: Walk, x: ItemId, x': QueueItem)
    requires RootOk(h, root, w.a) && 0 < x < |w.a| && x'.commit == w.a[x].commit
    ensures RootOk(h, root, w.a[x := x'])
  {
  }

  lemma JoinFresh(h: History, w: Walk, stack: set<ItemId>, x: ItemId, y: ItemId)
    requires QueueOk(h, w) && x < |w.a| && y < |w.a| && w.a[y].child.Some? && x in stack && y in stack && x !in w.q && y !in w.q
    ensures QueueOk(h, Joined(w, x, y))
    ensures forall z :: z in stack && z != x && z != y && Fresh(h, w, z) ==> Fresh(h, Joined(w, x, y), z)
  {
  }

  lemma JoinLinks(h: History, w: Walk, stack: set<ItemId>, x: ItemId, y: ItemId)
    requires Valid(h) && LinksOk(h, w, stack) && x in stack && x !in w.waiting && y !in w.waiting && x != y
    requires y < |w.a| && w.a[y].merged == [] && w.a[y].child.Some? && (y, 0) in w.live && y !in w.q
    requires x < |w.a| && w.a[x].merged != [] && w.a[x].commit == w.a[y].commit
    ensures LinksOk(h, Joined(w, x, y), stack - {y})
  {
    hide LinkOk, Within;
    var w' := Joined(w, x, y);
    forall s | s in w'.live
      ensures IsLink(w'.a, s) && (s.0 in w'.q || s.0 in w'.waiting || s.0 in stack - {y})
      ensures var l := LinkOf(w'.a, s);
              l.child < |w'.a| && l.child in w'.waiting && LinkOk(h, w'.a[s.0], l, w'.a[l.child])
    {
      var t := if s == (x, |w.a[x].merged|) then (y, 0) else s;
      assert IsLink(w.a, t) && t in w.live by { if t == s { assert IsLink(w.a, s); } }
      assert s == (s.0, s.1) && LinkOf(w'.a, s) == LinkOf(w.a, t);
      var l := LinkOf(w.a, t);
      LinkWithin(h, w.a[t.0], l, w.a[l.child]);
      if s.0 == x { WithinUnion(l.needs, w.a[x].needs, w.a[y].needs); }
      WiderOwner(h, w.a[t.0], l, w.a[l.child], w'.a[s.0]);
    }
  }

  lemma RelinkedTo(a: seq<QueueItem>, a': seq<QueueItem>, live: set<Slot>, before: Slot, after: Slot, y: ItemId)
    requires before in live && after !in live && IsLink(a, before) && IsLink(a', after)
    requires LinkOf(a', after) == LinkOf(a, before)
    requires forall s :: s in live && s != before ==> IsLink(a, s) && IsLink(a', s) && LinkOf(a', s) == LinkOf(a, s)
    ensures var live' := live - {before} + {after};
            && To(a', live', y) == (if before in To(a, live, y) then To(a, live, y) - {before} + {after} else To(a, live, y))
            && after !in To(a, live, y)
            && forall s :: s in To(a, live, y) ==> IsLink(a, s) && LinkOf(a', if s == before then after else s) == LinkOf(a, s)
  {
  }

  /** One live link changes hands and nothing else changes. */
  lemma Relinked(a: seq<QueueItem>, a': seq<QueueItem>, live: set<Slot>, before: Slot, after: Slot, y: ItemId)
    requires before in live && after !in live && IsLink(a, before) && IsLink(a', after)
    requires LinkOf(a', after) == LinkOf(a, before)
    requires forall s :: s in live && s != before ==> IsLink(a, s) && IsLink(a', s) && LinkOf(a', s) == LinkOf(a, s)
    ensures var live' := live - {before} + {after};
            && |To(a', live', y)| == |To(a, live, y)|
            && forall line, no :: Supplied(a, live, y, line, no) ==> Supplied(a', live', y, line, no)
  {
    hide IsLink, LinkOf, Supplies, To;
    var live' := live - {before} + {after};
    RelinkedTo(a, a', live, before, after, y);
    forall line, no | Supplied(a, live, y, line, no)
      ensures Supplied(a', live', y, line, no)
    {
      var s :| s in To(a, live, y) && LinkOf(a, s).parentNo == no && Supplies(LinkOf(a, s).needs, !LinkOf(a, s).identical, line);
      assert (if s == before then after else s) in To(a', live', y);
    }
  }

  /** Then all numbers stay apart. */
  lemma RelinkedNumbers(a: seq<QueueItem>, a': seq<QueueItem>, live: set<Slot>, before: Slot, after: Slot)
    requires before in live && after !in live && IsLink(a, before) && IsLink(a', after) && Numbered(a, live)
    requires LinkOf(a', after) == LinkOf(a, before)
    requires forall s :: s in live && s != before ==> IsLink(a, s) && IsLink(a', s) && LinkOf(a', s) == LinkOf(a, s)
    ensures Numbered(a', live - {before} + {after})
  {
    hide IsLink, LinkOf;
    var live' := live - {before} + {after};
    forall s, t | s in live' && t in live' && s != t && IsLink(a', s) && IsLink(a', t) && LinkOf(a', s).child == LinkOf(a', t).child
      ensures LinkOf(a', s).parentNo != LinkOf(a', t).parentNo
    {
      var s0, t0 := if s == after then before else s, if t == after then before else t;
      assert LinkOf(a, s0).parentNo != LinkOf(a, t0).parentNo;
    }
  }

  lemma JoinNumbers(w: Walk, x: ItemId, y: ItemId)
    requires Numbered(w.a, w.live) && (forall s :: s in w.live ==> IsLink(w.a, s)) && x != y
    requires y < |w.a| && w.a[y].merged == [] && w.a[y].child.Some? && (y, 0) in w.live
    requires x < |w.a| && w.a[x].merged != []
    ensures Numbered(Joined(w, x, y).a, Joined(w, x, y).live)
  {
    hide Union;
    var w' := Joined(w, x, y);
    var n := (x, |w.a[x].merged|);
    assert n !in w.live by { assert !IsLink(w.a, n); }
    forall s | s in w.live && s != (y, 0)
      ensures s == (s.0, s.1) && IsLink(w'.a, s) && LinkOf(w'.a, s) == LinkOf(w.a, s)
    {
      assert IsLink(w.a, s);
    }
    RelinkedNumbers(w.a, w'.a, w.live, (y, 0), n);
    assert w'.live == w.live - {(y, 0)} + {n};
  }

  lemma JoinWaits(h: History, w: Walk, x: ItemId, y: ItemId, z: ItemId)
    requires Valid(h) && (forall s :: s in w.live ==> IsLink(w.a, s)) && Waits(h, w, {}, z) && z != x && z != y && x != y
    requires y < |w.a| && w.a[y].merged == [] && w.a[y].child.Some? && (y, 0) in w.live
    requires x < |w.a| && w.a[x].merged != []
    ensures Waits(h, Joined(w, x, y), {}, z)
  {
    hide Waits, Supplied, To, Union;
    var w' := Joined(w, x, y);
    var n := (x, |w.a[x].merged|);
    assert n !in w.live by { assert !IsLink(w.a, n); }
    forall s | s in w.live && s != (y, 0)
      ensures s == (s.0, s.1) && IsLink(w'.a, s) && LinkOf(w'.a, s) == LinkOf(w.a, s)
    {
      assert IsLink(w.a, s);
    }
    Relinked(w.a, w'.a, w.live, (y, 0), n, z);
    assert w'.live == w.live - {(y, 0)} + {n};
    WaitingSlots(h, w, w', z);
    KeepsWaiting(h, w, w', {}, z);
  }

  lemma WaitingSlots(h: History, w: Walk, w': Walk, z: ItemId)
    requires Valid(h) && Waits(h, w, {}, z) && forall k: nat :: (z, k) in w.live ==> (z, k) in w'.live
    ensures z < |w.a| && forall k :: 0 <= k < |Links(w.a[z])| ==> (z, k) in w'.live
  {
  }

  // ---- Visiting the parents ----------------------------------------------------------------------

  /** Only parents before the `k`-th have a live link to `x`. */
  ghost predicate UpTo(a: seq<QueueItem>, live: set<Slot>, x: ItemId, k: nat) {
    forall s :: s in To(a, live, x) ==> LinkOf(a, s).parentNo < k
  }

  /** An item in hand starts waiting for its parents. */
  lemma StartVisit(h: History, root: Commit, w: Walk, x: ItemId)
    requires Valid(h) && Inv(h, root, w, {x}, {}) && (Fresh(h, w, x) || Joining(h, w, x))
    ensures var w' := w.(waiting := w.waiting + {x});
            Inv(h, root, w', {}, {x}) && To(w.a, w.live, x) == {} && Complete(h, w.a, w.live, x, 0) && UpTo(w.a, w.live, x, 0) && OwnsLinks(w, x)
  {
    hide LinkOk;
    var w' := w.(waiting := w.waiting + {x});
    forall s | s in w.live ensures IsLink(w.a, s) && LinkOf(w.a, s).child != x {}
    assert To(w.a, w.live, x) == {};
    assert RootOk(h, root, w.a);
    assert Waits(h, w', {x}, x);
    forall y | y in w.waiting ensures Waits(h, w', {x}, y) { assert Waits(h, w, {}, y); }
  }

  function Pushed(w: Walk, x: ItemId, item: QueueItem): Walk
    requires x < |w.a|
  {
    var n := |w.a|;
    Walk(w.a[x := w.a[x].(pending := w.a[x].pending + 1)] + [item], w.q + [n], w.waiting, w.live + {(n, 0)})
  }

  /** An item for a parent of `x` that hands its answers to `x`. */
  ghost predicate ForParent(h: History, x: QueueItem, child: ItemId, item: QueueItem)
    requires Valid(h)
  {
    && item.child == Some(child) && item.merged == [] && item.pending == 0 && Unanswered(item.needs) && ItemOk(h, item)
    && item.contents == h.file(item.commit)
    && 0 <= item.parentNo < |h.parents(x.commit)| && item.commit == h.parents(x.commit)[item.parentNo]
    && (item.identical <==> h.file(item.commit) == h.file(x.commit))
    && LinkOk(h, item, ChildToNeedsMap(child, item.needs, item.identical, item.parentNo), x)
  }

  lemma Push(h: History, root: Commit, w: Walk, x: ItemId, item: QueueItem, k: nat)
    requires Valid(h) && Inv(h, root, w, {}, {x}) && x in w.waiting && x < |w.a| && ForParent(h, w.a[x], x, item) && item.parentNo == k
    requires ItemOk(h, w.a[x]) && k < |h.parents(w.a[x].commit)| && Complete(h, w.a, w.live, x, k) && UpTo(w.a, w.live, x, k)
    requires forall m :: 0 <= m < |w.a[x].needs| && Carry(h, w.a[x].commit, k, w.a[x].needs[m].cur).Some?
               ==> Supplies(item.needs, !item.identical, w.a[x].needs[m].cur)
    ensures var w' := Pushed(w, x, item);
            Inv(h, root, w', {}, {x}) && ItemOk(h, w'.a[x]) && Complete(h, w'.a, w'.live, x, k + 1) && UpTo(w'.a, w'.live, x, k + 1)
  {
    hide LinkOk, Waits, Complete, Supplied, RootOk, Frame, Sound, ItemOk;
    var w' := Pushed(w, x, item);
    var n := |w.a|;
    PushFrame(w, x, item);
    LinkGenerations(h, item, ChildToNeedsMap(x, item.needs, item.identical, item.parentNo), w.a[x]);
    WaitingInRange(h, w, {x});
    PushRoot(h, root, w, x, item);
    FrameLinks(h, w, {}, w'.a);
    assert LinksOk(h, w', {}) by { PushLinks(h, w, x, item); }
    PushNumbers(h, w, x, item, k);
    PushFresh(h, w, x, item);
    forall y | y in w.waiting
      ensures Waits(h, w', {x}, y)
    {
      PushWaits(h, w, x, item, y);
    }
    PushComplete(h, w, x, item, k);
  }

  lemma LinkGenerations(h: History, x: QueueItem, l: ChildToNeedsMap, c: QueueItem)
    requires Valid(h) && LinkOk(h, x, l, c)
    ensures h.generation(x.commit) < h.generation(c.commit)
  {
  }

  lemma WaitingInRange(h: History, w: Walk, busy: set<ItemId>)
    requires Valid(h) && WaitingOk(h, w, busy)
    ensures forall y :: y in w.waiting ==> y < |w.a|
  {
  }

  lemma PushFrame(w: Walk, x: ItemId, item: QueueItem)
    requires x < |w.a|
    ensures Frame(w.a, Pushed(w, x, item).a)
  {
  }

  lemma PushRoot(h: History, root: Commit, w: Walk, x: ItemId, item: QueueItem)
    requires RootOk(h, root, w.a) && x < |w.a| && h.generation(item.commit) < h.generation(w.a[x].commit)
    ensures RootOk(h, root, Pushed(w, x, item).a)
  {
  }

  lemma PushFresh(h: History, w: Walk, x: ItemId, item: QueueItem)
    requires Valid(h) && QueueOk(h, w) && x < |w.a| && x in w.waiting && ForParent(h, w.a[x], x, item)
    requires forall y :: y in w.waiting ==> y < |w.a|
    ensures QueueOk(h, Pushed(w, x, item))
  {
    hide LinkOk;
    var w' := Pushed(w, x, item);
    forall y | y in w.q ensures y < |w.a| && y != x && y !in w'.waiting && Fresh(h, w', y) { assert Fresh(h, w, y); }
    assert forall i :: 0 <= i < |w.q| ==> w.q[i] in w.q;
    assert Fresh(h, w', |w.a|);
    forall y | y in w'.q ensures y !in w'.waiting && Fresh(h, w', y) {}
  }

  lemma PushLinks(h: History, w: Walk, x: ItemId, item: QueueItem)
    requires Valid(h) && x in w.waiting && x < |w.a| && ForParent(h, w.a[x], x, item)
    requires LinksOk(h, w.(a := Pushed(w, x, item).a), {})
    ensures LinksOk(h, Pushed(w, x, item), {})
  {
    var w' := Pushed(w, x, item);
    var s := (|w.a|, 0);
    assert LinkOf(w'.a, s) == ChildToNeedsMap(x, item.needs, item.identical, item.parentNo);
    assert LinkOk(h, item, LinkOf(w'.a, s), w'.a[x]);
  }

  lemma PushNumbers(h: History, w: Walk, x: ItemId, item: QueueItem, k: nat)
    requires Valid(h) && LinksOk(h, w, {}) && Numbered(w.a, w.live) && x < |w.a| && ForParent(h, w.a[x], x, item)
    requires UpTo(w.a, w.live, x, k) && item.parentNo == k
    ensures var w' := Pushed(w, x, item); Numbered(w'.a, w'.live) && UpTo(w'.a, w'.live, x, k + 1)
  {
    hide LinkOk;
    var w' := Pushed(w, x, item);
    var n := (|w.a|, 0);
    assert LinkOf(w'.a, n) == ChildToNeedsMap(x, item.needs, item.identical, k);
    forall s | s in w.live ensures IsLink(w'.a, s) && LinkOf(w'.a, s) == LinkOf(w.a, s) && s != n { assert IsLink(w.a, s); }
    hide IsLink, LinkOf;
    forall s | s in w.live && LinkOf(w.a, s).child == x ensures LinkOf(w.a, s).parentNo < k { assert s in To(w.a, w.live, x) by { InTo(h, w, s, x); } }
  }

  lemma InTo(h: History, w: Walk, s: Slot, x: ItemId)
    requires Valid(h) && LinksOk(h, w, {}) && s in w.live && LinkOf(w.a, s).child == x
    ensures s in To(w.a, w.live, x)
  {
  }

  lemma PushTo(h: History, w: Walk, x: ItemId, item: QueueItem, y: ItemId)
    requires Valid(h) && LinksOk(h, w, {}) && x < |w.a| && ForParent(h, w.a[x], x, item)
    ensures var w' := Pushed(w, x, item); var n := |w.a|;
            To(w'.a, w'.live, y) == To(w.a, w.live, y) + (if y == x then {(n, 0)} else {}) && (n, 0) !in To(w.a, w.live, y)
    ensures forall line, no :: Supplied(w.a, w.live, y, line, no) ==> Supplied(Pushed(w, x, item).a, Pushed(w, x, item).live, y, line, no)
  {
    hide LinkOk, Supplied;
    var w' := Pushed(w, x, item);
    PushFrame(w, x, item);
    FrameTo(w.a, w'.a, w.live, y);
    forall line, no | Supplied(w.a, w.live, y, line, no) ensures Supplied(w'.a, w'.live, y, line, no)
    {
      StillSupplied(w.a, w'.a, w.live, w'.live, y, line, no);
    }
  }

  lemma PushWaits(h: History, w: Walk, x: ItemId, item: QueueItem, y: ItemId)
    requires Valid(h) && LinksOk(h, w, {}) && x < |w.a| && ForParent(h, w.a[x], x, item) && Waits(h, w, {x}, y)
    ensures Waits(h, Pushed(w, x, item), {x}, y)
  {
    hide LinksOk, ForParent, LinkOk, To, Supplied, Complete;
    var w' := Pushed(w, x, item);
    PushTo(h, w, x, item, y);
    if y != x {
      hide Waits;
      WaitingAt(h, w, {x}, y);
      assert w'.a[y] == w.a[y];
      KeepsWaiting(h, w, w', {x}, y);
    }
  }

  lemma WaitingAt(h: History, w: Walk, busy: set<ItemId>, y: ItemId)
    requires Valid(h) && Waits(h, w, busy, y)
    ensures y < |w.a| && forall k :: 0 <= k < |Links(w.a[y])| ==> (y, k) in w.live
  {
  }

  lemma PushComplete(h: History, w: Walk, x: ItemId, item: QueueItem, k: nat)
    requires Valid(h) && LinksOk(h, w, {}) && x < |w.a| && ForParent(h, w.a[x], x, item) && item.parentNo == k
    requires ItemOk(h, w.a[x]) && k < |h.parents(w.a[x].commit)| && Complete(h, w.a, w.live, x, k)
    requires forall m :: 0 <= m < |w.a[x].needs| && Carry(h, w.a[x].commit, k, w.a[x].needs[m].cur).Some?
               ==> Supplies(item.needs, !item.identical, w.a[x].needs[m].cur)
    ensures var w' := Pushed(w, x, item); ItemOk(h, w'.a[x]) && Complete(h, w'.a, w'.live, x, k + 1)
  {
    hide LinksOk, LinkOk;
    var w' := Pushed(w, x, item);
    var s := (|w.a|, 0);
    PushTo(h, w, x, item, x);
    assert LinkOf(w'.a, s) == ChildToNeedsMap(x, item.needs, item.identical, item.parentNo);
    forall m, j | 0 <= m < |w.a[x].needs| && 0 <= j < k + 1 && First(h, w.a[x].commit, j, w.a[x].needs[m].cur)
      ensures HeldFrom(w.a[x].needs[m], j) || Supplied(w'.a, w'.live, x, w.a[x].needs[m].cur, j)
    {
      if j < k {
        assert HeldFrom(w.a[x].needs[m], j) || Supplied(w.a, w.live, x, w.a[x].needs[m].cur, j);
      } else {
        assert s in To(w'.a, w'.live, x);
      }
    }
  }

  /** A parent that carries none of the lines needs no item. */
  lemma NothingCarried(h: History, w: Walk, x: ItemId, k: nat)
    requires Valid(h) && x < |w.a| && ItemOk(h, w.a[x]) && k < |h.parents(w.a[x].commit)| && Complete(h, w.a, w.live, x, k)
    requires forall m :: 0 <= m < |w.a[x].needs| ==> Carry(h, w.a[x].commit, k, w.a[x].needs[m].cur).None?
    ensures Complete(h, w.a, w.live, x, k + 1)
  {
  }

  // ---- Bypassing an item -----------------------------------------------------------------------------

  function Bypassed(w: Walk, x: ItemId, item: QueueItem): Walk {
    var n := |w.a|;
    Walk(w.a + [item], w.q + [n], w.waiting - {x}, w.live - {(x, 0)} + {(n, 0)})
  }

  /** The only parent is identical and so is the only child: the parent's item answers the child. */
  lemma Bypass(h: History, root: Commit, w: Walk, x: ItemId, item: QueueItem)
    requires Valid(h) && Inv(h, root, w, {}, {x}) && x in w.waiting && x < |w.a| && To(w.a, w.live, x) == {}
    requires w.a[x].child.Some? && w.a[x].merged == [] && w.a[x].identical && Unanswered(w.a[x].needs)
    requires |h.parents(w.a[x].commit)| == 1 && h.file(h.parents(w.a[x].commit)[0]) == h.file(w.a[x].commit)
    requires item == QueueItem(w.a[x].child, [], h.parents(w.a[x].commit)[0], h.file(w.a[x].commit), w.a[x].needs, 0, true, w.a[x].parentNo)
    ensures Inv(h, root, Bypassed(w, x, item), {}, {})
  {
    hide LinkOk, RootOk, Sound, WaitingOk, Complete;
    assert Waits(h, w, {x}, x) by { WaitingItem(h, w, {x}, x); }
    RootHasNoChild(h, root, w.a, x);
    SoundItem(h, w.a[x]);
    WaitingInRange(h, w, {x});
    BypassLinks(h, w, x, item);
    BypassNumbers(h, w, x, item);
    BypassRoot(h, root, w, x, item);
    BypassFresh(h, w, x, item);
    var w' := Bypassed(w, x, item);
    assert WaitingOk(h, w', {}) by {
      forall y | y in w'.waiting
        ensures Waits(h, w', {}, y)
      {
        WaitingItem(h, w, {x}, y);
        BypassWaits(h, w, x, item, y);
      }
      AllWait(h, w', {});
    }
  }

  lemma WaitingItem(h: History, w: Walk, busy: set<ItemId>, y: ItemId)
    requires Valid(h) && WaitingOk(h, w, busy) && y in w.waiting
    ensures Waits(h, w, busy, y)
  {
  }

  lemma AllWait(h: History, w: Walk, busy: set<ItemId>)
    requires Valid(h) && forall y :: y in w.waiting ==> Waits(h, w, busy, y)
    ensures WaitingOk(h, w, busy)
  {
  }

  lemma RootHasNoChild(h: History, root: Commit, a: seq<QueueItem>, x: ItemId)
    requires RootOk(h, root, a) && x < |a| && a[x].child.Some?
    ensures x != 0
  {
  }

  lemma BypassLinks(h: History, w: Walk, x: ItemId, item: QueueItem)
    requires Valid(h) && LinksOk(h, w, {}) && x in w.waiting && x !in w.q && x < |w.a| && To(w.a, w.live, x) == {}
    requires w.a[x].child.Some? && w.a[x].merged == [] && w.a[x].identical && (x, 0) in w.live && ItemOk(h, w.a[x])
    requires |h.parents(w.a[x].commit)| == 1 && h.file(h.parents(w.a[x].commit)[0]) == h.file(w.a[x].commit)
    requires item == QueueItem(w.a[x].child, [], h.parents(w.a[x].commit)[0], h.file(w.a[x].commit), w.a[x].needs, 0, true, w.a[x].parentNo)
    ensures LinksOk(h, Bypassed(w, x, item), {})
    ensures h.generation(item.commit) < h.generation(w.a[x].commit)
  {
    hide LinkOk, ItemOk;
    var c := w.a[x].child.value;
    var w' := Bypassed(w, x, item);
    var n := (|w.a|, 0);
    assert LinkOf(w.a, (x, 0)) == ChildToNeedsMap(c, w.a[x].needs, true, w.a[x].parentNo);
    BypassLink(h, w.a[x], LinkOf(w.a, (x, 0)), w.a[c], item);
    assert c != x by { GenerationsDiffer(h, w.a[x], LinkOf(w.a, (x, 0)), w.a[c]); }
    assert IsLink(w'.a, n) && LinkOf(w'.a, n) == LinkOf(w.a, (x, 0));
    forall s | s in w'.live && s != n
      ensures IsLink(w.a, s) && s.0 != x && LinkOf(w'.a, s) == LinkOf(w.a, s) && LinkOf(w.a, s).child != x
    {
      assert s == (s.0, s.1) && IsLink(w.a, s) && s !in To(w.a, w.live, x);
    }
  }

  lemma BypassNumbers(h: History, w: Walk, x: ItemId, item: QueueItem)
    requires Valid(h) && LinksOk(h, w, {}) && Numbered(w.a, w.live) && x < |w.a| && w.a[x].merged == [] && w.a[x].child.Some? && (x, 0) in w.live
    requires item.merged == [] && item.child == w.a[x].child && item.needs == w.a[x].needs && item.identical == w.a[x].identical && item.parentNo == w.a[x].parentNo
    ensures Numbered(Bypassed(w, x, item).a, Bypassed(w, x, item).live)
  {
    hide LinkOk;
    var w' := Bypassed(w, x, item);
    var n := (|w.a|, 0);
    forall s | s in w.live ensures s == (s.0, s.1) && IsLink(w.a, s) && IsLink(w'.a, s) && LinkOf(w'.a, s) == LinkOf(w.a, s) && s != n {}
    RelinkedNumbers(w.a, w'.a, w.live, (x, 0), n);
    assert w'.live == w.live - {(x, 0)} + {n};
  }

  lemma BypassFresh(h: History, w: Walk, x: ItemId, item: QueueItem)
    requires QueueOk(h, w) && x < |w.a| && x !in w.q && forall y :: y in w.waiting ==> y < |w.a|
    requires item.merged == [] && item.child.Some? && item.pending == 0 && Unanswered(item.needs) && ItemOk(h, item)
    requires item.contents == h.file(item.commit)
    ensures QueueOk(h, Bypassed(w, x, item))
  {
    var w' := Bypassed(w, x, item);
    forall y | y in w.q ensures y < |w.a| && y !in w'.waiting && Fresh(h, w', y) { assert Fresh(h, w, y); }
    assert forall i :: 0 <= i < |w.q| ==> w.q[i] in w.q;
    assert Fresh(h, w', |w.a|);
  }

  lemma SoundItem(h: History, x: QueueItem)
    requires Valid(h) && Sound(h, x)
    ensures ItemOk(h, x)
  {
  }

  lemma BypassRoot(h: History, root: Commit, w: Walk, x: ItemId, item: QueueItem)
    requires RootOk(h, root, w.a) && x < |w.a| && h.generation(item.commit) < h.generation(w.a[x].commit)
    ensures RootOk(h, root, Bypassed(w, x, item).a)
  {
  }

  lemma BypassLink(h: History, x: QueueItem, l: ChildToNeedsMap, c: QueueItem, item: QueueItem)
    requires Valid(h) && LinkOk(h, x, l, c) && l.identical && l.needs == x.needs && ItemOk(h, x)
    requires |h.parents(x.commit)| == 1 && item.commit == h.parents(x.commit)[0] && h.file(item.commit) == h.file(x.commit)
    requires item.needs == x.needs
    ensures LinkOk(h, item, l, c) && h.generation(item.commit) < h.generation(x.commit)
  {
    hide Blames, Via, Leads;
    SelfLeads(h, item.commit);
    OneStep(h, x.commit, item.commit);
    LeadsByOn(h, c.commit, l.parentNo, x.commit, item.commit);
    forall i | 0 <= i < |l.needs|
      ensures Passes(h, item.commit, l.needs[i].cur, true, c.commit, l.parentNo, l.needs[i].cur)
    {
      assert Passes(h, x.commit, l.needs[i].cur, true, c.commit, l.parentNo, l.needs[i].cur);
      forall d ensures Blames(h, item.commit, l.needs[i].cur, d, true) ==> Blames(h, x.commit, l.needs[i].cur, d, true) {
        OnlyParentBlames(h, x.commit, l.needs[i].cur, d);
      }
    }
  }

  lemma OneStep(h: History, c: Commit, p: Commit)
    requires Valid(h) && |h.parents(c)| > 0 && h.parents(c)[0] == p && h.file(p) == h.file(c)
    ensures Leads(h, c, p)
  {
    SelfLeads(h, p);
  }

  lemma BypassWaits(h: History, w: Walk, x: ItemId, item: QueueItem, y: ItemId)
    requires Valid(h) && LinksOk(h, w, {}) && x < |w.a| && w.a[x].merged == [] && w.a[x].child.Some? && (x, 0) in w.live
    requires item.merged == [] && item.child == w.a[x].child && item.needs == w.a[x].needs && item.identical == w.a[x].identical && item.parentNo == w.a[x].parentNo
    requires Waits(h, w, {x}, y) && y != x
    ensures Waits(h, Bypassed(w, x, item), {}, y)
  {
    hide LinkOk, Supplied, To;
    var w' := Bypassed(w, x, item);
    var n := (|w.a|, 0);
    forall s | s in w.live ensures s == (s.0, s.1) && IsLink(w.a, s) && IsLink(w'.a, s) && LinkOf(w'.a, s) == LinkOf(w.a, s) && s != n {}
    Relinked(w.a, w'.a, w.live, (x, 0), n, y);
    assert w'.live == w.live - {(x, 0)} + {n};
    KeepsWaiting(h, w, w', {x}, y);
  }

  // ---- The item for one parent ------------------------------------------------------------------------

  lemma SelfWithin(s: Needs)
    ensures Within(s, s)
  {
  }

  /** A copy of an identical file supplies every line. */
  lemma CopyForParent(h: History, x: QueueItem, child: ItemId, k: nat, item: QueueItem)
    requires Valid(h) && ItemOk(h, x) && Unanswered(x.needs) && k < |h.parents(x.commit)|
    requires var p := h.parents(x.commit)[k];
             h.file(p) == h.file(x.commit) && item == QueueItem(Some(child), [], p, h.file(p), x.needs, 0, true, k)
    ensures ForParent(h, x, child, item)
    ensures forall m :: 0 <= m < |x.needs| ==> Supplies(item.needs, !item.identical, x.needs[m].cur)
  {
    SelfWithin(x.needs);
    SelfLeads(h, item.commit);
    forall i | 0 <= i < |x.needs|
      ensures Passes(h, item.commit, x.needs[i].cur, true, x.commit, k, x.needs[i].cur)
    {
      hide Blames, Leads;
    }
  }

  /** The lines found in equal hunks are exactly the needed lines the parent carries. */
  lemma DiffForParent(h: History, x: QueueItem, child: ItemId, k: nat, item: QueueItem)
    requires Valid(h) && ItemOk(h, x) && k < |h.parents(x.commit)|
    requires var p := h.parents(x.commit)[k];
             && h.file(p) != h.file(x.commit)
             && item == QueueItem(Some(child), [], p, h.file(p), FromParent(h.diff(h.file(p), h.file(x.commit)), x.needs), 0, false, k)
    ensures ForParent(h, x, child, item)
    ensures forall m :: 0 <= m < |x.needs| && Carry(h, x.commit, k, x.needs[m].cur).Some?
              ==> Supplies(item.needs, !item.identical, x.needs[m].cur)
  {
    var p := h.parents(x.commit)[k];
    var script := h.diff(h.file(p), h.file(x.commit));
    assert IsScript(script, h.file(p), h.file(x.commit));
    FromParentSorted(script, x.needs);
    SelfWithin(item.needs);
    forall i | 0 <= i < |item.needs|
      ensures Passes(h, p, item.needs[i].cur, false, x.commit, k, item.needs[i].orig)
    {
      hide Blames;
      FromParentExact(script, x.needs, item.needs[i]);
    }
    forall m | 0 <= m < |x.needs| && Carry(h, x.commit, k, x.needs[m].cur).Some?
      ensures Supplies(item.needs, true, x.needs[m].cur)
    {
      var e := LineMap(x.needs[m].cur, Carry(h, x.commit, k, x.needs[m].cur).value, None, -1);
      FromParentExact(script, x.needs, e);
      var i :| 0 <= i < |item.needs| && item.needs[i] == e;
    }
  }

  /** Once every parent was visited the item waits like any other. */
  lemma EndVisit(h: History, root: Commit, w: Walk, x: ItemId)
    requires Valid(h) && Inv(h, root, w, {}, {x}) && x in w.waiting && x < |w.a| && ItemOk(h, w.a[x])
    requires Complete(h, w.a, w.live, x, |h.parents(w.a[x].commit)|)
    ensures Inv(h, root, w, {}, {})
  {
  }

  // ---- The walk cannot get stuck ------------------------------------------------------------------------

  /** Behind every waiting item there is a queued one. */
  lemma {:induction false} SomethingQueued(h: History, root: Commit, w: Walk, c: ItemId) returns (x: ItemId)
    requires Valid(h) && Inv(h, root, w, {}, {}) && Alive(w, {}) && c in w.waiting && c < |w.a|
    ensures x in w.q
    decreases h.generation(w.a[c].commit)
  {
    assert Waits(h, w, {}, c);
    assert To(w.a, w.live, c) != {};
    var s :| s in To(w.a, w.live, c);
    assert LinkOk(h, w.a[s.0], LinkOf(w.a, s), w.a[c]);
    if s.0 in w.q {
      x := s.0;
    } else {
      x := SomethingQueued(h, root, w, s.0);
    }
  }

  lemma QueueNotEmpty(h: History, root: Commit, w: Walk)
    requires Valid(h) && Inv(h, root, w, {}, {}) && Alive(w, {})
    ensures w.q != []
  {
    if 0 in w.waiting {
      var x := SomethingQueued(h, root, w, 0);
    }
  }

  // ---- The walk comes to an end ---------------------------------------------------------------------------

  /** Number of parent paths that start at a commit. */
  function Weight(h: History, c: Commit): nat
    requires Valid(h)
    decreases h.generation(c), 1, 0
  {
    1 + WeightUpTo(h, c, |h.parents(c)|)
  }

  function WeightUpTo(h: History, c: Commit, k: nat): nat
    requires Valid(h) && k <= |h.parents(c)|
    decreases h.generation(c), 0, k
  {
    if k == 0 then 0 else WeightUpTo(h, c, k - 1) + Weight(h, h.parents(c)[k - 1])
  }

  /** What is left to do: the paths that start at queued items. */
  function Load(h: History, a: seq<QueueItem>, q: seq<ItemId>): nat
    requires Valid(h)
  {
    if q == [] then 0
    else Load(h, a, q[..|q| - 1]) + (if q[|q| - 1] < |a| then Weight(h, a[q[|q| - 1]].commit) else 0)
  }

  lemma {:induction false} LoadSame(h: History, a: seq<QueueItem>, a': seq<QueueItem>, q: seq<ItemId>)
    requires Valid(h) && SameCommits(a, a') && forall i :: 0 <= i < |q| ==> q[i] < |a|
    ensures Load(h, a', q) == Load(h, a, q)
  {
    if q != [] { LoadSame(h, a, a', q[..|q| - 1]); }
  }

  lemma {:induction false} LoadWithout(h: History, a: seq<QueueItem>, q: seq<ItemId>, k: nat)
    requires Valid(h) && k < |q| && q[k] < |a|
    ensures Load(h, a, q) == Load(h, a, Without(q, k)) + Weight(h, a[q[k]].commit)
  {
    var n := |q| - 1;
    if k == n {
      assert Without(q, k) == q[..n];
    } else {
      assert Without(q, k)[..n - 1] == Without(q[..n], k);
      LoadWithout(h, a, q[..n], k);
    }
  }

  lemma LoadPush(h: History, a: seq<QueueItem>, a': seq<QueueItem>, q: seq<ItemId>, item: QueueItem)
    requires Valid(h) && SameCommits(a, a') && (forall i :: 0 <= i < |q| ==> q[i] < |a|)
    requires |a'| == |a| + 1 && a'[|a|] == item
    ensures Load(h, a', q + [|a|]) == Load(h, a, q) + Weight(h, item.commit)
  {
    hide Weight;
    var q' := q + [|a|];
    assert q'[..|q'| - 1] == q && q'[|q'| - 1] == |a|;
    LoadSame(h, a, a', q);
  }
}
