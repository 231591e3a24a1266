/** The blame walk itself. */
module Blame {
  import opened Wrappers
  import opened LineScript
  import opened History
  import opened NeedsMap
  import opened BlameWalk
  import opened BlameSteps

  datatype Error = InvalidBlameState

  datatype BlameLine = BlameLine(text: Line, hash: Commit)

  class BlameState {
    const h: History
    const root: Commit
    var arena: seq<QueueItem>
    var q: seq<ItemId>
    ghost var waiting: set<ItemId>
    ghost var live: set<Slot>

    ghost function W(): Walk
      reads this
    {
      Walk(arena, q, waiting, live)
    }

    /** Lines no parent carried get the item's commit; then every link is handed down, which
        may finish the children in turn.  True is returned once the root is finished. */
    method FinishNeeds(x: ItemId, ghost stack: set<ItemId>) returns (r: Result<bool, Error>)
      requires Valid(h) && Inv(h, root, W(), stack, {}) && x in stack && (if x == 0 then true else 0 in waiting)
      requires Ready(h, arena[x]) && OwnsLinks(W(), x) && Alive(W(), {})
      modifies this
      ensures r.Ok?
      ensures r.value ==> RootDone(h, root, arena)
      ensures !r.value ==>
        x != 0 && 0 in waiting && Inv(h, root, W(), stack - {x}, {}) && Alive(W(), {}) && After(old(W()), W(), stack - {x}, {})
      decreases Depth(h, root, arena[x].commit), 2
    {
      hide Inv, LinkAnswers, Ready, LinkOk, Waits;
      HandFacts(h, root, W(), stack, x);
      var item := arena[x];
      var filled := FillIn(item);
      FilledFinal(h, item, filled);
      AnswerInHand(h, root, W(), stack, x, item.(needs := filled));
      arena := arena[x := item.(needs := filled)];

      if item.child.None? && item.merged == [] {
        return Ok(true);
      }
      if item.merged == [] {
        WholeAnswers(h, root, W(), stack, x);
        ghost var w1 := W();
        r := ApplyNeeds((x, 0), stack, item.child.value, filled, item.identical, item.parentNo);
        if !r.value {
          PutDown(h, root, W(), stack, x);
          assert After(w1, W(), stack - {x}, {});
        }
      } else {
        r := FinishMerged(x, stack);
      }
    }

    /** Each merged child takes its lines out of the merged map and is answered in turn. */
    method FinishMerged(x: ItemId, ghost stack: set<ItemId>) returns (r: Result<bool, Error>)
      requires Valid(h) && Inv(h, root, W(), stack, {}) && x in stack && x < |arena| && x != 0 && 0 in waiting
      requires OwnsLinks(W(), x) && arena[x].merged != [] && Answered(arena[x].needs) && Final(h, arena[x]) && Alive(W(), {})
      modifies this
      ensures r.Ok?
      ensures r.value ==> RootDone(h, root, arena)
      ensures !r.value ==> 0 in waiting && Inv(h, root, W(), stack - {x}, {}) && Alive(W(), {}) && After(old(W()), W(), stack - {x}, {})
      decreases Depth(h, root, arena[x].commit), 1
    {
      hide Inv, LinkAnswers, Ready, LinkOk, Waits, RootDone, Answered, Alive;
      var item := arena[x];
      ghost var w0 := W();
      var k := 0;
      while k < |item.merged|
        invariant 0 <= k <= |item.merged| && x < |arena|
        invariant arena[x] == item.(merged := arena[x].merged) && |arena[x].merged| == |item.merged|
        invariant Inv(h, root, W(), stack, {}) && 0 in waiting && Alive(W(), {})
        invariant After(w0, W(), stack - {x}, {})
        invariant forall m: nat :: m < |item.merged| ==> ((x, m) in live <==> k <= m)
      {
        TakeAnswers(x, k, stack);
        var ctn := arena[x].merged[k];
        r := ApplyNeeds((x, k), stack, ctn.child, ctn.needs, ctn.identical, ctn.parentNo);
        if r.value { return; }
        assert After(w0, W(), stack - {x}, {});
        k := k + 1;
      }
      PutDown(h, root, W(), stack, x);
      r := Ok(false);
    }

    /** One merged child's lines are answered from the merged map. */
    method TakeAnswers(x: ItemId, k: nat, ghost stack: set<ItemId>)
      requires Valid(h) && Inv(h, root, W(), stack, {}) && x in stack && x < |arena| && Alive(W(), {})
      requires k < |arena[x].merged| && (x, k) in live && Answered(arena[x].needs) && Final(h, arena[x])
      modifies this`arena
      ensures Inv(h, root, W(), stack, {}) && Alive(W(), {}) && |arena| == |old(arena)|
      ensures var ctn := old(arena[x].merged[k]);
              exists got :: arena == old(arena)[x := old(arena[x]).(merged := old(arena[x].merged)[k := ctn.(needs := got)])]
      ensures IsLink(arena, (x, k)) && LinkOf(arena, (x, k)) == arena[x].merged[k] && LinkAnswers(h, arena[x].commit, LinkOf(arena, (x, k)))
    {
      hide Inv, LinkAnswers, Ready, LinkOk, Waits, Answered;
      var ctn := arena[x].merged[k];
      assert LinkOf(arena, (x, k)) == ctn;
      LinkFacts(h, root, W(), stack, (x, k));
      var got := CopyAnswers(ctn.needs, arena[x].needs);
      MergedAnswers(h, arena[x], ctn, got);
      var x' := arena[x].(merged := arena[x].merged[k := ctn.(needs := got)]);
      AnswerInHand(h, root, W(), stack, x, x');
      arena := arena[x := x'];
    }

    /** Offers one link's answers to its child and counts the link off. */
    method ApplyNeeds(ghost s: Slot, ghost stack: set<ItemId>, child: ItemId, needs: Needs, identical: bool, parentNo: int)
      returns (r: Result<bool, Error>)
      requires Valid(h) && Inv(h, root, W(), stack, {}) && s in live && s.0 in stack && 0 in waiting && IsLink(arena, s) && Alive(W(), {})
      requires LinkOf(arena, s) == ChildToNeedsMap(child, needs, identical, parentNo)
      requires LinkAnswers(h, arena[s.0].commit, LinkOf(arena, s))
      modifies this
      ensures r.Ok?
      ensures r.value ==> RootDone(h, root, arena)
      ensures !r.value ==> 0 in waiting && Inv(h, root, W(), stack, {}) && Alive(W(), {}) && After(old(W()), W(), stack, {s})
      decreases Depth(h, root, arena[s.0].commit), 0
    {
      hide Inv, RootDone, LinkAnswers, Ready, Applied, LinkOk, SameLines, OrigSorted, Sorted, Within, AfterApply, After, Alive;
      LinkFacts(h, root, W(), stack, s);
      ghost var w0 := W();
      var ok, got := OfferAnswers(arena[child].needs, needs, identical, parentNo);
      if !ok { return Err(InvalidBlameState); }
      CountOff(s, stack, child, got);
      ghost var w1 := W();
      if arena[child].pending == 0 {
        LastAnswer(h, root, w1, stack, child, arena[s.0].commit);
        waiting := waiting - {child};
        r := FinishNeeds(child, stack + {child});
        if !r.value {
          assert stack + {child} - {child} == stack;
          AfterTaken(w0, w1, child, W(), stack, s);
        }
      } else {
        StillPending(h, root, w1, stack, child);
        r := Ok(false);
      }
    }

    method CountOff(ghost s: Slot, ghost stack: set<ItemId>, child: ItemId, got: Needs)
      requires Valid(h) && Inv(h, root, W(), stack, {}) && s in live && s.0 in stack && IsLink(arena, s) && Alive(W(), {})
      requires var l := LinkOf(arena, s);
               && l.child == child && child < |arena| && child in waiting && child !in stack
               && LinkAnswers(h, arena[s.0].commit, l) && Applied(arena[child].needs, l.needs, !l.identical, l.parentNo, got)
      modifies this
      ensures Inv(h, root, W(), stack, {}) && After(old(W()), W(), stack, {s}) && Alive(W(), {child})
      ensures waiting == old(waiting) && |arena| == |old(arena)| && arena[s.0] == old(arena[s.0])
      ensures arena[child].commit == old(arena[child].commit)
    {
      hide Inv, LinkAnswers, Applied;
      Deliver(h, root, W(), stack, s, got);
      ghost var w0 := W();
      arena := arena[child := arena[child].(needs := got)];
      arena := arena[child := arena[child].(pending := arena[child].pending - 1)];
      live := live - {s};
      assert W() == AfterApply(w0, s, got);
    }

    /** Items that are all identical to the same child collapse into the first one, which then
        skips every child that waits for it alone.  Returns the items still to be merged. */
    method CollapseTwins(items: seq<ItemId>, ghost stack: set<ItemId>) returns (left: seq<ItemId>, ghost chain: seq<ItemId>)
      requires Valid(h) && Inv(h, root, W(), stack, {}) && Alive(W(), {}) && InHand(h, W(), items, stack)
      modifies this
      ensures q == old(q) && SameCommits(old(arena), arena) && |arena| == |old(arena)| && Alive(W(), {})
      ensures left == [] ==> Inv(h, root, W(), {items[0]}, {}) && Fresh(h, W(), items[0])
      ensures left != [] ==> left == items && |items| > 1 && W() == old(W())
      ensures var a := old(arena);
              && InArena(a, items) && (left == [] <==> |items| == 1 || AllTwins(a, items))
              && (|items| == 1 ==> W() == old(W()))
              && (|items| > 1 && left == [] ==> Collapses(a, items, chain, arena))
    {
      hide Inv, Fresh, LowestOf, SkipsTo, ChainEnds, Skips;
      chain := [];
      HandedItems(h, W(), items, stack);
      var x := items[0];
      if |items| == 1 {
        assert stack == {x};
        return [], [];
      }
      left := items;
      var twins, lowest := FindTwins(items);
      if twins {
        left := [];
        DropTwins(items, lowest, stack);
        chain := SkipChain(x);
      }
    }

    /** Whether all items are identical to one child, and their lowest parent number. */
    method FindTwins(items: seq<ItemId>) returns (twins: bool, lowest: int)
      requires InArena(arena, items) && |items| > 1
      ensures twins <==> AllTwins(arena, items)
      ensures twins ==> lowest == LowestOf(arena, items)
    {
      hide LowestOf;
      var x := items[0];
      lowest := arena[x].parentNo;
      LowestStep(arena, items, 0);
      if !arena[x].identical { return false, lowest; }
      var i := 1;
      while i < |items|
        invariant 1 <= i <= |items|
        invariant forall j :: 0 <= j < i ==> arena[items[j]].identical && arena[items[j]].child == arena[x].child
        invariant lowest == LowestOf(arena, items[..i])
      {
        LowestStep(arena, items, i);
        if !arena[items[i]].identical || arena[x].child != arena[items[i]].child { return false, lowest; }
        lowest := if arena[items[i]].parentNo < lowest then arena[items[i]].parentNo else lowest;
        i := i + 1;
      }
      assert items[..i] == items;
      twins := true;
    }

    /** The first item stands for all its twins and takes the lowest of their parent numbers. */
    method DropTwins(items: seq<ItemId>, lowest: int, ghost stack: set<ItemId>)
      requires Valid(h) && Inv(h, root, W(), stack, {}) && Alive(W(), {}) && InHand(h, W(), items, stack) && |items| > 1
      requires InArena(arena, items) && AllTwins(arena, items) && lowest == LowestOf(arena, items)
      modifies this
      ensures q == old(q) && SameCommits(old(arena), arena) && |arena| == |old(arena)| && Alive(W(), {})
      ensures Inv(h, root, W(), {items[0]}, {}) && Fresh(h, W(), items[0]) && arena[items[0]].identical && arena[items[0]].child.Some?
      ensures old(arena[items[0]]).child.Some? && old(arena[items[0]]).child.value < |old(arena)| && arena == Collapsed(old(arena), items)
      ensures arena[items[0]].child.value < |arena| && Skips(h, arena[arena[items[0]].child.value].commit, arena[items[0]].commit)
    {
      hide Inv, Fresh, InHand, Alive, LowestOf, Skips, TwinsSoFar;
      var x := items[0];
      ghost var w0 := W();
      TwinsStart(h, root, w0, items, stack);
      var child := arena[x].child.value;
      ghost var w, i := w0, 1;
      while i < |items|
        invariant 1 <= i <= |items| && W() == w0 && TwinsSoFar(h, root, w0, w, items, i)
      {
        w := TwinsMore(h, root, w0, w, items, i);
        i := i + 1;
      }
      TwinsEnd(h, root, w0, w, items);
      arena := arena[child := arena[child].(pending := arena[child].pending - |items| + 1)];
      arena := arena[x := arena[x].(parentNo := lowest)];
      live := w.live;
      assert W() == w;
      TwinsAlive(w0, w, child, x);
    }

    /** Answers to an identical item waiting alone go straight to the item it answers. */
    method SkipChain(x: ItemId) returns (ghost chain: seq<ItemId>)
      requires Valid(h) && Inv(h, root, W(), {x}, {}) && Alive(W(), {}) && Fresh(h, W(), x) && arena[x].identical
      requires arena[x].child.Some? && arena[x].child.value < |arena| && Skips(h, arena[arena[x].child.value].commit, arena[x].commit)
      modifies this
      ensures q == old(q) && SameCommits(old(arena), arena) && |arena| == |old(arena)| && Alive(W(), {})
      ensures Inv(h, root, W(), {x}, {}) && Fresh(h, W(), x)
      ensures SkipsTo(old(arena), x, chain, arena) && ChainEnds(arena, x)
    {
      hide Inv, Waits, LinkOk, SkipsTo, Skips;
      chain := [];
      NoneSkipped(arena, x);
      OwnLink(h, root, W(), {x}, x);
      while arena[x].child.Some? && arena[arena[x].child.value].identical && arena[arena[x].child.value].merged == []
            && arena[arena[x].child.value].pending == 1
        invariant x < |arena| && arena[x].child.Some? && arena[x].child.value < |arena| && arena[x].identical
        invariant Inv(h, root, W(), {x}, {}) && Alive(W(), {}) && Fresh(h, W(), x)
        invariant q == old(q) && SameCommits(old(arena), arena) && |arena| == |old(arena)|
        invariant SkipsTo(old(arena), x, chain, arena)
        invariant Skips(h, arena[arena[x].child.value].commit, arena[x].commit)
        decreases Depth(h, root, arena[arena[x].child.value].commit)
      {
        var oldChild := arena[x].child.value;
        SkipChild(h, root, W(), x, oldChild);
        ghost var w := W();
        arena := arena[x := arena[x].(child := arena[oldChild].child)];
        arena := arena[x := arena[x].(parentNo := arena[oldChild].parentNo)];
        waiting := waiting - {oldChild};
        live := live - {(oldChild, 0)};
        NotOwnChild(h, root, w, x, oldChild);
        assert W() == Skipped(w, x, oldChild);
        RootOldest(h, root, W(), {x}, arena[x].child.value);
        MoreSkipped(old(arena), x, chain, w.a, oldChild, arena);
        chain := chain + [oldChild];
      }
    }

    /** The first item takes over the links of the others and the union of their needs maps. */
    method MergeItems(items: seq<ItemId>, ghost stack: set<ItemId>)
      requires Valid(h) && Inv(h, root, W(), stack, {}) && Alive(W(), {}) && InHand(h, W(), items, stack) && |items| > 1
      modifies this
      ensures q == old(q) && SameCommits(old(arena), arena) && |arena| == |old(arena)| && Alive(W(), {})
      ensures Inv(h, root, W(), {items[0]}, {}) && Joining(h, W(), items[0])
      ensures var a, x := old(arena), items[0];
              && InArena(a, items) && (forall j :: 0 <= j < |items| ==> a[items[j]].child.Some?)
              && arena == a[x := a[x].(merged := LinksOf(a, items), child := None, identical := false, needs := UnionOf(a, items))]
    {
      hide Inv, Joining, Fresh, InHand, Alive, UnionOf;
      var x := items[0];
      HandedItems(h, W(), items, stack);
      var merged := [];
      var k := 0;
      while k < |items|
        invariant 0 <= k <= |items| == |items| && |merged| == k
        invariant forall j :: 0 <= j < k ==> merged[j] == AsLink(arena[items[j]])
      {
        merged := merged + [AsLink(arena[items[k]])];
        k := k + 1;
      }
      NotWaiting(h, root, W(), stack);
      ghost var w0 := W();
      assert merged == LinksOf(arena, items);
      var needs; ghost var w;
      needs, w := MergeNeeds(items, stack, merged);
      arena := arena[x := arena[x].(merged := merged)];
      arena := arena[x := arena[x].(needs := needs, identical := false, child := None)];
      live := w.live;
      assert W() == w;
      StillAlive(w0, w, x);
    }

    method MergeNeeds(items: seq<ItemId>, ghost stack: set<ItemId>, ghost merged: seq<ChildToNeedsMap>)
      returns (needs: Needs, ghost w: Walk)
      requires Valid(h) && Inv(h, root, W(), stack, {}) && InHand(h, W(), items, stack) && |items| > 1
      requires |merged| == |items| && forall j :: 0 <= j < |items| ==> items[j] < |arena| && arena[items[j]].child.Some? && merged[j] == AsLink(arena[items[j]])
      ensures var x := items[0];
              && x < |arena| && Inv(h, root, w, {x}, {}) && Joining(h, w, x) && w.q == q && w.waiting == waiting
              && w.a == arena[x := arena[x].(merged := merged, child := None, identical := false, needs := needs)]
      ensures InArena(arena, items) && needs == UnionOf(arena, items)
    {
      hide Inv, Joining, Fresh, InHand, Union, UnionOf;
      var x := items[0];
      HandedItems(h, W(), items, stack);
      SplitFirst(items, stack);
      needs := arena[x].needs;
      FirstUnion(arena, x);
      assert items[..1] == [x];
      JoinFirst(h, root, W(), stack, x);
      w := FirstJoined(W(), x);
      assert merged[..1] == [AsLink(arena[x])];
      var i := 1;
      while i < |items|
        invariant 1 <= i <= |items|
        invariant w.a == arena[x := arena[x].(merged := merged[..i], child := None, identical := false, needs := needs)]
        invariant w.q == q && w.waiting == waiting
        invariant needs == UnionOf(arena, items[..i])
        invariant Inv(h, root, w, {x} + Elements(items[i..]), {}) && Joining(h, w, x)
        invariant forall j :: i <= j < |items| ==> Fresh(h, w, items[j])
      {
        var y := items[i];
        assert items[i..] == [y] + items[i + 1..];
        assert {x} + Elements(items[i..]) - {y} == {x} + Elements(items[i + 1..]);
        JoinItem(h, root, w, {x} + Elements(items[i..]), x, y);
        needs := MergeInto(needs, arena[y].needs);
        MoreUnion(arena, items, i);
        assert merged[..i + 1] == merged[..i] + [AsLink(arena[y])];
        w := Joined(w, x, y);
        i := i + 1;
      }
      assert {x} + Elements(items[i..]) == {x} && merged[..i] == merged && items[..i] == items;
    }

    /** Queues an item for every parent that carries some needed line; `pushed` tells whether
        there was one. */
    method VisitParents(x: ItemId) returns (pushed: bool)
      requires Valid(h) && Inv(h, root, W(), {x}, {}) && Alive(W(), {}) && (Fresh(h, W(), x) || Joining(h, W(), x))
      modifies this
      ensures x < |old(arena)| <= |arena| && SameCommits(old(arena), arena) && (forall i :: 0 <= i < |q| ==> q[i] < |arena|)
      ensures Inv(h, root, W(), {}, {})
      ensures Load(h, arena, q) < Load(h, old(arena), old(q)) + Weight(h, old(arena[x].commit))
      ensures pushed ==> Alive(W(), {})
      ensures !pushed ==> x in waiting && arena[x].pending == 0 && Alive(W(), {x})
      ensures forall y :: |old(arena)| <= y < |arena| ==> arena[y].child == old(arena[x].child) || AsksParent(h, x, old(arena[x].commit), arena[y])
    {
      hide Inv, Complete, Fresh, Joining, Visiting, Alive, Weight, Load, VisitedSoFar, AsksParent, SameCommits;
      BeginVisit(h, root, W(), x);
      var item := arena[x];
      ghost var a0, q0 := arena, q;
      waiting := waiting + {x};
      var parents := h.parents(item.commit);
      pushed := false;
      var k := 0;
      NoneVisited(h, arena, q, x, item.commit);
      while k < |parents|
        invariant 0 <= k <= |parents| && x < |a0| <= |arena| && arena[x] == item.(pending := arena[x].pending) && arena[x].pending >= 0
        invariant Visiting(h, root, W(), x, k)
        invariant pushed <==> arena[x].pending > 0
        invariant k == 0 ==> To(arena, live, x) == {}
        invariant VisitedSoFar(h, a0, q0, arena, q, x, item.commit, k)
      {
        var prev := parents[k];
        ghost var a1, q1 := arena, q;
        if h.file(item.commit) == h.file(prev) && |parents| == 1 && item.merged == [] && item.identical {
          BypassItem(x, prev);
          BypassVisited(h, a0, q0, a1, q1, arena, q, x, item.commit);
          return true;
        }
        var found := VisitParent(x, prev, k);
        OneVisited(h, a0, q0, a1, q1, arena, q, x, item.commit, k);
        pushed := pushed || found;
        k := k + 1;
      }
      FinishVisit(h, root, W(), x);
      ghost var w := W();
      arena := arena[x := arena[x].(contents := [])];
      AllVisited(h, a0, q0, w.a, arena, q, x, item.commit);
    }

    /** A single identical parent of an identical, unmerged item: the parent's item answers the
        item's child and the item itself is done. */
    method BypassItem(x: ItemId, prev: Commit)
      requires Valid(h) && Visiting(h, root, W(), x, 0) && To(arena, live, x) == {}
      requires arena[x].merged == [] && arena[x].identical
      requires h.parents(arena[x].commit) == [prev] && h.file(prev) == h.file(arena[x].commit)
      modifies this
      ensures Inv(h, root, W(), {}, {}) && Alive(W(), {}) && SameCommits(old(arena), arena)
      ensures forall i :: 0 <= i < |q| ==> q[i] < |arena|
      ensures Load(h, arena, q) == Load(h, old(arena), old(q)) + Weight(h, prev)
      ensures |arena| == |old(arena)| + 1 && x < |old(arena)| && arena[|old(arena)|].child == old(arena[x].child)
      ensures forall y :: 0 <= y < |old(arena)| ==> arena[y] == old(arena)[y]
    {
      hide Inv;
      ghost var w := W();
      InvWaiting(h, root, w, x);
      var item := arena[x];
      var qi := QueueItem(item.child, [], prev, item.contents, item.needs, 0, true, item.parentNo);
      SameItemBypass(h, root, w, x, qi);
      q := q + [|arena|];
      live := live - {(x, 0)} + {(|arena|, 0)};
      arena := arena + [qi];
      waiting := waiting - {x};
      assert W() == Bypassed(w, x, qi);
      LoadPush(h, w.a, arena, w.q, qi);
    }

    /** Queues an item for parent `k`, under that number, unless it carries none of the needed lines. */
    method VisitParent(x: ItemId, prev: Commit, k: nat) returns (found: bool)
      requires Valid(h) && Visiting(h, root, W(), x, k)
      requires k < |h.parents(arena[x].commit)| && prev == h.parents(arena[x].commit)[k]
      modifies this
      ensures |arena| >= |old(arena)| && SameCommits(old(arena), arena)
      ensures x < |old(arena)| && arena[x] == old(arena[x]).(pending := old(arena[x]).pending + (if found then 1 else 0))
      ensures Visiting(h, root, W(), x, k + 1)
      ensures Load(h, arena, q) <= Load(h, old(arena), old(q)) + Weight(h, prev)
      ensures |arena| == |old(arena)| + (if found then 1 else 0)
      ensures found ==> AsksParent(h, x, old(arena[x].commit), arena[|old(arena)|]) && arena[|old(arena)|].parentNo == k
      ensures forall y :: 0 <= y < |old(arena)| && y != x ==> arena[y] == old(arena)[y]
    {
      hide Inv, Complete, ForParent, LinkOk, Alive;
      var item := arena[x];
      if h.file(item.commit) == h.file(prev) {
        var qi := QueueItem(Some(x), [], prev, item.contents, item.needs, 0, true, k);
        CopyForParent(h, item, x, k, qi);
        PushItem(x, qi, k);
        found := true;
      } else {
        assert IsScript(h.diff(h.file(prev), item.contents), h.file(prev), item.contents);
        var got := WalkHunks(h.diff(h.file(prev), item.contents), item.needs);
        var qi := QueueItem(Some(x), [], prev, h.file(prev), got, 0, false, k);
        DiffForParent(h, item, x, k, qi);
        if |got| > 0 {
          PushItem(x, qi, k);
          found := true;
        } else {
          NoSupply(h, item, k, qi);
          NothingCarried(h, W(), x, k);
          found := false;
        }
      }
    }

    method PushItem(x: ItemId, qi: QueueItem, k: nat)
      requires Valid(h) && Visiting(h, root, W(), x, k)
      requires k < |h.parents(arena[x].commit)| && qi.commit == h.parents(arena[x].commit)[k] && ForParent(h, arena[x], x, qi) && qi.parentNo == k
      requires forall m :: 0 <= m < |arena[x].needs| && Carry(h, arena[x].commit, k, arena[x].needs[m].cur).Some?
                 ==> Supplies(qi.needs, !qi.identical, arena[x].needs[m].cur)
      modifies this
      ensures |arena| == |old(arena)| + 1 && x < |old(arena)| && arena[x] == old(arena[x]).(pending := old(arena[x].pending) + 1)
      ensures SameCommits(old(arena), arena) && Visiting(h, root, W(), x, k + 1)
      ensures Load(h, arena, q) == Load(h, old(arena), old(q)) + Weight(h, qi.commit)
      ensures arena[|old(arena)|] == qi && forall y :: 0 <= y < |old(arena)| && y != x ==> arena[y] == old(arena)[y]
    {
      hide Inv, Complete, ForParent, ItemOk, Supplies;
      ghost var w := W();
      InvWaiting(h, root, w, x);
      Push(h, root, w, x, qi, k);
      q := q + [|arena|];
      live := live + {(|arena|, 0)};
      arena := arena + [qi];
      arena := arena[x := arena[x].(pending := arena[x].pending + 1)];
      assert W() == Pushed(w, x, qi);
      LoadPush(h, w.a, arena, w.q, qi);
    }

    /** Processes all queued items of one commit. */
    method AddBlames(items: seq<ItemId>, ghost stack: set<ItemId>) returns (r: Result<bool, Error>)
      requires Valid(h) && Inv(h, root, W(), stack, {}) && Alive(W(), {}) && InHand(h, W(), items, stack)
      modifies this
      ensures r.Ok?
      ensures r.value ==> RootDone(h, root, arena)
      ensures !r.value ==>
        && Inv(h, root, W(), {}, {}) && Alive(W(), {})
        && Load(h, arena, q) < Load(h, old(arena), old(q)) + Weight(h, old(arena[items[0]].commit))
    {
      hide Inv, Alive, Fresh, Joining, RootDone;
      var x := items[0];
      InHandRange(h, W(), items, stack);
      QueueInRange(h, root, W(), stack);
      ghost var a0 := arena;
      var left; ghost var chain;
      left, chain := CollapseTwins(items, stack);
      if left != [] {
        MergeItems(left, stack);
      }
      LoadSame(h, a0, arena, q);
      var pushed := VisitParents(x);
      if pushed { return Ok(false); }
      ghost var w := W();
      LastOne(h, root, w, x);
      waiting := waiting - {x};
      r := FinishNeeds(x, {x});
      if !r.value {
        assert {x} - {x} == {};
        LoadSame(h, w.a, arena, q);
      }
    }

    constructor (h: History, root: Commit)
      ensures this.h == h && this.root == root
    {
      this.h, this.root := h, root;
      arena, q := [], [];
      waiting, live := {}, {};
    }

    /** The queue position of a newest commit (`queueCompare`). */
    method Top() returns (k: nat)
      requires q != [] && forall i :: 0 <= i < |q| ==> q[i] < |arena|
      ensures k < |q| && forall i :: 0 <= i < |q| ==> !Less(h, arena[q[k]].commit, arena[q[i]].commit)
      ensures forall i :: 0 <= i < |q| ==> h.committed(arena[q[i]].commit) <= h.committed(arena[q[k]].commit)
    {
      k := 0;
      var i := 1;
      while i < |q|
        invariant 0 <= k < i <= |q|
        invariant forall j :: 0 <= j < i ==> !Less(h, arena[q[k]].commit, arena[q[j]].commit)
      {
        if Less(h, arena[q[k]].commit, arena[q[i]].commit) { k := i; }
        i := i + 1;
      }
    }

    /** Pops the newest item and every further item of the same commit. */
    method PopGroup() returns (items: seq<ItemId>, ghost stack: set<ItemId>)
      requires Valid(h) && Inv(h, root, W(), {}, {}) && Alive(W(), {}) && q != []
      modifies this
      ensures arena == old(arena) && Inv(h, root, W(), stack, {}) && Alive(W(), {}) && InHand(h, W(), items, stack)
      ensures Load(h, arena, q) + Weight(h, arena[items[0]].commit) <= Load(h, old(arena), old(q))
      ensures forall i :: 0 <= i < |q| ==> q[i] < |arena| && arena[q[i]].commit != arena[items[0]].commit
      ensures forall i :: 0 <= i < |q| ==> h.committed(arena[q[i]].commit) <= h.committed(arena[items[0]].commit)
    {
      hide Inv, Fresh, Alive, Weight, Load;
      ghost var a0, q0 := arena, q;
      QueueInRange(h, root, W(), {});
      var k := Top();
      var c := arena[q[k]].commit;
      ghost var w := W();
      PopOne(h, root, w, {}, [], k);
      items, stack := [q[k]], {} + {q[k]};
      q := q[..k] + q[k + 1..];
      assert W() == w.(q := Without(w.q, k));
      while q != []
        invariant arena == a0 && Alive(W(), {})
        invariant items != [] && items[0] < |arena| && arena[items[0]].commit == c
        invariant Inv(h, root, W(), stack, {}) && InHand(h, W(), items, stack)
        invariant Load(h, arena, q) + Weight(h, c) <= Load(h, a0, q0)
        invariant forall i :: 0 <= i < |q| ==> q[i] < |arena| && !Less(h, c, arena[q[i]].commit)
        decreases |q|
      {
        k := Top();
        if arena[q[k]].commit != c {
          assert Less(h, arena[q[k]].commit, c);
          return;
        }
        w := W();
        PopOne(h, root, w, stack, items, k);
        items, stack := items + [q[k]], stack + {q[k]};
        q := q[..k] + q[k + 1..];
        assert W() == w.(q := Without(w.q, k));
      }
    }

    /** Blames every line of the file at the root commit. */
    method Run() returns (r: Result<seq<BlameLine>, Error>)
      requires Valid(h) && arena == [] && q == [] && waiting == {} && live == {}
      modifies this
      ensures r.Ok? && |r.value| == |h.file(root)|
      ensures forall i :: 0 <= i < |r.value| ==> r.value[i].text == h.file(root)[i] && Blames(h, root, i, r.value[i].hash, false)
    {
      hide Inv, Alive, Fresh, InHand, Load, Weight;
      var file := h.file(root);
      var needs := RootNeeds(file);
      arena := [QueueItem(None, [], root, file, needs, 0, false, 0)];
      q := [0];
      FirstWalk(h, root, W());
      while true
        invariant Inv(h, root, W(), {}, {}) && Alive(W(), {})
        decreases Load(h, arena, q)
      {
        QueueNotEmpty(h, root, W());
        if q == [] { return Err(InvalidBlameState); }
        var items; ghost var stack;
        items, stack := PopGroup();
        InHandRange(h, W(), items, stack);
        var finished := AddBlames(items, stack);
        if finished.Err? { return Err(InvalidBlameState); }
        if finished.value { break; }
      }
      r := BuildResult();
    }

    method BuildResult() returns (r: Result<seq<BlameLine>, Error>)
      requires Valid(h) && RootDone(h, root, arena)
      ensures r.Ok? && |r.value| == |h.file(root)|
      ensures forall i :: 0 <= i < |r.value| ==> r.value[i].text == h.file(root)[i] && Blames(h, root, i, r.value[i].hash, false)
    {
      var lines: seq<BlameLine> := [];
      var i := 0;
      while i < |h.file(root)|
        invariant 0 <= i <= |h.file(root)| && |lines| == i
        invariant forall j :: 0 <= j < i ==> lines[j].text == h.file(root)[j] && Blames(h, root, j, lines[j].hash, false)
      {
        var nm := arena[0].needs[i];
        assert nm.cur == i && nm.commit.Some?;
        if nm.commit.None? { return Err(InvalidBlameState); }
        lines := lines + [BlameLine(h.file(root)[i], nm.commit.value)];
        i := i + 1;
      }
      r := Ok(lines);
    }
  }

  /** An item that asks, for `x`, the parent whose number it bears. */
  predicate AsksParent(h: History, x: ItemId, c: Commit, item: QueueItem) {
    && item.child == Some(x) && 0 <= item.parentNo < |h.parents(c)| && item.commit == h.parents(c)[item.parentNo]
    && (item.identical <==> h.file(item.commit) == h.file(c))
  }

  predicate InArena(a: seq<QueueItem>, items: seq<ItemId>) { forall j :: 0 <= j < |items| ==> items[j] < |a| }

  /** The needs maps of several items, joined in order. */
  function UnionOf(a: seq<QueueItem>, items: seq<ItemId>): Needs
    requires InArena(a, items)
  {
    if items == [] then []
    else Union(UnionOf(a, items[..|items| - 1]), a[items[|items| - 1]].needs)
  }

  lemma FirstUnion(a: seq<QueueItem>, x: ItemId)
    requires x < |a|
    ensures UnionOf(a, [x]) == a[x].needs
  {
    assert UnionOf(a, [x][..0]) == [];
  }

  lemma MoreUnion(a: seq<QueueItem>, items: seq<ItemId>, i: nat)
    requires InArena(a, items) && i < |items|
    ensures UnionOf(a, items[..i + 1]) == Union(UnionOf(a, items[..i]), a[items[i]].needs)
  {
    assert items[..i + 1][..i] == items[..i];
  }

  /** A line is needed by the joined item exactly when one of the items needs it. */
  lemma {:induction false} UnionOfHas(a: seq<QueueItem>, items: seq<ItemId>, c: nat)
    requires InArena(a, items)
    ensures HasCur(UnionOf(a, items), c) <==> exists j :: 0 <= j < |items| && HasCur(a[items[j]].needs, c)
  {
    if items != [] {
      var n := |items| - 1;
      UnionOfHas(a, items[..n], c);
      UnionHasCur(UnionOf(a, items[..n]), a[items[n]].needs, c);
      if j :| 0 <= j < n && HasCur(a[items[..n][j]].needs, c) { assert items[..n][j] == items[j]; }
      forall j | 0 <= j < n && HasCur(a[items[j]].needs, c) ensures HasCur(UnionOf(a, items), c) { assert items[..n][j] == items[j]; }
    }
  }

  /** Twins collapse into the first item, which then skips the chain above it. */
  predicate Collapses(a: seq<QueueItem>, items: seq<ItemId>, chain: seq<ItemId>, b: seq<QueueItem>)
    requires InArena(a, items) && items != []
  {
    && a[items[0]].child.Some? && a[items[0]].child.value < |a|
    && SkipsTo(Collapsed(a, items), items[0], chain, b) && ChainEnds(b, items[0])
  }

  function LinksOf(a: seq<QueueItem>, items: seq<ItemId>): seq<ChildToNeedsMap>
    requires InArena(a, items) && forall j :: 0 <= j < |items| ==> a[items[j]].child.Some?
  {
    seq(|items|, j requires 0 <= j < |items| => AsLink(a[items[j]]))
  }

  predicate Skippable(x: QueueItem) { x.identical && x.merged == [] && x.pending == 1 }

  /** `x` in `b` answers the first item up its chain of children that cannot be skipped; `chain` are
      the skipped ones, and the last of them gave `x` its parent number. */
  predicate SkipsTo(a: seq<QueueItem>, x: ItemId, chain: seq<ItemId>, b: seq<QueueItem>) {
    && x < |a| && (forall i :: 0 <= i < |chain| ==> chain[i] < |a| && chain[i] != x && Skippable(a[chain[i]]))
    && (forall i :: 0 <= i < |chain| - 1 ==> a[chain[i]].child == Some(chain[i + 1]))
    && (if chain == [] then b == a
        else var last := chain[|chain| - 1];
             a[x].child == Some(chain[0]) && b == a[x := a[x].(child := a[last].child, parentNo := a[last].parentNo)])
  }

  /** The chain ends where nothing more can be skipped. */
  predicate ChainEnds(b: seq<QueueItem>, x: ItemId) {
    x < |b| && b[x].child.Some? && b[x].child.value < |b| && !Skippable(b[b[x].child.value])
  }

  predicate AllTwins(a: seq<QueueItem>, items: seq<ItemId>)
    requires InArena(a, items) && items != []
  {
    forall j :: 0 <= j < |items| ==> a[items[j]].identical && a[items[j]].child == a[items[0]].child
  }

  /** The lowest parent number of the items. */
  function LowestOf(a: seq<QueueItem>, items: seq<ItemId>): (r: int)
    requires InArena(a, items) && items != []
    ensures forall j :: 0 <= j < |items| ==> r <= a[items[j]].parentNo
    ensures exists j :: 0 <= j < |items| && r == a[items[j]].parentNo
  {
    var n := |items| - 1;
    if n == 0 then a[items[0]].parentNo
    else
      var r := LowestOf(a, items[..n]);
      assert forall j :: 0 <= j < n ==> items[..n][j] == items[j];
      if a[items[n]].parentNo < r then a[items[n]].parentNo else r
  }

  lemma LowestStep(a: seq<QueueItem>, items: seq<ItemId>, i: nat)
    requires InArena(a, items) && i < |items|
    ensures var no := a[items[i]].parentNo;
            LowestOf(a, items[..i + 1]) == if i == 0 then no else var r := LowestOf(a, items[..i]); if no < r then no else r
  {
    assert items[..i + 1][..i] == items[..i];
  }

  /** The first item stands for all its twins, with their lowest parent number; their child waits for
      one item only. */
  function Collapsed(a: seq<QueueItem>, items: seq<ItemId>): seq<QueueItem>
    requires InArena(a, items) && items != [] && a[items[0]].child.Some? && a[items[0]].child.value < |a|
  {
    var x, child := items[0], a[items[0]].child.value;
    var a1 := a[child := a[child].(pending := a[child].pending - |items| + 1)];
    a1[x := a1[x].(parentNo := LowestOf(a, items))]
  }

  function AsLink(x: QueueItem): ChildToNeedsMap
    requires x.child.Some?
  {
    ChildToNeedsMap(x.child.value, x.needs, x.identical, x.parentNo)
  }

  function Elements(s: seq<ItemId>): set<ItemId> {
    set i | 0 <= i < |s| :: s[i]
  }

  /** The popped items: all fresh, all of one commit, none of them twice. */
  ghost predicate InHand(h: History, w: Walk, items: seq<ItemId>, stack: set<ItemId>) {
    && items != [] && Fresh(h, w, items[0]) && stack == Elements(items)
    && (forall i, j :: 0 <= i < j < |items| ==> items[i] != items[j])
    && (forall i :: 0 <= i < |items| ==> Fresh(h, w, items[i]) && w.a[items[i]].commit == w.a[items[0]].commit)
    && (|items| > 1 ==> 0 !in items)
  }

  lemma AfterTaken(w: Walk, w1: Walk, c: ItemId, w2: Walk, stack: set<ItemId>, s: Slot)
    requires After(w, w1, stack, {s}) && After(w1.(waiting := w1.waiting - {c}), w2, stack, {})
    ensures After(w, w2, stack, {s})
  {
  }

  lemma StillPending(h: History, root: Commit, w: Walk, stack: set<ItemId>, c: ItemId)
    requires Valid(h) && Inv(h, root, w, stack, {}) && Alive(w, {c}) && c < |w.a| && c in w.waiting && w.a[c].pending != 0
    ensures Alive(w, {})
  {
    assert Waits(h, w, {}, c);
  }

  /** Distance to the blamed commit; it shrinks as answers travel down. */
  function Depth(h: History, root: Commit, c: Commit): nat {
    if h.generation(root) >= h.generation(c) then h.generation(root) - h.generation(c) else 0
  }

  lemma LinkFacts(h: History, root: Commit, w: Walk, stack: set<ItemId>, s: Slot)
    requires Valid(h) && Inv(h, root, w, stack, {}) && s in w.live && s.0 in stack
    ensures IsLink(w.a, s)
    ensures var l := LinkOf(w.a, s);
            && l.child < |w.a| && l.child in w.waiting && l.child !in stack && Sorted(w.a[l.child].needs)
            && (if l.identical then SameLines(w.a[l.child].needs, l.needs) else OrigSorted(l.needs))
            && Sorted(l.needs) && Within(l.needs, w.a[s.0].needs)
            && h.generation(w.a[s.0].commit) < h.generation(w.a[l.child].commit)
  {
    var l := LinkOf(w.a, s);
    assert LinkOk(h, w.a[s.0], l, w.a[l.child]);
    assert Waits(h, w, {}, l.child);
  }

  lemma HandFacts(h: History, root: Commit, w: Walk, stack: set<ItemId>, x: ItemId)
    requires Valid(h) && Inv(h, root, w, stack, {}) && x in stack
    ensures x < |w.a| && (x == 0 ==> RootOk(h, root, w.a))
    ensures OwnsLinks(w, x) ==> w.a[x].merged == [] && w.a[x].child.None? ==> x == 0
  {
  }

  lemma WholeAnswers(h: History, root: Commit, w: Walk, stack: set<ItemId>, x: ItemId)
    requires Valid(h) && Inv(h, root, w, stack, {}) && x in stack && OwnsLinks(w, x)
    requires w.a[x].merged == [] && w.a[x].child.Some? && Final(h, w.a[x]) && Answered(w.a[x].needs)
    ensures LinkAnswers(h, w.a[x].commit, LinkOf(w.a, (x, 0)))
  {
  }

  lemma LastAnswer(h: History, root: Commit, w: Walk, stack: set<ItemId>, c: ItemId, from: Commit)
    requires Valid(h) && Inv(h, root, w, stack, {}) && c in w.waiting && w.a[c].pending == 0
    requires h.generation(from) < h.generation(w.a[c].commit)
    ensures Ready(h, w.a[c]) && OwnsLinks(w.(waiting := w.waiting - {c}), c)
    ensures Inv(h, root, w.(waiting := w.waiting - {c}), stack + {c}, {})
    ensures Depth(h, root, w.a[c].commit) < Depth(h, root, from)
    ensures Alive(w, {c}) ==> Alive(w.(waiting := w.waiting - {c}), {})
  {
    assert Waits(h, w, {}, c);
    AllParentsDone(h, w, c);
    TakeInHand(h, root, w, stack, c);
  }

  method OfferAnswers(needs: Needs, from: Needs, identical: bool, parentNo: int) returns (ok: bool, got: Needs)
    requires Sorted(needs) && (!identical ==> OrigSorted(from))
    ensures ok <==> (identical ==> SameLines(needs, from))
    ensures ok ==> Applied(needs, from, !identical, parentNo, got)
  {
    if identical {
      ok, got := ApplyIdentical(needs, from, parentNo);
    } else {
      got := ApplyByOrig(needs, from, parentNo);
      ok := true;
    }
  }

  method FillIn(item: QueueItem) returns (filled: Needs)
    ensures Filled(item, filled)
  {
    filled := item.needs;
    var i := 0;
    while i < |filled|
      invariant 0 <= i <= |filled| == |item.needs|
      invariant Filled(item.(needs := item.needs[..i]), filled[..i])
      invariant filled[i..] == item.needs[i..]
    {
      assert filled[i] == filled[i..][0];
      if filled[i].commit.None? {
        filled := filled[i := filled[i].(commit := Some(item.commit), fromParent := -1)];
      }
      i := i + 1;
    }
    assert item.needs[..i] == item.needs && filled[..i] == filled;
  }

  lemma MergedAnswers(h: History, x: QueueItem, l: ChildToNeedsMap, got: Needs)
    requires Valid(h) && Within(l.needs, x.needs) && Final(h, x) && Answered(x.needs) && |got| == |l.needs|
    requires forall i :: 0 <= i < |got| ==> got[i] == l.needs[i].(commit := got[i].commit)
    requires forall i, j :: 0 <= i < |got| && 0 <= j < |x.needs| && x.needs[j].cur == l.needs[i].cur ==> got[i].commit == x.needs[j].commit
    ensures SameLink(l, l.(needs := got)) && LinkAnswers(h, x.commit, l.(needs := got))
  {
    forall i | 0 <= i < |got|
      ensures got[i].cur < |h.file(x.commit)| && got[i].commit.Some? && Blames(h, x.commit, got[i].cur, got[i].commit.value, false)
    {
      assert HasCur(x.needs, l.needs[i].cur);
      var j :| 0 <= j < |x.needs| && x.needs[j].cur == l.needs[i].cur;
    }
  }

  lemma StillAlive(w: Walk, w': Walk, x: ItemId)
    requires Alive(w, {}) && |w'.a| == |w.a| && w'.waiting <= w.waiting && x !in w.waiting
    requires forall y :: 0 <= y < |w.a| && y != x ==> w'.a[y] == w.a[y]
    ensures Alive(w', {})
  {
  }

  lemma TwinsAlive(w: Walk, w': Walk, c: ItemId, x: ItemId)
    requires Alive(w, {}) && c < |w.a| && |w'.a| == |w.a| && w'.waiting <= w.waiting && w'.a[c].pending > 0
    requires forall y :: 0 <= y < |w.a| && y != c ==> w'.a[y].pending == w.a[y].pending
    ensures Alive(w', {})
  {
  }

  lemma SplitFirst(items: seq<ItemId>, stack: set<ItemId>)
    requires items != [] && stack == Elements(items)
    ensures stack == {items[0]} + Elements(items[1..])
  {
    assert items == [items[0]] + items[1..];
  }

  lemma HandedItems(h: History, w: Walk, items: seq<ItemId>, stack: set<ItemId>)
    requires InHand(h, w, items, stack)
    ensures forall i :: 0 <= i < |items| ==> items[i] < |w.a| && items[i] in stack && Fresh(h, w, items[i])
    ensures |items| > 1 ==> forall i :: 0 <= i < |items| ==> items[i] != 0 && w.a[items[i]].child.Some?
    ensures stack == Elements(items) && forall i, j :: 0 <= i < j < |items| ==> items[i] != items[j]
    ensures forall i :: 0 <= i < |items| ==> w.a[items[i]].merged == [] && w.a[items[i]].commit == w.a[items[0]].commit
  {
  }

  lemma InHandRange(h: History, w: Walk, items: seq<ItemId>, stack: set<ItemId>)
    requires InHand(h, w, items, stack)
    ensures items[0] < |w.a|
  {
  }

  lemma QueueInRange(h: History, root: Commit, w: Walk, stack: set<ItemId>)
    requires Valid(h) && Inv(h, root, w, stack, {})
    ensures forall i :: 0 <= i < |w.q| ==> w.q[i] < |w.a|
  {
    forall i | 0 <= i < |w.q| ensures w.q[i] < |w.a| { assert w.q[i] in w.q; }
  }

  /** Item `x` waits while its first `k` parents have been visited. */
  ghost predicate Visiting(h: History, root: Commit, w: Walk, x: ItemId, k: nat)
    requires Valid(h)
  {
    && Inv(h, root, w, {}, {x}) && x in w.waiting && x < |w.a| && Alive(w, {x})
    && ItemOk(h, w.a[x]) && Unanswered(w.a[x].needs) && w.a[x].contents == h.file(w.a[x].commit) && w.a[x].pending >= 0
    && k <= |h.parents(w.a[x].commit)| && Complete(h, w.a, w.live, x, k) && UpTo(w.a, w.live, x, k)
    && (forall i :: 0 <= i < |w.q| ==> w.q[i] < |w.a|)
  }

  lemma BeginVisit(h: History, root: Commit, w: Walk, x: ItemId)
    requires Valid(h) && Inv(h, root, w, {x}, {}) && Alive(w, {}) && (Fresh(h, w, x) || Joining(h, w, x))
    ensures x < |w.a| && w.a[x].pending == 0 && To(w.a, w.live, x) == {}
    ensures Visiting(h, root, w.(waiting := w.waiting + {x}), x, 0)
  {
    hide Inv, Complete;
    StartVisit(h, root, w, x);
    VisitFacts(h, w, x);
    QueueInRange(h, root, w, {x});
  }

  lemma FinishVisit(h: History, root: Commit, w: Walk, x: ItemId)
    requires Valid(h) && x < |w.a| && Visiting(h, root, w, x, |h.parents(w.a[x].commit)|)
    ensures var w' := w.(a := w.a[x := w.a[x].(contents := [])]);
            && Inv(h, root, w', {}, {}) && Alive(w', {x}) && (w.a[x].pending > 0 ==> Alive(w', {}))
            && x in w'.waiting && w.a[x].pending >= 0 && (forall i :: 0 <= i < |w.q| ==> w.q[i] < |w.a|)
  {
    hide Inv, Complete;
    EndVisit(h, root, w, x);
    Cleared(h, root, w, x);
  }

  /** What visiting the first `k` parents did to queue and arena. */
  ghost predicate VisitedSoFar(h: History, a0: seq<QueueItem>, q0: seq<ItemId>, a: seq<QueueItem>, q: seq<ItemId>, x: ItemId, c: Commit, k: nat)
    requires Valid(h)
  {
    && SameCommits(a0, a) && k <= |h.parents(c)| && Load(h, a, q) <= Load(h, a0, q0) + WeightUpTo(h, c, k)
    && forall y :: |a0| <= y < |a| ==> AsksParent(h, x, c, a[y])
  }

  lemma NoneVisited(h: History, a: seq<QueueItem>, q: seq<ItemId>, x: ItemId, c: Commit)
    requires Valid(h)
    ensures VisitedSoFar(h, a, q, a, q, x, c, 0)
  {
  }

  lemma OneVisited(h: History, a0: seq<QueueItem>, q0: seq<ItemId>, a1: seq<QueueItem>, q1: seq<ItemId>,
                   a: seq<QueueItem>, q: seq<ItemId>, x: ItemId, c: Commit, k: nat)
    requires Valid(h) && VisitedSoFar(h, a0, q0, a1, q1, x, c, k) && k < |h.parents(c)| && x < |a0|
    requires SameCommits(a1, a) && Load(h, a, q) <= Load(h, a1, q1) + Weight(h, h.parents(c)[k])
    requires |a1| <= |a| <= |a1| + 1 && (|a| > |a1| ==> AsksParent(h, x, c, a[|a1|]))
    requires forall y :: 0 <= y < |a1| && y != x ==> a[y] == a1[y]
    ensures VisitedSoFar(h, a0, q0, a, q, x, c, k + 1)
  {
    hide Load, Weight;
    WeightStep(h, c, k);
  }

  lemma BypassVisited(h: History, a0: seq<QueueItem>, q0: seq<ItemId>, a1: seq<QueueItem>, q1: seq<ItemId>,
                      a: seq<QueueItem>, q: seq<ItemId>, x: ItemId, c: Commit)
    requires Valid(h) && VisitedSoFar(h, a0, q0, a1, q1, x, c, 0) && |h.parents(c)| == 1
    requires x < |a0| && a0[x].commit == c && SameCommits(a1, a) && |a| == |a1| + 1 && a[|a1|].child == a0[x].child
    requires Load(h, a, q) == Load(h, a1, q1) + Weight(h, h.parents(c)[0]) && forall y :: 0 <= y < |a1| ==> a[y] == a1[y]
    ensures SameCommits(a0, a) && Load(h, a, q) < Load(h, a0, q0) + Weight(h, c)
    ensures forall y :: |a0| <= y < |a| ==> a[y].child == a0[x].child || AsksParent(h, x, c, a[y])
  {
    hide Load, Weight;
    WeightStep(h, c, 0);
  }

  lemma AllVisited(h: History, a0: seq<QueueItem>, q0: seq<ItemId>, a1: seq<QueueItem>, a: seq<QueueItem>, q: seq<ItemId>, x: ItemId, c: Commit)
    requires Valid(h) && VisitedSoFar(h, a0, q0, a1, q, x, c, |h.parents(c)|) && x < |a0| && x < |a1|
    requires a == a1[x := a1[x].(contents := [])] && forall i :: 0 <= i < |q| ==> q[i] < |a1|
    ensures SameCommits(a0, a) && Load(h, a, q) < Load(h, a0, q0) + Weight(h, c)
    ensures forall y :: |a0| <= y < |a| ==> AsksParent(h, x, c, a[y])
  {
    hide Load, Weight;
    WeightStep(h, c, 0);
    LoadSame(h, a1, a, q);
  }

  lemma WeightStep(h: History, c: Commit, k: nat)
    requires Valid(h)
    ensures k < |h.parents(c)| ==> WeightUpTo(h, c, k + 1) == WeightUpTo(h, c, k) + Weight(h, h.parents(c)[k])
    ensures WeightUpTo(h, c, |h.parents(c)|) < Weight(h, c)
  {
  }

  lemma InvWaiting(h: History, root: Commit, w: Walk, x: ItemId)
    requires Valid(h) && Inv(h, root, w, {}, {x})
    ensures |w.a| !in w.waiting
  {
    WaitingInRange(h, w, {x});
  }

  lemma NotWaiting(h: History, root: Commit, w: Walk, stack: set<ItemId>)
    requires Valid(h) && Inv(h, root, w, stack, {})
    ensures forall x :: x in stack ==> x !in w.waiting
  {
  }

  /** The first `i` of the twins have collapsed into one. */
  ghost predicate TwinsSoFar(h: History, root: Commit, w0: Walk, w: Walk, items: seq<ItemId>, i: nat)
    requires Valid(h)
  {
    && 1 <= i <= |items| && InArena(w0.a, items) && AllTwins(w0.a, items) && w0.a[items[0]].child.Some? && w0.a[items[0]].child.value < |w0.a|
    && (forall j :: 0 <= j < |items| ==> w0.a[items[j]].commit == w0.a[items[0]].commit && items[j] != w0.a[items[0]].child.value)
    && (forall j, k :: 0 <= j < k < |items| ==> items[j] != items[k])
    && w.a == Collapsed(w0.a, items[..i]) && w.q == w0.q && w.waiting == w0.waiting
    && (i > 1 ==> w.a[w0.a[items[0]].child.value].pending > 0)
    && Inv(h, root, w, {items[0]} + Elements(items[i..]), {})
    && Fresh(h, w, items[0]) && forall j :: i <= j < |items| ==> Fresh(h, w, items[j])
  }

  lemma TwinsStart(h: History, root: Commit, w: Walk, items: seq<ItemId>, stack: set<ItemId>)
    requires Valid(h) && Inv(h, root, w, stack, {}) && InHand(h, w, items, stack) && |items| > 1 && InArena(w.a, items) && AllTwins(w.a, items)
    ensures TwinsSoFar(h, root, w, w, items, 1)
    ensures var x := items[0]; x < |w.a| && w.a[x].child.Some? && x != w.a[x].child.value
    ensures var c := w.a[items[0]].child.value; c < |w.a| && Skips(h, w.a[c].commit, w.a[items[0]].commit)
  {
    hide Inv, Fresh, Meet, Skips;
    HandedItems(h, w, items, stack);
    SplitFirst(items, stack);
    var x := items[0];
    var c := w.a[x].child.value;
    forall j | 0 <= j < |items| ensures items[j] != c { OwnLink(h, root, w, stack, items[j]); }
    DropTwin(h, root, w, stack, x, items[1], c);
    MeetSkips(h, w.a[c].commit, w.a[x].commit);
    assert items[..1] == [x] && LowestOf(w.a, [x]) == w.a[x].parentNo;
    assert w.a == Collapsed(w.a, items[..1]);
  }

  lemma TwinsMore(h: History, root: Commit, w0: Walk, w: Walk, items: seq<ItemId>, i: nat) returns (w': Walk)
    requires Valid(h) && TwinsSoFar(h, root, w0, w, items, i) && i < |items|
    ensures TwinsSoFar(h, root, w0, w', items, i + 1)
  {
    hide Inv, Fresh, Meet, LowestOf;
    var x, y, c := items[0], items[i], w0.a[items[0]].child.value;
    assert items[..i][0] == x && items[..i + 1][0] == x;
    OneTwinLess(x, items, i);
    LowestStep(w0.a, items, i);
    DropTwin(h, root, w, {x} + Elements(items[i..]), x, y, c);
    w' := TwinDropped(w, x, y, c);
    assert forall j :: i + 1 <= j < |items| ==> items[j] in Elements(items[i + 1..]) by {
      forall j | i + 1 <= j < |items| ensures items[j] in Elements(items[i + 1..]) { assert items[i + 1..][j - i - 1] == items[j]; }
    }
  }

  lemma TwinsEnd(h: History, root: Commit, w0: Walk, w: Walk, items: seq<ItemId>)
    requires Valid(h) && items != [] && TwinsSoFar(h, root, w0, w, items, |items|)
    ensures InArena(w0.a, items) && w0.a[items[0]].child.Some? && w0.a[items[0]].child.value < |w0.a|
    ensures w.a == Collapsed(w0.a, items) && w.q == w0.q && w.waiting == w0.waiting
    ensures Inv(h, root, w, {items[0]}, {}) && Fresh(h, w, items[0])
    ensures |items| > 1 ==> w.a[w0.a[items[0]].child.value].pending > 0
  {
    assert items[..|items|] == items && {items[0]} + Elements(items[|items|..]) == {items[0]};
  }

  lemma MeetSkips(h: History, c: Commit, p: Commit)
    requires Valid(h) && Meet(h, c, p)
    ensures Skips(h, c, p)
  {
    hide Meet;
    SelfLeads(h, c);
  }

  lemma NotOwnChild(h: History, root: Commit, w: Walk, x: ItemId, b: ItemId)
    requires Valid(h) && Inv(h, root, w, {x}, {}) && Fresh(h, w, x) && w.a[x].child == Some(b)
    ensures x != b
  {
    OwnLink(h, root, w, {x}, x);
  }

  lemma NoneSkipped(a: seq<QueueItem>, x: ItemId)
    requires x < |a|
    ensures SkipsTo(a, x, [], a)
  {
  }

  lemma MoreSkipped(a: seq<QueueItem>, x: ItemId, chain: seq<ItemId>, b: seq<QueueItem>, c: ItemId, b': seq<QueueItem>)
    requires SkipsTo(a, x, chain, b) && b[x].child == Some(c) && c < |b| && c != x && Skippable(b[c])
    requires b' == b[x := b[x].(child := b[c].child, parentNo := b[c].parentNo)]
    ensures SkipsTo(a, x, chain + [c], b')
  {
    assert b[c] == a[c];
    assert b' == a[x := a[x].(child := a[c].child, parentNo := a[c].parentNo)];
  }

  lemma RootOldest(h: History, root: Commit, w: Walk, stack: set<ItemId>, x: ItemId)
    requires Valid(h) && Inv(h, root, w, stack, {}) && x < |w.a|
    ensures h.generation(w.a[x].commit) <= h.generation(root)
  {
  }

  lemma VisitFacts(h: History, w: Walk, x: ItemId)
    requires Fresh(h, w, x) || Joining(h, w, x)
    ensures x < |w.a| && ItemOk(h, w.a[x]) && Unanswered(w.a[x].needs) && w.a[x].pending == 0
    ensures w.a[x].contents == h.file(w.a[x].commit) && Sorted(w.a[x].needs)
  {
  }

  lemma SameItemBypass(h: History, root: Commit, w: Walk, x: ItemId, qi: QueueItem)
    requires Valid(h) && Inv(h, root, w, {}, {x}) && x in w.waiting && x < |w.a| && To(w.a, w.live, x) == {}
    requires w.a[x].merged == [] && w.a[x].identical && Unanswered(w.a[x].needs) && w.a[x].contents == h.file(w.a[x].commit)
    requires |h.parents(w.a[x].commit)| == 1 && h.file(h.parents(w.a[x].commit)[0]) == h.file(w.a[x].commit)
    requires qi == QueueItem(w.a[x].child, [], h.parents(w.a[x].commit)[0], w.a[x].contents, w.a[x].needs, 0, true, w.a[x].parentNo)
    ensures Inv(h, root, Bypassed(w, x, qi), {}, {})
  {
    assert Waits(h, w, {x}, x) && RootOk(h, root, w.a);
    Bypass(h, root, w, x, qi);
  }

  lemma NoSupply(h: History, x: QueueItem, k: nat, qi: QueueItem)
    requires Valid(h) && ItemOk(h, x) && k < |h.parents(x.commit)| && qi.needs == []
    requires forall m :: 0 <= m < |x.needs| && Carry(h, x.commit, k, x.needs[m].cur).Some?
               ==> Supplies(qi.needs, !qi.identical, x.needs[m].cur)
    ensures forall m :: 0 <= m < |x.needs| ==> Carry(h, x.commit, k, x.needs[m].cur).None?
  {
  }

  lemma OneTwinLess(x: ItemId, items: seq<ItemId>, i: nat)
    requires i < |items| && x != items[i] && items[i] !in items[i + 1..]
    ensures {x} + Elements(items[i..]) - {items[i]} == {x} + Elements(items[i + 1..])
  {
    assert items[i..] == [items[i]] + items[i + 1..];
  }

  lemma Cleared(h: History, root: Commit, w: Walk, x: ItemId)
    requires Valid(h) && Inv(h, root, w, {}, {}) && x in w.waiting && x < |w.a|
    ensures Inv(h, root, w.(a := w.a[x := w.a[x].(contents := [])]), {}, {})
  {
    var w' := w.(a := w.a[x := w.a[x].(contents := [])]);
    assert Frame(w.a, w'.a);
    hide Frame, LinkOk, Waits, RootOk;
    FrameRoot(h, root, w.a, w'.a);
    FrameLinks(h, w, {}, w'.a);
    StillFresh(h, w, w');
    forall s | s in w.live ensures IsLink(w'.a, s) && LinkOf(w'.a, s) == LinkOf(w.a, s) { assert IsLink(w.a, s); }
    forall y | y in w.waiting
      ensures Waits(h, w', {}, y)
    {
      assert Waits(h, w, {}, y);
      hide LinksOk;
      FrameTo(w.a, w'.a, w.live, y);
      if y != x { StillWaits(h, w, w', {}, y); } else { ClearedWaits(h, w, x); }
    }
  }

  lemma ClearedWaits(h: History, w: Walk, x: ItemId)
    requires Valid(h) && Waits(h, w, {}, x) && x < |w.a|
    requires var w' := w.(a := w.a[x := w.a[x].(contents := [])]);
             To(w'.a, w'.live, x) == To(w.a, w.live, x) && forall s :: s in w.live ==> IsLink(w.a, s) && IsLink(w'.a, s) && LinkOf(w'.a, s) == LinkOf(w.a, s)
    ensures Waits(h, w.(a := w.a[x := w.a[x].(contents := [])]), {}, x)
  {
  }

  lemma LastOne(h: History, root: Commit, w: Walk, x: ItemId)
    requires Valid(h) && Inv(h, root, w, {}, {}) && Alive(w, {x}) && x in w.waiting && x < |w.a| && w.a[x].pending == 0
    ensures var w' := w.(waiting := w.waiting - {x});
            && Inv(h, root, w', {x}, {}) && Alive(w', {}) && Ready(h, w.a[x]) && OwnsLinks(w', x)
            && (if x == 0 then true else 0 in w'.waiting)
  {
    assert Waits(h, w, {}, x);
    AllParentsDone(h, w, x);
    TakeInHand(h, root, w, {}, x);
    assert {} + {x} == {x};
  }

  method RootNeeds(file: seq<Line>) returns (needs: Needs)
    ensures |needs| == |file| && forall i :: 0 <= i < |needs| ==> needs[i] == LineMap(i, i, None, -1)
  {
    needs := [];
    var i := 0;
    while i < |file|
      invariant 0 <= i <= |file| && |needs| == i
      invariant forall j :: 0 <= j < i ==> needs[j] == LineMap(j, j, None, -1)
    {
      needs := needs + [LineMap(i, i, None, -1)];
      i := i + 1;
    }
  }

  lemma FirstWalk(h: History, root: Commit, w: Walk)
    requires Valid(h) && w.q == [0] && w.waiting == {} && w.live == {} && |w.a| == 1
    requires w.a[0] == QueueItem(None, [], root, h.file(root), w.a[0].needs, 0, false, 0)
    requires |w.a[0].needs| == |h.file(root)|
    requires forall i :: 0 <= i < |w.a[0].needs| ==> w.a[0].needs[i] == LineMap(i, i, None, -1)
    ensures Inv(h, root, w, {}, {}) && Alive(w, {})
  {
  }

  /** One more item of the same commit comes into hand. */
  lemma PopOne(h: History, root: Commit, w: Walk, stack: set<ItemId>, items: seq<ItemId>, k: nat)
    requires Valid(h) && Inv(h, root, w, stack, {}) && Alive(w, {}) && k < |w.q| && w.q[k] < |w.a|
    requires if items == [] then stack == {} else InHand(h, w, items, stack) && w.a[w.q[k]].commit == w.a[items[0]].commit
    ensures var w' := w.(q := Without(w.q, k));
            Inv(h, root, w', stack + {w.q[k]}, {}) && Alive(w', {}) && InHand(h, w', items + [w.q[k]], stack + {w.q[k]})
    ensures Load(h, w.a, w.q) == Load(h, w.a, Without(w.q, k)) + Weight(h, w.a[w.q[k]].commit)
    ensures forall i :: 0 <= i < |w.q| - 1 ==> Without(w.q, k)[i] in w.q
  {
    hide Inv, Fresh, Load, Weight;
    var w' := w.(q := Without(w.q, k));
    Pop(h, root, w, stack, k);
    LoadWithout(h, w.a, w.q, k);
    var all := items + [w.q[k]];
    assert Elements(all) == Elements(items) + {w.q[k]} by {
      assert forall i :: 0 <= i < |items| ==> all[i] == items[i];
      assert all[|items|] == w.q[k];
    }
    forall i | 0 <= i < |items| ensures Fresh(h, w', items[i]) { FreshKept(h, w, w', items[i]); }
    if items != [] {
      OneRoot(h, root, w, stack, items, k);
    }
    assert forall i :: 0 <= i < |items| ==> all[i] in Elements(items) by {
      assert forall i :: 0 <= i < |items| ==> items[i] in Elements(items);
    }
  }

  lemma FreshKept(h: History, w: Walk, w': Walk, x: ItemId)
    requires Fresh(h, w, x) && w'.a == w.a && w'.live == w.live
    ensures Fresh(h, w', x)
  {
  }

  /** The root commit is popped alone: every other commit is older. */
  lemma OneRoot(h: History, root: Commit, w: Walk, stack: set<ItemId>, items: seq<ItemId>, k: nat)
    requires Valid(h) && Inv(h, root, w, stack, {}) && k < |w.q| && w.q[k] < |w.a| && InHand(h, w, items, stack)
    requires w.a[w.q[k]].commit == w.a[items[0]].commit
    ensures w.q[k] != 0 && 0 !in items
  {
    assert RootOk(h, root, w.a);
    assert w.q[k] in w.q && w.q[k] !in stack;
    forall i | 0 <= i < |items| ensures items[i] in stack && items[i] != w.q[k] {}
  }
}
