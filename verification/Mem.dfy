/** The in-memory filesystem: nodes are objects that keep their identity when they are renamed. */
module Mem {
  import opened Wrappers
  import opened Sorting
  import opened Paths
  import opened MemPaths
  import opened MemTree

  class Node {
    var kind: Kind
    var mode: nat
    var data: string
    var uid: int
    var gid: int
    var atime: int
    var mtime: int
    var children: map<string, string>

    constructor (kind: Kind, mode: nat, data: string)
      ensures Value() == NewEntry(kind, mode, data) && children == map[]
    {
      this.kind, this.mode, this.data := kind, mode, data;
      uid, gid, atime, mtime := 0, 0, 0, 0;
      children := map[];
    }

    ghost function Value(): Entry
      reads this
    {
      Entry(kind, mode, data, uid, gid, atime, mtime)
    }
  }

  datatype Move = Move(oldKey: string, newKey: string, node: Node)

  class Mem {
    var nodes: map<string, Node>

    ghost function View(): Tree
      reads this, nodes.Values
    {
      map k | k in nodes :: nodes[k].Value()
    }

    ghost function Listing(): Kids
      reads this, nodes.Values
    {
      map k | k in nodes :: nodes[k].children
    }

    ghost predicate Distinct()
      reads this
    {
      forall k, k' :: k in nodes && k' in nodes && k != k' ==> nodes[k] != nodes[k']
    }

    /** The children maps agree with the node map. */
    ghost predicate Valid()
      reads this, nodes.Values
    {
      Distinct() && Linked(nodes.Keys, Listing())
    }

    constructor ()
      ensures Valid() && View() == map["/" := NewDir] && forall k :: k in nodes ==> fresh(nodes[k])
    {
      var node := new Node(Dir, DIR_MODE, "");
      nodes := map["/" := node];
      new;
      hide Linked;
      OnlyRoot();
      assert nodes.Keys == {"/"} && Listing() == map["/" := map[]];
    }

    ghost function ParentNode(abs: string): set<Node>
      reads this
    {
      if ParentOf(abs) in nodes then {nodes[ParentOf(abs)]} else {}
    }

    method SetChildren(k: string, children: map<string, string>)
      requires Distinct() && k in nodes
      modifies {nodes[k]}`children
      ensures Listing() == old(Listing())[k := children] && View() == old(View())
    {
      nodes[k].children := children;
    }

    method Put(k: string, node: Node)
      requires Distinct() && node !in nodes.Values
      modifies this`nodes
      ensures nodes == old(nodes)[k := node] && Distinct()
      ensures Listing() == old(Listing())[k := node.children] && View() == old(View())[k := node.Value()]
    {
      nodes := nodes[k := node];
    }

    method Take(k: string)
      requires Distinct() && k in nodes
      modifies this`nodes
      ensures nodes == old(nodes) - {k} && Distinct()
      ensures Listing() == old(Listing()) - {k} && View() == old(View()) - {k}
    {
      nodes := nodes - {k};
    }

    /** Lists `abs` in its parent, if the parent exists. */
    method LinkChild(abs: string)
      requires Distinct()
      modifies ParentNode(abs)`children
      ensures View() == old(View())
      ensures Listing() == WithKid(old(Listing()), abs)
    {
      hide ParentOf, BaseOf, Linked, View, Listing, Distinct;
      ViewKeys();
      if |abs| <= 1 { return; }
      var parent := FindParent(abs);
      var base := FindBase(abs);
      if parent !in nodes { return; }
      ListingAt(parent);
      if base in nodes[parent].children { return; }
      SetChildren(parent, nodes[parent].children[base := abs]);
    }

    method UnlinkFromParent(abs: string)
      requires Distinct()
      modifies ParentNode(abs)`children
      ensures View() == old(View())
      ensures Listing() == WithoutKid(old(Listing()), abs)
      ensures forall n :: n in old(ParentNode(abs)) ==> old(n.children) == map[] ==> n.children == map[]
    {
      hide ParentOf, BaseOf, Linked, View, Listing, Distinct;
      ViewKeys();
      if |abs| <= 1 { return; }
      var parent := FindParent(abs);
      var base := FindBase(abs);
      if parent in nodes {
        ListingAt(parent);
        SetChildren(parent, nodes[parent].children - {base});
        ListingAt(parent);
      }
    }

    /** A new node under an existing parent. */
    method AddNode(abs: string, node: Node)
      requires Valid() && AbsPath(abs) && abs !in nodes && ParentOf(abs) in nodes
      requires node !in nodes.Values && node.children == map[]
      modifies this`nodes, ParentNode(abs)`children
      ensures nodes == old(nodes)[abs := node]
      ensures Valid() && View() == old(View())[abs := old(node.Value())]
    {
      hide Linked, AbsPath, BaseOf, ParentOf;
      RootIn(nodes.Keys, Listing(), abs);
      AddLinked(nodes.Keys, Listing(), abs);
      AddIsLink(nodes.Keys, Listing(), abs);
      Put(abs, node);
      LinkChild(abs);
      assert nodes.Keys == old(nodes.Keys) + {abs};
    }

    /** Makes a directory and every missing ancestor. */
    method PutDir(abs: string)
      requires (Valid() && AbsPath(abs)) || abs in nodes
      modifies this`nodes, nodes.Values`children
      ensures View() == WithDir(old(View()), abs)
      ensures if old(abs in nodes) then nodes == old(nodes) && Listing() == old(Listing()) else Valid()
      ensures forall k :: k in old(nodes) ==> k in nodes && nodes[k] == old(nodes)[k]
      ensures forall k :: k in nodes && k !in old(nodes) ==> fresh(nodes[k])
      decreases |abs|, 1
    {
      hide Linked, AbsPath, ParentOf, WithDir, View, Listing, Distinct, Node.Value;
      ViewKeys();
      SameTree(View(), abs);
      if abs in nodes { return; }
      RootIn(nodes.Keys, Listing(), abs);
      MissingParent(View(), nodes.Keys, Listing(), abs);
      PutParent(abs);
      assert forall n :: n in nodes.Values ==> n in old(nodes.Values) || fresh(n);
      MakeNode(abs, Dir, DIR_MODE, "");
    }

    /** Makes the missing ancestors of a new path. */
    method PutParent(abs: string)
      requires Valid() && AbsPath(abs) && abs !in nodes
      modifies this`nodes, nodes.Values`children
      ensures Valid() && View() == WithDir(old(View()), ParentOf(abs)) && ParentOf(abs) in nodes && abs !in nodes
      ensures forall k :: k in old(nodes) ==> k in nodes && nodes[k] == old(nodes)[k]
      ensures forall k :: k in nodes && k !in old(nodes) ==> fresh(nodes[k])
      decreases |abs|, 0
    {
      hide Linked, AbsPath, ParentOf, WithDir, View, Listing, Distinct, Node.Value;
      ViewKeys();
      RootIn(nodes.Keys, Listing(), abs);
      ParentChild(abs);
      MissingParent(View(), nodes.Keys, Listing(), abs);
      var parent := FindParent(abs);
      SameTree(View(), parent);
      PutDir(parent);
      ViewKeys();
    }

    method MakeNode(abs: string, kind: Kind, mode: nat, data: string)
      requires Valid() && AbsPath(abs) && abs !in nodes && ParentOf(abs) in nodes
      modifies this`nodes, ParentNode(abs)`children
      ensures Valid() && View() == old(View())[abs := NewEntry(kind, mode, data)]
      ensures abs in nodes && fresh(nodes[abs]) && nodes == old(nodes)[abs := nodes[abs]]
    {
      hide Linked, AbsPath, ParentOf, View, Listing, Distinct, Node.Value;
      var node := new Node(kind, mode, data);
      AddNode(abs, node);
    }

    lemma ListingAt(k: string)
      requires k in nodes
      ensures k in Listing() && Listing()[k] == nodes[k].children
    {
    }

    lemma ViewKeys()
      ensures View().Keys == nodes.Keys && Listing().Keys == nodes.Keys
    {
    }

    // ---- Removing and renaming --------------------------------------------------------------

    /** Removes a node; the children maps stay exact exactly when it had no children. */
    method RemoveAbs(abs: string) returns (r: Result<(), FsError>)
      requires Valid()
      modifies this`nodes, nodes.Values`children
      ensures r == if abs == "/" then Err(InvalidMode)
                   else if abs !in old(nodes) then Err(NotExist)
                   else if old(nodes[abs].kind.Dir?) && !Childless(old(nodes.Keys), abs) then Err(InvalidMode)
                   else Ok(())
      ensures r.Err? ==> nodes == old(nodes) && Valid() && View() == old(View())
      ensures r.Ok? ==> nodes == old(nodes) - {abs} && View() == old(View()) - {abs}
      ensures r.Ok? ==> (Valid() <==> Childless(old(nodes.Keys), abs))
      ensures r.Ok? ==> Distinct() && LinkedBut(nodes.Keys, Listing(), abs)
    {
      hide Linked, AbsPath, ParentOf, BaseOf, Childless;
      if abs == "/" { return Err(InvalidMode); }
      if abs !in nodes { return Err(NotExist); }
      NoKidsChildless(nodes.Keys, Listing(), abs);
      KeyPath(nodes.Keys, Listing(), abs);
      if nodes[abs].kind.Dir? && nodes[abs].children != map[] { return Err(InvalidMode); }
      DropLinked(nodes.Keys, Listing(), abs);
      DropLinkedBut(nodes.Keys, Listing(), abs);
      DetachOne(abs);
      assert nodes.Keys == old(nodes.Keys) - {abs};
      r := Ok(());
    }

    ghost predicate Holds(plan: seq<Move>, nodes0: map<string, Node>, before: string, after: string) {
      && Plan(nodes0.Keys, before, after, Olds(plan), News(plan))
      && forall i :: 0 <= i < |plan| ==> plan[i].oldKey in nodes0 && plan[i].node == nodes0[plan[i].oldKey]
    }

    /** The keys to move, longest first. */
    method BuildPlan(before: string, after: string) returns (plan: seq<Move>)
      ensures Holds(plan, nodes, before, after) && LongestFirst(Olds(plan))
    {
      hide Plan, Sort, LongestFirst;
      var found := FindMoves(before, after);
      plan := Sort(OldLonger, found);
      SortLongest(found);
      Resorted(OldLonger, found, before, after);
    }

    /** A plan stays one in any order. */
    lemma Resorted(le: (Move, Move) -> bool, plan: seq<Move>, before: string, after: string)
      requires Holds(plan, nodes, before, after)
      ensures Holds(Sort(le, plan), nodes, before, after) && multiset(Sort(le, plan)) == multiset(plan)
    {
      hide Plan, Sort;
      var r := Sort(le, plan);
      SortKeeps(le, plan);
      PermutedPlan(plan, r, nodes.Keys, before, after);
      forall i | 0 <= i < |r| ensures r[i].oldKey in nodes && r[i].node == nodes[r[i].oldKey] {
        assert r[i] in multiset(r);
      }
    }

    /** The keys to move, in whatever order the node map yields them. */
    method FindMoves(before: string, after: string) returns (plan: seq<Move>)
      ensures Holds(plan, nodes, before, after)
    {
      plan := [];
      var todo := nodes.Keys;
      while todo != {}
        invariant todo <= nodes.Keys
        invariant |Olds(plan)| == |plan| == |News(plan)| && NoRepeats(Olds(plan))
        invariant Members(Olds(plan)) == Moved(nodes.Keys - todo, before)
        invariant forall i :: 0 <= i < |plan| ==>
          && plan[i].oldKey in nodes && plan[i].oldKey !in todo && plan[i].node == nodes[plan[i].oldKey]
          && |before| <= |plan[i].oldKey| && plan[i].newKey == NewKey(plan[i].oldKey, before, after)
        decreases todo
      {
        var k :| k in todo;
        ghost var was := todo;
        todo := todo - {k};
        assert nodes.Keys - todo == nodes.Keys - was + {k};
        if k == before || (|k| > |before| && before <= k && k[|before|] == '/') {
          var m := Move(k, after + k[|before|..], nodes[k]);
          OneMoreMove(plan, m);
          plan := plan + [m];
        }
      }
      assert nodes.Keys - todo == nodes.Keys;
    }

    method DetachOne(k: string)
      requires Distinct() && k in nodes
      modifies this`nodes, ParentNode(k)`children
      ensures Distinct() && nodes == old(nodes) - {k} && View() == old(View()) - {k}
      ensures Listing() == WithoutKid(old(Listing()), k) - {k}
      ensures forall n :: n in old(ParentNode(k)) ==> old(n.children) == map[] ==> n.children == map[]
    {
      hide AbsPath, ParentOf, BaseOf, View, Listing, Distinct, WithoutKid;
      UnlinkFromParent(k);
      Take(k);
    }

    method Detach(plan: seq<Move>, before: string, after: string)
      requires Distinct() && LinkedBut(nodes.Keys, Listing(), after) && before in nodes
      requires Holds(plan, nodes, before, after) && LongestFirst(Olds(plan))
      modifies this`nodes, nodes.Values`children
      ensures Distinct() && nodes == old(nodes) - Members(Olds(plan)) && View() == old(View()) - Members(Olds(plan))
      ensures Listing() == DetachAll(old(Listing()), Olds(plan))
      ensures before != "/" ==> forall i :: 0 <= i < |plan| ==> plan[i].node.children == map[]
    {
      hide AbsPath, ParentOf, BaseOf, View, Listing, Distinct, Plan, DetachAll, WithoutKid, Members, LinkedBut, LongestFirst;
      PlanFacts(plan, nodes, before, after);
      ghost var n0, v0, l0 := nodes, View(), Listing();
      DetachNone(n0, v0, l0, Olds(plan));
      var i := 0;
      while i < |plan|
        invariant 0 <= i <= |plan|
        invariant Distinct() && nodes == n0 - Members(Olds(plan)[..i]) && View() == v0 - Members(Olds(plan)[..i])
        invariant Listing() == DetachAll(l0, Olds(plan)[..i])
        invariant before != "/" ==> forall j :: 0 <= j < i ==> plan[j].node.children == map[]
      {
        DetachMore(n0, v0, l0, Olds(plan), i);
        if before != "/" {
          PlanMembers(plan, n0.Keys, before, after);
          DetachedEmpty(n0.Keys, l0, before, after, Olds(plan), i);
        }
        ListingAt(plan[i].oldKey);
        assert ParentNode(plan[i].oldKey) <= nodes.Values <= n0.Values;
        DetachOne(plan[i].oldKey);
        i := i + 1;
      }
      assert Olds(plan)[..i] == Olds(plan);
    }

    /** Empties the children map of every detached directory. */
    method ClearAll(plan: seq<Move>)
      requires forall i :: 0 <= i < |plan| ==> plan[i].node !in nodes.Values
      modifies (set m | m in plan :: m.node)`children
      ensures forall i :: 0 <= i < |plan| ==> plan[i].node.kind.Dir? || old(plan[i].node.children) == map[] ==> plan[i].node.children == map[]
    {
      var i := 0;
      while i < |plan|
        invariant 0 <= i <= |plan|
        invariant forall j :: 0 <= j < |plan| ==> (j < i && plan[j].node.kind.Dir?) || old(plan[j].node.children) == map[] ==> plan[j].node.children == map[]
      {
        assert plan[i] in plan;
        if plan[i].node.kind.Dir? {
          plan[i].node.children := map[];
        }
        i := i + 1;
      }
    }

    method Attach(plan: seq<Move>)
      requires Distinct() && NoRepeats(News(plan))
      requires forall i :: 0 <= i < |plan| ==> plan[i].node !in nodes.Values
      requires forall i, j :: 0 <= i < j < |plan| ==> plan[i].node != plan[j].node
      modifies this`nodes
      ensures Distinct() && nodes == InsertAll(old(nodes), News(plan), NodesOf(plan))
      ensures View() == InsertAll(old(View()), News(plan), Values(plan))
      ensures Listing() == InsertAll(old(Listing()), News(plan), ChildrenOf(plan))
    {
      hide View, Listing, Distinct, InsertAll;
      ghost var n0, v0, l0 := nodes, View(), Listing();
      InsertNone(n0);
      InsertNone(v0);
      InsertNone(l0);
      ghost var ks, ns, vs, bs := News(plan), NodesOf(plan), Values(plan), ChildrenOf(plan);
      var i := 0;
      while i < |plan|
        invariant 0 <= i <= |plan|
        invariant Distinct() && nodes == InsertAll(n0, ks[..i], ns[..i])
        invariant View() == InsertAll(v0, ks[..i], vs[..i])
        invariant Listing() == InsertAll(l0, ks[..i], bs[..i])
        invariant forall j :: i <= j < |plan| ==> plan[j].node !in nodes.Values
      {
        InsertMore(n0, ks, ns, i);
        InsertMore(v0, ks, vs, i);
        InsertMore(l0, ks, bs, i);
        ghost var n1 := nodes;
        Put(plan[i].newKey, plan[i].node);
        assert forall n :: n in nodes.Values ==> n in n1.Values || n == plan[i].node;
        i := i + 1;
      }
      assert ks[..i] == ks && ns[..i] == ns && vs[..i] == vs && bs[..i] == bs;
    }

    method LinkEach(plan: seq<Move>)
      requires Distinct()
      modifies nodes.Values`children
      ensures View() == old(View()) && Listing() == LinkAll(old(Listing()), News(plan))
    {
      hide View, Listing, Distinct;
      ghost var v0, l0 := View(), Listing();
      var i := 0;
      while i < |plan|
        invariant 0 <= i <= |plan| && Distinct()
        invariant View() == v0 && Listing() == LinkAll(l0, News(plan)[..i])
      {
        assert News(plan)[..i + 1][..i] == News(plan)[..i];
        assert ParentNode(plan[i].newKey) <= nodes.Values;
        LinkChild(plan[i].newKey);
        i := i + 1;
      }
      assert News(plan)[..i] == News(plan);
    }

    ghost function Values(plan: seq<Move>): seq<Entry>
      reads set m | m in plan :: m.node
    {
      seq(|plan|, i requires 0 <= i < |plan| reads (set m | m in plan :: m.node) => plan[i].node.Value())
    }

    ghost function ChildrenOf(plan: seq<Move>): seq<map<string, string>>
      reads set m | m in plan :: m.node
    {
      seq(|plan|, i requires 0 <= i < |plan| reads (set m | m in plan :: m.node) => plan[i].node.children)
    }

    /** Detaches the planned nodes, empties their children maps, inserts them under their new
        keys and links those; `again` is the plan in the order of insertion. */
    method Rehang(plan: seq<Move>, again: seq<Move>, before: string, after: string)
      requires Distinct() && LinkedBut(nodes.Keys, Listing(), after) && before in nodes
      requires Holds(plan, nodes, before, after) && LongestFirst(Olds(plan))
      requires Holds(again, nodes, before, after) && multiset(again) == multiset(plan)
      modifies this`nodes, nodes.Values`children
      ensures Distinct() && nodes == InsertAll(old(nodes) - Members(Olds(again)), News(again), NodesOf(again))
      ensures View() == InsertAll(old(View()) - Members(Olds(again)), News(again), old(Values(again)))
      ensures before != "/" ==> Listing() == Relinked(old(Listing()), Olds(plan), News(again))
    {
      hide AbsPath, ParentOf, BaseOf, LinkedBut, LongestFirst, Listing, View, Plan, InsertAll, Members;
      ghost var n0, l0, vs := nodes, Listing(), Values(again);
      PlanFacts(again, n0, before, after);
      PlannedNodes(again, before, after);
      PlanMembers(plan, n0.Keys, before, after);
      PlanMembers(again, n0.Keys, before, after);
      Detach(plan, before, after);
      forall k | k in nodes ensures forall i :: 0 <= i < |again| ==> nodes[k] != again[i].node { DetachedApart(again, n0, before, after, k); }
      SameValues(again, vs);
      if before != "/" { EmptyToo(plan, again); }
      Reinsert(again, n0.Values);
    }

    lemma EmptyToo(plan: seq<Move>, again: seq<Move>)
      requires multiset(again) == multiset(plan) && forall i :: 0 <= i < |plan| ==> plan[i].node.children == map[]
      ensures forall i :: 0 <= i < |again| ==> again[i].node.children == map[]
    {
      forall i | 0 <= i < |again| ensures again[i].node.children == map[] {
        assert again[i] in multiset(plan);
      }
    }

    /** Empties the detached nodes, inserts them under their new keys and links those. */
    method Reinsert(plan: seq<Move>, ghost all: set<Node>)
      requires Distinct() && NoRepeats(News(plan)) && nodes.Values <= all && forall i :: 0 <= i < |plan| ==> plan[i].node in all
      requires forall i :: 0 <= i < |plan| ==> plan[i].node !in nodes.Values
      requires forall i, j :: 0 <= i < j < |plan| ==> plan[i].node != plan[j].node
      modifies this`nodes, all`children
      ensures Distinct() && nodes == InsertAll(old(nodes), News(plan), NodesOf(plan))
      ensures View() == InsertAll(old(View()), News(plan), old(Values(plan)))
      ensures old(forall i :: 0 <= i < |plan| ==> plan[i].node.children == map[]) ==>
                Listing() == LinkAll(InsertAll(old(Listing()), News(plan), Blank(|News(plan)|)), News(plan))
    {
      hide Listing, View, InsertAll, NoRepeats, LinkAll;
      ghost var n1, vs := nodes, Values(plan);
      ClearAll(plan);
      SameValues(plan, vs);
      assert old(forall i :: 0 <= i < |plan| ==> plan[i].node.children == map[]) ==> ChildrenOf(plan) == Blank(|News(plan)|);
      Attach(plan);
      InsertAllEntries(n1, News(plan), NodesOf(plan));
      forall n | n in nodes.Values ensures n in all { InsertedValue(n1, News(plan), NodesOf(plan), n); }
      LinkEach(plan);
    }

    lemma SameValues(plan: seq<Move>, vs: seq<Entry>)
      requires |vs| == |plan| && forall i :: 0 <= i < |plan| ==> vs[i] == plan[i].node.Value()
      ensures Values(plan) == vs
    {
    }

    /** Rekeys `before` and everything below it; the nodes themselves are kept.  Something may still
        lie below `after`: the node there has been removed, but perhaps not what it listed. */
    method RekeyTree(before: string, after: string)
      requires Distinct() && LinkedBut(nodes.Keys, Listing(), after) && before in nodes && ParentOf(after) in nodes
      modifies this`nodes, nodes.Values`children
      ensures nodes == MoveTree(old(nodes), before, after) && View() == MoveTree(old(View()), before, after)
      ensures Valid() <==> before != "/" && !Under(after, before) && Covered(old(nodes.Keys), before, after)
    {
      hide AbsPath, ParentOf, BaseOf, Linked, LinkedBut, LongestFirst, Covered, Plan, MoveTree, InsertAll, View, Listing, Distinct, Relinked;
      ghost var n0, v0, l0 := nodes, View(), Listing();
      ViewKeys();
      var plan := BuildPlan(before, after);
      var again := Sort(NewShorter, plan);
      Resorted(NewShorter, plan, before, after);
      PlanMembers(plan, n0.Keys, before, after);
      ghost var olds, news, vs := Olds(again), News(again), Values(again);
      PlanValues(again, before, after);
      Rehang(plan, again, before, after);
      PlanMoves(n0, before, after, olds, news, NodesOf(again));
      PlanMoves(v0, before, after, olds, news, vs);
      MoveKeys(n0, before, after);
      ViewKeys();
      RekeyLinked(n0.Keys, l0, before, after, Olds(plan), olds, news, Listing());
    }

    lemma PlanValues(plan: seq<Move>, before: string, after: string)
      requires Holds(plan, nodes, before, after)
      ensures |Values(plan)| == |plan| && forall i :: 0 <= i < |plan| ==> Olds(plan)[i] in View() && Values(plan)[i] == View()[Olds(plan)[i]]
    {
      hide Plan;
    }

    lemma PlannedNodes(plan: seq<Move>, before: string, after: string)
      requires Distinct() && Holds(plan, nodes, before, after)
      ensures forall i, j :: 0 <= i < j < |plan| ==> plan[i].node != plan[j].node
      ensures forall i :: 0 <= i < |plan| ==> plan[i].node in nodes.Values
    {
      forall i, j | 0 <= i < j < |plan| ensures plan[i].node != plan[j].node {
        assert Olds(plan)[i] != Olds(plan)[j];
      }
    }

    /** Makes the parent of the new path. */
    method MakeParent(after: string, ghost before: string)
      requires Distinct() && LinkedBut(nodes.Keys, Listing(), after) && (Valid() || ParentOf(after) in nodes)
      modifies this`nodes, nodes.Values`children
      ensures Distinct() && LinkedBut(nodes.Keys, Listing(), after) && ParentOf(after) in nodes
      ensures View() == WithDir(old(View()), ParentOf(after))
      ensures Covered(nodes.Keys, before, after) <==> Covered(old(nodes.Keys), before, after)
      ensures forall k :: k in old(nodes) ==> k in nodes && nodes[k] == old(nodes)[k]
      ensures forall n :: n in nodes.Values ==> n in old(nodes.Values) || fresh(n)
    {
      hide AbsPath, ParentOf, BaseOf, Linked, LinkedBut, Covered, WithDir, View, Listing;
      ghost var n0, v0, l0 := nodes, View(), Listing();
      ViewKeys();
      AfterPath(after, v0, l0);
      var parent := FindParent(after);
      PutDir(parent);
      ViewKeys();
      if parent !in n0 { StillBut(n0.Keys, l0, nodes.Keys, Listing(), before, after); }
    }

    /** Makes the parent and moves the subtree there. */
    method MoveInto(before: string, after: string)
      requires Distinct() && LinkedBut(nodes.Keys, Listing(), after) && before in nodes && (Valid() || ParentOf(after) in nodes)
      modifies this`nodes, nodes.Values`children
      ensures View() == MoveTree(WithDir(old(View()), ParentOf(after)), before, after)
      ensures Valid() <==> before != "/" && !Under(after, before) && Covered(old(nodes.Keys), before, after)
      ensures forall k :: k in old(nodes) && Under(k, before) ==>
                NewKey(k, before, after) in nodes && nodes[NewKey(k, before, after)] == old(nodes)[k]
    {
      hide AbsPath, ParentOf, BaseOf, Linked, LinkedBut, Covered, MoveTree, WithDir, Under, NewKey, View, Listing, Distinct;
      MakeParent(after, before);
      MoveKeys(nodes, before, after);
      RekeyTree(before, after);
    }

    /** Renaming is prefix substitution on the moved subtree, after an existing file at the new path
        is replaced and missing parents are made.  The listings stay exact except in three cases that
        it does not refuse: it moves the root, it moves a directory into itself, or the file it
        replaces had children that the move neither takes along nor overwrites. */
    method Rename(oldpath: string, newpath: string) returns (r: Result<(), FsError>)
      requires Valid()
      modifies this`nodes, nodes.Values`children
      ensures r == RenameResult(old(View()), oldpath, newpath)
      ensures r.Err? ==> View() == old(View()) && Valid()
      ensures r.Ok? ==>
                var before, after := AbsIn("/", oldpath).value, AbsIn("/", newpath).value;
                && View() == Renamed(old(View()), before, after)
                && (Valid() <==> before == after || (before != "/" && !Under(after, before) && Covered(old(nodes.Keys) - {after}, before, after)))
                && (before != after ==> forall k :: k in old(nodes) && k != after && Under(k, before) ==>
                     NewKey(k, before, after) in nodes && nodes[NewKey(k, before, after)] == old(nodes)[k])
    {
      hide AbsPath, ParentOf, BaseOf, Linked, Valid, LinkedBut, Covered, AbsIn, MoveTree, WithDir, Under, NewKey, View, Listing, Distinct;
      ViewKeys();
      var before := ToAbs("/", oldpath);
      if before.Err? { return Err(before.error); }
      var after := ToAbs("/", newpath);
      if after.Err? { return Err(after.error); }
      if before.value == after.value { return Ok(()); }
      if before.value !in nodes { return Err(NotExist); }
      AbsInClean("/", newpath);
      if after.value in nodes {
        ViewAt(after.value);
        if nodes[after.value].kind.Dir? { return Err(IsDir); }
      }
      r := Replace(before.value, after.value);
    }

    /** Removes the file at the new path, if there is one, and moves the subtree there. */
    method Replace(before: string, after: string) returns (r: Result<(), FsError>)
      requires Valid() && AbsPath(after) && before in nodes && before != after && (after in nodes ==> !nodes[after].kind.Dir?)
      modifies this`nodes, nodes.Values`children
      ensures r == if after in old(nodes) && after == "/" then Err(InvalidMode) else Ok(())
      ensures r.Err? ==> View() == old(View()) && Valid()
      ensures r.Ok? ==> View() == MoveTree(WithDir(old(View()) - {after}, ParentOf(after)), before, after)
      ensures r.Ok? ==> (Valid() <==> before != "/" && !Under(after, before) && Covered(old(nodes.Keys) - {after}, before, after))
      ensures r.Ok? ==> forall k :: k in old(nodes) && k != after && Under(k, before) ==>
                NewKey(k, before, after) in nodes && nodes[NewKey(k, before, after)] == old(nodes)[k]
    {
      hide AbsPath, ParentOf, BaseOf, Linked, LinkedBut, Covered, MoveTree, WithDir, Under, NewKey, View, Listing, Distinct;
      r := ClearFile(after);
      if r.Err? { return; }
      assert nodes.Keys == old(nodes.Keys) - {after};
      MoveInto(before, after);
    }

    /** Removes the file that a rename replaces, if there is one. */
    method ClearFile(abs: string) returns (r: Result<(), FsError>)
      requires Valid() && AbsPath(abs) && (abs in nodes ==> !nodes[abs].kind.Dir?)
      modifies this`nodes, nodes.Values`children
      ensures r == if abs in old(nodes) && abs == "/" then Err(InvalidMode) else Ok(())
      ensures r.Err? ==> View() == old(View()) && Valid()
      ensures r.Ok? ==> nodes == old(nodes) - {abs} && View() == old(View()) - {abs} && nodes.Values <= old(nodes.Values)
      ensures r.Ok? ==> Distinct() && LinkedBut(nodes.Keys, Listing(), abs) && (Valid() || ParentOf(abs) in nodes)
    {
      hide AbsPath, ParentOf, BaseOf, Linked, LinkedBut, View, Listing, Distinct;
      ViewKeys();
      if abs !in nodes {
        IsBut(nodes.Keys, Listing(), abs);
        return Ok(());
      }
      KeyPath(nodes.Keys, Listing(), abs);
      r := RemoveAbs(abs);
      if r.Ok? { KeptParent(nodes.Keys, abs); }
    }

    // ---- Files, links and metadata --------------------------------------------------------------

    /** Opens a file, creating it and its missing ancestors if asked to. */
    method OpenFile(path: string, flags: Flags, perm: nat) returns (r: Result<Node, FsError>)
      requires Valid()
      modifies this`nodes, nodes.Values`children, nodes.Values`data
      ensures Valid() && View() == Opened(old(View()), path, flags, perm)
      ensures match r case Err(e) => OpenError(old(View()), path, flags) == Some(e) case Ok(n) => OpenError(old(View()), path, flags) == None && IsAt(n, path)
      ensures forall k :: k in old(nodes) ==> k in nodes && nodes[k] == old(nodes)[k]
      ensures forall k :: k in nodes && k !in old(nodes) ==> fresh(nodes[k])
    {
      hide Linked, AbsPath, ParentOf, WithDir, View, Listing, Distinct, AbsIn, Node.Value;
      var abs := ToAbs("/", path);
      if abs.Err? { return Err(abs.error); }
      AbsInClean("/", path);
      ViewKeys();
      if abs.value !in nodes {
        if !flags.create { return Err(NotExist); }
        NewFile(abs.value, File, FILE_BITS + perm % 512, "");
        r := Ok(nodes[abs.value]);
        return;
      }
      if flags.excl { return Err(Exist); }
      ViewAt(abs.value);
      if nodes[abs.value].kind.Dir? { return Err(IsDir); }
      if flags.trunc { SetData(abs.value, ""); }
      r := Ok(nodes[abs.value]);
    }

    /** Opens an existing file for reading, which changes nothing. */
    method Open(path: string) returns (r: Result<Node, FsError>)
      requires Valid()
      ensures match r
              case Err(e) => OpenError(View(), path, Flags(false, false, false)) == Some(e)
              case Ok(n) => OpenError(View(), path, Flags(false, false, false)) == None && IsAt(n, path)
    {
      hide AbsIn;
      var abs := ToAbs("/", path);
      if abs.Err? { return Err(abs.error); }
      if abs.value !in nodes { return Err(NotExist); }
      if nodes[abs.value].kind.Dir? { return Err(IsDir); }
      r := Ok(nodes[abs.value]);
    }

    ghost predicate IsAt(n: Node, path: string)
      reads this
    {
      match AbsIn("/", path) case Err(_) => false case Ok(abs) => abs in nodes && nodes[abs] == n
    }

    lemma ViewAt(k: string)
      requires k in nodes
      ensures k in View() && View()[k] == nodes[k].Value() && View()[k].kind == nodes[k].kind && View()[k].mode == nodes[k].mode && View()[k].data == nodes[k].data
    {
    }

    /** A new leaf under a parent that is made if missing. */
    method NewFile(abs: string, kind: Kind, mode: nat, data: string)
      requires Valid() && AbsPath(abs) && abs !in nodes
      modifies this`nodes, nodes.Values`children
      ensures Valid() && View() == WithDir(old(View()), ParentOf(abs))[abs := NewEntry(kind, mode, data)]
      ensures abs in nodes && forall k :: k in old(nodes) ==> k in nodes && nodes[k] == old(nodes)[k]
      ensures forall k :: k in nodes && k !in old(nodes) ==> fresh(nodes[k])
    {
      hide Linked, AbsPath, ParentOf, WithDir, View, Listing, Distinct, Node.Value;
      PutParent(abs);
      assert forall n :: n in nodes.Values ==> n in old(nodes.Values) || fresh(n);
      MakeNode(abs, kind, mode, data);
    }

    method SetMode(k: string, mode: nat)
      requires Distinct() && k in nodes
      modifies {nodes[k]}`mode
      ensures Listing() == old(Listing()) && View() == old(View())[k := old(View())[k].(mode := mode)]
    {
      nodes[k].mode := mode;
    }

    method SetOwner(k: string, uid: int, gid: int)
      requires Distinct() && k in nodes
      modifies {nodes[k]}`uid, {nodes[k]}`gid
      ensures Listing() == old(Listing()) && View() == old(View())[k := old(View())[k].(uid := uid, gid := gid)]
    {
      nodes[k].uid := uid;
      nodes[k].gid := gid;
    }

    method SetTimes(k: string, atime: int, mtime: int)
      requires Distinct() && k in nodes
      modifies {nodes[k]}`atime, {nodes[k]}`mtime
      ensures Listing() == old(Listing()) && View() == old(View())[k := old(View())[k].(atime := atime, mtime := mtime)]
    {
      nodes[k].atime := atime;
      nodes[k].mtime := mtime;
    }

    method SetData(k: string, data: string)
      requires Distinct() && k in nodes
      modifies {nodes[k]}`data
      ensures Listing() == old(Listing()) && View() == old(View())[k := old(View())[k].(data := data)]
    {
      nodes[k].data := data;
    }

    /** Writes at any position; bytes between the old end and the position are left undefined. */
    method WriteAt(ghost k: string, node: Node, pos: nat, data: string) returns (n: nat)
      requires Distinct() && k in nodes && nodes[k] == node
      modifies node`data
      ensures n == |data| && Listing() == old(Listing())
      ensures View() == old(View())[k := old(View())[k].(data := node.data)]
      ensures Overwritten(old(node.data), pos, data, node.data)
    {
      hide Overwritten;
      var bytes := Overwrite(node.data, pos, data);
      node.data := bytes;
      n := |data|;
    }

    method MkdirAll(path: string) returns (r: Result<(), FsError>)
      requires Valid()
      modifies this`nodes, nodes.Values`children
      ensures Valid()
      ensures forall k :: k in old(nodes) ==> k in nodes && nodes[k] == old(nodes)[k]
      ensures forall k :: k in nodes && k !in old(nodes) ==> fresh(nodes[k])
      ensures match AbsIn("/", path)
              case Err(e) => r == Err(e) && View() == old(View())
              case Ok(abs) => r == Ok(()) && View() == WithDir(old(View()), abs)
    {
      hide Linked, AbsPath, WithDir, View, Listing, Distinct, AbsIn;
      var abs := ToAbs("/", path);
      if abs.Err? { return Err(abs.error); }
      AbsInClean("/", path);
      PutDir(abs.value);
      r := Ok(());
    }

    method Symlink(target: string, path: string) returns (r: Result<(), FsError>)
      requires Valid()
      modifies this`nodes, nodes.Values`children
      ensures Valid()
      ensures forall k :: k in old(nodes) ==> k in nodes && nodes[k] == old(nodes)[k]
      ensures forall k :: k in nodes && k !in old(nodes) ==> fresh(nodes[k])
      ensures match AbsIn("/", path)
              case Err(e) => r == Err(e) && View() == old(View())
              case Ok(abs) =>
                if abs in old(View()) then r == Err(Exist) && View() == old(View())
                else r == Ok(()) && View() == WithDir(old(View()), ParentOf(abs))[abs := NewEntry(MemTree.Symlink, SYMLINK_MODE, target)]
    {
      hide Linked, AbsPath, WithDir, View, Listing, Distinct, AbsIn;
      var abs := ToAbs("/", path);
      if abs.Err? { return Err(abs.error); }
      AbsInClean("/", path);
      ViewKeys();
      if abs.value in nodes { return Err(Exist); }
      NewFile(abs.value, MemTree.Symlink, SYMLINK_MODE, target);
      r := Ok(());
    }

    method Readlink(path: string) returns (r: Result<string, FsError>)
      requires Valid()
      ensures match AbsIn("/", path)
              case Err(e) => r == Err(e)
              case Ok(abs) =>
                if abs !in View() then r == Err(NotExist)
                else if !View()[abs].kind.Symlink? then r == Err(NotLink) else r == Ok(View()[abs].data)
    {
      var abs := ToAbs("/", path);
      if abs.Err? { return Err(abs.error); }
      if abs.value !in nodes { return Err(NotExist); }
      if nodes[abs.value].kind != MemTree.Symlink { return Err(NotLink); }
      r := Ok(nodes[abs.value].data);
    }

    /** What `lstat` reports: the entry, of which the size is the length of the data. */
    method Stat(path: string) returns (r: Result<Entry, FsError>)
      requires Valid()
      ensures match AbsIn("/", path)
              case Err(e) => r == Err(e)
              case Ok(abs) => if abs !in View() then r == Err(NotExist) else r == Ok(View()[abs])
    {
      var abs := ToAbs("/", path);
      if abs.Err? { return Err(abs.error); }
      if abs.value !in nodes { return Err(NotExist); }
      var n := nodes[abs.value];
      r := Ok(Entry(n.kind, n.mode, n.data, n.uid, n.gid, n.atime, n.mtime));
    }

    /** Replaces the permission bits and keeps the kind bits. */
    method Chmod(path: string, mode: nat) returns (r: Result<(), FsError>)
      requires Valid()
      modifies nodes.Values`mode
      ensures Valid()
      ensures match AbsIn("/", path)
              case Err(e) => r == Err(e) && View() == old(View())
              case Ok(abs) =>
                if abs !in old(View()) then r == Err(NotExist) && View() == old(View())
                else r == Ok(()) && View() == old(View())[abs := old(View())[abs].(mode := NewMode(old(View())[abs].mode, mode))]
    {
      hide AbsIn, View, Listing, Distinct, Linked;
      var abs := ToAbs("/", path);
      if abs.Err? { return Err(abs.error); }
      ViewKeys();
      if abs.value !in nodes { return Err(NotExist); }
      ViewAt(abs.value);
      SetMode(abs.value, NewMode(nodes[abs.value].mode, mode));
      r := Ok(());
    }

    method Lchown(path: string, uid: int, gid: int) returns (r: Result<(), FsError>)
      requires Valid()
      modifies nodes.Values`uid, nodes.Values`gid
      ensures Valid()
      ensures match AbsIn("/", path)
              case Err(e) => r == Err(e) && View() == old(View())
              case Ok(abs) =>
                if abs !in old(View()) then r == Err(NotExist) && View() == old(View())
                else r == Ok(()) && View() == old(View())[abs := old(View())[abs].(uid := uid, gid := gid)]
    {
      hide AbsIn, View, Listing, Distinct, Linked;
      var abs := ToAbs("/", path);
      if abs.Err? { return Err(abs.error); }
      ViewKeys();
      if abs.value !in nodes { return Err(NotExist); }
      SetOwner(abs.value, uid, gid);
      r := Ok(());
    }

    method Chtimes(path: string, atime: int, mtime: int) returns (r: Result<(), FsError>)
      requires Valid()
      modifies nodes.Values`atime, nodes.Values`mtime
      ensures Valid()
      ensures match AbsIn("/", path)
              case Err(e) => r == Err(e) && View() == old(View())
              case Ok(abs) =>
                if abs !in old(View()) then r == Err(NotExist) && View() == old(View())
                else r == Ok(()) && View() == old(View())[abs := old(View())[abs].(atime := atime, mtime := mtime)]
    {
      hide AbsIn, View, Listing, Distinct, Linked;
      var abs := ToAbs("/", path);
      if abs.Err? { return Err(abs.error); }
      ViewKeys();
      if abs.value !in nodes { return Err(NotExist); }
      SetTimes(abs.value, atime, mtime);
      r := Ok(());
    }

    /** The names in a directory, in byte order: exactly its children. */
    method ReadDir(path: string) returns (r: Result<seq<DirEntry>, FsError>)
      requires Valid()
      ensures match AbsIn("/", path)
              case Err(e) => r == Err(e)
              case Ok(abs) =>
                if abs !in View() then r == Err(NotExist)
                else if !View()[abs].kind.Dir? then r == Err(NotDir)
                else r.Ok? && ListsDir(View(), abs, r.value)
    {
      hide AbsIn;
      var abs := ToAbs("/", path);
      if abs.Err? { return Err(abs.error); }
      if abs.value !in nodes { return Err(NotExist); }
      if nodes[abs.value].kind != Dir { return Err(NotDir); }
      var children := nodes[abs.value].children;
      assert children == Listing()[abs.value];
      var names := SortedMembers(children.Keys);
      var list: seq<DirEntry> := [];
      var i := 0;
      while i < |names|
        invariant 0 <= i <= |names| && |list| == i
        invariant forall j :: 0 <= j < i ==> list[j].name == names[j] && names[j] in children && children[names[j]] in nodes
                                             && list[j] == EntryOf(names[j], nodes[children[names[j]]].Value())
      {
        assert names[i] in children.Keys;
        var child := nodes[children[names[i]]];
        list := list + [DirEntry(names[i], if child.kind == File then |child.data| else 0, child.mode)];
        i := i + 1;
      }
      DirListed(View(), nodes.Keys, Listing(), abs.value, names, list);
      r := Ok(list);
    }
  }

  datatype Flags = Flags(create: bool, excl: bool, trunc: bool)

  datatype DirEntry = DirEntry(name: string, size: nat, mode: nat)

  ghost function EntryOf(name: string, e: Entry): DirEntry { DirEntry(name, if e.kind.File? then |e.data| else 0, e.mode) }

  /** Sorted names of exactly the children, each with its size and mode. */
  ghost predicate ListsDir(t: Tree, dir: string, list: seq<DirEntry>) {
    && (forall i, j :: 0 <= i < j < |list| ==> Less(list[i].name, list[j].name))
    && (forall i :: 0 <= i < |list| ==> IsName(list[i].name) && ChildPath(dir, list[i].name) in t && list[i] == EntryOf(list[i].name, t[ChildPath(dir, list[i].name)]))
    && (forall b :: IsName(b) && ChildPath(dir, b) in t ==> exists i :: 0 <= i < |list| && list[i].name == b)
  }

  lemma DirListed(t: Tree, keys: set<string>, kids: Kids, dir: string, names: seq<string>, list: seq<DirEntry>)
    requires t.Keys == keys && Linked(keys, kids) && dir in keys && Increasing(names) && (forall n :: n in names <==> n in kids[dir])
    requires |list| == |names|
    requires forall j | 0 <= j < |list| :: list[j].name == names[j] && names[j] in kids[dir]
                                           && kids[dir][names[j]] in t && list[j] == EntryOf(names[j], t[kids[dir][names[j]]])
    ensures ListsDir(t, dir, list)
  {
  }

  method Overwrite(was: string, pos: nat, data: string) returns (r: string)
    ensures Overwritten(was, pos, data, r)
  {
    var end := pos + |data|;
    r := was;
    if |r| < end {
      var gap := new char[end - |r|];
      r := r + gap[..];
    }
    r := r[..pos] + data + r[end..];
  }

  /** `data` stands at `pos`, and every other byte there was is kept. */
  ghost predicate Overwritten(was: string, pos: nat, data: string, r: string) {
    && |r| == (if |was| < pos + |data| then pos + |data| else |was|)
    && r[pos..pos + |data|] == data
    && forall i :: 0 <= i < |was| && !(pos <= i < pos + |data|) ==> r[i] == was[i]
  }

  /** Kind bits above, permission bits below. */
  function NewMode(was: nat, mode: nat): nat { was / 0x1000 % 0x10 * 0x1000 + mode % 0x1000 }

  lemma NewModeLaw(was: nat, mode: nat)
    ensures NewMode(was, mode) % 0x1000 == mode % 0x1000 && NewMode(was, mode) / 0x1000 == was / 0x1000 % 16
    ensures was < 0x1_0000 && was % 0x1000 == mode ==> NewMode(was, mode) == was
  {
    var kind, bits := was / 0x1000 % 16, mode % 0x1000;
    assert (kind * 0x1000 + bits) / 0x1000 == kind && (kind * 0x1000 + bits) % 0x1000 == bits;
  }

  function OpenError(t: Tree, path: string, flags: Flags): Option<FsError> {
    match AbsIn("/", path)
    case Err(e) => Some(e)
    case Ok(abs) =>
      if abs !in t then (if flags.create then None else Some(NotExist))
      else if flags.excl then Some(Exist)
      else if t[abs].kind.Dir? then Some(IsDir)
      else None
  }

  function Opened(t: Tree, path: string, flags: Flags, perm: nat): Tree {
    if OpenError(t, path, flags).Some? then t
    else
      var abs := AbsIn("/", path).value;
      if abs !in t then WithDir(t, ParentOf(abs))[abs := NewEntry(File, FILE_BITS + perm % 512, "")]
      else if flags.trunc then t[abs := t[abs].(data := "")]
      else t
  }

  /** Opening succeeds exactly on an existing file unless `excl` is given, and on a missing one if
      `create` is. It touches no other entry, and empties only what it truncates. What was opened can
      be opened again, but no longer exclusively. */
  lemma OpenLaw(t: Tree, path: string, flags: Flags, perm: nat)
    requires AbsIn("/", path).Ok?
    ensures var abs, u := AbsIn("/", path).value, Opened(t, path, flags, perm);
            && (OpenError(t, path, flags).None? <==> if abs in t then !flags.excl && !t[abs].kind.Dir? else flags.create)
            && (forall k :: k in t && k != abs ==> k in u && u[k] == t[k])
            && (abs !in t && abs in u ==> u[abs].kind.File? && u[abs].mode / 512 == 64 && u[abs].mode % 512 == perm % 512)
            && (abs in t ==> u[abs] == t[abs] || (flags.trunc && u[abs] == t[abs].(data := "")))
            && (OpenError(t, path, flags).None? ==>
                  && abs in u && !u[abs].kind.Dir? && (abs !in t || flags.trunc ==> u[abs].data == "")
                  && OpenError(u, path, Flags(flags.create, false, flags.trunc)) == None
                  && OpenError(u, path, Flags(flags.create, true, flags.trunc)) == Some(Exist))
  {
    hide AbsIn, WithDir;
  }

  function Olds(plan: seq<Move>): seq<string> { seq(|plan|, i requires 0 <= i < |plan| => plan[i].oldKey) }

  function NodesOf(plan: seq<Move>): seq<Node> { seq(|plan|, i requires 0 <= i < |plan| => plan[i].node) }

  function News(plan: seq<Move>): seq<string> { seq(|plan|, i requires 0 <= i < |plan| => plan[i].newKey) }

  lemma PlanFacts(plan: seq<Move>, nodes0: map<string, Node>, before: string, after: string)
    requires Plan(nodes0.Keys, before, after, Olds(plan), News(plan))
    ensures NoRepeats(Olds(plan)) && NoRepeats(News(plan))
  {
    PlanNews(nodes0.Keys, before, after, Olds(plan), News(plan));
  }

  lemma RekeyLinked(keys: set<string>, kids: Kids, before: string, after: string, out: seq<string>, olds: seq<string>, news: seq<string>, kids': Kids)
    requires LinkedBut(keys, kids, after) && Plan(keys, before, after, olds, news) && before in keys && ParentOf(after) in keys
    requires Members(out) == Moved(keys, before) && (before != "/" ==> kids' == Relinked(kids, out, news))
    requires kids'.Keys == keys - Moved(keys, before) + NewKeys(keys, before, after)
    ensures Linked(kids'.Keys, kids') <==> before != "/" && !Under(after, before) && Covered(keys, before, after)
  {
    hide Linked, LinkedBut, Covered, Plan, AbsPath, ParentOf, Relinked, Under, Moved, NewKeys, KidsMoved;
    if before == "/" || Under(after, before) {
      MoveBreaks(keys, kids, before, after, kids');
    } else {
      MovedSet(keys, before, after, olds, news);
      PlanKids(keys, kids, before, after, out, olds, news);
      MoveLinked(keys, kids, before, after, kids');
    }
  }

  predicate OldLonger(a: Move, b: Move) { |a.oldKey| >= |b.oldKey| }

  predicate NewShorter(a: Move, b: Move) { |a.newKey| <= |b.newKey| }

  lemma {:induction false} SortLongest(plan: seq<Move>)
    ensures LongestFirst(Olds(Sort(OldLonger, plan)))
  {
    if plan != [] {
      SortLongest(plan[1..]);
      InsertLongest(plan[0], Sort(OldLonger, plan[1..]));
    }
  }

  lemma {:induction false} InsertLongest(m: Move, plan: seq<Move>)
    requires LongestFirst(Olds(plan))
    ensures LongestFirst(Olds(Insert(OldLonger, m, plan)))
  {
    if plan == [] {
    } else if OldLonger(m, plan[0]) {
      assert Insert(OldLonger, m, plan) == [m] + plan;
      LongestCons(m, plan);
    } else {
      var rest := plan[1..];
      assert Olds(rest) == Olds(plan)[1..];
      InsertLongest(m, rest);
      InsertKeeps(OldLonger, m, rest);
      var t := Insert(OldLonger, m, rest);
      forall x | x in t ensures |plan[0].oldKey| >= |x.oldKey| {
        assert x in multiset(t);
        if x != m {
          assert x in rest;
          var j: nat :| j < |rest| && rest[j] == x;
          assert Olds(rest)[j] == Olds(plan)[j + 1] == x.oldKey && Olds(plan)[0] == plan[0].oldKey;
        }
      }
      LongestConsAll(plan[0], t);
      assert Insert(OldLonger, m, plan) == [plan[0]] + t;
    }
  }

  lemma LongestCons(m: Move, plan: seq<Move>)
    requires LongestFirst(Olds(plan)) && plan != [] && |m.oldKey| >= |plan[0].oldKey|
    ensures LongestFirst(Olds([m] + plan))
  {
    forall x | x in plan ensures |m.oldKey| >= |x.oldKey| {
      var j: nat :| j < |plan| && plan[j] == x;
      assert Olds(plan)[0] == plan[0].oldKey && Olds(plan)[j] == x.oldKey;
    }
    LongestConsAll(m, plan);
  }

  lemma LongestConsAll(m: Move, plan: seq<Move>)
    requires LongestFirst(Olds(plan)) && forall x :: x in plan ==> |m.oldKey| >= |x.oldKey|
    ensures LongestFirst(Olds([m] + plan))
  {
    assert Olds([m] + plan) == [m.oldKey] + Olds(plan);
    forall j | 0 <= j < |plan| ensures |m.oldKey| >= |Olds(plan)[j]| { assert plan[j] in plan; }
  }

  lemma PermutedPlan(plan: seq<Move>, r: seq<Move>, keys: set<string>, before: string, after: string)
    requires Plan(keys, before, after, Olds(plan), News(plan))
    requires multiset(r) == multiset(plan) && forall m :: m in r <==> m in plan
    ensures Plan(keys, before, after, Olds(r), News(r))
  {
    hide Members, Moved;
    forall i, j | 0 <= i < j < |r| ensures Olds(r)[i] != Olds(r)[j] {
      if r[i].oldKey == r[j].oldKey {
        assert r[i] in plan && r[j] in plan;
        var a: nat :| a < |plan| && plan[a] == r[i];
        var b: nat :| b < |plan| && plan[b] == r[j];
        assert Olds(plan)[a] == Olds(plan)[b];
        Twice(r, i, j);
        forall x: nat, y: nat | x < y < |plan| ensures plan[x] != plan[y] { assert Olds(plan)[x] != Olds(plan)[y]; }
        DistinctOnce(plan, r[i]);
      }
    }
    forall i | 0 <= i < |r| ensures |before| <= |Olds(r)[i]| && News(r)[i] == NewKey(Olds(r)[i], before, after) {
      assert r[i] in plan;
      var a: nat :| a < |plan| && plan[a] == r[i];
      assert Olds(plan)[a] == r[i].oldKey && News(plan)[a] == r[i].newKey;
    }
    SameOlds(plan, r);
  }

  lemma SameOlds(plan: seq<Move>, r: seq<Move>)
    requires forall m :: m in r <==> m in plan
    ensures Members(Olds(r)) == Members(Olds(plan))
  {
    forall k ensures k in Olds(r) <==> k in Olds(plan) {
      if k in Olds(r) {
        var i :| 0 <= i < |r| && Olds(r)[i] == k;
        assert r[i] in plan;
        var j :| 0 <= j < |plan| && plan[j] == r[i];
        assert Olds(plan)[j] == k;
      }
      if k in Olds(plan) {
        var i :| 0 <= i < |plan| && Olds(plan)[i] == k;
        assert plan[i] in r;
        var j :| 0 <= j < |r| && r[j] == plan[i];
        assert Olds(r)[j] == k;
      }
    }
  }

  lemma PlanMembers(plan: seq<Move>, keys: set<string>, before: string, after: string)
    requires Plan(keys, before, after, Olds(plan), News(plan))
    ensures Members(Olds(plan)) == Moved(keys, before) && NoRepeats(Olds(plan))
  {
  }

  /** Exact listings with no key at `p`. */
  lemma IsBut(keys: set<string>, kids: Kids, p: string)
    requires Linked(keys, kids) && AbsPath(p) && p !in keys
    ensures LinkedBut(keys, kids, p)
  {
    hide AbsPath, ChildPath, IsName;
  }

  lemma KeptParent(keys: set<string>, p: string)
    requires ParentOf(p) in keys + {p} && AbsPath(p) && p != "/"
    ensures ParentOf(p) in keys
  {
    ParentChild(p);
  }

  /** Nothing lies below a path that is no key while the listings are exact. */
  lemma NothingLeft(keys: set<string>, kids: Kids, before: string, after: string)
    requires Linked(keys, kids) && AbsPath(after) && after !in keys
    ensures Covered(keys, before, after)
  {
    forall k | k in keys ensures !Under(k, after) { NothingBelow(keys, kids, after, k); }
  }

  /** Making the missing parents leaves it so. */
  lemma StillBut(keys: set<string>, kids: Kids, keys': set<string>, kids': Kids, before: string, after: string)
    requires Linked(keys, kids) && Linked(keys', kids') && AbsPath(after) && after !in keys && after !in keys'
    ensures LinkedBut(keys', kids', after) && Covered(keys, before, after) && Covered(keys', before, after)
  {
    hide Linked, AbsPath, Covered;
    IsBut(keys', kids', after);
    NothingLeft(keys, kids, before, after);
    NothingLeft(keys', kids', before, after);
  }

  lemma OnlyRoot()
    ensures Linked({"/"}, map["/" := map[]])
  {
  }

  lemma Grown(keys: set<string>, dir: string, name: string, keys': set<string>)
    requires AbsPath(dir) && IsName(name) && dir in keys && ChildPath(dir, name) !in keys && keys' == keys + {ChildPath(dir, name)}
    requires exists kids :: Linked(keys, kids)
    ensures exists kids :: Linked(keys', kids)
  {
    hide Linked;
    var kids :| Linked(keys, kids);
    ChildParent(dir, name);
    AddLinked(keys, kids, ChildPath(dir, name));
  }

  /** A file that gained a child, replaced by a rename: the child stays without a listing. */
  lemma RenameStrands()
    ensures exists kids :: Linked({"/", "/f", "/f/x", "/g"}, kids)
    ensures !Covered({"/", "/f", "/f/x", "/g"} - {"/f"}, "/g", "/f")
  {
    hide Linked, AbsPath;
    OnlyRoot();
    ChildParent("/", "f");
    assert ChildPath("/", "f") == "/f" && ChildPath("/f", "x") == "/f/x" && ChildPath("/", "g") == "/g";
    Grown({"/"}, "/", "f", {"/", "/f"});
    Grown({"/", "/f"}, "/f", "x", {"/", "/f", "/f/x"});
    Grown({"/", "/f", "/f/x"}, "/", "g", {"/", "/f", "/f/x", "/g"});
    assert "/f" <= "/f/x" && Under("/f/x", "/f") && !Under("/f/x", "/g") by { assert "/f/x"[1] != "/g"[1]; }
    forall k | k in {"/", "/f/x", "/g"} && Under(k, "/g") ensures NewKey(k, "/g", "/f") == "/f" {
      assert k == "/g";
    }
  }

  lemma InsertNone<V>(t: map<string, V>)
    ensures InsertAll(t, [], []) == t
  {
  }

  lemma InsertMore<V>(t: map<string, V>, ks: seq<string>, vs: seq<V>, i: nat)
    requires |ks| == |vs| && i < |ks|
    ensures InsertAll(t, ks[..i + 1], vs[..i + 1]) == InsertAll(t, ks[..i], vs[..i])[ks[i] := vs[i]]
  {
    assert ks[..i + 1][..i] == ks[..i] && vs[..i + 1][..i] == vs[..i];
  }

  lemma DetachNone(n: map<string, Node>, v: Tree, kids: Kids, olds: seq<string>)
    ensures n - Members(olds[..0]) == n && v - Members(olds[..0]) == v && DetachAll(kids, olds[..0]) == kids
  {
  }

  lemma DetachMore(n: map<string, Node>, v: Tree, kids: Kids, olds: seq<string>, i: nat)
    requires NoRepeats(olds) && i < |olds|
    ensures n - Members(olds[..i + 1]) == n - Members(olds[..i]) - {olds[i]}
    ensures v - Members(olds[..i + 1]) == v - Members(olds[..i]) - {olds[i]}
    ensures DetachAll(kids, olds[..i + 1]) == WithoutKid(DetachAll(kids, olds[..i]), olds[i]) - {olds[i]}
    ensures olds[i] in n ==> olds[i] in n - Members(olds[..i])
  {
    assert olds[..i + 1][..i] == olds[..i] && olds[..i + 1] == olds[..i] + [olds[i]];
    assert Members(olds[..i + 1]) == Members(olds[..i]) + {olds[i]};
  }

  lemma DetachedApart(plan: seq<Move>, nodes0: map<string, Node>, before: string, after: string, k: string)
    requires Plan(nodes0.Keys, before, after, Olds(plan), News(plan)) && k in nodes0 - Members(Olds(plan))
    requires forall a, b :: a in nodes0 && b in nodes0 && a != b ==> nodes0[a] != nodes0[b]
    requires forall i :: 0 <= i < |plan| ==> plan[i].oldKey in nodes0 && plan[i].node == nodes0[plan[i].oldKey]
    ensures forall i :: 0 <= i < |plan| ==> nodes0[k] != plan[i].node
  {
    forall i | 0 <= i < |plan| ensures plan[i].oldKey != k {
      assert Olds(plan)[i] in Members(Olds(plan));
    }
  }

  lemma InsertedValue<V>(t: map<string, V>, ks: seq<string>, vs: seq<V>, v: V)
    requires |ks| == |vs| && v in InsertAll(t, ks, vs).Values
    ensures v in t.Values || v in vs
    decreases |ks|
  {
  }

  function RenameResult(t: Tree, oldpath: string, newpath: string): Result<(), FsError> {
    var before, after := AbsIn("/", oldpath), AbsIn("/", newpath);
    if before.Err? then Err(before.error)
    else if after.Err? then Err(after.error)
    else if before.value == after.value then Ok(())
    else if before.value !in t then Err(NotExist)
    else if after.value in t && t[after.value].kind.Dir? then Err(IsDir)
    else if after.value in t && after.value == "/" then Err(InvalidMode)
    else Ok(())
  }

  function Renamed(t: Tree, before: string, after: string): Tree {
    if before == after then t else MoveTree(WithDir(t - {after}, ParentOf(after)), before, after)
  }

  /** Renaming succeeds exactly when both names are one, or the old one exists and the new one is no
      directory; everything below the old path, unless it is what gets replaced, is then below the new
      one as it was, nothing is left at the old one, and what lies at neither stays. */
  lemma RenameLaw(t: Tree, oldpath: string, newpath: string)
    requires AbsIn("/", oldpath).Ok? && AbsIn("/", newpath).Ok?
    ensures var before, after := AbsIn("/", oldpath).value, AbsIn("/", newpath).value;
            var r := Renamed(t, before, after);
            && (RenameResult(t, oldpath, newpath).Ok? <==> before == after || (before in t && !(after in t && (t[after].kind.Dir? || after == "/"))))
            && (before == after ==> r == t)
            && (before != after ==>
                  && (forall k :: k in t && Under(k, before) && k != after ==> NewKey(k, before, after) in r && r[NewKey(k, before, after)] == t[k])
                  && (forall k :: k in r && Under(k, before) ==> StartsAt(k, after))
                  && (forall k :: k in t && !Under(k, before) && !StartsAt(k, after) ==> k in r && r[k] == t[k]))
  {
    hide AbsIn, WithDir, Under, MoveTree;
    var before, after := AbsIn("/", oldpath).value, AbsIn("/", newpath).value;
    if before != after {
      var was := WithDir(t - {after}, ParentOf(after));
      MoveKeys(was, before, after);
      forall k | k in Renamed(t, before, after) && Under(k, before) ensures StartsAt(k, after) { MoveLeaves(was, before, after, k); }
      forall k | k in t && !Under(k, before) && !StartsAt(k, after) ensures k in Renamed(t, before, after) && Renamed(t, before, after)[k] == t[k] {
        assert k in was && was[k] == t[k];
        MoveStays(was, before, after, k);
      }
    }
  }

  /** The name begins with the new path. */
  predicate StartsAt(k: string, after: string) { after <= k }

  lemma MoveStays(t: Tree, before: string, after: string, k: string)
    requires k in t && !Under(k, before) && !StartsAt(k, after)
    ensures k in MoveTree(t, before, after) && MoveTree(t, before, after)[k] == t[k]
  {
  }

  lemma MoveLeaves(t: Tree, before: string, after: string, k: string)
    requires k in MoveTree(t, before, after) && Under(k, before)
    ensures StartsAt(k, after)
  {
  }

  /** Files stay childless over a rename that keeps the listings exact and whose target has no file
      above it. */
  lemma RenamedDirsOnly(t: Tree, kids: Kids, before: string, after: string)
    requires Linked(t.Keys, kids) && DirsOnly(t) && before in t && AbsPath(after) && (after in t ==> !t[after].kind.Dir?)
    requires before != "/" && !Under(after, before) && NearestIsDir(t - {after}, ParentOf(after))
    ensures DirsOnly(Renamed(t, before, after))
  {
    hide AbsPath, Linked, MoveTree, DirsOnly, NearestIsDir, WithDir;
    var t0 := t - {after};
    var kids0 := Cleared(t, kids, after);
    RootIn(t0.Keys, kids0, after);
    ParentChild(after);
    var t1 := WithDir(t0, ParentOf(after));
    WithDirDirsOnly(t0, t0.Keys, kids0, ParentOf(after));
    SameTree(t0, ParentOf(after));
    forall k | k in t1 ensures AbsPath(k) && !Under(k, after) {
      NewDirsAbs(t0, kids0, ParentOf(after), k);
      if k in t0 { NothingBelow(t0.Keys, kids0, after, k); } else { ShortNotUnder(k, after); }
    }
    NearestTaken(t0, ParentOf(after));
    MoveDirsOnly(t1, before, after);
  }

  /** Removing a file keeps the listings exact, since it is childless. */
  lemma Cleared(t: Tree, kids: Kids, p: string) returns (kids': Kids)
    requires Linked(t.Keys, kids) && DirsOnly(t) && (p in t ==> !t[p].kind.Dir?)
    ensures Linked((t - {p}).Keys, kids') && DirsOnly(t - {p})
  {
    if p in t {
      DropLinked(t.Keys, kids, p);
      assert Childless(t.Keys, p);
      kids' := DropKid(kids, p);
      assert (t - {p}).Keys == t.Keys - {p};
    } else {
      kids' := kids;
      assert t - {p} == t;
    }
  }

  lemma ShortNotUnder(k: string, top: string)
    requires |k| < |top|
    ensures !Under(k, top)
  {
  }

  lemma {:induction false} NewDirsAbs(t: Tree, kids: Kids, p: string, k: string)
    requires Linked(t.Keys, kids) && AbsPath(p) && k in WithDir(t, p)
    ensures AbsPath(k)
    decreases |p|
  {
    hide AbsPath;
    if p !in t {
      ParentChild(p);
      if k != p { NewDirsAbs(t, kids, ParentOf(p), k); }
    }
  }

  lemma {:induction false} NearestTaken(t: Tree, p: string)
    requires NearestIsDir(t, p)
    ensures WithDir(t, p)[p].kind.Dir?
    decreases |p|
  {
  }

  lemma MoveDirsOnly(t: Tree, before: string, after: string)
    requires DirsOnly(t) && before in t && AbsPath(after) && after != "/" && forall k :: k in t ==> AbsPath(k) && !Under(k, after)
    requires ParentOf(after) in t && before != "/" && !Under(after, before) && t[ParentOf(after)].kind.Dir?
    ensures DirsOnly(MoveTree(t, before, after))
  {
    hide AbsPath, MoveTree, Under, ParentOf, NewKeys;
    var m := MoveTree(t, before, after);
    MoveKeys(t, before, after);
    MoveBack(t, before, after);
    RootNotUnder(before);
    RootNotUnder(after);
    forall k | k in m && k != "/" && ParentOf(k) in m ensures m[ParentOf(k)].kind.Dir? {
      MovedParentDir(t, before, after, k);
    }
    if "/" in m { RootStays(t, before, after); }
  }

  lemma RootStays(t: Tree, before: string, after: string)
    requires AbsPath(before) && AbsPath(after) && before != "/" && after != "/" && "/" in MoveTree(t, before, after)
    requires forall k :: k in t ==> AbsPath(k) && !Under(k, after)
    ensures "/" in t && (before in t ==> MoveTree(t, before, after)["/"] == t["/"])
  {
    hide AbsPath, MoveTree;
    MoveKeys(t, before, after);
    RootNotUnder(before);
    if "/" in NewKeys(t.Keys, before, after) {
      var j :| j in t && Under(j, before) && "/" == NewKey(j, before, after);
      NewKeyParent(j, before, after);
    }
    if before in t { MoveBack(t, before, after); }
  }

  /** A moved key's parent is the moved parent, and any other key's parent stays. */
  lemma MovedParentDir(t: Tree, before: string, after: string, k: string)
    requires DirsOnly(t) && before in t && AbsPath(after) && after != "/" && forall k :: k in t ==> AbsPath(k) && !Under(k, after)
    requires ParentOf(after) in t && before != "/" && !Under(after, before) && t[ParentOf(after)].kind.Dir?
    requires k in MoveTree(t, before, after) && k != "/" && ParentOf(k) in MoveTree(t, before, after)
    ensures MoveTree(t, before, after)[ParentOf(k)].kind.Dir?
  {
    hide AbsPath, MoveTree, ParentOf;
    MoveKeys(t, before, after);
    MoveBack(t, before, after);
    if k in NewKeys(t.Keys, before, after) {
      var j :| j in t && Under(j, before) && k == NewKey(j, before, after);
      NewKeyParent(j, before, after);
      if j == before {
        UnderParent(after, before);
      } else {
        InnerParentDir(t, before, after, j);
      }
    } else {
      UnderParent(k, before);
      UnderParent(k, after);
      if ParentOf(k) in NewKeys(t.Keys, before, after) {
        var j :| j in t && Under(j, before) && ParentOf(k) == NewKey(j, before, after);
        NewUnder(j, before, after);
      }
    }
  }

  lemma InnerParentDir(t: Tree, before: string, after: string, j: string)
    requires DirsOnly(t) && AbsPath(before) && AbsPath(after) && before != "/" && after != "/"
    requires forall k :: k in t ==> AbsPath(k) && !Under(k, after)
    requires j in t && Under(j, before) && j != before && ParentOf(NewKey(j, before, after)) in MoveTree(t, before, after)
    ensures MoveTree(t, before, after)[ParentOf(NewKey(j, before, after))].kind.Dir?
  {
    hide AbsPath, MoveTree, ParentOf;
    MoveKeys(t, before, after);
    RootNotUnder(before);
    ParentChild(j);
    UnderParent(j, before);
    var d := ParentOf(j);
    NewKeyParent(j, before, after);
    NewKeyParent(d, before, after);
    var i :| i in t && Under(i, before) && NewKey(d, before, after) == NewKey(i, before, after);
    NewKeyInjective(i, d, before, after);
  }

  lemma RootNotUnder(top: string)
    requires AbsPath(top)
    ensures top != "/" ==> !Under("/", top)
  {
  }

  lemma AfterPath(p: string, t: Tree, kids: Kids)
    requires LinkedBut(t.Keys, kids, p)
    ensures p != "/" && AbsPath(p) && AbsPath(ParentOf(p)) && p !in WithDir(t, ParentOf(p)) && ParentOf(p) in WithDir(t, ParentOf(p))
  {
    ParentChild(p);
    NewDirsShort(t, ParentOf(p));
  }

  /** Directories made on the way to a path are no longer than it. */
  lemma {:induction false} NewDirsShort(t: Tree, p: string)
    ensures forall k :: k in WithDir(t, p) && k !in t ==> |k| <= |p|
    decreases |p|
  {
    if p !in t && |p| > 1 && |ParentOf(p)| < |p| { NewDirsShort(t, ParentOf(p)); }
  }

  lemma OneMoreMove(plan: seq<Move>, m: Move)
    ensures Olds(plan + [m]) == Olds(plan) + [m.oldKey] && News(plan + [m]) == News(plan) + [m.newKey]
    ensures Members(Olds(plan + [m])) == Members(Olds(plan)) + {m.oldKey}
  {
    assert Olds(plan + [m]) == Olds(plan) + [m.oldKey];
  }

  lemma KeyPath(keys: set<string>, kids: Kids, k: string)
    requires Linked(keys, kids) && k in keys
    ensures AbsPath(k) && (k != "/" ==> |k| > 1) && ParentOf(k) in keys
  {
  }

  lemma AddIsLink(keys: set<string>, kids: Kids, p: string)
    requires Linked(keys, kids) && AbsPath(p) && p !in keys && ParentOf(p) in keys
    ensures WithKid(kids[p := map[]], p) == AddKid(kids, p)
  {
    AddLinked(keys, kids, p);
    ParentChild(p);
  }

  lemma RootIn(keys: set<string>, kids: Kids, p: string)
    requires Linked(keys, kids)
    ensures p !in keys ==> p != "/" && (AbsPath(p) ==> |p| > 1)
  {
  }

  lemma SameTree(t: Tree, p: string)
    ensures p in WithDir(t, p) && (p in t ==> WithDir(t, p) == t)
  {
  }

  lemma MissingParent(t: Tree, keys: set<string>, kids: Kids, p: string)
    requires t.Keys == keys && Linked(keys, kids) && AbsPath(p) && p !in t && p != "/"
    ensures p !in WithDir(t, ParentOf(p)) && WithDir(t, p) == WithDir(t, ParentOf(p))[p := NewDir]
  {
    ParentChild(p);
    WithDirDirsOnly(t, keys, kids, ParentOf(p));
  }
}
