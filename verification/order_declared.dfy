/** What becomes of the dependencies themselves, when relations can get lost
    (lib/order.cc:107-147): a lost one is the opposite of one that is kept. */
module OrderDeclared {
  import opened OrderGraph
  import opened OrderState
  import opened OrderRelations
  import opened OrderTransaction
  import opened OrderLoops
  import D = OrderDijkstra

  /** The lists mirror each other. */
  ghost predicate Mirrored(l: Lists) {
    Linked(l.rels, l.fwd, Lengths(l.fwd), Lengths(l.rels))
  }

  ghost function Lengths(ls: seq<seq<Relation>>): seq<int> {
    seq(|ls|, u requires 0 <= u < |ls| => |ls[u]|)
  }

  lemma LinkedMirrored(l: Lists, count: seq<int>, qcnt: seq<int>)
    requires Linked(l.rels, l.fwd, count, qcnt)
    ensures Mirrored(l)
  {
    assert count == Lengths(l.fwd) && qcnt == Lengths(l.rels);
  }

  lemma AddMirrored(types: seq<ElementType>, l: Lists, r: Request)
    requires Fits(types, l, r) && Mirrored(l)
    ensures Mirrored(Add(types, l, r))
  {
    hide Linked;
    if Counts(types, r) {
      var req, prov, flags := Requirer(types, r), Provider(types, r), RelFlags(types[r.p], r.dep);
      var count, qcnt := Lengths(l.fwd), Lengths(l.rels);
      if !Merged(types, l, r) {
        PushLinked(l.rels, l.fwd, count, qcnt, req, prov, flags);
        LinkedMirrored(Add(types, l, r), count[req := count[req] + 1], qcnt[prov := qcnt[prov] + 1]);
      } else if Reversed(types[r.p], r.dep) {
        MergeLinked(l.rels, l.fwd, count, qcnt, prov, req, flags);
        LinkedMirrored(Add(types, l, r), count, qcnt);
      } else {
        MergeLinked(l.rels, l.fwd, count, qcnt, req, prov, flags);
        LinkedMirrored(Add(types, l, r), count, qcnt);
      }
    }
  }

  /** No request undoes another. */
  lemma AddGrows(types: seq<ElementType>, l: Lists, r: Request, a: nat, b: nat)
    requires Fits(types, l, r) && Mirrored(l) && Recorded(l.rels, a, b)
    ensures Recorded(Add(types, l, r).rels, a, b)
  {
    if Counts(types, r) {
      AddRecorded(types, l, r, Lengths(l.fwd), Lengths(l.rels));
      if Merged(types, l, r) {
        SameRecorded(l.rels, Add(types, l, r).rels, a, b);
      } else {
        PushRecorded(l.rels, Requirer(types, r), Provider(types, r), RelFlags(types[r.p], r.dep), a, b);
      }
    }
  }

  /** What is asked for is recorded in the end; or, on the reversed path only, its opposite is. */
  ghost predicate Kept(types: seq<ElementType>, rels: seq<seq<Relation>>, r: Request)
    requires r.p < |types| && r.q >= 0
  {
    var req, prov := Requirer(types, r), Provider(types, r);
    Recorded(rels, req, prov) || (Reversed(types[r.p], r.dep) && Recorded(rels, prov, req))
  }

  lemma {:induction false} AllKept(types: seq<ElementType>, requests: seq<Request>)
    requires RequestsOk(types, requests)
    ensures Mirrored(AddAll(types, NoLists(|types|), requests))
    ensures forall i :: 0 <= i < |requests| && Counts(types, requests[i]) ==> Kept(types, Relations(types, requests), requests[i])
    decreases |requests|
  {
    if requests == [] {
      NoneMirrored(|types|);
    } else {
      var n := |requests| - 1;
      var before, r := requests[..n], requests[n];
      assert RequestsOk(types, before);
      AllKept(types, before);
      var l := AddAll(types, NoLists(|types|), before);
      hide Recorded, Mirrored, Linked;
      AddMirrored(types, l, r);
      forall i | 0 <= i < |requests| && Counts(types, requests[i]) ensures Kept(types, Relations(types, requests), requests[i]) {
        var req, prov := Requirer(types, requests[i]), Provider(types, requests[i]);
        if i < n {
          assert before[i] == requests[i] && Kept(types, l.rels, before[i]);
          if Recorded(l.rels, req, prov) { AddGrows(types, l, r, req, prov); } else { AddGrows(types, l, r, prov, req); }
        } else {
          LastKept(types, l, r);
        }
      }
    }
  }

  lemma NoneMirrored(n: nat)
    ensures Mirrored(NoLists(n))
  {
  }

  lemma LastKept(types: seq<ElementType>, l: Lists, r: Request)
    requires Fits(types, l, r) && Mirrored(l) && Counts(types, r)
    ensures Kept(types, Add(types, l, r).rels, r)
  {
    var req, prov := Requirer(types, r), Provider(types, r);
    AddRecorded(types, l, r, Lengths(l.fwd), Lengths(l.rels));
    if Merged(types, l, r) {
      SameRecorded(l.rels, Add(types, l, r).rels, req, prov);
      SameRecorded(l.rels, Add(types, l, r).rels, prov, req);
    }
  }

  /** Every dependency that orders anything is respected, or is part of a loop, or was lost to
      its opposite: then the order is exactly the wrong way round. */
  lemma DeclaredOrder(types: seq<ElementType>, requests: seq<Request>, order: seq<nat>, i: nat)
    requires RequestsOk(types, requests) && Ordered(types, Relations(types, requests), order)
    requires i < |requests| && Counts(types, requests[i])
    ensures var rels, req, prov := Relations(types, requests), Requirer(types, requests[i]), Provider(types, requests[i]);
            || Before(order, prov, req)
            || Mutual(GraphOf(rels), req, prov)
            || (Reversed(types[requests[i].p], requests[i].dep) && !Recorded(rels, req, prov)
                && Recorded(rels, prov, req) && Before(order, req, prov))
  {
    AllKept(types, requests);
    var rels, req, prov := Relations(types, requests), Requirer(types, requests[i]), Provider(types, requests[i]);
    assert Kept(types, rels, requests[i]);
    hide Relations, Recorded;
    assert Mutual(GraphOf(rels), req, prov) <==> Mutual(GraphOf(rels), prov, req);
  }

  /** Two erased packages that require each other: the second requirement is lost, even if only
      it is for a scriptlet, and the package it is about is always erased too early. */
  lemma ErasedPairForced(order: seq<nat>)
    ensures var types := [Removed, Removed];
            var requests := [Request(0, 1, Dep(Require, {})), Request(1, 0, Dep(Require, {ScriptPreUn}))];
            && RequestsOk(types, requests) && Counts(types, requests[1])
            && Requirer(types, requests[1]) == 0 && Provider(types, requests[1]) == 1
            && !Recorded(Relations(types, requests), 0, 1)
            && (Ordered(types, Relations(types, requests), order) ==> order == [0, 1])
  {
    var types := [Removed, Removed];
    var first, second := Request(0, 1, Dep(Require, {})), Request(1, 0, Dep(Require, {ScriptPreUn}));
    var requests := [first, second];
    var l0 := NoLists(2);
    assert l0 == Lists([[], []], [[], []]);
    var l1 := Add(types, l0, first);
    assert l1.rels[1] == [] && Sucs(l1.rels[0]) == [1] && l1.fwd[1][0].suc == 0 && l1.fwd[0] == [];
    var l2 := Add(types, l1, second);
    assert requests[..1] == [first] && requests[..0] == [] && requests[..1][..0] == [];
    assert AddAll(types, l0, []) == l0;
    assert AddAll(types, l0, requests[..1]) == l1;
    assert Relations(types, requests) == l2.rels;
    PairMerged(types, l1, second, l2);
    PairOrder(types, l2.rels, order);
  }

  lemma PairMerged(types: seq<ElementType>, l: Lists, r: Request, after: Lists)
    requires types == [Removed, Removed] && r == Request(1, 0, Dep(Require, {ScriptPreUn})) && |l.rels| == |l.fwd| == 2
    requires l.rels[1] == [] && Sucs(l.rels[0]) == [1] && |l.fwd[1]| >= 1 && l.fwd[1][0].suc == 0
    requires after == Add(types, l, r)
    ensures |after.rels| == 2 && after.rels[1] == [] && Sucs(after.rels[0]) == [1]
  {
    assert Merged(types, l, r);
    OrFirstSucs(l.rels[0], 1, RelFlags(Removed, r.dep));
  }

  lemma PairOrder(types: seq<ElementType>, rels: seq<seq<Relation>>, order: seq<nat>)
    requires types == [Removed, Removed] && |rels| == 2 && rels[1] == [] && Sucs(rels[0]) == [1]
    ensures !Recorded(rels, 0, 1) && (Ordered(types, rels, order) ==> order == [0, 1])
  {
    var g := GraphOf(rels);
    assert g[1] == [] && g[0] == [1];
    assert EdgeClosed(g, {1});
    assert Recorded(rels, 1, 0);
    if Mutual(g, 1, 0) { ReachStays(g, {1}, 1, 0); }
  }

  /** Two installs require each other, the first one for its %pre: the second always comes first. */
  lemma NeededForPreFirst(order: seq<nat>)
    ensures var types := [Added, Added];
            var requests := [Request(0, 1, Dep(Require, {ScriptPre})), Request(1, 0, Dep(Require, {}))];
            && RequestsOk(types, requests)
            && (Ordered(types, Relations(types, requests), order) ==>
                LoopsBroken(GraphOf(Relations(types, requests)), Forwards(types, requests), order) ==> order == [1, 0])
  {
    var types := [Added, Added];
    var first, second := Request(0, 1, Dep(Require, {ScriptPre})), Request(1, 0, Dep(Require, {}));
    var requests := [first, second];
    var l0 := NoLists(2);
    assert l0 == Lists([[], []], [[], []]);
    assert ScriptPre in ScriptFlags(Added, {ScriptPre});
    var l1 := Add(types, l0, first);
    var l2 := Add(types, l1, second);
    assert requests[..1] == [first] && requests[..0] == [] && requests[..1][..0] == [];
    assert AddAll(types, l0, []) == l0;
    assert AddAll(types, l0, requests[..1]) == l1;
    assert AddAll(types, l0, requests) == l2;
    assert Sucs(l2.rels[0]) == [1] && Sucs(l2.rels[1]) == [0];
    PreOrder(types, l2.rels, l2.fwd, order);
  }

  lemma PreOrder(types: seq<ElementType>, rels: seq<seq<Relation>>, fwd: seq<seq<Relation>>, order: seq<nat>)
    requires types == [Added, Added] && |rels| == |fwd| == 2 && Sucs(rels[0]) == [1] && Sucs(rels[1]) == [0]
    requires |fwd[0]| == |fwd[1]| == 1 && fwd[0][0].suc == 1 && fwd[0][0].flags != {} && fwd[1][0] == Relation(0, {})
    ensures Ordered(types, rels, order) && LoopsBroken(GraphOf(rels), fwd, order) ==> order == [1, 0]
  {
    var g := GraphOf(rels);
    assert g == [[1], [0]];
    PairLoop(g);
    if Ordered(types, rels, order) && LoopsBroken(g, fwd, order) {
      var x := order[0];
      assert x in order && order[1] in order && x < 2;
      FirstFarthest(g, fwd, order, 0, 1);
      PairDistance(g, fwd, x);
    }
  }

  lemma PairLoop(g: Graph)
    requires g == [[1], [0]]
    ensures Closed(g) && InLoop(g, 0) && InLoop(g, 1) && forall u: nat, v: nat :: u < 2 && v < 2 ==> Mutual(g, u, v)
  {
    assert Edge(g, 0, 1) && Edge(g, 1, 0);
    ReachEdge(g, 0, 1);
    ReachEdge(g, 1, 0);
    ReachRefl(g, 0);
    ReachRefl(g, 1);
    assert Mutual(g, 0, 1) && Mutual(g, 1, 0);
  }

  lemma PairDistance(g: Graph, fwd: seq<seq<Relation>>, x: nat)
    requires g == [[1], [0]] && x < 2 && |fwd| == 2 && |fwd[0]| == |fwd[1]| == 1
    requires fwd[0][0].suc == 1 && fwd[0][0].flags != {} && fwd[1][0] == Relation(0, {})
    ensures LoopDistance(g, fwd, x, 0) == 0 && LoopDistance(g, fwd, x, 1) == 1
  {
    PairLoop(g);
    var idx := LoopOf(g, x);
    hide Reach;
    assert idx == [1, 1];
    assert D.IsPrereq(fwd[0][0], idx, 1) && !D.IsPrereq(fwd[1][0], idx, 1);
    assert D.Near(fwd, idx, 1, 0, 0) && !D.Near(fwd, idx, 1, 1, 0);
    assert D.Leads(fwd, 0, 1);
    assert D.Near(fwd, idx, 1, 1, 1);
    assert D.Far(fwd, idx, 1, 1, 1) == 1;
  }
}
