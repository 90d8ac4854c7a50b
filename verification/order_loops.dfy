/** How dependency loops are broken, in terms of the relations alone (lib/order.cc:423-523). */
module OrderLoops {
  import opened OrderGraph
  import opened OrderCount
  import opened OrderState
  import opened OrderCollectSpec
  import opened OrderCollect
  import opened OrderRun
  import D = OrderDijkstra

  ghost predicate InLoop(g: Graph, x: nat) {
    exists y: nat :: y < |g| && y != x && Mutual(g, x, y)
  }

  /** Marks the loop of x. */
  ghost function LoopOf(g: Graph, x: nat): seq<int> {
    seq(|g|, u requires 0 <= u < |g| => if Mutual(g, u, x) then 1 else 0)
  }

  /** The least number of forward relations inside the loop of x from a member that
      prerequires another one to v, INT_MAX if there is no way. */
  ghost function LoopDistance(g: Graph, fwd: seq<seq<Relation>>, x: nat, v: nat): int {
    D.Distance(fwd, LoopOf(g, x), 1, v)
  }

  /** With done in front, x is right to come next: everything it requires is there; or that is
      so of no member of its loop that is left, and none of these is farther from a prerequirer. */
  ghost predicate RightNext(g: Graph, fwd: seq<seq<Relation>>, done: seq<nat>, x: nat) {
    || Free(g, done, x)
    || forall u: nat {:trigger Free(g, done, u)} :: u < |g| && Mutual(g, u, x) && u !in done ==>
         !Free(g, done, u) && LoopDistance(g, fwd, x, u) <= LoopDistance(g, fwd, x, x)
  }

  ghost predicate LoopsBroken(g: Graph, fwd: seq<seq<Relation>>, order: seq<nat>) {
    forall j {:trigger order[j]} :: 0 <= j < |order| && order[j] < |g| && InLoop(g, order[j]) ==> RightNext(g, fwd, order[..j], order[j])
  }

  /** A walk of at least one step ends with an edge. */
  lemma {:induction false} LastEdge(g: Graph, u: nat, v: nat, k: nat) returns (w: nat)
    requires ReachIn(g, u, v, k) && u != v
    ensures Reach(g, u, w) && Edge(g, w, v)
    decreases k
  {
    var x :| Edge(g, u, x) && ReachIn(g, x, v, k - 1);
    if x == v {
      w := u;
      ReachRefl(g, u);
    } else {
      w := LastEdge(g, x, v, k - 1);
      ReachEdge(g, u, x);
      ReachTrans(g, u, x, w);
    }
  }

  /** The first element of a loop in the order is the farthest of all its members from a prerequirer. */
  lemma FirstFarthest(g: Graph, fwd: seq<seq<Relation>>, order: seq<nat>, j: nat, u: nat)
    requires Closed(g) && LoopsBroken(g, fwd, order) && j < |order| && order[j] < |g| && InLoop(g, order[j])
    requires forall i :: 0 <= i < j ==> !Mutual(g, order[i], order[j])
    requires u < |g| && Mutual(g, u, order[j]) && (forall v :: 0 <= v < |g| ==> v !in g[v])
    ensures LoopDistance(g, fwd, order[j], u) <= LoopDistance(g, fwd, order[j], order[j])
  {
    var x := order[j];
    var y: nat :| y < |g| && y != x && Mutual(g, x, y);
    var k: nat :| ReachIn(g, y, x, k);
    var w := LastEdge(g, y, x, k);
    hide Reach, LoopDistance;
    ReachEdge(g, w, x);
    ReachTrans(g, x, y, w);
    assert Mutual(g, w, x);
    assert w !in order[..j];
    assert !Free(g, order[..j], x);
    assert u !in order[..j];
    assert Free(g, order[..j], u) || !Free(g, order[..j], u);
  }

  /** Restored elements have no relations. */
  ghost predicate NoRelations(g: Graph, restored: seq<nat>) {
    && (forall u: nat, v: nat :: u in restored && Mutual(g, u, v) ==> u == v)
    && (forall u: nat, v: nat :: Edge(g, u, v) ==> u !in restored)
  }

  /** By component numbers or by the relations: it is the same. */
  lemma BrokenLoops(e: Env, fwd: seq<seq<Relation>>, idx: seq<int>, restored: seq<nat>, rest: seq<nat>)
    requires EnvOk(e) && ExactComps(e) && Broken(e, fwd, rest) && OrderOk(e, idx, rest) && NoRelations(e.g, restored)
    ensures LoopsBroken(e.g, fwd, restored + rest)
  {
    hide Mutual, EnvOk, ExactComps, Broken, RightNext, NextInLoop, NoRelations;
    var order, n := restored + rest, |restored|;
    forall j | 0 <= j < |order| && order[j] < |e.g| && InLoop(e.g, order[j]) ensures RightNext(e.g, fwd, order[..j], order[j]) {
      LoopComp(e, order[j]);
      if j < n {
        assert order[j] in restored;
        NotInLoop(e.g, restored, order[j]);
      } else {
        assert order[j] == rest[j - n] && order[..j] == restored + rest[..j - n];
        BrokenAt(e, fwd, rest, j - n);
        NextRight(e, fwd, restored, rest[..j - n], order[j]);
      }
    }
  }

  lemma NotInLoop(g: Graph, restored: seq<nat>, x: nat)
    requires NoRelations(g, restored) && x in restored
    ensures !InLoop(g, x)
  {
    hide Mutual;
  }

  lemma LoopComp(e: Env, x: nat)
    requires ExactComps(e) && x < |e.g| && InLoop(e.g, x)
    ensures x < |e.comp| && e.comp[x] >= 2
  {
    hide Mutual;
  }

  lemma BrokenAt(e: Env, fwd: seq<seq<Relation>>, order: seq<nat>, j: nat)
    requires Broken(e, fwd, order) && j < |order| && order[j] < |e.comp| && e.comp[order[j]] >= 2
    ensures NextInLoop(e, fwd, order[..j], order[j])
  {
    hide NextInLoop;
  }

  lemma NextRight(e: Env, fwd: seq<seq<Relation>>, restored: seq<nat>, done: seq<nat>, x: nat)
    requires ExactComps(e) && x < |e.comp| == |e.g| && e.comp[x] >= 2 && NextInLoop(e, fwd, done, x) && NoRelations(e.g, restored)
    ensures RightNext(e.g, fwd, restored + done, x)
  {
    var all := restored + done;
    forall u: nat ensures Free(e.g, all, u) <==> Free(e.g, done, u) {
      assert forall y: nat :: Edge(e.g, y, u) ==> (y in all <==> y in done);
    }
    if !Free(e.g, all, x) {
      forall u: nat | u < |e.g| && Mutual(e.g, u, x) && u !in all
        ensures !Free(e.g, all, u) && LoopDistance(e.g, fwd, x, u) <= LoopDistance(e.g, fwd, x, x)
      {
        assert e.comp[u] == e.comp[x];
        assert !Free(e.g, done, u);
        SameDistance(e, fwd, x, u);
        SameDistance(e, fwd, x, x);
      }
    }
  }

  lemma SameDistance(e: Env, fwd: seq<seq<Relation>>, x: nat, v: nat)
    requires ExactComps(e) && x < |e.comp| == |e.g| && e.comp[x] >= 2
    ensures LoopDistance(e.g, fwd, x, v) == D.Distance(fwd, e.comp, e.comp[x], v)
  {
    hide Reach;
    ReachRefl(e.g, x);
    forall u | 0 <= u < |e.g| ensures LoopOf(e.g, x)[u] == 1 <==> e.comp[u] == e.comp[x] {
      assert u != x ==> (Mutual(e.g, u, x) <==> e.comp[u] == e.comp[x] >= 2);
    }
    D.FarSame(fwd, LoopOf(e.g, x), e.comp, 1, e.comp[x], v, 0);
  }
}
