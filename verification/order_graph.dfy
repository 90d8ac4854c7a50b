/** Reachability in the relation graph of a transaction (lib/order.cc).

    A transaction element is named by its position in the sortInfo vector, so
    g[q] lists the elements whose relations hang off q: p occurs in g[q] once
    for every recorded "p requires q". */
module OrderGraph {

  type Graph = seq<seq<nat>>

  ghost predicate Closed(g: Graph) {
    forall u, i :: 0 <= u < |g| && 0 <= i < |g[u]| ==> g[u][i] < |g|
  }

  ghost predicate Edge(g: Graph, u: nat, v: nat) {
    u < |g| && v in g[u]
  }

  ghost predicate ReachIn(g: Graph, u: nat, v: nat, k: nat)
    decreases k
  {
    if k == 0 then u == v else exists w :: Edge(g, u, w) && ReachIn(g, w, v, k - 1)
  }

  ghost predicate Reach(g: Graph, u: nat, v: nat) {
    exists k: nat :: ReachIn(g, u, v, k)
  }

  ghost predicate Mutual(g: Graph, u: nat, v: nat) {
    Reach(g, u, v) && Reach(g, v, u)
  }

  lemma ReachRefl(g: Graph, u: nat)
    ensures Reach(g, u, u)
  {
    assert ReachIn(g, u, u, 0);
  }

  lemma ReachEdge(g: Graph, u: nat, v: nat)
    requires Edge(g, u, v)
    ensures Reach(g, u, v)
  {
    assert ReachIn(g, v, v, 0);
    assert ReachIn(g, u, v, 1);
  }

  lemma {:induction false} ReachInTrans(g: Graph, u: nat, v: nat, w: nat, j: nat, k: nat)
    requires ReachIn(g, u, v, j) && ReachIn(g, v, w, k)
    ensures ReachIn(g, u, w, j + k)
    decreases j
  {
    if j > 0 {
      var x :| Edge(g, u, x) && ReachIn(g, x, v, j - 1);
      ReachInTrans(g, x, v, w, j - 1, k);
      assert j - 1 + k == j + k - 1;
    }
  }

  lemma ReachTrans(g: Graph, u: nat, v: nat, w: nat)
    requires Reach(g, u, v) && Reach(g, v, w)
    ensures Reach(g, u, w)
  {
    var j: nat :| ReachIn(g, u, v, j);
    var k: nat :| ReachIn(g, v, w, k);
    ReachInTrans(g, u, v, w, j, k);
  }

  ghost predicate EdgeClosed(g: Graph, s: set<nat>) {
    forall u, v :: u in s && Edge(g, u, v) ==> v in s
  }

  lemma {:induction false} ReachInStays(g: Graph, s: set<nat>, u: nat, v: nat, k: nat)
    requires EdgeClosed(g, s) && u in s && ReachIn(g, u, v, k)
    ensures v in s
    decreases k
  {
    if k > 0 {
      var w :| Edge(g, u, w) && ReachIn(g, w, v, k - 1);
      ReachInStays(g, s, w, v, k - 1);
    }
  }

  lemma ReachStays(g: Graph, s: set<nat>, u: nat, v: nat)
    requires EdgeClosed(g, s) && u in s && Reach(g, u, v)
    ensures v in s
  {
    var k: nat :| ReachIn(g, u, v, k);
    ReachInStays(g, s, u, v, k);
  }

  lemma MutualTrans(g: Graph, u: nat, v: nat, w: nat)
    requires Mutual(g, u, v) && Mutual(g, v, w)
    ensures Mutual(g, u, w)
  {
    ReachTrans(g, u, v, w);
    ReachTrans(g, w, v, u);
  }
}

/** Counting relation entries by where they come from and where they go. */
module OrderCount {
  import opened OrderGraph

  ghost function Below(n: nat): (s: set<nat>)
    ensures |s| == n && forall u: nat :: u in s <==> u < n
  {
    if n == 0 then {} else Below(n - 1) + {n - 1}
  }

  lemma {:induction false} SubsetSize<T>(a: set<T>, b: set<T>)
    requires a <= b
    ensures |a| <= |b|
  {
    if a != {} {
      var x :| x in a;
      SubsetSize(a - {x}, b - {x});
    }
  }

  /** How many entries of one relation list lead into s. */
  ghost function Hits(rels: seq<nat>, s: set<nat>): nat {
    if rels == [] then 0 else (if rels[0] in s then 1 else 0) + Hits(rels[1..], s)
  }

  /** How many entries of the first n elements outside x lead into s. */
  ghost function Enter(g: Graph, x: set<nat>, s: set<nat>, n: nat): nat
    requires n <= |g|
  {
    if n == 0 then 0 else Enter(g, x, s, n - 1) + if n - 1 in x then 0 else Hits(g[n - 1], s)
  }

  lemma {:induction false} HitsAdd(rels: seq<nat>, s: set<nat>, p: nat)
    requires p !in s
    ensures Hits(rels, s + {p}) == Hits(rels, s) + Hits(rels, {p})
  {
    if rels != [] { HitsAdd(rels[1..], s, p); }
  }

  lemma {:induction false} HitsNone(rels: seq<nat>, s: set<nat>)
    requires forall p :: p in rels ==> p !in s
    ensures Hits(rels, s) == 0
  {
    if rels != [] {
      assert forall p :: p in rels[1..] ==> p in rels;
      HitsNone(rels[1..], s);
    }
  }

  lemma {:induction false} HitsSome(rels: seq<nat>, s: set<nat>, p: nat)
    requires p in rels && p in s
    ensures Hits(rels, s) > 0
  {
    if rels[0] !in s { HitsSome(rels[1..], s, p); }
  }

  lemma {:induction false} EnterAdd(g: Graph, x: set<nat>, s: set<nat>, p: nat, n: nat)
    requires n <= |g| && p !in s
    ensures Enter(g, x, s + {p}, n) == Enter(g, x, s, n) + Enter(g, x, {p}, n)
  {
    if n > 0 {
      EnterAdd(g, x, s, p, n - 1);
      HitsAdd(g[n - 1], s, p);
    }
  }

  lemma {:induction false} EnterSkip(g: Graph, x: set<nat>, q: nat, s: set<nat>, n: nat)
    requires n <= |g| && q !in x
    ensures Enter(g, x + {q}, s, n) == Enter(g, x, s, n) - if q < n then Hits(g[q], s) else 0
  {
    if n > 0 { EnterSkip(g, x, q, s, n - 1); }
  }

  lemma {:induction false} EnterNone(g: Graph, x: set<nat>, n: nat)
    requires n <= |g|
    ensures Enter(g, x, {}, n) == 0
  {
    if n > 0 {
      EnterNone(g, x, n - 1);
      HitsNone(g[n - 1], {});
    }
  }

  /** An entry that is still counted comes from somewhere. */
  lemma {:induction false} EnterSome(g: Graph, x: set<nat>, s: set<nat>, n: nat) returns (u: nat, p: nat)
    requires n <= |g| && Enter(g, x, s, n) > 0
    ensures u < n && u !in x && p in g[u] && p in s
  {
    if n - 1 !in x && Hits(g[n - 1], s) > 0 {
      u := n - 1;
      if forall q :: q in g[u] ==> q !in s { HitsNone(g[u], s); }
      p :| p in g[u] && p in s;
    } else {
      u, p := EnterSome(g, x, s, n - 1);
    }
  }

  lemma {:induction false} EnterHas(g: Graph, x: set<nat>, s: set<nat>, n: nat, u: nat, p: nat)
    requires n <= |g| && u < n && u !in x && p in g[u] && p in s
    ensures Enter(g, x, s, n) > 0
  {
    if u == n - 1 { HitsSome(g[u], s, p); } else { EnterHas(g, x, s, n - 1, u, p); }
  }

  /** tsi_count of every element is its number of recorded requirements, none of them on itself. */
  ghost predicate Counted(g: Graph, count: seq<int>) {
    && |count| == |g|
    && (forall u :: 0 <= u < |g| ==> count[u] == Enter(g, {}, {u}, |g|))
    && (forall u :: 0 <= u < |g| ==> u !in g[u])
  }

  ghost function Component(idx: seq<int>, c: int): set<nat> {
    set u: nat | u < |idx| && idx[u] == c
  }

  ghost predicate Distinct(s: seq<nat>) {
    forall i, j :: 0 <= i < j < |s| ==> s[i] != s[j]
  }

  ghost function Elems(s: seq<nat>): set<nat> {
    set u | u in s
  }

  /** g without the first entry of q. */
  function Drop(g: Graph, q: nat): Graph
    requires q < |g| && g[q] != []
  {
    g[q := g[q][1..]]
  }

  lemma {:induction false} EnterDrop(g: Graph, q: nat, x: set<nat>, s: set<nat>, n: nat)
    requires q < |g| && g[q] != [] && n <= |g|
    ensures Enter(Drop(g, q), x, s, n) == Enter(g, x, s, n) - if q < n && q !in x && g[q][0] in s then 1 else 0
  {
    if n > 0 { EnterDrop(g, q, x, s, n - 1); }
  }
}
