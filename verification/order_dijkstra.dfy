/** dijkstra(): how far each member of a component is from a prerequirer (lib/order.cc:423-468). */
module OrderDijkstra {
  import opened OrderGraph
  import opened OrderCount
  import opened OrderState

  const INT_MAX: int := 0x7fff_ffff

  /** u prerequires another member: one of its forward relations has scriptlet flags. */
  ghost predicate Prerequires(fwd: seq<seq<Relation>>, idx: seq<int>, c: int, u: nat) {
    u < |fwd| && exists i :: 0 <= i < |fwd[u]| && IsPrereq(fwd[u][i], idx, c)
  }

  predicate IsPrereq(r: Relation, idx: seq<int>, c: int) {
    r.flags != {} && r.suc < |idx| && idx[r.suc] == c
  }

  /** v is k forward relations away from a prerequirer, all inside the component. */
  ghost predicate Near(fwd: seq<seq<Relation>>, idx: seq<int>, c: int, v: nat, k: nat)
    decreases k
  {
    && v < |fwd| == |idx| && idx[v] == c
    && if k == 0 then Prerequires(fwd, idx, c, v)
       else exists u: nat :: Near(fwd, idx, c, u, k - 1) && Leads(fwd, u, v)
  }

  ghost predicate Leads(fwd: seq<seq<Relation>>, u: nat, v: nat) {
    u < |fwd| && exists i :: 0 <= i < |fwd[u]| && fwd[u][i].suc == v
  }

  /** The least number of relations from a prerequirer that is at least k, INT_MAX if there is none. */
  ghost function Far(fwd: seq<seq<Relation>>, idx: seq<int>, c: int, v: nat, k: nat): int
    decreases INT_MAX - k
  {
    if k >= INT_MAX then INT_MAX else if Near(fwd, idx, c, v, k) then k else Far(fwd, idx, c, v, k + 1)
  }

  /** How far v is from a prerequirer. */
  ghost function Distance(fwd: seq<seq<Relation>>, idx: seq<int>, c: int, v: nat): int { Far(fwd, idx, c, v, 0) }

  /** The member list is the component, and no element relates to itself. */
  ghost predicate Ready(fwd: seq<seq<Relation>>, idx: seq<int>, low: seq<int>, m: seq<nat>, c: int) {
    && |fwd| == |idx| == |low|
    && (forall i, j :: 0 <= i < j < |m| ==> m[i] != m[j])
    && (forall i :: 0 <= i < |m| ==> m[i] < |idx| && idx[m[i]] == c)
    && (forall u: nat :: u < |idx| && idx[u] == c ==> u in m)
    && (forall u, i :: 0 <= u < |fwd| && 0 <= i < |fwd[u]| ==> fwd[u][i].suc < |fwd| && fwd[u][i].suc != u)
  }

  /** Labels are lengths of walks from prerequirers, or unset. */
  ghost predicate Walks(fwd: seq<seq<Relation>>, idx: seq<int>, low: seq<int>, c: int)
    requires |fwd| == |idx| == |low|
  {
    forall v :: 0 <= v < |idx| && idx[v] == c ==>
      low[v] == INT_MAX || (0 <= low[v] < INT_MAX && Near(fwd, idx, c, v, low[v]))
  }

  ghost predicate SourcesZero(fwd: seq<seq<Relation>>, idx: seq<int>, low: seq<int>, c: int)
    requires |fwd| == |idx| == |low|
  {
    forall v :: 0 <= v < |idx| && idx[v] == c && Prerequires(fwd, idx, c, v) ==> low[v] == 0
  }

  ghost predicate Relaxed(fwd: seq<seq<Relation>>, idx: seq<int>, low: seq<int>, c: int, u: nat)
    requires |fwd| == |idx| == |low| && u < |fwd|
  {
    forall v: nat :: v < |idx| && idx[v] == c && Leads(fwd, u, v) ==> low[v] <= low[u] + 1
  }

  /** Only queued members may still shorten the way to a neighbour. */
  ghost predicate Settled(fwd: seq<seq<Relation>>, idx: seq<int>, low: seq<int>, c: int, open: seq<nat>)
    requires |fwd| == |idx| == |low|
  {
    forall u {:trigger Relaxed(fwd, idx, low, c, u)} ::
      0 <= u < |idx| && idx[u] == c && u !in open && low[u] < INT_MAX ==> Relaxed(fwd, idx, low, c, u)
  }

  ghost predicate Queued(idx: seq<int>, low: seq<int>, c: int, open: seq<nat>)
    requires |idx| == |low|
  {
    forall i :: 0 <= i < |open| ==> open[i] < |idx| && idx[open[i]] == c && 0 <= low[open[i]] < INT_MAX
  }

  ghost function Total(low: seq<int>, m: seq<nat>): int
    requires forall i :: 0 <= i < |m| ==> m[i] < |low|
  {
    if m == [] then 0 else low[m[0]] + Total(low, m[1..])
  }

  lemma {:induction false} TotalLess(low: seq<int>, m: seq<nat>, v: nat, x: int)
    requires forall i :: 0 <= i < |m| ==> m[i] < |low|
    requires forall i, j :: 0 <= i < j < |m| ==> m[i] != m[j]
    requires v < |low|
    ensures Total(low[v := x], m) == Total(low, m) + if v in m then x - low[v] else 0
  {
    if m != [] { TotalLess(low, m[1..], v, x); }
  }

  lemma {:induction false} TotalNat(low: seq<int>, m: seq<nat>)
    requires forall i :: 0 <= i < |m| ==> m[i] < |low| && low[m[i]] >= 0
    ensures Total(low, m) >= 0
  {
    if m != [] { TotalNat(low, m[1..]); }
  }

  /** With nothing queued no walk is shorter than its label. */
  lemma {:induction false} Shortest(fwd: seq<seq<Relation>>, idx: seq<int>, low: seq<int>, c: int, v: nat, k: nat)
    requires |fwd| == |idx| == |low|
    requires Walks(fwd, idx, low, c) && SourcesZero(fwd, idx, low, c) && Settled(fwd, idx, low, c, [])
    requires Near(fwd, idx, c, v, k)
    ensures low[v] <= k
    decreases k
  {
    if k > 0 {
      var u: nat :| Near(fwd, idx, c, u, k - 1) && Leads(fwd, u, v);
      Shortest(fwd, idx, low, c, u, k - 1);
      if low[u] < INT_MAX { assert Relaxed(fwd, idx, low, c, u); }
    }
  }

  /** The exact labels: a least distance, or INT_MAX. */
  ghost predicate Distances(fwd: seq<seq<Relation>>, idx: seq<int>, low: seq<int>, c: int)
    requires |fwd| == |idx| == |low|
  {
    && Walks(fwd, idx, low, c)
    && forall v: nat, k: nat :: Near(fwd, idx, c, v, k) ==> low[v] <= k
  }

  /** First loop body: a member that prerequires another member starts at 0. */
  method Seed(t: Tsort, u: nat, c: int, queue: seq<nat>) returns (q: seq<nat>)
    requires u < |t.forward| == |t.sccIdx| == |t.lowlink|
    requires forall i :: 0 <= i < |t.forward[u]| ==> t.forward[u][i].suc < |t.forward|
    modifies t`lowlink
    ensures Prerequires(t.forward, t.sccIdx, c, u) && !Leads(t.forward, u, u) ==>
              t.lowlink == old(t.lowlink)[u := 0] && q == queue + [u]
    ensures !Prerequires(t.forward, t.sccIdx, c, u) ==>
              t.lowlink == old(t.lowlink)[u := INT_MAX] && q == queue
  {
    q := queue;
    t.lowlink := t.lowlink[u := INT_MAX];
    var i := 0;
    while i < |t.forward[u]|
      invariant 0 <= i <= |t.forward[u]|
      invariant t.lowlink == old(t.lowlink)[u := INT_MAX] && q == queue
      invariant forall j :: 0 <= j < i ==> !IsPrereq(t.forward[u][j], t.sccIdx, c)
    {
      var rel := t.forward[u][i];
      if rel.flags != {} && t.sccIdx[rel.suc] == c {
        assert IsPrereq(t.forward[u][i], t.sccIdx, c);
        if rel.suc != u {
          t.lowlink := t.lowlink[u := 0];
          q := q + [u];
        } else {
          t.lowlink := t.lowlink[u := INT_MAX / 2];
        }
        return;
      }
      i := i + 1;
    }
  }

  /** Before the search: prerequirers are queued at 0, all other members unset. */
  ghost predicate Seeded(fwd: seq<seq<Relation>>, idx: seq<int>, low: seq<int>, c: int, m: seq<nat>, queue: seq<nat>)
    requires |fwd| == |idx| == |low|
  {
    && (forall i :: 0 <= i < |m| ==> m[i] < |low|)
    && (forall u :: u in queue ==> u in m && Prerequires(fwd, idx, c, u))
    && (forall i :: 0 <= i < |m| && Prerequires(fwd, idx, c, m[i]) ==> low[m[i]] == 0 && m[i] in queue)
    && (forall i :: 0 <= i < |m| && !Prerequires(fwd, idx, c, m[i]) ==> low[m[i]] == INT_MAX)
  }

  lemma SeedNone(fwd: seq<seq<Relation>>, idx: seq<int>, low: seq<int>, c: int)
    requires |fwd| == |idx| == |low|
    ensures Seeded(fwd, idx, low, c, [], [])
  {
  }

  lemma SeedIdle(fwd: seq<seq<Relation>>, idx: seq<int>, low: seq<int>, c: int, m: seq<nat>)
    requires |fwd| == |idx| == |low| && Seeded(fwd, idx, low, c, m, [])
    ensures forall u :: u in m ==> u < |low| && low[u] == INT_MAX
  {
  }

  lemma NotSelf(fwd: seq<seq<Relation>>, idx: seq<int>, low: seq<int>, m: seq<nat>, c: int, u: nat)
    requires Ready(fwd, idx, low, m, c) && u < |fwd|
    ensures !Leads(fwd, u, u)
  {
  }

  lemma SeedStep(fwd: seq<seq<Relation>>, idx: seq<int>, low0: seq<int>, low: seq<int>, c: int, m: seq<nat>, u: nat,
                 queue0: seq<nat>, queue: seq<nat>)
    requires |fwd| == |idx| == |low0| && u < |low0| && Seeded(fwd, idx, low0, c, m, queue0)
    requires if Prerequires(fwd, idx, c, u) then low == low0[u := 0] && queue == queue0 + [u]
             else low == low0[u := INT_MAX] && queue == queue0
    ensures Seeded(fwd, idx, low, c, m + [u], queue)
  {
    hide Prerequires;
  }

  method SeedAll(t: Tsort, m: seq<nat>, c: int) returns (queue: seq<nat>)
    requires Ready(t.forward, t.sccIdx, t.lowlink, m, c)
    modifies t`lowlink
    ensures |t.lowlink| == |old(t.lowlink)|
    ensures Seeded(t.forward, t.sccIdx, t.lowlink, c, m, queue)
    ensures forall u :: 0 <= u < |t.lowlink| && u !in m ==> t.lowlink[u] == old(t.lowlink)[u]
  {
    hide Prerequires, Seeded, Leads;
    queue := [];
    SeedNone(t.forward, t.sccIdx, t.lowlink, c);
    var i := 0;
    while i < |m|
      invariant 0 <= i <= |m| && |t.lowlink| == |old(t.lowlink)|
      invariant Seeded(t.forward, t.sccIdx, t.lowlink, c, m[..i], queue)
      invariant forall u :: 0 <= u < |t.lowlink| && u !in m ==> t.lowlink[u] == old(t.lowlink)[u]
    {
      assert m[i] in m && m[..i + 1] == m[..i] + [m[i]];
      ghost var low0, queue0 := t.lowlink, queue;
      NotSelf(t.forward, t.sccIdx, t.lowlink, m, c, m[i]);
      queue := Seed(t, m[i], c, queue);
      SeedStep(t.forward, t.sccIdx, low0, t.lowlink, c, m[..i], m[i], queue0, queue);
      i := i + 1;
    }
    assert m[..|m|] == m;
    if queue == [] {
      SeedIdle(t.forward, t.sccIdx, t.lowlink, c, m);
      queue := Labelled(t, m);
    }
  }

  /** "no regular prereqs; add self prereqs to queue" */
  method Labelled(t: Tsort, m: seq<nat>) returns (queue: seq<nat>)
    requires forall i :: 0 <= i < |m| ==> m[i] < |t.lowlink|
    ensures forall u :: u in queue <==> u in m && t.lowlink[u] != INT_MAX
    ensures (forall u :: u in m ==> t.lowlink[u] == INT_MAX) ==> queue == []
  {
    queue := [];
    var i := 0;
    while i < |m|
      invariant 0 <= i <= |m|
      invariant forall u :: u in queue <==> u in m[..i] && t.lowlink[u] != INT_MAX
      invariant (forall u :: u in m ==> t.lowlink[u] == INT_MAX) ==> queue == []
    {
      if t.lowlink[m[i]] != INT_MAX { queue := queue + [m[i]]; }
      i := i + 1;
    }
  }

  lemma Start(fwd: seq<seq<Relation>>, idx: seq<int>, low: seq<int>, c: int, m: seq<nat>, queue: seq<nat>)
    requires Ready(fwd, idx, low, m, c) && Seeded(fwd, idx, low, c, m, queue)
    ensures Walks(fwd, idx, low, c) && SourcesZero(fwd, idx, low, c)
    ensures Settled(fwd, idx, low, c, queue) && Queued(idx, low, c, queue)
  {
    hide Prerequires;
    forall v | 0 <= v < |idx| && idx[v] == c
      ensures v in m && low[v] == if Prerequires(fwd, idx, c, v) then 0 else INT_MAX
      ensures Prerequires(fwd, idx, c, v) ==> v in queue
    {
      assert v in m;
    }
    forall i | 0 <= i < |queue|
      ensures queue[i] < |idx| && idx[queue[i]] == c && 0 <= low[queue[i]] < INT_MAX
    {
      assert queue[i] in queue && queue[i] in m;
    }
  }

  /** Everything the search loop keeps. */
  ghost predicate Searching(fwd: seq<seq<Relation>>, idx: seq<int>, low: seq<int>, c: int, open: seq<nat>) {
    && |fwd| == |idx| == |low|
    && Walks(fwd, idx, low, c) && SourcesZero(fwd, idx, low, c)
    && Settled(fwd, idx, low, c, open) && Queued(idx, low, c, open)
  }

  /** Shortening the way to v over an edge from u. */
  lemma Shorten(fwd: seq<seq<Relation>>, idx: seq<int>, low: seq<int>, c: int, open: seq<nat>, u: nat, v: nat)
    requires Searching(fwd, idx, low, c, open) && u in open && u < |fwd| && v < |fwd| && u != v
    requires idx[v] == c && Leads(fwd, u, v) && low[v] > low[u] + 1
    ensures Searching(fwd, idx, low[v := low[u] + 1], c, open + [v])
  {
    var low' := low[v := low[u] + 1];
    assert idx[u] == c && 0 <= low[u] < INT_MAX;
    assert Near(fwd, idx, c, u, low[u]);
    assert Near(fwd, idx, c, v, low[u] + 1);
    hide Near, Leads, Prerequires;
    assert Walks(fwd, idx, low', c);
    assert SourcesZero(fwd, idx, low', c);
    forall w | 0 <= w < |idx| && idx[w] == c && w !in open + [v] && low'[w] < INT_MAX
      ensures Relaxed(fwd, idx, low', c, w)
    {
      assert Relaxed(fwd, idx, low, c, w);
    }
  }

  lemma MembersNat(fwd: seq<seq<Relation>>, idx: seq<int>, low: seq<int>, m: seq<nat>, c: int)
    requires |fwd| == |idx| == |low| && Walks(fwd, idx, low, c)
    requires forall i :: 0 <= i < |m| ==> m[i] < |idx| && idx[m[i]] == c
    ensures Total(low, m) >= 0
  {
    hide Near;
    TotalNat(low, m);
  }

  /** The front leaves the queue once all its neighbours are within one step. */
  lemma PopFront(fwd: seq<seq<Relation>>, idx: seq<int>, low: seq<int>, c: int, open: seq<nat>)
    requires Searching(fwd, idx, low, c, open) && open != [] && open[0] < |fwd| && Relaxed(fwd, idx, low, c, open[0])
    ensures Searching(fwd, idx, low, c, open[1..])
  {
    hide Walks, SourcesZero;
    assert forall w :: w in open ==> w == open[0] || w in open[1..];
  }

  /** Afterwards every member is labelled with its least number of forward
      relations, inside the component, from a member that prerequires another. */
  method Dijkstra(t: Tsort, m: seq<nat>, c: int)
    requires Ready(t.forward, t.sccIdx, t.lowlink, m, c)
    modifies t`lowlink
    ensures |t.lowlink| == |old(t.lowlink)| == |t.forward| == |t.sccIdx|
    ensures Distances(t.forward, t.sccIdx, t.lowlink, c)
    ensures forall u :: 0 <= u < |t.lowlink| && u !in m ==> t.lowlink[u] == old(t.lowlink)[u]
  {
    ghost var low0 := t.lowlink;
    var queue := SeedAll(t, m, c);
    Start(t.forward, t.sccIdx, t.lowlink, c, m, queue);
    while queue != []
      invariant Searching(t.forward, t.sccIdx, t.lowlink, c, queue)
      invariant Ready(t.forward, t.sccIdx, t.lowlink, m, c)
      invariant |t.lowlink| == |low0|
      invariant forall u :: 0 <= u < |low0| && u !in m ==> t.lowlink[u] == low0[u]
      decreases Total(t.lowlink, m), |queue|
    {
      queue := Relax(t, m, c, queue);
    }
    forall v: nat, k: nat | Near(t.forward, t.sccIdx, c, v, k) ensures t.lowlink[v] <= k {
      Shortest(t.forward, t.sccIdx, t.lowlink, c, v, k);
    }
  }

  ghost predicate RelaxedUpTo(fwd: seq<seq<Relation>>, idx: seq<int>, low: seq<int>, c: int, u: nat, i: nat) {
    && u < |fwd| == |idx| == |low| && i <= |fwd[u]|
    && forall j :: 0 <= j < i && fwd[u][j].suc < |fwd| && idx[fwd[u][j].suc] == c ==> low[fwd[u][j].suc] <= low[u] + 1
  }

  lemma SearchFront(fwd: seq<seq<Relation>>, idx: seq<int>, low: seq<int>, m: seq<nat>, c: int, open: seq<nat>)
    requires Ready(fwd, idx, low, m, c) && Searching(fwd, idx, low, c, open) && open != []
    ensures open[0] < |fwd| == |idx| == |low| && idx[open[0]] == c && 0 <= low[open[0]] < INT_MAX
    ensures open[0] in m && RelaxedUpTo(fwd, idx, low, c, open[0], 0)
    ensures forall i :: 0 <= i < |m| ==> m[i] < |low|
    ensures forall i, j :: 0 <= i < j < |m| ==> m[i] != m[j]
  {
    hide Walks, SourcesZero, Settled;
  }

  lemma SearchNext(fwd: seq<seq<Relation>>, idx: seq<int>, low: seq<int>, m: seq<nat>, c: int, u: nat, i: nat)
    requires Ready(fwd, idx, low, m, c) && RelaxedUpTo(fwd, idx, low, c, u, i) && i < |fwd[u]|
    ensures var v := fwd[u][i].suc;
            && v < |fwd| && v != u && Leads(fwd, u, v) && (idx[v] == c ==> v in m)
            && (low[v] <= low[u] + 1 || idx[v] != c ==> RelaxedUpTo(fwd, idx, low, c, u, i + 1))
            && (idx[v] == c && low[v] > low[u] + 1 ==> RelaxedUpTo(fwd, idx, low[v := low[u] + 1], c, u, i + 1))
  {
  }

  lemma SearchDone(fwd: seq<seq<Relation>>, idx: seq<int>, low: seq<int>, m: seq<nat>, c: int, open: seq<nat>)
    requires Ready(fwd, idx, low, m, c) && Searching(fwd, idx, low, c, open) && open != []
    requires open[0] < |fwd| && RelaxedUpTo(fwd, idx, low, c, open[0], |fwd[open[0]]|)
    ensures Searching(fwd, idx, low, c, open[1..]) && Total(low, m) >= 0
  {
    MembersNat(fwd, idx, low, m, c);
    assert Relaxed(fwd, idx, low, c, open[0]);
    PopFront(fwd, idx, low, c, open);
    hide Searching;
  }

  lemma ReadyLow(fwd: seq<seq<Relation>>, idx: seq<int>, low: seq<int>, low': seq<int>, m: seq<nat>, c: int)
    requires Ready(fwd, idx, low, m, c) && |low'| == |low|
    ensures Ready(fwd, idx, low', m, c)
  {
  }

  /** One element off the queue (lib/order.cc:457-466). */
  method Relax(t: Tsort, m: seq<nat>, c: int, queue: seq<nat>) returns (q: seq<nat>)
    requires Ready(t.forward, t.sccIdx, t.lowlink, m, c)
    requires Searching(t.forward, t.sccIdx, t.lowlink, c, queue) && queue != []
    modifies t`lowlink
    ensures |t.lowlink| == |old(t.lowlink)|
    ensures Searching(t.forward, t.sccIdx, t.lowlink, c, q)
    ensures forall u :: 0 <= u < |t.lowlink| && u !in m ==> t.lowlink[u] == old(t.lowlink)[u]
    ensures Ready(t.forward, t.sccIdx, t.lowlink, m, c)
    ensures Total(t.lowlink, m) < old(Total(t.lowlink, m)) || (t.lowlink == old(t.lowlink) && |q| < |queue|)
    ensures Total(t.lowlink, m) >= 0
  {
    hide Searching, Ready, Leads, RelaxedUpTo;
    var u := queue[0];
    q := queue;
    SearchFront(t.forward, t.sccIdx, t.lowlink, m, c, q);
    var i := 0;
    while i < |t.forward[u]|
      invariant 0 <= i <= |t.forward[u]| && |t.lowlink| == |old(t.lowlink)|
      invariant Ready(t.forward, t.sccIdx, t.lowlink, m, c)
      invariant Searching(t.forward, t.sccIdx, t.lowlink, c, q) && q != [] && q[0] == u
      invariant forall w :: 0 <= w < |t.lowlink| && w !in m ==> t.lowlink[w] == old(t.lowlink)[w]
      invariant RelaxedUpTo(t.forward, t.sccIdx, t.lowlink, c, u, i)
      invariant Total(t.lowlink, m) < old(Total(t.lowlink, m)) || (t.lowlink == old(t.lowlink) && q == queue)
    {
      var v := t.forward[u][i].suc;
      SearchNext(t.forward, t.sccIdx, t.lowlink, m, c, u, i);
      if t.sccIdx[v] == c && t.lowlink[v] > t.lowlink[u] + 1 {
        Shorten(t.forward, t.sccIdx, t.lowlink, c, q, u, v);
        TotalLess(t.lowlink, m, v, t.lowlink[u] + 1);
        ReadyLow(t.forward, t.sccIdx, t.lowlink, t.lowlink[v := t.lowlink[u] + 1], m, c);
        t.lowlink := t.lowlink[v := t.lowlink[u] + 1];
        q := q + [v];
      }
      i := i + 1;
    }
    SearchDone(t.forward, t.sccIdx, t.lowlink, m, c, q);
    q := q[1..];
  }

  /** Only membership in the component matters for walks. */
  lemma {:induction false} NearSame(fwd: seq<seq<Relation>>, idx: seq<int>, z: seq<int>, c: int, d: int, v: nat, k: nat)
    requires |idx| == |z| && forall u :: 0 <= u < |idx| ==> (idx[u] == c <==> z[u] == d)
    ensures Near(fwd, idx, c, v, k) <==> Near(fwd, z, d, v, k)
    decreases k
  {
    if k == 0 {
      assert forall r: Relation :: IsPrereq(r, idx, c) <==> IsPrereq(r, z, d);
    } else {
      var j := k - 1;
      forall u: nat ensures Near(fwd, idx, c, u, j) <==> Near(fwd, z, d, u, j) { NearSame(fwd, idx, z, c, d, u, j); }
    }
  }

  lemma {:induction false} FarSame(fwd: seq<seq<Relation>>, idx: seq<int>, z: seq<int>, c: int, d: int, v: nat, k: nat)
    requires |idx| == |z| && forall u :: 0 <= u < |idx| ==> (idx[u] == c <==> z[u] == d)
    ensures Far(fwd, idx, c, v, k) == Far(fwd, z, d, v, k)
    decreases INT_MAX - k
  {
    NearSame(fwd, idx, z, c, d, v, k);
    if k < INT_MAX { FarSame(fwd, idx, z, c, d, v, k + 1); }
  }

  lemma {:induction false} FarIs(fwd: seq<seq<Relation>>, idx: seq<int>, c: int, v: nat, k: nat, d: int)
    requires k <= d <= INT_MAX && (d == INT_MAX || Near(fwd, idx, c, v, d)) && forall j: nat :: Near(fwd, idx, c, v, j) ==> d <= j
    ensures Far(fwd, idx, c, v, k) == d
    decreases INT_MAX - k
  {
    if k < d { FarIs(fwd, idx, c, v, k + 1, d); }
  }

  /** Exact labels are the distances. */
  lemma LabelIs(fwd: seq<seq<Relation>>, idx: seq<int>, low: seq<int>, c: int, v: nat)
    requires |fwd| == |idx| == |low| && Distances(fwd, idx, low, c) && v < |idx| && idx[v] == c
    ensures low[v] == Distance(fwd, idx, c, v)
  {
    FarIs(fwd, idx, c, v, 0, low[v]);
  }

  /** The distance is the length of a shortest walk, or INT_MAX if no walk is shorter than that. */
  lemma {:induction false} FarLeast(fwd: seq<seq<Relation>>, idx: seq<int>, c: int, v: nat, k: nat)
    requires k <= INT_MAX
    ensures var d := Far(fwd, idx, c, v, k);
            k <= d <= INT_MAX && (d < INT_MAX ==> Near(fwd, idx, c, v, d)) && forall j :: k <= j < d ==> !Near(fwd, idx, c, v, j)
    decreases INT_MAX - k
  {
    if k < INT_MAX { FarLeast(fwd, idx, c, v, k + 1); }
  }
}
