/** The whole of rpmtsOrder(): record, find components, collect (lib/order.cc:525-634). */
module OrderTransaction {
  import opened OrderGraph
  import opened OrderCount
  import opened OrderState
  import opened OrderRelations
  import T = OrderTarjan
  import opened OrderQueue
  import opened OrderCollectSpec
  import opened OrderCollect
  import opened OrderRun
  import opened OrderLoops

  // ---- From the recorded relations to the counters.

  ghost function SumTo(rels: seq<Relation>, n: nat): nat {
    if n == 0 then 0 else SumTo(rels, n - 1) + |FlagsTo(rels, n - 1)|
  }

  lemma {:induction false} SumStep(rels: seq<Relation>, n: nat)
    requires rels != []
    ensures SumTo(rels, n) == SumTo(rels[1..], n) + if rels[0].suc < n then 1 else 0
  {
    if n > 0 {
      SumStep(rels, n - 1);
      FlagsStep(rels, n - 1);
    }
  }

  lemma {:induction false} SumNone(n: nat)
    ensures SumTo([], n) == 0
  {
    if n > 0 { SumNone(n - 1); }
  }

  lemma {:induction false} SumAll(rels: seq<Relation>, n: nat)
    requires forall i :: 0 <= i < |rels| ==> rels[i].suc < n
    ensures SumTo(rels, n) == |rels|
  {
    if rels == [] {
      SumNone(n);
    } else {
      SumStep(rels, n);
      SumAll(rels[1..], n);
    }
  }

  lemma {:induction false} FlagsHits(rels: seq<Relation>, p: nat)
    ensures |FlagsTo(rels, p)| == Hits(Sucs(rels), {p})
  {
    if rels != [] {
      FlagsHits(rels[1..], p);
      FlagsStep(rels, p);
      assert Sucs(rels)[1..] == Sucs(rels[1..]);
    }
  }

  lemma {:induction false} EnterFlags(rels: seq<seq<Relation>>, fwd: seq<seq<Relation>>, p: nat, n: nat)
    requires |rels| == |fwd| && Mirror(rels, fwd) && p < |rels| && n <= |rels|
    ensures Enter(GraphOf(rels), {}, {p}, n) == SumTo(fwd[p], n)
  {
    if n > 0 {
      EnterFlags(rels, fwd, p, n - 1);
      FlagsHits(rels[n - 1], p);
      assert FlagsTo(rels[n - 1], p) == FlagsTo(fwd[p], n - 1);
    }
  }

  /** The mirrored lists make tsi_count the number of entries for an element in the whole graph. */
  lemma LinkedCounted(rels: seq<seq<Relation>>, fwd: seq<seq<Relation>>, count: seq<int>, qcnt: seq<int>)
    requires Linked(rels, fwd, count, qcnt)
    ensures Closed(GraphOf(rels)) && Counted(GraphOf(rels), count) && ForwardOk(fwd, |rels|)
  {
    var g := GraphOf(rels);
    forall u, i | 0 <= u < |g| && 0 <= i < |g[u]| ensures g[u][i] < |g| && g[u][i] != u {
      assert g[u][i] == rels[u][i].suc;
    }
    forall p | 0 <= p < |g| ensures count[p] == Enter(g, {}, {p}, |g|) {
      EnterFlags(rels, fwd, p, |rels|);
      SumAll(fwd[p], |rels|);
    }
  }

  // ---- From the components to the start of the collection.

  ghost predicate Typed(types: seq<ElementType>, g: Graph) {
    && |types| == |g|
    && forall u: nat, v: nat :: Edge(g, u, v) && v < |g| ==> types[u] == types[v] && types[u] != Restored
  }

  lemma {:induction false} ReachTyped(types: seq<ElementType>, g: Graph, u: nat, v: nat, k: nat)
    requires Typed(types, g) && Closed(g) && u < |g| && ReachIn(g, u, v, k)
    ensures v < |g| && types[u] == types[v] && (u != v ==> types[u] != Restored)
    decreases k
  {
    if k > 0 {
      var w :| Edge(g, u, w) && ReachIn(g, w, v, k - 1);
      ReachTyped(types, g, w, v, k - 1);
    }
  }

  lemma CompInner(e: Env, p: nat, r: nat)
    requires Closed(e.g) && ExactComps(e) && p < |e.g| && r < |e.g| && r != p && e.comp[r] == e.comp[p] >= 2
    requires forall u :: 0 <= u < |e.g| ==> u !in e.g[u]
    ensures HasInner(e, p)
  {
    assert Mutual(e.g, r, p);
    var k: nat :| ReachIn(e.g, r, p, k);
    var w := LastEdge(e.g, r, p, k);
    hide Reach;
    ReachEdge(e.g, w, p);
    ReachTrans(e.g, p, r, w);
    assert w < |e.g| && w != p;
    assert Mutual(e.g, w, p);
  }

  lemma CompTyped(types: seq<ElementType>, g: Graph, u: nat, v: nat)
    requires Typed(types, g) && Closed(g) && u < |g| && Mutual(g, u, v)
    ensures v < |g| && types[u] == types[v] && (u != v ==> types[u] != Restored)
  {
    var k: nat :| ReachIn(g, u, v, k);
    ReachTyped(types, g, u, v, k);
  }

  lemma MembersFrom(types: seq<ElementType>, g: Graph, comp: seq<int>, cnt: int, sccs: seq<Scc>)
    requires T.Components(g, comp, cnt, sccs)
    ensures MembersOk(Env(g, comp, cnt, types), sccs)
  {
    hide Mutual, Enter, Distinct;
    forall c | 2 <= c < cnt
      ensures sccs[c].members != [] && Distinct(sccs[c].members) && Elems(sccs[c].members) == Component(comp, c)
    {
      assert T.SccOk(g, comp, c, sccs[c]);
    }
  }

  lemma EnvFrom(types: seq<ElementType>, g: Graph, comp: seq<int>, cnt: int, sccs: seq<Scc>, count: seq<int>)
    requires Closed(g) && Typed(types, g) && Counted(g, count) && T.Components(g, comp, cnt, sccs)
    ensures var e := Env(g, comp, cnt, types); EnvOk(e) && ExactComps(e)
  {
    var e := Env(g, comp, cnt, types);
    ExactFrom(types, g, comp, cnt, sccs);
    assert forall u :: 0 <= u < |g| ==> u !in g[u] && 0 < comp[u] < cnt by { hide Mutual, Enter, T.SccsOk; }
    hide T.Components, Counted, Mutual;
    forall u: nat, v: nat | u < |g| && v < |g| && comp[u] == comp[v] >= 2 ensures types[u] == types[v] {
      if u != v {
        assert Mutual(g, u, v);
        CompTyped(types, g, u, v);
      }
    }
    hide ExactComps;
    forall p: nat | p < |g| && comp[p] >= 2 ensures HasInner(e, p) {
      OtherMember(g, comp, cnt, sccs, p);
      var r: nat :| r < |g| && r != p && comp[r] == comp[p];
      CompInner(e, p, r);
    }
    hide HasInner;
  }

  lemma ExactFrom(types: seq<ElementType>, g: Graph, comp: seq<int>, cnt: int, sccs: seq<Scc>)
    requires T.Components(g, comp, cnt, sccs)
    ensures ExactComps(Env(g, comp, cnt, types))
  {
    hide Mutual, T.SccsOk;
  }

  lemma OtherMember(g: Graph, comp: seq<int>, cnt: int, sccs: seq<Scc>, p: nat)
    requires T.Components(g, comp, cnt, sccs) && p < |g| && comp[p] >= 2
    ensures exists r: nat :: r < |g| && r != p && comp[r] == comp[p]
  {
    hide Mutual;
    var c := comp[p];
    assert T.SccOk(g, comp, c, sccs[c]);
    var m := sccs[c].members;
    assert m[0] in Elems(m) && m[1] in Elems(m);
  }

  lemma StartWork(e: Env, sccs: seq<Scc>, count: seq<int>, suc: seq<int>)
    requires EnvOk(e) && Counted(e.g, count) && T.Components(e.g, e.comp, e.cnt, sccs)
    requires |suc| == |e.g| && forall u :: 0 <= u < |suc| ==> suc[u] == -1
    ensures Idle(e, Work(e.g, e.comp, count, sccs), suc) && OrderOk(e, e.comp, [])
  {
    hide Mutual;
    forall c | 2 <= c < e.cnt ensures sccs[c].count == Open(e.g, Component(e.comp, c)) {
      assert T.SccOk(e.g, e.comp, c, sccs[c]);
    }
  }

  // ---- The whole ordering.

  /** Dependencies are resolved among elements of the same type; restored elements have none. */
  ghost predicate RequestsOk(types: seq<ElementType>, requests: seq<Request>) {
    forall i :: 0 <= i < |requests| ==> RequestOk(types, requests[i])
  }

  ghost predicate RequestOk(types: seq<ElementType>, r: Request) {
    && r.p < |types| && -1 <= r.q < |types|
    && types[r.p] != Restored && (r.q >= 0 ==> types[r.q] == types[r.p])
  }

  function Phase(ty: ElementType): nat {
    match ty case Restored => 0 case Added => 1 case Removed => 2
  }

  ghost predicate Before(order: seq<nat>, a: nat, b: nat) {
    exists i, j :: 0 <= i < j < |order| && order[i] == a && order[j] == b
  }

  /** What rpmtsOrder() promises about the new order, for the recorded relations. */
  ghost predicate Ordered(types: seq<ElementType>, rels: seq<seq<Relation>>, order: seq<nat>) {
    var g := GraphOf(rels);
    // a permutation of the old order
    && |order| == |types| && Distinct(order) && (forall u: nat :: u < |types| <==> u in order)
    // restored elements, then installs, then erases
    && (forall i, j :: 0 <= i < j < |order| && order[i] < |types| && order[j] < |types| ==>
          Phase(types[order[i]]) <= Phase(types[order[j]]))
    // what is required comes first, except inside a dependency loop
    && (forall p: nat, q: nat :: Recorded(rels, p, q) && !Mutual(g, p, q) ==> Before(order, q, p))
    // a dependency loop is one contiguous block
    && (forall i, j, k :: 0 <= i < j < k < |order| && Mutual(g, order[i], order[k]) ==> Mutual(g, order[i], order[j]))
  }

  lemma PushTyped(types: seq<ElementType>, rels: seq<seq<Relation>>, r: Relation, at: nat)
    requires at < |rels| == |types| && r.suc < |types| && types[r.suc] == types[at] != Restored
    requires Typed(types, GraphOf(rels))
    ensures Typed(types, GraphOf(OrderRelations.Push(rels, at, r)))
  {
    var rels' := OrderRelations.Push(rels, at, r);
    assert Sucs(rels'[at]) == [r.suc] + Sucs(rels[at]);
    forall u: nat, v: nat | Edge(GraphOf(rels'), u, v) && v < |types| ensures types[u] == types[v] && types[u] != Restored {
      assert u != at ==> GraphOf(rels')[u] == GraphOf(rels)[u];
      assert u == at && v != r.suc ==> Edge(GraphOf(rels), u, v);
    }
  }

  lemma AddTyped(types: seq<ElementType>, l: Lists, r: Request, count: seq<int>, qcnt: seq<int>)
    requires Fits(types, l, r) && RequestOk(types, r) && Linked(l.rels, l.fwd, count, qcnt) && Typed(types, GraphOf(l.rels))
    ensures Typed(types, GraphOf(Add(types, l, r).rels))
  {
    if Counts(types, r) {
      AddRecorded(types, l, r, count, qcnt);
      if !Merged(types, l, r) {
        hide Typed, Linked, GraphOf;
        PushTyped(types, l.rels, Relation(Requirer(types, r), RelFlags(types[r.p], r.dep)), Provider(types, r));
      }
    }
  }

  /** No relations yet. */
  function NoLists(n: nat): Lists {
    Lists(seq(n, i => []), seq(n, i => []))
  }

  /** The relations rpmtsOrder() has recorded when it starts sorting. */
  ghost function Relations(types: seq<ElementType>, requests: seq<Request>): seq<seq<Relation>>
    requires RequestsOk(types, requests)
  {
    AddAll(types, NoLists(|types|), requests).rels
  }

  /** The same relations from the side of those that require. */
  ghost function Forwards(types: seq<ElementType>, requests: seq<Request>): seq<seq<Relation>>
    requires RequestsOk(types, requests)
  {
    AddAll(types, NoLists(|types|), requests).fwd
  }

  /** Records every request (lib/order.cc:546-567). */
  method RecordAll(t: Tsort, requests: seq<Request>)
    requires Linked(t.relations, t.forward, t.count, t.qcnt) && |t.relations| == |t.types|
    requires RequestsOk(t.types, requests) && Lists(t.relations, t.forward) == NoLists(|t.types|)
    requires Typed(t.types, GraphOf(t.relations))
    modifies t`relations, t`forward, t`count, t`qcnt
    ensures Linked(t.relations, t.forward, t.count, t.qcnt) && |t.relations| == |t.types|
    ensures Lists(t.relations, t.forward) == AddAll(t.types, NoLists(|t.types|), requests)
    ensures Typed(t.types, GraphOf(t.relations))
  {
    hide Linked, Typed, GraphOf, Add;
    ghost var l0 := NoLists(|t.types|);
    var i := 0;
    while i < |requests|
      invariant 0 <= i <= |requests| && Linked(t.relations, t.forward, t.count, t.qcnt)
      invariant |t.relations| == |t.forward| == |t.types|
      invariant Typed(t.types, GraphOf(t.relations))
      invariant Lists(t.relations, t.forward) == AddAll(t.types, l0, requests[..i])
    {
      assert requests[..i + 1][..i] == requests[..i];
      AddTyped(t.types, Lists(t.relations, t.forward), requests[i], t.count, t.qcnt);
      AddSingleRelation(t, requests[i]);
      i := i + 1;
    }
    assert requests[..i] == requests;
  }

  lemma {:induction false} DistinctSize(s: seq<nat>)
    requires Distinct(s)
    ensures |Elems(s)| == |s|
  {
    if s != [] {
      var n := |s| - 1;
      DistinctSize(s[..n]);
      assert s == s[..n] + [s[n]];
      assert Elems(s) == Elems(s[..n]) + {s[n]};
    }
  }

  /** All elements, restored ones in front, each once. */
  lemma Permutes(types: seq<ElementType>, restored: seq<nat>, rest: seq<nat>)
    requires Distinct(restored) && Distinct(rest)
    requires forall u: nat :: u in restored <==> u < |types| && types[u] == Restored
    requires forall u: nat :: u in rest <==> u < |types| && types[u] != Restored
    ensures var order := restored + rest;
            |order| == |types| && Distinct(order) && forall u: nat :: u < |types| <==> u in order
  {
    var order := restored + rest;
    forall i, j | 0 <= i < j < |order| ensures order[i] != order[j] {
      if i < |restored| <= j {
        assert order[i] in restored && order[j] in rest;
      }
    }
    assert Elems(order) == Below(|types|);
    DistinctSize(order);
  }

  lemma PhasesUp(types: seq<ElementType>, restored: seq<nat>, added: seq<nat>, rest: seq<nat>)
    requires added <= rest
    requires forall i :: 0 <= i < |restored| ==> restored[i] < |types| && types[restored[i]] == Restored
    requires forall i :: 0 <= i < |added| ==> added[i] < |types| && types[added[i]] == Added
    requires forall i :: |added| <= i < |rest| ==> rest[i] < |types| && types[rest[i]] == Removed
    ensures var order := restored + rest;
            forall i, j :: 0 <= i < j < |order| && order[i] < |types| && order[j] < |types| ==>
              Phase(types[order[i]]) <= Phase(types[order[j]])
  {
  }

  lemma RequiredFirst(e: Env, rels: seq<seq<Relation>>, idx: seq<int>, restored: seq<nat>, rest: seq<nat>, p: nat, q: nat)
    requires ExactComps(e) && Closed(e.g) && Typed(e.types, e.g) && OrderOk(e, idx, rest) && e.g == GraphOf(rels)
    requires forall u: nat :: u < |e.types| && e.types[u] != Restored ==> idx[u] == 0
    requires Recorded(rels, p, q) && !Mutual(e.g, p, q)
    ensures Before(restored + rest, q, p)
  {
    hide Reach;
    assert Edge(e.g, q, p);
    assert p in rest;
    var j :| 0 <= j < |rest| && rest[j] == p;
    if q == p { ReachRefl(e.g, p); }
    assert !SameGroup(e, q, p);
    assert q in rest[..j];
    var i :| 0 <= i < j && rest[i] == q;
    var order := restored + rest;
    assert order[|restored| + i] == q && order[|restored| + j] == p;
  }

  lemma LoopsTogether(e: Env, restored: seq<nat>, rest: seq<nat>)
    requires EnvOk(e) && ExactComps(e) && Typed(e.types, e.g) && Blocks(e.comp, rest)
    requires forall u: nat :: u in restored <==> u < |e.types| && e.types[u] == Restored
    requires forall i :: 0 <= i < |rest| ==> rest[i] < |e.types| && e.types[rest[i]] != Restored
    requires Distinct(restored + rest)
    ensures var order := restored + rest;
            forall i, j, k :: 0 <= i < j < k < |order| && Mutual(e.g, order[i], order[k]) ==> Mutual(e.g, order[i], order[j])
  {
    hide Mutual, EnvOk, Typed, ExactComps, Blocks, Distinct;
    var order := restored + rest;
    forall i, j, k | 0 <= i < j < k < |order| && Mutual(e.g, order[i], order[k]) ensures Mutual(e.g, order[i], order[j]) {
      LoopTogether(e, restored, rest, i, j, k);
    }
  }

  lemma LoopTogether(e: Env, restored: seq<nat>, rest: seq<nat>, i: nat, j: nat, k: nat)
    requires EnvOk(e) && ExactComps(e) && Typed(e.types, e.g) && Blocks(e.comp, rest)
    requires forall u: nat :: u in restored <==> u < |e.types| && e.types[u] == Restored
    requires forall i :: 0 <= i < |rest| ==> rest[i] < |e.types| && e.types[rest[i]] != Restored
    requires Distinct(restored + rest) && i < j < k < |restored + rest|
    requires Mutual(e.g, (restored + rest)[i], (restored + rest)[k])
    ensures Mutual(e.g, (restored + rest)[i], (restored + rest)[j])
  {
    hide Mutual, Typed;
    var order, n := restored + rest, |restored|;
    assert i < n ==> order[i] in restored;
    CompTyped(e.types, e.g, order[i], order[k]);
    assert order[i] != order[k] && order[i] != order[j] && i >= n;
    assert e.comp[rest[i - n]] == e.comp[rest[k - n]] >= 2;
    assert e.comp[rest[j - n]] == e.comp[rest[i - n]];
  }

  /** Restored items first (lib/order.cc:576-582). */
  method CollectRestored(types: seq<ElementType>) returns (order: seq<nat>)
    ensures Distinct(order) && forall u: nat :: u in order <==> u < |types| && types[u] == Restored
  {
    order := [];
    var i := 0;
    while i < |types|
      invariant 0 <= i <= |types|
      invariant Distinct(order) && forall u: nat :: u in order <==> u < i && types[u] == Restored
    {
      if types[i] == Restored { order := order + [i]; }
      i := i + 1;
    }
  }

  lemma StartLinked(n: nat, types: seq<ElementType>)
    requires |types| == n
    ensures Linked(seq(n, i => []), seq(n, i => []), seq(n, i => 0), seq(n, i => 0))
    ensures Typed(types, GraphOf(seq(n, i => [])))
  {
  }

  /** After both runs. */
  lemma Finished(e: Env, rels: seq<seq<Relation>>, idx: seq<int>, restored: seq<nat>, added: seq<nat>, rest: seq<nat>)
    requires EnvOk(e) && ExactComps(e) && Typed(e.types, e.g) && e.g == GraphOf(rels) && |rels| == |e.types|
    requires OrderOk(e, idx, rest) && Blocks(e.comp, rest)
    requires forall u: nat :: u < |e.types| ==> (idx[u] == 0 <==> e.types[u] != Restored)
    requires Distinct(restored) && forall u: nat :: u in restored <==> u < |e.types| && e.types[u] == Restored
    requires added <= rest && forall i :: 0 <= i < |added| ==> added[i] < |e.types| && e.types[added[i]] == Added
    requires forall i :: |added| <= i < |rest| ==> rest[i] < |e.types| && e.types[rest[i]] == Removed
    ensures Ordered(e.types, rels, restored + rest)
  {
    hide Mutual, Edge, SameGroup, Recorded, Before;
    assert |e.g| == |e.types| == |idx| && Closed(e.g);
    assert forall u: nat :: u in rest <==> u < |e.types| && e.types[u] != Restored by {
      forall u | u in rest ensures u < |e.g| { var i :| 0 <= i < |rest| && rest[i] == u; }
    }
    Permutes(e.types, restored, rest);
    forall i | 0 <= i < |restored| ensures restored[i] < |e.types| && e.types[restored[i]] == Restored {
      assert restored[i] in restored;
    }
    PhasesUp(e.types, restored, added, rest);
    assert forall i :: 0 <= i < |rest| ==> rest[i] in rest;
    LoopsTogether(e, restored, rest);
    hide EnvOk, Blocks;
    forall p: nat, q: nat | Recorded(rels, p, q) && !Mutual(e.g, p, q) ensures Before(restored + rest, q, p) {
      RequiredFirst(e, rels, idx, restored, rest, p, q);
    }
  }

  /** rpmtsOrder(): for any elements and any same-type dependencies among them the new
      order is a permutation, typed phase by phase, with every recorded requirement
      first unless the two elements require each other, and loops kept together; each loop
      is broken at its member farthest from a prerequirer, again and again until nothing in
      it is left that waits for another member. */
  method RpmtsOrder(types: seq<ElementType>, colors: seq<nat>, prefcolor: nat, requests: seq<Request>)
    returns (order: seq<nat>)
    requires |types| == |colors| && RequestsOk(types, requests)
    ensures Ordered(types, Relations(types, requests), order)
    ensures LoopsBroken(GraphOf(Relations(types, requests)), Forwards(types, requests), order)
  {
    hide Linked, Typed, Counted, Closed, T.Components, EnvOk, ExactComps, MembersOk, Idle, OrderOk, Blocks, Ran,
         Ordered, EntriesOk, Mirror, ForwardOk, GraphOf, RequestsOk, Broken, LoopsBroken, NoRelations;
    var t := new Tsort(types, colors);
    StartLinked(|types|, types);
    RecordAll(t, requests);
    ghost var rels, fwd := t.relations, t.forward;
    LinkedParts(rels, fwd, t.count, t.qcnt);
    LinkedCounted(rels, fwd, t.count, t.qcnt);
    ghost var g := GraphOf(rels);
    GraphSize(rels);
    var sccs;
    ghost var cnt;
    sccs, cnt := T.DetectSCCs(t, g);
    ghost var comp := t.sccIdx;
    ghost var e := Env(g, comp, cnt, types);
    EnvFrom(types, g, comp, cnt, sccs, t.count);
    MembersFrom(types, g, comp, cnt, sccs);
    StartWork(e, sccs, t.count, t.suc);
    CompsLive(e);
    var col := new Collector(sccs);
    var restored := CollectRestored(types);
    assert Blocks(comp, []) by { BlocksEmpty(comp); }
    assert Broken(e, t.forward, []) by { BrokenEmpty(e, t.forward); }
    ghost var rem := RunType(t, col, Added, prefcolor, e, g);
    ghost var added, idx1 := col.order, t.sccIdx;
    RanLive(e, comp, idx1);
    rem := RunType(t, col, Removed, prefcolor, e, rem);
    RanDone(e, comp, idx1, t.sccIdx);
    Finished(e, rels, t.sccIdx, restored, added, col.order);
    RestoredAlone(types, g, restored);
    BrokenLoops(e, fwd, t.sccIdx, restored, col.order);
    order := restored + col.order;
  }

  lemma LinkedParts(rels: seq<seq<Relation>>, fwd: seq<seq<Relation>>, count: seq<int>, qcnt: seq<int>)
    requires Linked(rels, fwd, count, qcnt)
    ensures |rels| == |fwd| == |count| == |qcnt|
  {
  }

  lemma GraphSize(rels: seq<seq<Relation>>)
    ensures |GraphOf(rels)| == |rels|
  {
  }

  lemma BrokenEmpty(e: Env, fwd: seq<seq<Relation>>)
    ensures Broken(e, fwd, [])
  {
  }

  lemma RestoredAlone(types: seq<ElementType>, g: Graph, restored: seq<nat>)
    requires Typed(types, g) && Closed(g) && forall u: nat :: u in restored <==> u < |types| && types[u] == Restored
    ensures NoRelations(g, restored)
  {
    forall u: nat, v: nat | u in restored && Mutual(g, u, v) ensures u == v { CompTyped(types, g, u, v); }
    hide Mutual;
    forall u: nat, v: nat | Edge(g, u, v) ensures u !in restored { assert v < |g|; }
  }

  lemma BlocksEmpty(comp: seq<int>)
    ensures Blocks(comp, [])
  {
  }

  lemma CompsLive(e: Env)
    requires EnvOk(e)
    ensures |e.comp| == |e.types| == |e.g| && forall u: nat :: u < |e.comp| ==> e.comp[u] != 0
  {
  }

  lemma RanLive(e: Env, comp: seq<int>, idx: seq<int>)
    requires Ran(e, comp, idx, Added) && |comp| == |e.types| && forall u: nat :: u < |comp| ==> comp[u] != 0
    ensures |idx| == |e.types| && forall u: nat :: u < |idx| ==> idx[u] == if e.types[u] == Added then 0 else comp[u]
  {
  }

  lemma RanDone(e: Env, comp: seq<int>, idx1: seq<int>, idx: seq<int>)
    requires Ran(e, comp, idx1, Added) && Ran(e, idx1, idx, Removed) && forall u: nat :: u < |comp| ==> comp[u] != 0
    ensures |idx| == |e.types| && forall u: nat :: u < |idx| ==> (idx[u] == 0 <==> e.types[u] != Restored)
  {
  }
}
