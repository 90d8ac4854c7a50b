/** The collection phase: collectTE(), collectSCC() and rpmtsOrder() (lib/order.cc:367-633). */
module OrderCollect {
  import opened OrderGraph
  import opened OrderCount
  import opened OrderState
  import opened OrderQueue
  import opened OrderCollectSpec
  import D = OrderDijkstra

  /** Elements outside every queue are not linked. */
  ghost predicate Fresh(e: Env, w: Work, suc: seq<int>, q: nat, m: seq<nat>, inner: seq<nat>)
    requires Sizes(e, w)
  {
    && |suc| == |e.g|
    && forall u: nat :: u < |e.g| && w.idx[u] != 0 && u !in m && u !in inner && u != q ==> suc[u] == -1
  }

  /** q is being collected: m is the queue of ready groups, inner that of freed members of q's component. */
  ghost predicate Mid(e: Env, w: Work, suc: seq<int>, q: nat, ty: ElementType, m: seq<nat>, inner: seq<nat>) {
    && EnvOk(e) && WorkOk(e, w, {q})
    && q < |e.g| && w.idx[q] != 0 && e.types[q] == ty
    && Whole(e, w, Group(e, q)) && IsReady(e, w.rem, q)
    && MainOk(e, w, m, Group(e, q), ty)
    && InnerOk(e, w, inner, Group(e, q)) && q !in inner
    && Fresh(e, w, suc, q, m, inner)
  }

  /** A component member queues its own kind behind itself and the rest outside;
      any other element has only the one queue. */
  ghost predicate Links(e: Env, suc: seq<int>, q: nat, outer: int, m: seq<nat>, inner: seq<nat>) {
    && q < |e.comp| == |suc|
    && if e.comp[q] > 1 then Chain(suc, suc[q], inner) && Chain(suc, outer, m)
       else inner == [] && Chain(suc, suc[q], m)
  }

  lemma Queues(e: Env, w: Work, suc: seq<int>, q: nat, ty: ElementType, m: seq<nat>, inner: seq<nat>)
    requires Mid(e, w, suc, q, ty, m, inner)
    ensures |e.comp| == |w.idx| == |w.rem| == |w.count| == |suc| == |e.types| == |e.g|
    ensures q !in m && q !in inner && q in Group(e, q)
    ensures forall i :: 0 <= i < |m| ==> m[i] !in Group(e, q) && m[i] < |e.g|
    ensures forall i :: 0 <= i < |inner| ==> inner[i] in Group(e, q) && inner[i] < |e.g|
    ensures Sizes(e, w)
  {
    hide Whole, Erased, CountsLeft, Settled, IsReady, HasRep;
  }

  /** The next entry of q's relations, and what erasing it does. */
  lemma Classify(e: Env, w: Work, suc: seq<int>, q: nat, ty: ElementType, m: seq<nat>, inner: seq<nat>)
    requires Mid(e, w, suc, q, ty, m, inner) && w.rem[q] != []
    ensures var p := w.rem[q][0];
            && p < |e.g| == |e.comp| && p != q && q < |w.rem|
            && (w.idx[p] == 0 ==> WorkOk(e, Skipped(w, q), {q}) && p in Group(e, q))
            && (w.idx[p] != 0 ==> ClassifyTarget(e, w, q, p, ty, inner))
  {
    var p := w.rem[q][0];
    assert Edge(w.rem, q, p) && Edge(e.g, q, p);
    hide MainOk, Whole, Fresh, Settled, IsReady;
    if w.idx[p] == 0 {
      SkipWork(e, w, q);
    } else {
      ClassifyLive(e, w, q, p, ty, inner);
    }
  }

  ghost predicate ClassifyTarget(e: Env, w: Work, q: nat, p: nat, ty: ElementType, inner: seq<nat>)
    requires q < |w.rem| && w.rem[q] != [] && p < |w.count| == |e.comp| && q < |e.comp|
  {
    && Sizes(e, w) && w.idx[p] == e.comp[p] && w.idx[q] == e.comp[q] && |e.types| == |e.comp|
    && 0 < e.comp[p] < |w.sccs| && 0 < e.comp[q] && e.types[p] == ty && p !in inner
    && var w' := Lowered(e, w, q, p);
    && WorkOk(e, w', {q})
    && (p in Group(e, q) <==> e.comp[p] == e.comp[q] > 1)
    && (e.comp[p] == 1 ==> (IsReady(e, w'.rem, p) <==> w'.count[p] == 0))
    && (e.comp[p] > 1 && p !in Group(e, q) ==>
          w'.count[p] != 0 && (IsReady(e, w'.rem, p) <==> w'.sccs[e.comp[p]].count == 0))
  }

  lemma ClassifyLive(e: Env, w: Work, q: nat, p: nat, ty: ElementType, inner: seq<nat>)
    requires EnvOk(e) && WorkOk(e, w, {q}) && q < |e.g| && w.idx[q] != 0 && e.types[q] == ty
    requires Whole(e, w, Group(e, q)) && InnerOk(e, w, inner, Group(e, q))
    requires w.rem[q] != [] && p == w.rem[q][0] && p < |e.g| && w.idx[p] != 0 && Edge(e.g, q, p)
    ensures ClassifyTarget(e, w, q, p, ty, inner)
  {
    LowerWork(e, w, q, p);
    var w' := Lowered(e, w, q, p);
    assert Sizes(e, w');
    InnerKeep(e, w, w', q, p, inner, Group(e, q));
    if e.comp[p] == 1 {
      SingleOpen(e, w', {q}, p);
    } else if p !in Group(e, q) {
      assert Group(e, p) == Component(e.comp, e.comp[p]);
      InnerHolds(e, w', q, p);
    }
  }

  /** The cases of one relation, on the ghost state. */
  lemma MidSkip(e: Env, w: Work, suc: seq<int>, q: nat, ty: ElementType, m: seq<nat>, inner: seq<nat>)
    requires Mid(e, w, suc, q, ty, m, inner) && w.rem[q] != [] && w.rem[q][0] < |e.g| && w.idx[w.rem[q][0]] == 0
    ensures q < |w.rem| && Mid(e, Skipped(w, q), suc, q, ty, m, inner)
  {
    Classify(e, w, suc, q, ty, m, inner);
    var w' := Skipped(w, q);
    hide WorkOk;
    assert Sizes(e, w) && Sizes(e, w') by { WorkSizes(e, w, {q}); WorkSizes(e, w', {q}); }
    MainKeep(e, w, w', q, m, ty);
    OpenDrop(e, w.rem, q, q);
    hide MainOk, IsReady;
  }

  lemma WorkSizes(e: Env, w: Work, mid: set<nat>)
    requires WorkOk(e, w, mid)
    ensures Sizes(e, w) && Erased(e, w, mid) && CountsLeft(e, w)
  {
  }

  lemma MidKeep(e: Env, w: Work, suc: seq<int>, q: nat, p: nat, ty: ElementType, m: seq<nat>, inner: seq<nat>)
    requires Mid(e, w, suc, q, ty, m, inner) && q < |w.rem| && w.rem[q] != [] && p == w.rem[q][0]
    requires p < |w.count| == |e.comp| && ClassifyTarget(e, w, q, p, ty, inner)
    requires p in Group(e, q) || !IsReady(e, Lowered(e, w, q, p).rem, p)
    ensures Mid(e, Lowered(e, w, q, p), suc, q, ty, m, inner)
  {
    var w' := Lowered(e, w, q, p);
    WorkSizes(e, w, {q});
    WorkSizes(e, w', {q});
    hide WorkOk, Erased;
    MainKeep(e, w, w', q, m, ty);
    InnerKeep(e, w, w', q, p, inner, Group(e, q));
    OpenDrop(e, w.rem, q, q);
    hide MainOk, IsReady, InnerOk;
  }

  lemma FreshInsert(e: Env, w: Work, w': Work, suc: seq<int>, suc': seq<int>, q: nat, m: seq<nat>, inner: seq<nat>,
                    k: nat, p: nat)
    requires Sizes(e, w) && Sizes(e, w') && Fresh(e, w, suc, q, m, inner) && w'.idx == w.idx && |suc'| == |suc|
    requires forall u: nat :: u < |suc| && u != p && u !in m && u !in inner && u != q ==> suc'[u] == suc[u]
    ensures k <= |m| ==> Fresh(e, w', suc', q, Insert(m, k, p), inner)
    ensures k <= |inner| ==> Fresh(e, w', suc', q, m, Insert(inner, k, p))
  {
    if k <= |m| { forall u ensures u in Insert(m, k, p) <==> u in m || u == p { InsertElems(m, k, p, u); } }
    if k <= |inner| { forall u ensures u in Insert(inner, k, p) <==> u in inner || u == p { InsertElems(inner, k, p, u); } }
  }

  lemma InsertElems(m: seq<nat>, k: nat, p: nat, u: nat)
    requires k <= |m|
    ensures u in Insert(m, k, p) <==> u in m || u == p
  {
    assert m == m[..k] + m[k..];
  }

  lemma MidMain(e: Env, w: Work, suc: seq<int>, suc': seq<int>, q: nat, p: nat, ty: ElementType,
                m: seq<nat>, inner: seq<nat>, k: nat)
    requires Mid(e, w, suc, q, ty, m, inner) && q < |w.rem| && w.rem[q] != [] && p == w.rem[q][0]
    requires p < |w.count| == |e.comp| && ClassifyTarget(e, w, q, p, ty, inner)
    requires p !in Group(e, q) && IsReady(e, Lowered(e, w, q, p).rem, p) && k <= |m|
    requires |suc'| == |suc| && forall u: nat :: u < |suc| && u != p && u !in m && u !in inner && u != q ==> suc'[u] == suc[u]
    ensures Mid(e, Lowered(e, w, q, p), suc', q, ty, Insert(m, k, p), inner)
  {
    var w' := Lowered(e, w, q, p);
    WorkSizes(e, w, {q});
    WorkSizes(e, w', {q});
    hide WorkOk, Erased;
    MainInsert(e, w, w', q, p, m, k, ty);
    InnerKeep(e, w, w', q, p, inner, Group(e, q));
    OpenDrop(e, w.rem, q, q);
    FreshInsert(e, w, w', suc, suc', q, m, inner, k, p);
    hide MainOk, InnerOk, Fresh;
  }

  lemma MidInner(e: Env, w: Work, suc: seq<int>, suc': seq<int>, q: nat, p: nat, ty: ElementType,
                 m: seq<nat>, inner: seq<nat>, k: nat)
    requires Mid(e, w, suc, q, ty, m, inner) && q < |w.rem| && w.rem[q] != [] && p == w.rem[q][0] && p != q
    requires p < |w.count| == |e.comp| && ClassifyTarget(e, w, q, p, ty, inner)
    requires p in Group(e, q) && Lowered(e, w, q, p).count[p] == 0 && k <= |inner|
    requires |suc'| == |suc| && forall u: nat :: u < |suc| && u != p && u !in m && u !in inner && u != q ==> suc'[u] == suc[u]
    ensures Mid(e, Lowered(e, w, q, p), suc', q, ty, m, Insert(inner, k, p))
  {
    var w' := Lowered(e, w, q, p);
    MidKeep(e, w, suc, q, p, ty, m, inner);
    WorkSizes(e, w, {q});
    WorkSizes(e, w', {q});
    hide WorkOk, Erased, MainOk, IsReady;
    InnerInsert(e, w', inner, k, p, Group(e, q));
    InsertElems(inner, k, p, q);
    FreshInsert(e, w, w', suc, suc', q, m, inner, k, p);
    hide InnerOk, Fresh;
  }

  lemma ChainFrame(suc: seq<int>, suc': seq<int>, head: int, m: seq<nat>)
    requires Chain(suc, head, m) && |suc'| == |suc|
    requires forall i :: 0 <= i < |m| && m[i] < |suc| ==> suc'[m[i]] == suc[m[i]]
    ensures Chain(suc', head, m)
  {
  }

  class Collector {
    var order: seq<nat>
    var sccs: seq<Scc>

    constructor (sccs: seq<Scc>)
      ensures order == [] && this.sccs == sccs
    {
      order, this.sccs := [], sccs;
    }
  }

  ghost function WorkOf(t: Tsort, col: Collector, rem: Graph): Work
    reads t, col
  {
    Work(rem, t.sccIdx, t.count, col.sccs)
  }

  /** addQ(p, &q->tsi_suc, ...): the queue hangs off q. */
  method AddTail(t: Tsort, q: nat, p: nat, end: int, prefcolor: nat, ghost tail: seq<nat>)
    returns (end': int, ghost k: nat)
    requires Sized(t) && q < |t.types| && p < |t.types| && p != q && q !in tail && p !in tail
    requires t.suc[p] == -1 && Chain(t.suc, t.suc[q], tail) && end != -1
    modifies t`suc, t`reqx
    ensures Sized(t) && k <= |tail| && end' != -1 && Chain(t.suc, t.suc[q], Insert(tail, k, p))
    ensures forall u: nat :: u < |t.suc| && u != p && u != q && u !in tail ==> t.suc[u] == old(t.suc)[u]
  {
    var head;
    head, end', k := AddQ(t, p, t.suc[q], end, prefcolor, tail);
    InsertElems(tail, k, p, q);
    ghost var suc' := t.suc[q := head];
    assert forall i :: 0 <= i <= |tail| && Insert(tail, k, p)[i] < |t.suc| ==>
             suc'[Insert(tail, k, p)[i]] == t.suc[Insert(tail, k, p)[i]];
    ChainFrame(t.suc, suc', head, Insert(tail, k, p));
    t.suc := t.suc[q := head];
  }

  /** The two queues, as one relation of q leaves them. */
  ghost predicate Stepped(e: Env, w: Work, suc: seq<int>, q: nat, ty: ElementType, outer: int,
                          m: seq<nat>, inner: seq<nat>) {
    Mid(e, w, suc, q, ty, m, inner) && Links(e, suc, q, outer, m, inner) && AllFreed(e, w, inner, Group(e, q), q)
  }

  /** A counter that does not reach 0, or is none of the component, frees nothing. */
  lemma FreedKeep(e: Env, w: Work, q: nat, p: nat, inner: seq<nat>, cur: set<nat>)
    requires Sizes(e, w) && AllFreed(e, w, inner, cur, q)
    requires q < |w.rem| && w.rem[q] != [] && p < |w.count| == |e.comp| && q < |e.comp| && (2 <= e.comp[p] ==> e.comp[p] < |w.sccs|)
    requires p in cur ==> Lowered(e, w, q, p).count[p] != 0
    requires Sizes(e, Lowered(e, w, q, p))
    ensures AllFreed(e, Lowered(e, w, q, p), inner, cur, q)
  {
  }

  lemma FreedInsert(e: Env, w: Work, q: nat, p: nat, inner: seq<nat>, k: nat, cur: set<nat>)
    requires Sizes(e, w) && AllFreed(e, w, inner, cur, q) && k <= |inner|
    requires q < |w.rem| && w.rem[q] != [] && p < |w.count| == |e.comp| && q < |e.comp| && (2 <= e.comp[p] ==> e.comp[p] < |w.sccs|)
    requires Sizes(e, Lowered(e, w, q, p))
    ensures AllFreed(e, Lowered(e, w, q, p), Insert(inner, k, p), cur, q)
  {
    forall u ensures u in Insert(inner, k, p) <==> u in inner || u == p { InsertElems(inner, k, p, u); }
  }

  lemma MidSizes(e: Env, w: Work, suc: seq<int>, q: nat, ty: ElementType, m: seq<nat>, inner: seq<nat>)
    requires Mid(e, w, suc, q, ty, m, inner)
    ensures Sizes(e, w)
  {
  }

  lemma LiveFresh(e: Env, w: Work, suc: seq<int>, q: nat, p: nat, ty: ElementType, m: seq<nat>, inner: seq<nat>)
    requires Mid(e, w, suc, q, ty, m, inner) && q < |w.rem| && w.rem[q] != [] && p == w.rem[q][0] && p != q
    requires p < |w.count| == |e.comp| && ClassifyTarget(e, w, q, p, ty, inner)
    ensures |suc| == |e.comp| && q < |suc| && p !in inner
    ensures p in Group(e, q) || IsReady(e, Lowered(e, w, q, p).rem, p) ==> p !in m && suc[p] == -1
  {
    Queues(e, w, suc, q, ty, m, inner);
    if p !in Group(e, q) && IsReady(e, Lowered(e, w, q, p).rem, p) {
      WorkSizes(e, Lowered(e, w, q, p), {q});
      hide WorkOk;
      MainInsert(e, w, Lowered(e, w, q, p), q, p, m, 0, ty);
    }
    hide MainOk, WorkOk, IsReady;
  }

  /** p is the target of the next relation of q, and not collected. */
  ghost predicate Target(e: Env, w: Work, q: nat, p: nat, ty: ElementType, inner: seq<nat>) {
    && q < |w.rem| && w.rem[q] != [] && p == w.rem[q][0] && p != q
    && p < |w.count| == |e.comp| && q < |e.comp|
    && ClassifyTarget(e, w, q, p, ty, inner)
  }

  method PutOuter(t: Tsort, q: nat, p: nat, prefcolor: nat, outer: int, outerEnd: int,
                  ghost e: Env, ghost w: Work, ghost ty: ElementType, ghost m: seq<nat>, ghost inner: seq<nat>)
    returns (outer': int, outerEnd': int, ghost m': seq<nat>)
    requires Sized(t) && outerEnd != -1 && |t.types| == |e.comp|
    requires Stepped(e, w, t.suc, q, ty, outer, m, inner) && Target(e, w, q, p, ty, inner)
    requires e.comp[q] > 1 && p !in Group(e, q) && IsReady(e, Lowered(e, w, q, p).rem, p)
    modifies t`suc, t`reqx
    ensures Sized(t) && outerEnd' != -1
    ensures Stepped(e, Lowered(e, w, q, p), t.suc, q, ty, outer', m', inner)
  {
    ghost var suc := t.suc;
    Queues(e, w, suc, q, ty, m, inner);
    LiveFresh(e, w, suc, q, p, ty, m, inner);
    MidSizes(e, w, suc, q, ty, m, inner);
    hide Mid, IsReady, ClassifyTarget, AllFreed;
    ghost var k;
    outer', outerEnd', k := AddQ(t, p, outer, outerEnd, prefcolor, m);
    MidMain(e, w, suc, t.suc, q, p, ty, m, inner, k);
    ChainFrame(suc, t.suc, t.suc[q], inner);
    m' := Insert(m, k, p);
    MidSizes(e, Lowered(e, w, q, p), t.suc, q, ty, m', inner);
    FreedKeep(e, w, q, p, inner, Group(e, q));
  }

  method PutTail(t: Tsort, q: nat, p: nat, prefcolor: nat, end: int, outer: int,
                 ghost e: Env, ghost w: Work, ghost ty: ElementType, ghost m: seq<nat>, ghost inner: seq<nat>)
    returns (end': int, ghost m': seq<nat>)
    requires Sized(t) && end != -1 && |t.types| == |e.comp|
    requires Stepped(e, w, t.suc, q, ty, outer, m, inner) && Target(e, w, q, p, ty, inner)
    requires e.comp[q] <= 1 && p !in Group(e, q) && IsReady(e, Lowered(e, w, q, p).rem, p)
    modifies t`suc, t`reqx
    ensures Sized(t) && end' != -1
    ensures Stepped(e, Lowered(e, w, q, p), t.suc, q, ty, outer, m', inner)
  {
    ghost var suc := t.suc;
    Queues(e, w, suc, q, ty, m, inner);
    LiveFresh(e, w, suc, q, p, ty, m, inner);
    MidSizes(e, w, suc, q, ty, m, inner);
    hide Mid, IsReady, ClassifyTarget, AllFreed;
    ghost var k;
    end', k := AddTail(t, q, p, end, prefcolor, m);
    MidMain(e, w, suc, t.suc, q, p, ty, m, inner, k);
    m' := Insert(m, k, p);
    MidSizes(e, Lowered(e, w, q, p), t.suc, q, ty, m', inner);
    FreedKeep(e, w, q, p, inner, Group(e, q));
  }

  method PutInner(t: Tsort, q: nat, p: nat, prefcolor: nat, end: int, outer: int,
                  ghost e: Env, ghost w: Work, ghost ty: ElementType, ghost m: seq<nat>, ghost inner: seq<nat>)
    returns (end': int, ghost inner': seq<nat>)
    requires Sized(t) && end != -1 && |t.types| == |e.comp|
    requires Stepped(e, w, t.suc, q, ty, outer, m, inner) && Target(e, w, q, p, ty, inner)
    requires e.comp[q] > 1 && p in Group(e, q) && Lowered(e, w, q, p).count[p] == 0
    modifies t`suc, t`reqx
    ensures Sized(t) && end' != -1
    ensures Stepped(e, Lowered(e, w, q, p), t.suc, q, ty, outer, m, inner')
  {
    ghost var suc := t.suc;
    Queues(e, w, suc, q, ty, m, inner);
    LiveFresh(e, w, suc, q, p, ty, m, inner);
    MidSizes(e, w, suc, q, ty, m, inner);
    hide Mid, IsReady, ClassifyTarget, AllFreed;
    ghost var k;
    end', k := AddTail(t, q, p, end, prefcolor, inner);
    MidInner(e, w, suc, t.suc, q, p, ty, m, inner, k);
    ChainFrame(suc, t.suc, outer, m);
    inner' := Insert(inner, k, p);
    MidSizes(e, Lowered(e, w, q, p), t.suc, q, ty, m, inner');
    FreedInsert(e, w, q, p, inner, k, Group(e, q));
  }

  lemma StepKeep(e: Env, w: Work, suc: seq<int>, q: nat, p: nat, ty: ElementType, outer: int, m: seq<nat>, inner: seq<nat>)
    requires Stepped(e, w, suc, q, ty, outer, m, inner) && Target(e, w, q, p, ty, inner)
    requires if p in Group(e, q) then Lowered(e, w, q, p).count[p] != 0 else !IsReady(e, Lowered(e, w, q, p).rem, p)
    ensures Stepped(e, Lowered(e, w, q, p), suc, q, ty, outer, m, inner)
  {
    MidSizes(e, w, suc, q, ty, m, inner);
    hide Mid, IsReady, ClassifyTarget, AllFreed;
    MidKeep(e, w, suc, q, p, ty, m, inner);
    MidSizes(e, Lowered(e, w, q, p), suc, q, ty, m, inner);
    FreedKeep(e, w, q, p, inner, Group(e, q));
  }

  /** What the code below branches on. */
  lemma TargetCases(e: Env, w: Work, q: nat, p: nat, ty: ElementType, inner: seq<nat>)
    requires Target(e, w, q, p, ty, inner)
    ensures w.idx[p] == e.comp[p] && w.idx[q] == e.comp[q] && 0 < e.comp[p] < |w.sccs| && 0 < e.comp[q]
    ensures |w.idx| == |e.comp|
    ensures p in Group(e, q) <==> e.comp[p] == e.comp[q] > 1
    ensures var w' := Lowered(e, w, q, p);
            && (e.comp[p] == 1 ==> (IsReady(e, w'.rem, p) <==> w'.count[p] == 0))
            && (e.comp[p] > 1 && p !in Group(e, q) ==>
                  w'.count[p] != 0 && (IsReady(e, w'.rem, p) <==> w'.sccs[e.comp[p]].count == 0))
  {
    hide WorkOk, IsReady;
  }

  /** One relation of q, towards an element p that is not collected: lib/order.cc:395-418. */
  method EraseLive(t: Tsort, col: Collector, q: nat, p: nat, prefcolor: nat, end: int, outer: int, outerEnd: int,
                   ghost e: Env, ghost rem: Graph, ghost ty: ElementType, ghost m: seq<nat>, ghost inner: seq<nat>)
    returns (end': int, outer': int, outerEnd': int, ghost m': seq<nat>, ghost inner': seq<nat>)
    requires Sized(t) && end != -1 && outerEnd != -1 && |t.types| == |e.comp|
    requires Stepped(e, WorkOf(t, col, rem), t.suc, q, ty, outer, m, inner)
    requires Target(e, WorkOf(t, col, rem), q, p, ty, inner)
    modifies t`count, t`suc, t`reqx, col`sccs
    ensures Sized(t) && end' != -1 && outerEnd' != -1
    ensures WorkOf(t, col, Drop(rem, q)) == Lowered(e, old(WorkOf(t, col, rem)), q, p)
    ensures Stepped(e, WorkOf(t, col, Drop(rem, q)), t.suc, q, ty, outer', m', inner')
  {
    ghost var w := WorkOf(t, col, rem);
    hide Stepped, ClassifyTarget, IsReady, Group;
    TargetCases(e, w, q, p, ty, inner);
    end', outer', outerEnd' := end, outer, outerEnd;
    m', inner' := m, inner;
    t.count := t.count[p := t.count[p] - 1];
    if t.count[p] == 0 {
      if t.sccIdx[q] > 1 && t.sccIdx[q] != t.sccIdx[p] {
        outer', outerEnd', m' := PutOuter(t, q, p, prefcolor, outer, outerEnd, e, w, ty, m, inner);
      } else if t.sccIdx[q] > 1 {
        end', inner' := PutInner(t, q, p, prefcolor, end, outer, e, w, ty, m, inner);
      } else {
        end', m' := PutTail(t, q, p, prefcolor, end, outer, e, w, ty, m, inner);
      }
    }
    if t.sccIdx[p] > 1 && t.sccIdx[p] != t.sccIdx[q] {
      var c := t.sccIdx[p];
      col.sccs := col.sccs[c := Scc(col.sccs[c].count - 1, col.sccs[c].members)];
      if col.sccs[c].count == 0 {
        if t.sccIdx[q] > 1 {
          outer', outerEnd', m' := PutOuter(t, q, p, prefcolor, outer', outerEnd', e, w, ty, m, inner);
        } else {
          end', m' := PutTail(t, q, p, prefcolor, end', outer, e, w, ty, m, inner);
        }
      } else {
        StepKeep(e, w, t.suc, q, p, ty, outer, m, inner);
      }
    } else if t.count[p] != 0 {
      StepKeep(e, w, t.suc, q, p, ty, outer, m, inner);
    }
  }

  /** The new order so far: the collected elements, each behind everything it
      requires outside its component. */
  ghost predicate OrderOk(e: Env, idx: seq<int>, order: seq<nat>) {
    && |idx| == |e.g| == |e.comp| && Distinct(order)
    && (forall i :: 0 <= i < |order| ==> order[i] < |e.g|)
    && (forall u: nat :: u < |e.g| ==> (u in order <==> idx[u] == 0))
    && (forall u: nat, j :: 0 <= j < |order| && u < |e.g| && Edge(e.g, u, order[j]) && !SameGroup(e, u, order[j]) ==>
          u in order[..j])
  }

  /** q has been collected. */
  ghost predicate After(e: Env, w: Work, suc: seq<int>, q: nat, ty: ElementType, m: seq<nat>, inner: seq<nat>) {
    && EnvOk(e) && WorkOk(e, w, {}) && q < |e.g| && w.idx[q] == 0
    && Whole(e, w, Group(e, q)) && IsReady(e, w.rem, q)
    && MainOk(e, w, m, Group(e, q), ty)
    && InnerOk(e, w, inner, Group(e, q)) && q !in inner
    && Fresh(e, w, suc, q, m, inner)
  }

  /** Nothing outside its group still holds a ready element back. */
  lemma ReadyClear(e: Env, rem: Graph, q: nat, u: nat)
    requires |rem| == |e.comp| && q < |e.comp| && IsReady(e, rem, q) && Edge(rem, u, q)
    ensures SameGroup(e, u, q)
  {
    if u !in Group(e, q) { EnterHas(rem, Group(e, q), Group(e, q), |rem|, u, q); }
  }

  lemma OrderPush(e: Env, w: Work, q: nat, order: seq<nat>)
    requires EnvOk(e) && Sizes(e, w) && Erased(e, w, {}) && q < |e.g| && w.idx[q] != 0 && IsReady(e, w.rem, q)
    requires OrderOk(e, w.idx, order)
    ensures OrderOk(e, w.idx[q := 0], order + [q])
  {
    var order' := order + [q];
    forall u: nat | u < |e.g| && Edge(e.g, u, q) && !SameGroup(e, u, q) ensures u in order {
      if w.idx[u] != 0 { ReadyClear(e, w.rem, q, u); }
    }
    hide IsReady, EnvOk, Erased, SameGroup;
    forall u: nat, j | 0 <= j < |order'| && u < |e.g| && Edge(e.g, u, order'[j]) && !SameGroup(e, u, order'[j])
      ensures u in order'[..j]
    {
      if j < |order| { assert order'[..j] == order[..j]; } else { assert order'[..j] == order; }
    }
  }

  lemma AfterDone(e: Env, w: Work, suc: seq<int>, q: nat, ty: ElementType, m: seq<nat>, inner: seq<nat>)
    requires Mid(e, w, suc, q, ty, m, inner) && w.rem[q] == []
    ensures After(e, w.(idx := w.idx[q := 0]), suc, q, ty, m, inner)
  {
    var w' := w.(idx := w.idx[q := 0]);
    Queues(e, w, suc, q, ty, m, inner);
    assert Sizes(e, w');
    assert WorkOk(e, w', {}) by {
      hide MainOk, InnerOk, Whole, Fresh, IsReady;
      forall u: nat | Edge(w.rem, u, q) ensures e.comp[u] == e.comp[q] >= 2 {
        ReadyClear(e, w.rem, q, u);
        assert Edge(e.g, u, q);
      }
    }
    hide WorkOk, IsReady, EnvOk;
    assert Whole(e, w', Group(e, q));
    hide Whole;
    AfterMain(e, w, w', m, Group(e, q), ty, q);
    hide MainOk;
  }

  lemma AfterMain(e: Env, w: Work, w': Work, m: seq<nat>, cur: set<nat>, ty: ElementType, q: nat)
    requires Sizes(e, w) && Sizes(e, w') && |e.types| == |e.g| && MainOk(e, w, m, cur, ty) && q in cur && q < |e.g|
    requires w'.rem == w.rem && w'.idx == w.idx[q := 0]
    ensures MainOk(e, w', m, cur, ty)
  {
    hide IsReady, HasRep;
    forall u: nat | u < |e.g| ensures Waiting(e, w', cur, ty, u) <==> Waiting(e, w, cur, ty, u) {}
  }

  /** Appends q to the new order and erases its relations (lib/order.cc:367-421). */
  method CollectTE(t: Tsort, col: Collector, q: nat, prefcolor: nat, end: int, outer: int, outerEnd: int,
                   ghost e: Env, ghost rem: Graph, ghost ty: ElementType, ghost m: seq<nat>, ghost inner: seq<nat>)
    returns (end': int, outer': int, outerEnd': int, ghost rem': Graph, ghost m': seq<nat>, ghost inner': seq<nat>)
    requires Sized(t) && end != -1 && outerEnd != -1 && |t.types| == |e.comp| && e.g == GraphOf(t.relations)
    requires Stepped(e, WorkOf(t, col, rem), t.suc, q, ty, outer, m, inner)
    requires WorkOk(e, WorkOf(t, col, rem), {}) && OrderOk(e, t.sccIdx, col.order)
    modifies t`count, t`suc, t`reqx, t`sccIdx, col
    ensures Sized(t) && end' != -1 && outerEnd' != -1
    ensures q < |old(t.sccIdx)| && t.sccIdx == old(t.sccIdx)[q := 0] && col.order == old(col.order) + [q]
    ensures SameMembers(old(col.sccs), col.sccs)
    ensures OrderOk(e, t.sccIdx, col.order)
    ensures After(e, WorkOf(t, col, rem'), t.suc, q, ty, m', inner')
    ensures Links(e, t.suc, q, outer', m', inner')
    ensures Freed(e, WorkOf(t, col, rem'), inner', q)
  {
    hide WorkOk, OrderOk, After, Stepped, Links, Target, Freed;
    StepStart(e, WorkOf(t, col, rem), t.suc, q, ty, outer, m, inner, col.order);
    SameMembersRefl(col.sccs);
    hide SameMembers;
    col.order := col.order + [q];
    end', outer', outerEnd', rem', m', inner' := end, outer, outerEnd, rem, m, inner;
    var i := 0;
    while i < |t.relations[q]|
      invariant 0 <= i <= |t.relations[q]| && Sized(t) && end' != -1 && outerEnd' != -1
      invariant Stepped(e, WorkOf(t, col, rem'), t.suc, q, ty, outer', m', inner')
      invariant q < |rem'| && rem'[q] == e.g[q][i..]
      invariant t.sccIdx == old(t.sccIdx) && col.order == old(col.order) + [q]
      invariant SameMembers(old(col.sccs), col.sccs)
    {
      var p := t.relations[q][i].suc;
      assert p == e.g[q][i] && rem'[q] == [p] + e.g[q][i + 1..] && rem'[q][1..] == e.g[q][i + 1..];
      ghost var w1 := WorkOf(t, col, rem');
      StepClassify(e, w1, t.suc, q, ty, outer', m', inner');
      if t.sccIdx[p] == 0 || p == q {
        StepSkip(e, w1, t.suc, q, ty, outer', m', inner');
      } else {
        end', outer', outerEnd', m', inner' :=
          EraseLive(t, col, q, p, prefcolor, end', outer', outerEnd', e, rem', ty, m', inner');
        LoweredMembers(e, w1, q, p);
        SameMembersTrans(old(col.sccs), w1.sccs, col.sccs);
      }
      rem' := Drop(rem', q);
      i := i + 1;
    }
    StepDone(e, WorkOf(t, col, rem'), t.suc, q, ty, outer', m', inner');
    t.sccIdx := t.sccIdx[q := 0];
  }

  /** All members of q's component that its collection freed are queued. */
  ghost predicate Freed(e: Env, w: Work, inner: seq<nat>, q: nat) {
    Sizes(e, w) && q < |e.comp| && AllFreed(e, w, inner, Group(e, q), q)
  }

  ghost predicate SameMembers(a: seq<Scc>, b: seq<Scc>) {
    |a| == |b| && forall c :: 0 <= c < |a| ==> a[c].members == b[c].members
  }

  lemma LoweredMembers(e: Env, w: Work, q: nat, p: nat)
    requires q < |w.rem| && w.rem[q] != [] && p < |w.count| == |e.comp| && q < |e.comp|
    requires 2 <= e.comp[p] ==> e.comp[p] < |w.sccs|
    ensures SameMembers(w.sccs, Lowered(e, w, q, p).sccs)
  {
  }

  lemma SameMembersRefl(a: seq<Scc>)
    ensures SameMembers(a, a)
  {
  }

  lemma SameMembersTrans(a: seq<Scc>, b: seq<Scc>, c: seq<Scc>)
    requires SameMembers(a, b) && SameMembers(b, c)
    ensures SameMembers(a, c)
  {
  }

  lemma StepStart(e: Env, w: Work, suc: seq<int>, q: nat, ty: ElementType, outer: int,
                  m: seq<nat>, inner: seq<nat>, order: seq<nat>)
    requires Stepped(e, w, suc, q, ty, outer, m, inner) && WorkOk(e, w, {}) && OrderOk(e, w.idx, order)
    ensures q < |w.idx| == |e.g| == |w.rem| && w.rem[q] == e.g[q]
    ensures OrderOk(e, w.idx[q := 0], order + [q])
  {
    hide MainOk, InnerOk, Fresh, Whole, OrderOk, IsReady, Links;
    OrderPush(e, w, q, order);
  }

  lemma StepClassify(e: Env, w: Work, suc: seq<int>, q: nat, ty: ElementType, outer: int, m: seq<nat>, inner: seq<nat>)
    requires Stepped(e, w, suc, q, ty, outer, m, inner) && q < |w.rem| && w.rem[q] != []
    ensures var p := w.rem[q][0];
            && p < |w.idx| == |w.count| == |e.comp| && p != q && q < |e.comp|
            && (w.idx[p] != 0 ==> Target(e, w, q, p, ty, inner) && (2 <= e.comp[p] ==> e.comp[p] < |w.sccs|))
  {
    Queues(e, w, suc, q, ty, m, inner);
    Classify(e, w, suc, q, ty, m, inner);
    hide Mid, Links;
  }

  lemma StepSkip(e: Env, w: Work, suc: seq<int>, q: nat, ty: ElementType, outer: int, m: seq<nat>, inner: seq<nat>)
    requires Stepped(e, w, suc, q, ty, outer, m, inner) && q < |w.rem| && w.rem[q] != []
    requires w.rem[q][0] < |w.idx| && w.idx[w.rem[q][0]] == 0
    ensures Stepped(e, Skipped(w, q), suc, q, ty, outer, m, inner)
  {
    Queues(e, w, suc, q, ty, m, inner);
    MidSkip(e, w, suc, q, ty, m, inner);
    MidSizes(e, Skipped(w, q), suc, q, ty, m, inner);
    hide Mid, Links;
  }

  lemma StepDone(e: Env, w: Work, suc: seq<int>, q: nat, ty: ElementType, outer: int, m: seq<nat>, inner: seq<nat>)
    requires Stepped(e, w, suc, q, ty, outer, m, inner) && q < |w.rem| && w.rem[q] == []
    ensures q < |w.idx| && After(e, w.(idx := w.idx[q := 0]), suc, q, ty, m, inner)
    ensures Links(e, suc, q, outer, m, inner)
    ensures Freed(e, w.(idx := w.idx[q := 0]), inner, q)
  {
    Queues(e, w, suc, q, ty, m, inner);
    AfterDone(e, w, suc, q, ty, m, inner);
    hide Mid, After, Links;
  }

  ghost function Live(idx: seq<int>): set<nat> {
    set u: nat | u < |idx| && idx[u] != 0
  }

  /** Between two rounds of collectSCC: the component of p is being collected. */
  ghost predicate SccRest(e: Env, w: Work, suc: seq<int>, p: nat, ty: ElementType, m: seq<nat>) {
    && EnvOk(e) && WorkOk(e, w, {}) && p < |e.g| && e.types[p] == ty
    && Whole(e, w, Group(e, p)) && IsReady(e, w.rem, p)
    && MainOk(e, w, m, Group(e, p), ty)
    && Unlinked(e, w, suc, m)
    && forall u: nat :: u in Group(e, p) && u < |e.g| && w.idx[u] != 0 ==> w.count[u] != 0
  }

  ghost predicate Unlinked(e: Env, w: Work, suc: seq<int>, m: seq<nat>)
    requires Sizes(e, w)
  {
    && |suc| == |e.g|
    && forall u: nat :: u < |e.g| && w.idx[u] != 0 && u !in m ==> suc[u] == -1
  }

  /** A round starts with any live member. */
  lemma RoundStart(e: Env, w: Work, suc: seq<int>, p: nat, ty: ElementType, m: seq<nat>, outer: int, best: nat)
    requires SccRest(e, w, suc, p, ty, m) && Chain(suc, outer, m) && e.comp[p] > 1
    requires best < |w.idx| && w.idx[best] != 0 && best in Group(e, p)
    ensures best < |suc| && suc[best] == -1 && Group(e, best) == Group(e, p)
    ensures Stepped(e, w, suc, best, ty, outer, m, [])
  {
    assert Group(e, best) == Group(e, p) by { GroupEq(e, p, best); }
    assert best !in m by { hide IsReady, HasRep; }
    SameTypes(e, p, best);
    hide MainOk, Settled, CountsLeft, Whole, EnvOk;
    assert suc[best] == -1;
    assert Chain(suc, -1, []);
    assert InnerOk(e, w, [], Group(e, best));
  }

  /** Elements of one component have one type. */
  lemma SameTypes(e: Env, u: nat, v: nat)
    requires EnvOk(e) && u < |e.g| && v < |e.g| && SameGroup(e, u, v)
    ensures e.types[u] == e.types[v]
  {
  }

  /** The next member of the inner queue. */
  lemma RoundNext(e: Env, w: Work, suc: seq<int>, q: nat, ty: ElementType, outer: int, m: seq<nat>, inner: seq<nat>)
    requires After(e, w, suc, q, ty, m, inner) && Links(e, suc, q, outer, m, inner) && inner != [] && e.comp[q] > 1
    requires e.types[q] == ty && Freed(e, w, inner, q)
    ensures suc[q] == inner[0] < |e.g| && Group(e, inner[0]) == Group(e, q)
    ensures Stepped(e, w, suc, inner[0], ty, outer, m, inner[1..])
  {
    var r := inner[0];
    assert r in Group(e, q) && w.idx[r] != 0;
    GroupEq(e, q, r);
    SameTypes(e, q, r);
    hide MainOk, Settled, CountsLeft, Whole, EnvOk, IsReady;
    ChainTail(suc, suc[q], inner);
    hide Chain;
    assert forall i :: 0 <= i < |inner[1..]| ==> inner[1..][i] == inner[i + 1];
    assert InnerOk(e, w, inner[1..], Group(e, r));
    assert forall u :: u in inner <==> u == r || u in inner[1..];
  }

  /** The inner queue is empty: the round is over. */
  lemma RoundEnd(e: Env, w: Work, suc: seq<int>, q: nat, ty: ElementType, outer: int, m: seq<nat>, p: nat)
    requires After(e, w, suc, q, ty, m, []) && Links(e, suc, q, outer, m, []) && e.comp[q] > 1 && e.types[q] == ty
    requires p < |e.comp| && q in Group(e, p) && Freed(e, w, [], q)
    ensures suc[q] == -1 && SccRest(e, w, suc, p, ty, m) && Chain(suc, outer, m)
  {
    GroupEq(e, p, q);
    SameTypes(e, p, q);
    hide MainOk, WorkOk, Whole, EnvOk, IsReady;
  }

  lemma AfterTypes(e: Env, w: Work, suc: seq<int>, q: nat, ty: ElementType, m: seq<nat>, inner: seq<nat>, outer: int)
    requires Stepped(e, w, suc, q, ty, outer, m, inner)
    ensures q < |e.comp| == |e.types| == |w.idx| == |suc| && e.types[q] == ty && w.idx[q] != 0
  {
  }

  /** Collects q and every member its collection frees in turn (lib/order.cc:509-518). */
  method CollectRound(t: Tsort, col: Collector, best: nat, prefcolor: nat, outer: int, outerEnd: int, ghost p: nat,
                      ghost e: Env, ghost rem: Graph, ghost ty: ElementType, ghost m: seq<nat>)
    returns (outer': int, outerEnd': int, ghost rem': Graph, ghost m': seq<nat>, ghost block: seq<nat>)
    requires Sized(t) && outerEnd != -1 && |t.types| == |e.comp| && e.g == GraphOf(t.relations)
    requires SccRest(e, WorkOf(t, col, rem), t.suc, p, ty, m) && Chain(t.suc, outer, m) && e.comp[p] > 1
    requires OrderOk(e, t.sccIdx, col.order) && Broken(e, t.forward, col.order)
    requires best < |t.sccIdx| && t.sccIdx[best] != 0 && best in Group(e, p) && Farthest(e, t.forward, t.sccIdx, p, best)
    modifies t`count, t`suc, t`reqx, t`sccIdx, col
    ensures Sized(t) && outerEnd' != -1 && SameMembers(old(col.sccs), col.sccs)
    ensures SccRest(e, WorkOf(t, col, rem'), t.suc, p, ty, m') && Chain(t.suc, outer', m')
    ensures OrderOk(e, t.sccIdx, col.order) && Broken(e, t.forward, col.order)
    ensures block != [] && block[0] == best
    ensures col.order == old(col.order) + block && forall u :: u in block ==> u in Group(e, p)
    ensures |t.sccIdx| == |old(t.sccIdx)| && Live(t.sccIdx) < Live(old(t.sccIdx))
    ensures forall u :: 0 <= u < |t.sccIdx| && u !in Group(e, p) ==> t.sccIdx[u] == old(t.sccIdx)[u]
  {
    hide SccRest, OrderOk, Stepped, After, Links, WorkOk, Group, Freed, Broken, NextInLoop, Farthest;
    NextBest(e, WorkOf(t, col, rem), t.suc, p, ty, m, t.forward, col.order, best);
    SameMembersRefl(col.sccs);
    hide SameMembers;
    RestWork(e, WorkOf(t, col, rem), t.suc, p, ty, m);
    RoundStart(e, WorkOf(t, col, rem), t.suc, p, ty, m, outer, best);
    ghost var k;
    ghost var inner := [];
    var start, end;
    start, end, k := AddQ(t, best, -1, -1, prefcolor, []);
    outer', outerEnd', rem', m', block := outer, outerEnd, rem, m, [];
    ghost var suc0 := t.suc;
    assert Insert([], k, best) == [best];
    AddFirst(old(t.suc), t.suc, best, start, k);
    while start != -1
      invariant Sized(t) && end != -1 && outerEnd' != -1 && SameMembers(old(col.sccs), col.sccs)
      invariant |t.sccIdx| == |old(t.sccIdx)| && OrderOk(e, t.sccIdx, col.order) && Broken(e, t.forward, col.order)
      invariant start >= 0 ==> NextInLoop(e, t.forward, col.order, start)
      invariant if block == [] then start == best else block[0] == best
      invariant start == -1 ==> block != []
      invariant start != -1 ==> 0 <= start < |e.comp| && start in Group(e, p) && Group(e, start) == Group(e, p)
      invariant start != -1 ==> Stepped(e, WorkOf(t, col, rem'), t.suc, start, ty, outer', m', inner)
      invariant start != -1 ==> WorkOk(e, WorkOf(t, col, rem'), {})
      invariant start == -1 ==> SccRest(e, WorkOf(t, col, rem'), t.suc, p, ty, m') && Chain(t.suc, outer', m')
      invariant col.order == old(col.order) + block && forall u :: u in block ==> u in Group(e, p)
      invariant Live(t.sccIdx) <= Live(old(t.sccIdx)) && (start == -1 || Live(t.sccIdx) < Live(old(t.sccIdx)) || start == best)
      invariant start == -1 ==> Live(t.sccIdx) < Live(old(t.sccIdx))
      invariant forall u :: 0 <= u < |t.sccIdx| && u !in Group(e, p) ==> t.sccIdx[u] == old(t.sccIdx)[u]
      decreases Live(t.sccIdx)
    {
      t.reqx := t.reqx[start := 0];
      AfterTypes(e, WorkOf(t, col, rem'), t.suc, start, ty, m', inner, outer');
      ghost var sccs1, idx1, order1 := col.sccs, t.sccIdx, col.order;
      end, outer', outerEnd', rem', m', inner :=
        CollectTE(t, col, start, prefcolor, end, outer', outerEnd', e, rem', ty, m', inner);
      SameMembersTrans(old(col.sccs), sccs1, col.sccs);
      BrokenPush(e, t.forward, order1, start);
      block := block + [start];
      assert start in Live(idx1) && start !in Live(t.sccIdx);
      GroupComp(e, p, start);
      if inner == [] {
        RoundEnd(e, WorkOf(t, col, rem'), t.suc, start, ty, outer', m', p);
      } else {
        RoundNext(e, WorkOf(t, col, rem'), t.suc, start, ty, outer', m', inner);
        AfterWork(e, WorkOf(t, col, rem'), t.suc, start, ty, m', inner);
        NextInner(e, WorkOf(t, col, rem'), t.suc, start, ty, m', inner, t.forward, col.order);
        SelfGroup(e, inner[0]);
        inner := inner[1..];
      }
      start := t.suc[start];
    }
  }

  /** None of the live members of p's component is farther from a prerequirer than best. */
  ghost predicate Farthest(e: Env, fwd: seq<seq<Relation>>, idx: seq<int>, p: nat, best: nat) {
    && p < |e.comp| == |idx|
    && forall u: nat :: u in Group(e, p) && u < |idx| && idx[u] != 0 ==>
         D.Distance(fwd, e.comp, e.comp[p], u) <= D.Distance(fwd, e.comp, e.comp[p], best)
  }

  /** A round may start with the farthest live member: nothing is free. */
  lemma NextBest(e: Env, w: Work, suc: seq<int>, p: nat, ty: ElementType, m: seq<nat>, fwd: seq<seq<Relation>>, order: seq<nat>, best: nat)
    requires SccRest(e, w, suc, p, ty, m) && OrderOk(e, w.idx, order) && e.comp[p] > 1
    requires best < |w.idx| && w.idx[best] != 0 && best in Group(e, p) && Farthest(e, fwd, w.idx, p, best)
    ensures NextInLoop(e, fwd, order, best)
  {
    hide MainOk, Whole, IsReady, Unlinked;
    forall u: nat | u < |e.comp| && e.comp[u] == e.comp[best] && u !in order
      ensures !Free(e.g, order, u) && D.Distance(fwd, e.comp, e.comp[best], u) <= D.Distance(fwd, e.comp, e.comp[best], best)
    {
      assert u in Group(e, p) && w.idx[u] != 0;
      FreeCount(e, w, order, u);
    }
  }

  lemma FreeCount(e: Env, w: Work, order: seq<nat>, u: nat)
    requires EnvOk(e) && WorkOk(e, w, {}) && OrderOk(e, w.idx, order) && u < |e.g| && w.idx[u] != 0
    ensures Free(e.g, order, u) <==> w.count[u] == 0
  {
    CountFree(e, w, u);
    hide WorkOk;
    assert forall x: nat :: Edge(e.g, x, u) ==> x < |e.g|;
  }

  /** Members of the inner queue are free. */
  lemma NextInner(e: Env, w: Work, suc: seq<int>, q: nat, ty: ElementType, m: seq<nat>, inner: seq<nat>, fwd: seq<seq<Relation>>, order: seq<nat>)
    requires After(e, w, suc, q, ty, m, inner) && inner != [] && OrderOk(e, w.idx, order)
    ensures NextInLoop(e, fwd, order, inner[0])
  {
    hide MainOk, Whole, IsReady, Fresh;
    FreeCount(e, w, order, inner[0]);
  }

  lemma RestWork(e: Env, w: Work, suc: seq<int>, p: nat, ty: ElementType, m: seq<nat>)
    requires SccRest(e, w, suc, p, ty, m)
    ensures WorkOk(e, w, {}) && |w.idx| == |e.comp| == |suc| == |e.g| == |e.types| && p < |e.comp|
  {
  }

  lemma AfterWork(e: Env, w: Work, suc: seq<int>, q: nat, ty: ElementType, m: seq<nat>, inner: seq<nat>)
    requires After(e, w, suc, q, ty, m, inner)
    ensures WorkOk(e, w, {})
  {
  }

  lemma SelfGroup(e: Env, u: nat)
    requires u < |e.comp|
    ensures u in Group(e, u)
  {
  }

  lemma GroupComp(e: Env, p: nat, u: nat)
    requires p < |e.comp| && u in Group(e, p)
    ensures u < |e.comp| && e.comp[u] == e.comp[p]
  {
  }

  lemma AddFirst(suc: seq<int>, suc': seq<int>, p: nat, head: int, k: nat)
    requires p < |suc| == |suc'| && suc[p] == -1 && k == 0 && Chain(suc', head, Insert([], k, p))
    requires forall u :: 0 <= u < |suc| && u != p ==> suc'[u] == suc[u]
    ensures head == p && suc' == suc
  {
    assert Insert([], k, p) == [p];
    assert Next([p], 0) == -1;
    assert [p][0] == p;
  }

  /** Between two elements of the outer queue. */
  ghost predicate Rest(e: Env, w: Work, suc: seq<int>, ty: ElementType, m: seq<nat>) {
    && EnvOk(e) && WorkOk(e, w, {}) && Whole(e, w, {})
    && MainOk(e, w, m, {}, ty) && Unlinked(e, w, suc, m)
  }

  lemma PopMain(e: Env, w: Work, ty: ElementType, q: nat, m: seq<nat>)
    requires Sizes(e, w) && |e.types| == |e.g| && MainOk(e, w, [q] + m, {}, ty)
    ensures q < |e.g| && w.idx[q] != 0 && e.types[q] == ty && IsReady(e, w.rem, q)
    ensures MainOk(e, w, m, Group(e, q), ty)
  {
    var all := [q] + m;
    assert Waiting(e, w, {}, ty, all[0]);
    var cur := Group(e, q);
    hide IsReady;
    forall i | 0 <= i < |m| ensures Waiting(e, w, cur, ty, m[i]) {
      assert all[i + 1] == m[i] && Waiting(e, w, {}, ty, all[i + 1]) && !SameGroup(e, all[0], all[i + 1]);
    }
    forall i, j | 0 <= i < j < |m| ensures m[i] < |e.comp| && m[j] < |e.comp| && !SameGroup(e, m[i], m[j]) {
      assert all[i + 1] == m[i] && all[j + 1] == m[j];
    }
    forall u: nat | u < |e.g| && Waiting(e, w, cur, ty, u) ensures HasRep(e, m, u) {
      assert Waiting(e, w, {}, ty, u);
      assert HasRep(e, all, u);
      var i :| 0 <= i < |all| && all[i] < |e.comp| && SameGroup(e, u, all[i]);
      assert i > 0 && m[i - 1] == all[i];
    }
  }

  lemma DoneMain(e: Env, w: Work, ty: ElementType, q: nat, m: seq<nat>)
    requires Sizes(e, w) && |e.types| == |e.g| && q < |e.g| && MainOk(e, w, m, Group(e, q), ty)
    requires forall u :: u in Group(e, q) ==> w.idx[u] == 0
    ensures MainOk(e, w, m, {}, ty) && (Whole(e, w, Group(e, q)) ==> Whole(e, w, {}))
  {
    hide IsReady, HasRep, SameGroup;
    forall u: nat | u < |e.g| ensures Waiting(e, w, {}, ty, u) <==> Waiting(e, w, Group(e, q), ty, u) {}
    assert Whole(e, w, Group(e, q)) ==> Whole(e, w, {}) by {
      hide MainOk, Waiting;
      GroupClosed(e, q);
    }
  }

  lemma GroupClosed(e: Env, q: nat)
    requires q < |e.comp|
    ensures forall u: nat, v: nat :: u in Group(e, q) && v < |e.comp| && e.comp[u] == e.comp[v] >= 2 ==> v in Group(e, q)
  {
  }

  lemma PopSingle(e: Env, w: Work, suc: seq<int>, ty: ElementType, q: nat, m: seq<nat>, outer: int)
    requires Rest(e, w, suc, ty, [q] + m) && Chain(suc, q, [q] + m) && q < |e.comp| && e.comp[q] == 1
    ensures Stepped(e, w, suc, q, ty, outer, m, [])
  {
    PopMain(e, w, ty, q, m);
    ChainTail(suc, q, [q] + m);
    assert ([q] + m)[1..] == m;
    hide MainOk, IsReady, HasRep, Settled, CountsLeft, EnvOk, Chain;
    assert Whole(e, w, Group(e, q));
  }

  /** Before a component is started its members hold each other back. */
  lemma HeldBack(e: Env, w: Work, u: nat)
    requires EnvOk(e) && WorkOk(e, w, {}) && Whole(e, w, {}) && u < |e.g| && w.idx[u] != 0 && e.comp[u] != 1
    ensures w.count[u] != 0
  {
    assert HasInner(e, u);
    var v: nat :| v < |e.g| && e.comp[v] == e.comp[u] && Edge(e.g, v, u);
    EnterHas(w.rem, {}, {u}, |w.rem|, v, u);
  }

  lemma PopComponent(e: Env, w: Work, suc: seq<int>, ty: ElementType, q: nat, m: seq<nat>)
    requires Rest(e, w, suc, ty, [q] + m) && Chain(suc, q, [q] + m) && q < |e.comp| && e.comp[q] > 1
    ensures q < |suc| && SccRest(e, w, suc[q := -1], q, ty, m) && Chain(suc[q := -1], suc[q], m)
    ensures forall u :: u in Group(e, q) ==> u < |w.idx| && w.idx[u] == e.comp[q]
  {
    PopMain(e, w, ty, q, m);
    ChainTail(suc, q, [q] + m);
    assert ([q] + m)[1..] == m;
    ChainFrame(suc, suc[q := -1], suc[q], m);
    forall u: nat | u in Group(e, q) && u < |e.g| && w.idx[u] != 0 ensures w.count[u] != 0 { HeldBack(e, w, u); }
    hide MainOk, IsReady, HasRep, Erased, Settled, CountsLeft, EnvOk, Chain;
    assert forall u: nat :: u < |e.g| && u in Group(e, q) && w.idx[u] == 0 ==> w.idx[q] == 0;
  }

  /** The next round breaks the cycle at the live member farthest from a prerequirer. */
  method SelectBest(t: Tsort, members: seq<nat>) returns (best: int)
    requires |t.sccIdx| == |t.lowlink|
    requires forall i :: 0 <= i < |members| ==> members[i] < |t.sccIdx| && t.lowlink[members[i]] >= 0
    ensures best == -1 ==> forall i :: 0 <= i < |members| ==> t.sccIdx[members[i]] == 0
    ensures best != -1 ==> 0 <= best < |t.sccIdx| && best in members && t.sccIdx[best] != 0
    ensures best != -1 ==> forall i :: 0 <= i < |members| && t.sccIdx[members[i]] != 0 ==> t.lowlink[members[i]] <= t.lowlink[best]
  {
    best := -1;
    var score := 0;
    var i := 0;
    while i < |members|
      invariant 0 <= i <= |members| && score >= 0
      invariant best == -1 ==> score == 0 && forall j :: 0 <= j < i ==> t.sccIdx[members[j]] == 0
      invariant best != -1 ==> 0 <= best < |t.sccIdx| && best in members && t.sccIdx[best] != 0 && score == t.lowlink[best]
      invariant best != -1 ==> forall j :: 0 <= j < i && t.sccIdx[members[j]] != 0 ==> t.lowlink[members[j]] <= score
    {
      var m := members[i];
      if t.sccIdx[m] != 0 && t.lowlink[m] >= score {
        best, score := m, t.lowlink[m];
      }
      i := i + 1;
    }
  }

  ghost predicate MembersOk(e: Env, sccs: seq<Scc>) {
    && 2 <= e.cnt < |sccs|
    && (forall c :: 2 <= c < e.cnt ==>
          sccs[c].members != [] && Distinct(sccs[c].members) && Elems(sccs[c].members) == Component(e.comp, c))
    && (forall c :: e.cnt <= c < |sccs| ==> sccs[c].members == [])
  }

  lemma MembersKept(e: Env, a: seq<Scc>, b: seq<Scc>)
    requires MembersOk(e, a) && SameMembers(a, b)
    ensures MembersOk(e, b)
  {
    hide Distinct;
  }

  lemma GroupMembers(e: Env, sccs: seq<Scc>, p: nat)
    requires EnvOk(e) && MembersOk(e, sccs) && p < |e.comp| && e.comp[p] > 1
    ensures e.comp[p] < |sccs| && Distinct(sccs[e.comp[p]].members)
    ensures forall u: nat :: u in sccs[e.comp[p]].members <==> u in Group(e, p)
  {
    var c := e.comp[p];
    assert forall u: nat :: u in sccs[c].members <==> u in Elems(sccs[c].members);
    assert forall u: nat :: u in Component(e.comp, c) <==> u in Group(e, p);
  }

  ghost predicate ForwardOk(fwd: seq<seq<Relation>>, n: nat) {
    && |fwd| == n
    && forall u, i :: 0 <= u < |fwd| && 0 <= i < |fwd[u]| ==> fwd[u][i].suc < |fwd| && fwd[u][i].suc != u
  }

  /** collectSCC(): the whole component of p, as one block (lib/order.cc:470-523). */
  method CollectSCC(t: Tsort, col: Collector, p: nat, prefcolor: nat, end: int,
                    ghost e: Env, ghost rem: Graph, ghost ty: ElementType, ghost m: seq<nat>)
    returns (end': int, ghost rem': Graph, ghost m': seq<nat>, ghost block: seq<nat>)
    requires Sized(t) && end != -1 && |t.types| == |e.comp| && e.g == GraphOf(t.relations)
    requires |t.lowlink| == |e.comp| && ForwardOk(t.forward, |e.comp|) && MembersOk(e, col.sccs)
    requires p < |e.comp| && e.comp[p] > 1 && Rest(e, WorkOf(t, col, rem), t.suc, ty, [p] + m) && Chain(t.suc, p, [p] + m)
    requires OrderOk(e, t.sccIdx, col.order) && Broken(e, t.forward, col.order)
    modifies t`count, t`suc, t`reqx, t`sccIdx, t`lowlink, col
    ensures Sized(t) && end' != -1 && |t.lowlink| == |e.comp| && MembersOk(e, col.sccs)
    ensures Rest(e, WorkOf(t, col, rem'), t.suc, ty, m') && Chain(t.suc, t.suc[p], m')
    ensures OrderOk(e, t.sccIdx, col.order) && Broken(e, t.forward, col.order)
    ensures col.order == old(col.order) + block && forall u :: u in block ==> u in Group(e, p)
    ensures |t.sccIdx| == |old(t.sccIdx)| == |e.comp| && forall u :: u in Group(e, p) ==> t.sccIdx[u] == 0 && old(t.sccIdx)[u] != 0
    ensures forall u :: 0 <= u < |t.sccIdx| && u !in Group(e, p) ==> t.sccIdx[u] == old(t.sccIdx)[u]
    ensures Live(t.sccIdx) < Live(old(t.sccIdx))
  {
    hide Rest, SccRest, OrderOk, MembersOk, Group, Distinct, ForwardOk, Chain, EnvOk, SameMembers, D.Ready, D.Distances, Broken;
    PopComponent(e, WorkOf(t, col, rem), t.suc, ty, p, m);
    RestEnv(e, WorkOf(t, col, rem), t.suc, ty, [p] + m);
    GroupMembers(e, col.sccs, p);
    SelfGroup(e, p);
    var c := t.sccIdx[p];
    var members := col.sccs[c].members;
    var outer := t.suc[p];
    t.suc := t.suc[p := -1];
    DijkstraReady(e, t.forward, t.sccIdx, t.lowlink, members, p);
    D.Dijkstra(t, members, c);
    LabelsNat(e, t.forward, t.sccIdx, t.lowlink, members, p);
    DistancesBy(e, t.forward, t.sccIdx, t.lowlink, p);
    outer, end', rem', m', block := CollectMembers(t, col, p, prefcolor, outer, end, members, e, rem, ty, m);
    MembersKept(e, old(col.sccs), col.sccs);
    BlockDone(e, WorkOf(t, col, rem'), t.suc, p, ty, m', outer);
    LiveLess(e, old(t.sccIdx), t.sccIdx, p);
    t.suc := t.suc[p := outer];
  }

  /** Round after round until every member is collected (lib/order.cc:490-519). */
  method CollectMembers(t: Tsort, col: Collector, p: nat, prefcolor: nat, outer: int, end: int, members: seq<nat>,
                        ghost e: Env, ghost rem: Graph, ghost ty: ElementType, ghost m: seq<nat>)
    returns (outer': int, end': int, ghost rem': Graph, ghost m': seq<nat>, ghost block: seq<nat>)
    requires Sized(t) && end != -1 && |t.types| == |e.comp| && e.g == GraphOf(t.relations)
    requires |t.lowlink| == |t.sccIdx| == |e.comp| && p < |e.comp| && e.comp[p] > 1
    requires forall i :: 0 <= i < |members| ==> members[i] < |t.sccIdx| && t.lowlink[members[i]] >= 0
    requires forall u: nat :: u in members <==> u in Group(e, p)
    requires SccRest(e, WorkOf(t, col, rem), t.suc, p, ty, m) && Chain(t.suc, outer, m)
    requires OrderOk(e, t.sccIdx, col.order) && Broken(e, t.forward, col.order)
    requires |t.forward| == |e.comp| && D.Distances(t.forward, e.comp, t.lowlink, e.comp[p])
    modifies t`count, t`suc, t`reqx, t`sccIdx, col
    ensures Sized(t) && end' != -1 && |t.sccIdx| == |old(t.sccIdx)| && SameMembers(old(col.sccs), col.sccs)
    ensures SccRest(e, WorkOf(t, col, rem'), t.suc, p, ty, m') && Chain(t.suc, outer', m')
    ensures OrderOk(e, t.sccIdx, col.order) && Broken(e, t.forward, col.order)
    ensures col.order == old(col.order) + block && forall u :: u in block ==> u in Group(e, p)
    ensures forall u :: u in Group(e, p) ==> 0 <= u < |t.sccIdx| && t.sccIdx[u] == 0
    ensures forall u :: 0 <= u < |t.sccIdx| && u !in Group(e, p) ==> t.sccIdx[u] == old(t.sccIdx)[u]
  {
    hide SccRest, OrderOk, Group, Chain, Broken, D.Distances, Farthest;
    SameMembersRefl(col.sccs);
    hide SameMembers;
    outer', end', rem', m', block := outer, end, rem, m, [];
    var best := SelectBest(t, members);
    if best != -1 { BestFarthest(e, t.forward, t.sccIdx, t.lowlink, members, p, best); }
    while best != -1
      invariant Sized(t) && end' != -1 && |t.sccIdx| == |old(t.sccIdx)| && SameMembers(old(col.sccs), col.sccs)
      invariant SccRest(e, WorkOf(t, col, rem'), t.suc, p, ty, m') && Chain(t.suc, outer', m')
      invariant OrderOk(e, t.sccIdx, col.order) && Broken(e, t.forward, col.order)
      invariant best >= 0 ==> Farthest(e, t.forward, t.sccIdx, p, best)
      invariant best == -1 ==> forall i :: 0 <= i < |members| ==> t.sccIdx[members[i]] == 0
      invariant best != -1 ==> 0 <= best < |t.sccIdx| && best in members && t.sccIdx[best] != 0
      invariant col.order == old(col.order) + block && forall u :: u in block ==> u in Group(e, p)
      invariant forall u :: 0 <= u < |t.sccIdx| && u !in Group(e, p) ==> t.sccIdx[u] == old(t.sccIdx)[u]
      decreases Live(t.sccIdx)
    {
      ghost var sccs1, block1 := col.sccs, block;
      outer', end', rem', m', block := CollectRound(t, col, best, prefcolor, outer', end', p, e, rem', ty, m');
      block := block1 + block;
      SameMembersTrans(old(col.sccs), sccs1, col.sccs);
      best := SelectBest(t, members);
      if best != -1 { BestFarthest(e, t.forward, t.sccIdx, t.lowlink, members, p, best); }
    }
  }

  /** The largest label is the largest distance. */
  lemma BestFarthest(e: Env, fwd: seq<seq<Relation>>, idx: seq<int>, low: seq<int>, members: seq<nat>, p: nat, best: nat)
    requires |fwd| == |idx| == |low| == |e.comp| && p < |e.comp| && e.comp[p] > 1 && D.Distances(fwd, e.comp, low, e.comp[p])
    requires (forall u: nat :: u in members <==> u in Group(e, p)) && best in members
    requires forall i :: 0 <= i < |members| ==> members[i] < |idx|
    requires forall i :: 0 <= i < |members| && idx[members[i]] != 0 ==> low[members[i]] <= low[best]
    ensures Farthest(e, fwd, idx, p, best)
  {
    hide D.Distances;
    GroupComp(e, p, best);
    D.LabelIs(fwd, e.comp, low, e.comp[p], best);
    forall u: nat | u in Group(e, p) && u < |idx| && idx[u] != 0
      ensures D.Distance(fwd, e.comp, e.comp[p], u) <= D.Distance(fwd, e.comp, e.comp[p], best)
    {
      assert u in members;
      var i :| 0 <= i < |members| && members[i] == u;
      D.LabelIs(fwd, e.comp, low, e.comp[p], u);
    }
  }

  /** Labels inside a live component are those by component numbers. */
  lemma DistancesBy(e: Env, fwd: seq<seq<Relation>>, idx: seq<int>, low: seq<int>, p: nat)
    requires |fwd| == |idx| == |low| == |e.comp| && p < |e.comp| && e.comp[p] > 1 && D.Distances(fwd, idx, low, e.comp[p])
    requires forall u :: u in Group(e, p) ==> u < |idx| && idx[u] == e.comp[p]
    requires forall u: nat :: u < |idx| ==> idx[u] == 0 || idx[u] == e.comp[u]
    ensures D.Distances(fwd, e.comp, low, e.comp[p])
  {
    var c := e.comp[p];
    forall u | 0 <= u < |idx| ensures idx[u] == c <==> e.comp[u] == c {
      if e.comp[u] == c { assert u in Group(e, p); }
    }
    forall v: nat, k: nat ensures D.Near(fwd, idx, c, v, k) <==> D.Near(fwd, e.comp, c, v, k) {
      D.NearSame(fwd, idx, e.comp, c, c, v, k);
    }
  }

  lemma RestEnv(e: Env, w: Work, suc: seq<int>, ty: ElementType, m: seq<nat>)
    requires Rest(e, w, suc, ty, m)
    ensures EnvOk(e) && |w.idx| == |e.comp| == |e.g| == |e.types| == |suc|
    ensures forall u: nat :: u < |w.idx| ==> w.idx[u] == 0 || w.idx[u] == e.comp[u]
  {
  }

  lemma DijkstraReady(e: Env, fwd: seq<seq<Relation>>, idx: seq<int>, low: seq<int>, members: seq<nat>, p: nat)
    requires |idx| == |low| == |e.comp| && ForwardOk(fwd, |e.comp|) && p < |e.comp| && e.comp[p] > 1
    requires Distinct(members) && forall u: nat :: u in members <==> u in Group(e, p)
    requires forall u :: u in Group(e, p) ==> idx[u] == e.comp[p]
    requires forall u: nat :: u < |idx| ==> idx[u] == 0 || idx[u] == e.comp[u]
    ensures D.Ready(fwd, idx, low, members, e.comp[p])
  {
    forall i | 0 <= i < |members| ensures members[i] < |idx| && idx[members[i]] == e.comp[p] {
      assert members[i] in members;
    }
    forall u: nat | u < |idx| && idx[u] == e.comp[p] ensures u in members {
      assert e.comp[u] == e.comp[p];
      assert u in Group(e, p);
    }
  }

  lemma LabelsNat(e: Env, fwd: seq<seq<Relation>>, idx: seq<int>, low: seq<int>, members: seq<nat>, p: nat)
    requires |fwd| == |idx| == |low| == |e.comp| && p < |e.comp| && D.Distances(fwd, idx, low, e.comp[p])
    requires forall u: nat :: u in members <==> u in Group(e, p)
    requires forall u :: u in Group(e, p) ==> u < |idx| && idx[u] == e.comp[p]
    ensures forall i :: 0 <= i < |members| ==> members[i] < |idx| && low[members[i]] >= 0
  {
    forall i | 0 <= i < |members| ensures members[i] < |idx| && low[members[i]] >= 0 {
      assert members[i] in members;
    }
  }

  lemma BlockDone(e: Env, w: Work, suc: seq<int>, p: nat, ty: ElementType, m: seq<nat>, outer: int)
    requires SccRest(e, w, suc, p, ty, m) && Chain(suc, outer, m) && forall u :: u in Group(e, p) ==> u < |w.idx| && w.idx[u] == 0
    ensures p < |suc| && Rest(e, w, suc[p := outer], ty, m) && Chain(suc[p := outer], outer, m)
  {
    SelfGroup(e, p);
    assert p !in m by { hide IsReady, HasRep; }
    DoneMain(e, w, ty, p, m);
    ChainFrame(suc, suc[p := outer], outer, m);
    hide MainOk, IsReady, WorkOk, Whole, EnvOk, Chain;
    assert w.idx[p] == 0;
  }

  lemma LiveLess(e: Env, old': seq<int>, idx: seq<int>, p: nat)
    requires |old'| == |idx| == |e.comp| && p < |e.comp| && p in Group(e, p)
    requires forall u :: u in Group(e, p) ==> u < |idx| && idx[u] == 0 && old'[u] != 0
    requires forall u :: 0 <= u < |idx| && u !in Group(e, p) ==> idx[u] == old'[u]
    ensures Live(idx) < Live(old')
  {
    assert p in Live(old') && p !in Live(idx);
  }
}
