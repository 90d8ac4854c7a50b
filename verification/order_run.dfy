/** rpmtsOrder(): the two typed runs and the whole ordering (lib/order.cc:525-634). */
module OrderRun {
  import opened OrderGraph
  import opened OrderCount
  import opened OrderState
  import opened OrderQueue
  import opened OrderCollectSpec
  import opened OrderCollect

  /** Component numbers are exact (what DetectSCCs() guarantees). */
  ghost predicate ExactComps(e: Env) {
    && |e.comp| == |e.g|
    && forall u: nat, v: nat :: u < |e.g| && v < |e.g| && u != v ==> (Mutual(e.g, u, v) <==> e.comp[u] == e.comp[v] >= 2)
  }

  ghost function Reachable(g: Graph, u: nat): set<nat> {
    set v: nat | v < |g| && Reach(g, u, v)
  }

  /** Something holds u's group back, and it reaches strictly more than u does. */
  lemma Holder(e: Env, w: Work, ty: ElementType, u: nat) returns (v: nat)
    requires EnvOk(e) && ExactComps(e) && WorkOk(e, w, {}) && MainOk(e, w, [], {}, ty)
    requires u < |e.g| && w.idx[u] != 0 && e.types[u] == ty
    ensures v < |e.g| && w.idx[v] != 0 && e.types[v] == ty
    ensures Reachable(e.g, u) < Reachable(e.g, v)
  {
    hide Reach, CountsLeft, Settled;
    assert Waiting(e, w, {}, ty, u) ==> HasRep(e, [], u);
    var x;
    v, x := EnterSome(w.rem, Group(e, u), Group(e, u), |w.rem|);
    assert Edge(w.rem, v, x) && Edge(e.g, v, x);
    SameTypes(e, u, x);
    assert w.idx[v] != 0;
    HolderReach(e, u, x, v);
  }

  lemma HolderReach(e: Env, u: nat, x: nat, v: nat)
    requires ExactComps(e) && u < |e.g| && x < |e.g| && SameGroup(e, u, x) && Edge(e.g, v, x) && v !in Group(e, u)
    ensures Reachable(e.g, u) < Reachable(e.g, v)
  {
    hide Reach;
    var g := e.g;
    ReachEdge(g, v, x);
    if u == x { ReachRefl(g, u); } else { assert Mutual(g, u, x); }
    ReachTrans(g, v, x, u);
    forall z | z in Reachable(g, u) ensures z in Reachable(g, v) { ReachTrans(g, v, u, z); }
    ReachRefl(g, v);
    assert v in Reachable(g, v) && v !in Reachable(g, u);
  }

  /** With an empty queue nothing of the type is left: components cannot wait for each other in a circle. */
  lemma {:induction false} AllCollected(e: Env, w: Work, ty: ElementType, u: nat)
    requires EnvOk(e) && ExactComps(e) && WorkOk(e, w, {}) && MainOk(e, w, [], {}, ty)
    requires u < |e.g| && e.types[u] == ty
    ensures w.idx[u] == 0
    decreases |e.g| - |Reachable(e.g, u)|
  {
    hide Reach, EnvOk, ExactComps, MainOk;
    if w.idx[u] != 0 {
      var v := Holder(e, w, ty, u);
      SubsetSize(Reachable(e.g, v), Below(|e.g|));
      SubsetSize(Reachable(e.g, u) + {ReachMore(e.g, u, v)}, Reachable(e.g, v));
      AllCollected(e, w, ty, v);
    }
  }

  ghost function ReachMore(g: Graph, u: nat, v: nat): (z: nat)
    requires Reachable(g, u) < Reachable(g, v)
    ensures z in Reachable(g, v) && z !in Reachable(g, u)
  {
    var z :| z in Reachable(g, v) && z !in Reachable(g, u); z
  }

  /** Components sit in the order without gaps. */
  ghost predicate Blocks(comp: seq<int>, order: seq<nat>) {
    && (forall i :: 0 <= i < |order| ==> order[i] < |comp|)
    && forall i, j, k :: 0 <= i < j < k < |order| && comp[order[i]] == comp[order[k]] >= 2 ==> comp[order[j]] == comp[order[i]]
  }

  lemma BlocksAppend(comp: seq<int>, order: seq<nat>, block: seq<nat>, c: int)
    requires Blocks(comp, order)
    requires forall i :: 0 <= i < |block| ==> block[i] < |comp| && comp[block[i]] == c
    requires c >= 2 ==> forall i :: 0 <= i < |order| ==> comp[order[i]] != c
    requires c >= 2 || |block| <= 1
    ensures Blocks(comp, order + block)
  {
    var all := order + block;
    assert forall i :: 0 <= i < |all| ==> all[i] == if i < |order| then order[i] else block[i - |order|];
  }

  /** The ready elements found by the scan for zeroes up to k, and by the scan of components up to c. */
  ghost function Scanned(e: Env, w: Work, ty: ElementType, k: nat, c: int): set<nat>
    requires Sizes(e, w) && |e.types| == |e.g|
  {
    set u: nat | u < |e.g| && Waiting(e, w, {}, ty, u) && if e.comp[u] == 1 then u < k else e.comp[u] < c
  }

  /** b is a and the group of p, which is not in a. */
  ghost predicate Grows(e: Env, a: set<nat>, b: set<nat>, p: nat) {
    && p in b && a <= b && (forall x :: x in b ==> x < |e.comp|)
    && (forall x :: x in a ==> !SameGroup(e, x, p))
    && (forall x :: x in b && x !in a ==> SameGroup(e, x, p))
  }

  /** While the outer queue is filled. */
  ghost predicate Filling(e: Env, w: Work, suc: seq<int>, ty: ElementType, m: seq<nat>, k: nat, c: int) {
    && EnvOk(e) && WorkOk(e, w, {}) && Whole(e, w, {})
    && (forall u: nat :: u < |e.g| && e.types[u] == ty ==> w.idx[u] != 0)
    && Unlinked(e, w, suc, m)
    && Reps(e, m, Scanned(e, w, ty, k, c))
  }

  lemma UnlinkedInsert(e: Env, w: Work, suc: seq<int>, suc': seq<int>, m: seq<nat>, k: nat, p: nat)
    requires Sizes(e, w) && Unlinked(e, w, suc, m) && |suc'| == |suc| && k <= |m|
    requires forall u :: 0 <= u < |suc| && u != p && u !in m ==> suc'[u] == suc[u]
    ensures Unlinked(e, w, suc', Insert(m, k, p))
  {
    forall u ensures u in Insert(m, k, p) <==> u in m || u == p { InsertElems(m, k, p, u); }
  }

  /** Scanning element u: it is ready exactly if its count is 0. */
  lemma ScanOne(e: Env, w: Work, suc: seq<int>, ty: ElementType, m: seq<nat>, u: nat)
    requires Filling(e, w, suc, ty, m, u, 2) && u < |e.g|
    ensures |w.count| == |e.types| == |e.g| == |suc| == |w.idx|
    ensures e.types[u] == ty && w.count[u] == 0 ==>
              && u !in m && suc[u] == -1
              && Grows(e, Scanned(e, w, ty, u, 2), Scanned(e, w, ty, u + 1, 2), u)
    ensures !(e.types[u] == ty && w.count[u] == 0) ==> Filling(e, w, suc, ty, m, u + 1, 2)
  {
    ScanCount(e, w, u);
    hide WorkOk, Whole, IsReady, HasRep;
    assert Sizes(e, w) by { WorkSizes(e, w, {}); }
    if !(e.types[u] == ty && w.count[u] == 0) {
      assert Scanned(e, w, ty, u, 2) == Scanned(e, w, ty, u + 1, 2);
    } else {
      assert u in Scanned(e, w, ty, u + 1, 2);
      assert u !in Scanned(e, w, ty, u, 2);
    }
  }

  lemma ScanCount(e: Env, w: Work, u: nat)
    requires EnvOk(e) && WorkOk(e, w, {}) && Whole(e, w, {}) && u < |e.g|
    ensures w.idx[u] != 0 && e.comp[u] == 1 ==> (w.count[u] == 0 <==> IsReady(e, w.rem, u))
    ensures w.idx[u] != 0 && e.comp[u] != 1 ==> w.count[u] != 0
  {
    if w.idx[u] != 0 {
      if e.comp[u] == 1 {
        SingleOpen(e, w, {}, u);
      } else {
        HeldBack(e, w, u);
      }
    }
  }

  /** Scanning component c: its count decides for all its members. */
  lemma ScanScc(e: Env, w: Work, suc: seq<int>, ty: ElementType, m: seq<nat>, c: int, u: nat)
    requires Filling(e, w, suc, ty, m, |e.g|, c) && 2 <= c < e.cnt && u < |e.g| && e.comp[u] == c
    ensures |e.types| == |e.g| == |suc| == |w.idx| && c < |w.sccs|
    ensures e.types[u] == ty && w.sccs[c].count == 0 ==>
              && u !in m && suc[u] == -1
              && Grows(e, Scanned(e, w, ty, |e.g|, c), Scanned(e, w, ty, |e.g|, c + 1), u)
    ensures !(e.types[u] == ty && w.sccs[c].count == 0) ==> Filling(e, w, suc, ty, m, |e.g|, c + 1)
  {
    assert Sizes(e, w) && CountsLeft(e, w) by { WorkSizes(e, w, {}); }
    forall x: nat | x < |e.g| && e.comp[x] == c
      ensures IsReady(e, w.rem, x) <==> w.sccs[c].count == 0
      ensures e.types[x] == e.types[u]
    {
      assert Group(e, x) == Component(e.comp, c);
    }
    hide WorkOk, Whole, IsReady, HasRep, CountsLeft;
    if !(e.types[u] == ty && w.sccs[c].count == 0) {
      assert Scanned(e, w, ty, |e.g|, c) == Scanned(e, w, ty, |e.g|, c + 1);
    } else {
      assert u in Scanned(e, w, ty, |e.g|, c + 1);
      assert u !in Scanned(e, w, ty, |e.g|, c);
    }
  }

  lemma FillInsert(e: Env, w: Work, suc: seq<int>, suc': seq<int>, ty: ElementType, m: seq<nat>,
                   k: nat, c: int, k': nat, c': int, at: nat, p: nat)
    requires Filling(e, w, suc, ty, m, k, c) && at <= |m|
    requires Sizes(e, w) && |e.types| == |e.g| && Grows(e, Scanned(e, w, ty, k, c), Scanned(e, w, ty, k', c'), p)
    requires |suc'| == |suc| && forall u :: 0 <= u < |suc| && u != p && u !in m ==> suc'[u] == suc[u]
    ensures Filling(e, w, suc', ty, Insert(m, at, p), k', c')
  {
    hide WorkOk, Whole, Scanned, EnvOk;
    RepsInsert(e, m, Scanned(e, w, ty, k, c), Scanned(e, w, ty, k', c'), at, p);
    UnlinkedInsert(e, w, suc, suc', m, at, p);
    hide Reps, Unlinked, Insert;
  }

  lemma FillStart(e: Env, w: Work, suc: seq<int>, ty: ElementType)
    requires EnvOk(e) && WorkOk(e, w, {}) && Whole(e, w, {}) && Unlinked(e, w, suc, [])
    requires forall u: nat :: u < |e.g| && e.types[u] == ty ==> w.idx[u] != 0
    ensures Filling(e, w, suc, ty, [], 0, 2)
  {
    hide WorkOk, Whole, IsReady;
    assert Sizes(e, w) by { WorkSizes(e, w, {}); }
    assert Scanned(e, w, ty, 0, 2) == {};
  }

  lemma FillEnd(e: Env, w: Work, suc: seq<int>, ty: ElementType, m: seq<nat>, c: int)
    requires Filling(e, w, suc, ty, m, |e.g|, c) && c >= e.cnt
    ensures Rest(e, w, suc, ty, m)
  {
    hide WorkOk, Whole, IsReady;
    assert Sizes(e, w) by { WorkSizes(e, w, {}); }
    assert Scanned(e, w, ty, |e.g|, c) == WaitingSet(e, w, {}, ty);
    MainReps(e, w, m, {}, ty);
    hide MainOk;
  }

  lemma FillSizes(e: Env, w: Work, suc: seq<int>, ty: ElementType, m: seq<nat>, k: nat, c: int)
    requires Filling(e, w, suc, ty, m, k, c)
    ensures Sizes(e, w) && |e.types| == |e.g| == |w.count| == |suc| == |w.idx| && e.cnt < |w.sccs|
  {
  }

  lemma EmptyChain(suc: seq<int>)
    ensures Chain(suc, -1, [])
  {
  }

  /** Scan for zeroes (lib/order.cc:588-596). */
  method ScanZeroes(t: Tsort, col: Collector, ty: ElementType, prefcolor: nat, ghost e: Env, ghost rem: Graph)
    returns (q: int, r: int, ghost m: seq<nat>)
    requires Sized(t) && t.types == e.types
    requires Filling(e, WorkOf(t, col, rem), t.suc, ty, [], 0, 2)
    modifies t`suc, t`reqx
    ensures Sized(t) && Chain(t.suc, q, m) && (r == -1 ==> m == [])
    ensures Filling(e, WorkOf(t, col, rem), t.suc, ty, m, |e.g|, 2)
  {
    hide Filling, Grows, Scanned, Sizes, Chain, Insert;
    EmptyChain(t.suc);
    q, r, m := -1, -1, [];
    ghost var w := WorkOf(t, col, rem);
    FillSizes(e, w, t.suc, ty, [], 0, 2);
    var i := 0;
    while i < |t.types|
      invariant 0 <= i <= |t.types| && Sized(t) && Chain(t.suc, q, m) && (r == -1 ==> m == [])
      invariant Filling(e, w, t.suc, ty, m, i, 2)
    {
      ScanOne(e, w, t.suc, ty, m, i);
      if t.types[i] == ty && t.count[i] == 0 {
        ghost var k, suc0 := 0, t.suc;
        assert t.suc[i := -1] == t.suc;
        t.suc := t.suc[i := -1];
        q, r, k := AddQ(t, i, q, r, prefcolor, m);
        FillInsert(e, w, suc0, t.suc, ty, m, i, 2, i + 1, 2, k, i);
        m := Insert(m, k, i);
      }
      i := i + 1;
    }
  }

  /** Add one member of each leaf component (lib/order.cc:598-604). */
  method ScanComponents(t: Tsort, col: Collector, ty: ElementType, prefcolor: nat, q: int, r: int,
                        ghost e: Env, ghost rem: Graph, ghost m: seq<nat>)
    returns (q': int, r': int, ghost m': seq<nat>)
    requires Sized(t) && t.types == e.types && MembersOk(e, col.sccs)
    requires Chain(t.suc, q, m) && (r == -1 ==> m == [])
    requires Filling(e, WorkOf(t, col, rem), t.suc, ty, m, |e.g|, 2)
    modifies t`suc, t`reqx
    ensures Sized(t) && Chain(t.suc, q', m') && (r' == -1 ==> m' == [])
    ensures Rest(e, WorkOf(t, col, rem), t.suc, ty, m')
  {
    hide Filling, Grows, Scanned, Sizes, MembersOk, Rest, Chain;
    q', r', m' := q, r, m;
    ghost var w := WorkOf(t, col, rem);
    FillSizes(e, w, t.suc, ty, m, |e.g|, 2);
    MembersBasics(e, col.sccs);
    var c := 2;
    while col.sccs[c].members != []
      invariant 2 <= c <= e.cnt && Sized(t) && Chain(t.suc, q', m') && (r' == -1 ==> m' == [])
      invariant Filling(e, w, t.suc, ty, m', |e.g|, c)
      decreases e.cnt - c
    {
      var member := col.sccs[c].members[0];
      ScanScc(e, w, t.suc, ty, m', c, member);
      if col.sccs[c].count == 0 && t.types[member] == ty {
        ghost var k, suc0 := 0, t.suc;
        q', r', k := AddQ(t, member, q', r', prefcolor, m');
        FillInsert(e, w, suc0, t.suc, ty, m', |e.g|, c, |e.g|, c + 1, k, member);
        m' := Insert(m', k, member);
      }
      c := c + 1;
    }
    FillEnd(e, w, t.suc, ty, m', c);
  }

  lemma MembersBasics(e: Env, sccs: seq<Scc>)
    requires MembersOk(e, sccs) && |e.comp| == |e.g|
    ensures 2 <= e.cnt < |sccs| && sccs[e.cnt].members == []
    ensures forall c :: 2 <= c < e.cnt && sccs[c].members != [] ==> sccs[c].members[0] < |e.g| && e.comp[sccs[c].members[0]] == c
    ensures forall c :: 2 <= c < e.cnt ==> sccs[c].members != []
  {
    forall c | 2 <= c < e.cnt && sccs[c].members != []
      ensures sccs[c].members[0] < |e.g| && e.comp[sccs[c].members[0]] == c
    {
      assert sccs[c].members[0] in Elems(sccs[c].members);
    }
  }

  /** What one run leaves behind: everything of its type collected, nothing else touched. */
  ghost predicate Ran(e: Env, old': seq<int>, idx: seq<int>, ty: ElementType) {
    && |idx| == |old'| == |e.types|
    && forall u: nat :: u < |idx| ==> idx[u] == if e.types[u] == ty then 0 else old'[u]
  }

  /** While the queue is worked off. */
  ghost predicate Running(e: Env, old': seq<int>, idx: seq<int>, ty: ElementType, order0: seq<nat>, order: seq<nat>) {
    && |idx| == |old'| == |e.types| == |e.comp|
    && (forall u: nat :: u < |idx| && e.types[u] != ty ==> idx[u] == old'[u])
    && order0 <= order && (forall i :: |order0| <= i < |order| ==> order[i] < |e.types| && e.types[order[i]] == ty)
    && Blocks(e.comp, order)
  }

  lemma RunSingle(e: Env, old': seq<int>, idx: seq<int>, ty: ElementType, order0: seq<nat>, order: seq<nat>, q: nat)
    requires Running(e, old', idx, ty, order0, order) && q < |idx| && e.types[q] == ty && e.comp[q] == 1
    ensures Running(e, old', idx[q := 0], ty, order0, order + [q])
  {
    BlocksAppend(e.comp, order, [q], 1);
    hide Blocks;
  }

  lemma RunBlock(e: Env, old': seq<int>, idx: seq<int>, idx': seq<int>, ty: ElementType, order0: seq<nat>, order: seq<nat>,
                 q: nat, block: seq<nat>)
    requires EnvOk(e) && Running(e, old', idx, ty, order0, order) && q < |idx| && e.types[q] == ty && e.comp[q] > 1
    requires |idx'| == |idx| && forall u :: u in block ==> u in Group(e, q)
    requires forall u: nat :: u < |idx| && u !in Group(e, q) ==> idx'[u] == idx[u]
    requires forall u: nat :: u < |idx| ==> (u in order <==> idx[u] == 0)
    requires forall u :: u in Group(e, q) ==> idx[u] != 0
    ensures Running(e, old', idx', ty, order0, order + block)
  {
    forall u: nat | u in Group(e, q) ensures u < |idx| && e.types[u] == ty && e.comp[u] == e.comp[q] { SameTypes(e, q, u); }
    assert forall i :: 0 <= i < |block| ==> block[i] in block;
    forall i | 0 <= i < |order| ensures e.comp[order[i]] != e.comp[q] {
      assert order[i] in order;
      assert order[i] !in Group(e, q);
    }
    BlocksAppend(e.comp, order, block, e.comp[q]);
    hide Blocks, EnvOk, Group;
  }

  lemma RestSingle(e: Env, w: Work, suc: seq<int>, ty: ElementType, q: nat, m: seq<nat>, outer: int)
    requires After(e, w, suc, q, ty, m, []) && Links(e, suc, q, outer, m, []) && e.comp[q] == 1
    ensures Rest(e, w, suc, ty, m) && Chain(suc, suc[q], m)
  {
    assert Group(e, q) == {q};
    DoneMain(e, w, ty, q, m);
    hide MainOk, WorkOk, Whole, EnvOk, IsReady;
  }

  lemma RestHead(e: Env, w: Work, suc: seq<int>, ty: ElementType, m: seq<nat>)
    requires Rest(e, w, suc, ty, m) && m != []
    ensures EnvOk(e) && m[0] < |e.g| == |e.comp| == |e.types| == |w.idx| == |suc|
    ensures e.types[m[0]] == ty && w.idx[m[0]] == e.comp[m[0]] > 0
    ensures WorkOk(e, w, {})
  {
    assert Waiting(e, w, {}, ty, m[0]);
  }

  ghost predicate Idle(e: Env, w: Work, suc: seq<int>) {
    EnvOk(e) && WorkOk(e, w, {}) && Whole(e, w, {}) && Unlinked(e, w, suc, [])
  }

  lemma IdleFill(e: Env, w: Work, suc: seq<int>, ty: ElementType)
    requires Idle(e, w, suc)
    requires |w.idx| == |e.types| && forall u: nat :: u < |e.types| && e.types[u] == ty ==> w.idx[u] != 0
    ensures Filling(e, w, suc, ty, [], 0, 2)
  {
    FillStart(e, w, suc, ty);
    hide Filling;
  }

  lemma RunDone(e: Env, w: Work, suc: seq<int>, ty: ElementType, old': seq<int>, order0: seq<nat>, order: seq<nat>)
    requires Rest(e, w, suc, ty, []) && ExactComps(e) && Running(e, old', w.idx, ty, order0, order)
    ensures Ran(e, old', w.idx, ty) && Idle(e, w, suc)
  {
    hide ExactComps, Whole, EnvOk, MainOk, Blocks;
    assert |e.g| == |e.types| by { RestTypes(e, w, suc, ty, []); }
    forall u: nat | u < |e.g| && e.types[u] == ty ensures w.idx[u] == 0 {
      AllCollected(e, w, ty, u);
    }
    hide WorkOk, Unlinked;
  }

  lemma RestTypes(e: Env, w: Work, suc: seq<int>, ty: ElementType, m: seq<nat>)
    requires Rest(e, w, suc, ty, m)
    ensures |e.g| == |e.types| == |w.idx| == |e.comp| == |suc|
  {
  }

  lemma OrderLive(e: Env, idx: seq<int>, order: seq<nat>)
    requires OrderOk(e, idx, order)
    ensures |idx| == |e.g| && forall u: nat :: u < |idx| ==> (u in order <==> idx[u] == 0)
  {
  }

  /** One of the "two separate runs" (lib/order.cc:584-617): every element of type ty
      is appended, behind what it requires outside its component, components as blocks. */
  method RunType(t: Tsort, col: Collector, ty: ElementType, prefcolor: nat, ghost e: Env, ghost rem: Graph)
    returns (ghost rem': Graph)
    requires Sized(t) && t.types == e.types && e.g == GraphOf(t.relations) && ExactComps(e)
    requires |t.lowlink| == |e.comp| && ForwardOk(t.forward, |e.comp|) && MembersOk(e, col.sccs)
    requires Idle(e, WorkOf(t, col, rem), t.suc) && OrderOk(e, t.sccIdx, col.order) && Blocks(e.comp, col.order)
    requires Broken(e, t.forward, col.order)
    requires |t.sccIdx| == |e.types| && forall u: nat :: u < |e.types| && e.types[u] == ty ==> t.sccIdx[u] != 0
    modifies t`count, t`suc, t`reqx, t`sccIdx, t`lowlink, col
    ensures Sized(t) && |t.lowlink| == |e.comp| && MembersOk(e, col.sccs)
    ensures Idle(e, WorkOf(t, col, rem'), t.suc) && OrderOk(e, t.sccIdx, col.order) && Blocks(e.comp, col.order)
    ensures Ran(e, old(t.sccIdx), t.sccIdx, ty) && Broken(e, t.forward, col.order)
    ensures old(col.order) <= col.order
    ensures forall i :: |old(col.order)| <= i < |col.order| ==> col.order[i] < |e.types| && e.types[col.order[i]] == ty
  {
    hide Idle, OrderOk, MembersOk, Rest, Chain, Running, Filling, ForwardOk, EnvOk, ExactComps, Ran, Blocks, Broken;
    rem' := rem;
    ghost var idx0, order0 := t.sccIdx, col.order;
    IdleFill(e, WorkOf(t, col, rem), t.suc, ty);
    var q, r;
    ghost var m;
    q, r, m := ScanZeroes(t, col, ty, prefcolor, e, rem);
    q, r, m := ScanComponents(t, col, ty, prefcolor, q, r, e, rem, m);
    RunStart(e, WorkOf(t, col, rem'), t.suc, idx0, ty, order0, m);
    ChainHead(t.suc, q, m);
    while q != -1
      invariant Sized(t) && |t.lowlink| == |e.comp| && MembersOk(e, col.sccs)
      invariant Rest(e, WorkOf(t, col, rem'), t.suc, ty, m) && Chain(t.suc, q, m) && (r == -1 ==> m == [])
      invariant q == (if m == [] then -1 else m[0]) && Broken(e, t.forward, col.order)
      invariant OrderOk(e, t.sccIdx, col.order) && Running(e, idx0, t.sccIdx, ty, order0, col.order)
      decreases Live(t.sccIdx)
    {
      q, r, rem', m := RunHead(t, col, q, r, ty, prefcolor, e, rem', m, idx0, order0);
    }
    RunDone(e, WorkOf(t, col, rem'), t.suc, ty, idx0, order0, col.order);
    RunningEnd(e, idx0, t.sccIdx, ty, order0, col.order);
  }

  /** Works off the head of the queue (lib/order.cc:606-616). */
  method RunHead(t: Tsort, col: Collector, q: nat, r: int, ty: ElementType, prefcolor: nat,
                 ghost e: Env, ghost rem: Graph, ghost m: seq<nat>, ghost idx0: seq<int>, ghost order0: seq<nat>)
    returns (q': int, r': int, ghost rem': Graph, ghost m': seq<nat>)
    requires Sized(t) && t.types == e.types && e.g == GraphOf(t.relations)
    requires |t.lowlink| == |e.comp| && ForwardOk(t.forward, |e.comp|) && MembersOk(e, col.sccs)
    requires Rest(e, WorkOf(t, col, rem), t.suc, ty, m) && Chain(t.suc, q, m) && r != -1 && m != [] && q == m[0]
    requires OrderOk(e, t.sccIdx, col.order) && Running(e, idx0, t.sccIdx, ty, order0, col.order)
    requires Broken(e, t.forward, col.order)
    modifies t`count, t`suc, t`reqx, t`sccIdx, t`lowlink, col
    ensures Sized(t) && |t.lowlink| == |e.comp| && MembersOk(e, col.sccs)
    ensures Rest(e, WorkOf(t, col, rem'), t.suc, ty, m') && Chain(t.suc, q', m') && r' != -1
    ensures q' == (if m' == [] then -1 else m'[0]) && Broken(e, t.forward, col.order)
    ensures OrderOk(e, t.sccIdx, col.order) && Running(e, idx0, t.sccIdx, ty, order0, col.order)
    ensures Live(t.sccIdx) < Live(old(t.sccIdx))
  {
    hide OrderOk, MembersOk, Rest, Chain, Running, Stepped, After, Links, ForwardOk, Group, EnvOk, SameMembers, WorkOk, Broken, Freed;
    ghost var idx1, order1, w1, tail := t.sccIdx, col.order, WorkOf(t, col, rem), m[1..];
    RestHead(e, w1, t.suc, ty, m);
    OrderLive(e, idx1, order1);
    assert m == [q] + tail;
    t.reqx := t.reqx[q := 0];
    if t.sccIdx[q] > 1 {
      ghost var block;
      r', rem', m', block := CollectSCC(t, col, q, prefcolor, r, e, rem, ty, tail);
      RunBlock(e, idx0, idx1, t.sccIdx, ty, order0, order1, q, block);
    } else {
      PopSingle(e, w1, t.suc, ty, q, tail, -1);
      ghost var inner, sccs1 := [], col.sccs;
      var outer, outerEnd := -1, 0;
      r', outer, outerEnd, rem', m', inner := CollectTE(t, col, q, prefcolor, r, -1, 0, e, rem, ty, tail, []);
      LinksSingle(e, t.suc, q, outer, m', inner);
      RestSingle(e, WorkOf(t, col, rem'), t.suc, ty, q, m', outer);
      MembersKept(e, sccs1, col.sccs);
      RunSingle(e, idx0, idx1, ty, order0, order1, q);
      BrokenPush(e, t.forward, order1, q);
      assert q in Live(idx1) && q !in Live(t.sccIdx);
    }
    q' := t.suc[q];
    ChainHead(t.suc, q', m');
  }

  lemma RunStart(e: Env, w: Work, suc: seq<int>, idx0: seq<int>, ty: ElementType, order0: seq<nat>, m: seq<nat>)
    requires Rest(e, w, suc, ty, m) && w.idx == idx0 && Blocks(e.comp, order0)
    ensures Running(e, idx0, w.idx, ty, order0, order0)
  {
  }

  lemma RunningEnd(e: Env, old': seq<int>, idx: seq<int>, ty: ElementType, order0: seq<nat>, order: seq<nat>)
    requires Running(e, old', idx, ty, order0, order)
    ensures order0 <= order && Blocks(e.comp, order)
    ensures forall i :: |order0| <= i < |order| ==> order[i] < |e.types| && e.types[order[i]] == ty
  {
  }

  lemma ChainHead(suc: seq<int>, q: int, m: seq<nat>)
    requires Chain(suc, q, m)
    ensures q == if m == [] then -1 else m[0]
  {
  }

  lemma LinksSingle(e: Env, suc: seq<int>, q: nat, outer: int, m: seq<nat>, inner: seq<nat>)
    requires Links(e, suc, q, outer, m, inner) && e.comp[q] <= 1
    ensures inner == []
  {
  }
}
