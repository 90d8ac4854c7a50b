/** What the collection phase keeps (lib/order.cc:367-421, 470-523, 584-617). */
module OrderCollectSpec {
  import opened OrderGraph
  import opened OrderCount
  import opened OrderState
  import opened OrderQueue
  import D = OrderDijkstra

  /** What does not change while elements are collected: the relation graph, the
      component numbers detectSCCs() gave, and the element types. */
  datatype Env = Env(g: Graph, comp: seq<int>, cnt: int, types: seq<ElementType>)

  ghost predicate SameGroup(e: Env, u: nat, v: nat)
    requires u < |e.comp| && v < |e.comp|
  {
    u == v || e.comp[u] == e.comp[v] >= 2
  }

  /** The elements that become ready together with u. */
  ghost function Group(e: Env, u: nat): set<nat>
    requires u < |e.comp|
  {
    set v: nat | v < |e.comp| && SameGroup(e, u, v)
  }

  /** A member of a real component is required by another member. */
  ghost predicate HasInner(e: Env, p: nat)
    requires p < |e.comp| && |e.comp| == |e.g|
  {
    exists u: nat :: u < |e.g| && e.comp[u] == e.comp[p] && Edge(e.g, u, p)
  }

  ghost predicate EnvOk(e: Env) {
    && Closed(e.g) && |e.comp| == |e.types| == |e.g|
    && (forall u: nat :: u < |e.g| ==> u !in e.g[u] && 0 < e.comp[u] < e.cnt)
    && (forall u: nat, v: nat :: Edge(e.g, u, v) ==> e.types[u] == e.types[v])
    && (forall u: nat, v: nat :: u < |e.g| && v < |e.g| && e.comp[u] == e.comp[v] >= 2 ==> e.types[u] == e.types[v])
    && (forall p: nat {:trigger HasInner(e, p)} :: p < |e.g| && e.comp[p] >= 2 ==> HasInner(e, p))
  }

  /** The collection's own state. rem is the graph without the relations erased so
      far ("T6. Erase relations"); idx is 0 for collected elements. */
  datatype Work = Work(rem: Graph, idx: seq<int>, count: seq<int>, sccs: seq<Scc>)

  /** How many entries still enter s from outside. */
  ghost function Open(rem: Graph, s: set<nat>): nat {
    Enter(rem, s, s, |rem|)
  }

  ghost predicate Sizes(e: Env, w: Work) {
    && |w.rem| == |w.idx| == |w.count| == |e.g| == |e.comp|
    && e.cnt < |w.sccs|
    && (forall u: nat :: u < |e.g| ==> w.idx[u] == 0 || w.idx[u] == e.comp[u])
  }

  ghost predicate Erased(e: Env, w: Work, mid: set<nat>)
    requires Sizes(e, w)
  {
    && (forall u: nat :: u < |e.g| && w.idx[u] == 0 ==> w.rem[u] == [])
    && (forall u: nat :: u < |e.g| && w.idx[u] != 0 && u !in mid ==> w.rem[u] == e.g[u])
    && (forall u: nat, p: nat :: Edge(w.rem, u, p) ==> Edge(e.g, u, p))
  }

  /** The counters of everything not collected count exactly what is left. */
  ghost predicate CountsLeft(e: Env, w: Work)
    requires Sizes(e, w)
  {
    && (forall p: nat :: p < |e.g| && w.idx[p] != 0 ==> w.count[p] == Enter(w.rem, {}, {p}, |w.rem|))
    && (forall c :: 2 <= c < e.cnt ==> w.sccs[c].count == Open(w.rem, Component(e.comp, c)))
  }

  /** Nothing outside its component is still to be erased towards a collected element. */
  ghost predicate Settled(e: Env, w: Work)
    requires Sizes(e, w)
  {
    forall u: nat, p: nat :: Edge(w.rem, u, p) && p < |e.g| && w.idx[p] == 0 ==> e.comp[u] == e.comp[p] >= 2
  }

  ghost predicate WorkOk(e: Env, w: Work, mid: set<nat>) {
    Sizes(e, w) && Erased(e, w, mid) && CountsLeft(e, w) && Settled(e, w)
  }

  /** The group of u waits for nothing outside it. */
  ghost predicate IsReady(e: Env, rem: Graph, u: nat)
    requires u < |e.comp|
  {
    Open(rem, Group(e, u)) == 0
  }

  ghost predicate Waiting(e: Env, w: Work, cur: set<nat>, ty: ElementType, u: nat)
    requires Sizes(e, w) && |e.types| == |e.g|
  {
    u < |e.g| && w.idx[u] != 0 && u !in cur && e.types[u] == ty && IsReady(e, w.rem, u)
  }

  ghost predicate HasRep(e: Env, m: seq<nat>, u: nat)
    requires u < |e.comp|
  {
    exists i :: 0 <= i < |m| && m[i] < |e.comp| && SameGroup(e, u, m[i])
  }

  /** The queue holds one representative of every ready group of the current type,
      and nothing else; cur is the group being collected. */
  ghost predicate MainOk(e: Env, w: Work, m: seq<nat>, cur: set<nat>, ty: ElementType)
    requires Sizes(e, w) && |e.types| == |e.g|
  {
    && (forall i :: 0 <= i < |m| ==> Waiting(e, w, cur, ty, m[i]))
    && (forall i, j :: 0 <= i < j < |m| ==> m[i] < |e.comp| && m[j] < |e.comp| && !SameGroup(e, m[i], m[j]))
    && (forall u: nat {:trigger HasRep(e, m, u)} :: u < |e.g| && Waiting(e, w, cur, ty, u) ==> HasRep(e, m, u))
  }

  /** The inner queue holds members of the component being collected that nothing is left to hold back. */
  ghost predicate InnerOk(e: Env, w: Work, inner: seq<nat>, cur: set<nat>)
    requires Sizes(e, w)
  {
    && Distinct(inner)
    && forall i :: 0 <= i < |inner| ==> inner[i] in cur && inner[i] < |e.g| && w.idx[inner[i]] != 0 && w.count[inner[i]] == 0
  }

  /** All free members of cur but q are queued. */
  ghost predicate AllFreed(e: Env, w: Work, inner: seq<nat>, cur: set<nat>, q: nat)
    requires Sizes(e, w)
  {
    forall u: nat :: u in cur && u < |e.g| && u != q && w.idx[u] != 0 && w.count[u] == 0 ==> u in inner
  }

  /** Nothing that u requires is outside of done. */
  ghost predicate Free(g: Graph, done: seq<nat>, u: nat) {
    forall x: nat :: Edge(g, x, u) ==> x in done
  }

  /** x is next in its loop: free; or no member is, and none that is left is farther from a prerequirer. */
  ghost predicate NextInLoop(e: Env, fwd: seq<seq<Relation>>, done: seq<nat>, x: nat) {
    && x < |e.comp|
    && (Free(e.g, done, x)
        || forall u: nat {:trigger Free(e.g, done, u)} :: u < |e.comp| && e.comp[u] == e.comp[x] && u !in done ==>
             !Free(e.g, done, u) && D.Distance(fwd, e.comp, e.comp[x], u) <= D.Distance(fwd, e.comp, e.comp[x], x))
  }

  /** Loops are broken where it does least harm. */
  ghost predicate Broken(e: Env, fwd: seq<seq<Relation>>, order: seq<nat>) {
    forall j {:trigger order[j]} :: 0 <= j < |order| && order[j] < |e.comp| && e.comp[order[j]] >= 2 ==>
      NextInLoop(e, fwd, order[..j], order[j])
  }

  lemma BrokenPush(e: Env, fwd: seq<seq<Relation>>, order: seq<nat>, x: nat)
    requires Broken(e, fwd, order) && (x < |e.comp| && e.comp[x] >= 2 ==> NextInLoop(e, fwd, order, x))
    ensures Broken(e, fwd, order + [x])
  {
    hide NextInLoop;
    var all := order + [x];
    forall j | 0 <= j < |all| && all[j] < |e.comp| && e.comp[all[j]] >= 2 ensures NextInLoop(e, fwd, all[..j], all[j]) {
      if j < |order| { assert all[..j] == order[..j] && all[j] == order[j]; } else { assert all[..j] == order; }
    }
  }

  /** The counter of a live element is 0 exactly if everything it requires is collected. */
  lemma CountFree(e: Env, w: Work, p: nat)
    requires EnvOk(e) && WorkOk(e, w, {}) && p < |e.g| && w.idx[p] != 0
    ensures w.count[p] == 0 <==> forall x: nat :: Edge(e.g, x, p) ==> x < |w.idx| && w.idx[x] == 0
  {
    if w.count[p] == 0 {
      forall x: nat | Edge(e.g, x, p) ensures w.idx[x] == 0 {
        if w.idx[x] != 0 { EnterHas(w.rem, {}, {p}, |w.rem|, x, p); }
      }
    } else {
      var v, x := EnterSome(w.rem, {}, {p}, |w.rem|);
      assert Edge(w.rem, v, p);
    }
  }

  /** Groups outside cur are collected as a whole. */
  ghost predicate Whole(e: Env, w: Work, cur: set<nat>)
    requires Sizes(e, w)
  {
    forall u: nat, v: nat :: u < |e.g| && v < |e.g| && u !in cur && e.comp[u] == e.comp[v] >= 2 && w.idx[u] == 0 ==> w.idx[v] == 0
  }

  lemma GroupEq(e: Env, u: nat, v: nat)
    requires u < |e.comp| && v < |e.comp| && SameGroup(e, u, v)
    ensures Group(e, u) == Group(e, v)
  {
  }

  lemma GroupApart(e: Env, u: nat, q: nat)
    requires u < |e.comp| && q < |e.comp| && u !in Group(e, q)
    ensures q !in Group(e, u) && Group(e, u) !! Group(e, q)
  {
  }

  lemma OpenDrop(e: Env, rem: Graph, q: nat, u: nat)
    requires q < |rem| == |e.comp| && rem[q] != [] && u < |e.comp|
    ensures Open(Drop(rem, q), Group(e, u)) ==
            Open(rem, Group(e, u)) - if q !in Group(e, u) && rem[q][0] in Group(e, u) then 1 else 0
  {
    EnterDrop(rem, q, Group(e, u), Group(e, u), |rem|);
  }

  /** For an element alone in its group its own counter decides. */
  lemma SingleOpen(e: Env, w: Work, mid: set<nat>, p: nat)
    requires EnvOk(e) && Sizes(e, w) && Erased(e, w, mid) && p < |e.g| && e.comp[p] == 1
    ensures Open(w.rem, Group(e, p)) == Enter(w.rem, {}, {p}, |w.rem|)
  {
    assert Group(e, p) == {p};
    assert {} + {p} == {p};
    EnterSkip(w.rem, {}, p, {p}, |w.rem|);
    assert forall x :: x in w.rem[p] ==> Edge(w.rem, p, x);
    HitsNone(w.rem[p], {p});
  }

  /** Members of an untouched component keep waiting for each other. */
  lemma InnerHolds(e: Env, w: Work, q: nat, p: nat)
    requires EnvOk(e) && Sizes(e, w) && Erased(e, w, {q}) && q < |e.g| && Whole(e, w, Group(e, q))
    requires p < |e.g| && e.comp[p] >= 2 && p !in Group(e, q) && w.idx[p] != 0
    ensures Enter(w.rem, {}, {p}, |w.rem|) > 0
  {
    assert HasInner(e, p);
    var u: nat :| u < |e.g| && e.comp[u] == e.comp[p] && Edge(e.g, u, p);
    assert u !in Group(e, q) && w.idx[u] != 0 && u != q;
    EnterHas(w.rem, {}, {p}, |w.rem|, u, p);
  }

  /** The first remaining relation of q, towards an element that is already collected. */
  function Skipped(w: Work, q: nat): Work
    requires q < |w.rem| && w.rem[q] != []
  {
    w.(rem := Drop(w.rem, q))
  }

  /** The first remaining relation of q, towards an element that is not. */
  function Lowered(e: Env, w: Work, q: nat, p: nat): Work
    requires q < |w.rem| && w.rem[q] != [] && p < |w.count| == |e.comp| && q < |e.comp|
    requires 2 <= e.comp[p] ==> e.comp[p] < |w.sccs|
  {
    var c := e.comp[p];
    Work(Drop(w.rem, q), w.idx, w.count[p := w.count[p] - 1],
         if c > 1 && c != e.comp[q] then w.sccs[c := Scc(w.sccs[c].count - 1, w.sccs[c].members)] else w.sccs)
  }

  lemma DropErased(e: Env, w: Work, w': Work, q: nat)
    requires Sizes(e, w) && Sizes(e, w') && Erased(e, w, {q}) && q < |w.rem| && w.rem[q] != [] && w.idx[q] != 0
    requires w'.rem == Drop(w.rem, q) && w'.idx == w.idx
    ensures Erased(e, w', {q}) && (Settled(e, w) ==> Settled(e, w'))
  {
    assert forall u: nat, p: nat :: Edge(w'.rem, u, p) ==> Edge(w.rem, u, p);
  }

  lemma SkipWork(e: Env, w: Work, q: nat)
    requires EnvOk(e) && WorkOk(e, w, {q}) && q < |e.g| && w.idx[q] != 0 && w.rem[q] != []
    requires w.rem[q][0] < |e.g| && w.idx[w.rem[q][0]] == 0
    ensures WorkOk(e, Skipped(w, q), {q}) && w.rem[q][0] in Group(e, q)
  {
    var w', p := Skipped(w, q), w.rem[q][0];
    assert Edge(w.rem, q, p);
    assert Sizes(e, w');
    DropErased(e, w, w', q);
    hide Erased, Settled, EnvOk;
    forall x: nat | x < |e.g| && w.idx[x] != 0
      ensures w'.count[x] == Enter(w'.rem, {}, {x}, |w'.rem|)
    {
      EnterDrop(w.rem, q, {}, {x}, |w.rem|);
    }
    forall c | 2 <= c < e.cnt ensures w'.sccs[c].count == Open(w'.rem, Component(e.comp, c)) {
      EnterDrop(w.rem, q, Component(e.comp, c), Component(e.comp, c), |w.rem|);
    }
  }

  lemma LowerWork(e: Env, w: Work, q: nat, p: nat)
    requires EnvOk(e) && WorkOk(e, w, {q}) && q < |e.g| && w.idx[q] != 0 && w.rem[q] != []
    requires p == w.rem[q][0] && p < |e.g| && w.idx[p] != 0
    ensures WorkOk(e, Lowered(e, w, q, p), {q})
  {
    var w' := Lowered(e, w, q, p);
    assert Sizes(e, w');
    DropErased(e, w, w', q);
    hide Erased, Settled, EnvOk;
    forall x: nat | x < |e.g| && w.idx[x] != 0
      ensures w'.count[x] == Enter(w'.rem, {}, {x}, |w'.rem|)
    {
      EnterDrop(w.rem, q, {}, {x}, |w.rem|);
    }
    forall c | 2 <= c < e.cnt ensures w'.sccs[c].count == Open(w'.rem, Component(e.comp, c)) {
      EnterDrop(w.rem, q, Component(e.comp, c), Component(e.comp, c), |w.rem|);
    }
  }

  /** Erasing a relation makes at most the group of its target ready. */
  lemma ReadyDrop(e: Env, rem: Graph, q: nat, u: nat)
    requires q < |rem| == |e.comp| && rem[q] != [] && rem[q][0] < |e.comp| && u < |e.comp| && u !in Group(e, q)
    ensures !SameGroup(e, u, rem[q][0]) ==> (IsReady(e, Drop(rem, q), u) <==> IsReady(e, rem, u))
    ensures SameGroup(e, u, rem[q][0]) ==> !IsReady(e, rem, u)
    ensures SameGroup(e, u, rem[q][0]) ==> (IsReady(e, Drop(rem, q), u) <==> IsReady(e, Drop(rem, q), rem[q][0]))
  {
    OpenDrop(e, rem, q, u);
    GroupApart(e, u, q);
    if SameGroup(e, u, rem[q][0]) { GroupEq(e, u, rem[q][0]); }
  }

  lemma MainKeep(e: Env, w: Work, w': Work, q: nat, m: seq<nat>, ty: ElementType)
    requires Sizes(e, w) && Sizes(e, w') && |e.types| == |e.g| && q < |e.g| && w.rem[q] != [] && w.rem[q][0] < |e.g|
    requires MainOk(e, w, m, Group(e, q), ty)
    requires w'.rem == Drop(w.rem, q) && w'.idx == w.idx
    requires w.rem[q][0] in Group(e, q) || !IsReady(e, w'.rem, w.rem[q][0])
    ensures MainOk(e, w', m, Group(e, q), ty)
  {
    var cur := Group(e, q);
    forall u: nat | u < |e.g| && u !in cur
      ensures Waiting(e, w', cur, ty, u) <==> Waiting(e, w, cur, ty, u)
    {
      ReadyDrop(e, w.rem, q, u);
      GroupApart(e, u, q);
    }
    hide IsReady, Sizes;
    forall u: nat | u < |e.g| && Waiting(e, w', cur, ty, u) ensures HasRep(e, m, u) {
      assert Waiting(e, w, cur, ty, u);
    }
  }

  /** One representative per group, for any set of waiting elements. */
  ghost predicate Reps(e: Env, m: seq<nat>, waiting: set<nat>)
    requires forall u :: u in waiting ==> u < |e.comp|
  {
    && (forall i :: 0 <= i < |m| ==> m[i] in waiting)
    && (forall i, j :: 0 <= i < j < |m| ==> m[i] < |e.comp| && m[j] < |e.comp| && !SameGroup(e, m[i], m[j]))
    && (forall u {:trigger HasRep(e, m, u)} :: u in waiting ==> HasRep(e, m, u))
  }

  lemma InsertAt(m: seq<nat>, k: nat, p: nat, i: nat)
    requires k <= |m| && i <= |m|
    ensures |Insert(m, k, p)| == |m| + 1
    ensures Insert(m, k, p)[i] == if i < k then m[i] else if i == k then p else m[i - 1]
  {
  }

  lemma InsertPair(e: Env, m: seq<nat>, a: set<nat>, k: nat, p: nat, i: nat, j: nat)
    requires k <= |m| && i < j <= |m| && p < |e.comp| && forall u :: u in a ==> u < |e.comp| && !SameGroup(e, u, p)
    requires forall x :: 0 <= x < |m| ==> m[x] in a
    requires forall x, y :: 0 <= x < y < |m| ==> m[x] < |e.comp| && m[y] < |e.comp| && !SameGroup(e, m[x], m[y])
    ensures var m' := Insert(m, k, p); m'[i] < |e.comp| && m'[j] < |e.comp| && !SameGroup(e, m'[i], m'[j])
  {
    assert forall u :: u in a ==> !SameGroup(e, p, u);
    hide SameGroup;
    InsertAt(m, k, p, i);
    InsertAt(m, k, p, j);
  }

  lemma InsertRep(e: Env, m: seq<nat>, k: nat, p: nat, u: nat)
    requires k <= |m| && p < |e.comp| && u < |e.comp| && (SameGroup(e, u, p) || HasRep(e, m, u))
    ensures HasRep(e, Insert(m, k, p), u)
  {
    var m' := Insert(m, k, p);
    if SameGroup(e, u, p) {
      InsertAt(m, k, p, k);
    } else {
      var i :| 0 <= i < |m| && m[i] < |e.comp| && SameGroup(e, u, m[i]);
      var j := if i < k then i else i + 1;
      InsertAt(m, k, p, j);
    }
  }

  lemma RepsInsert(e: Env, m: seq<nat>, a: set<nat>, b: set<nat>, k: nat, p: nat)
    requires p in b && k <= |m| && a <= b && forall u :: u in b ==> u < |e.comp|
    requires Reps(e, m, a)
    requires forall u :: u in a ==> !SameGroup(e, u, p)
    requires forall u :: u in b && u !in a ==> SameGroup(e, u, p)
    ensures Reps(e, Insert(m, k, p), b) && p !in m
  {
    assert SameGroup(e, p, p);
    hide SameGroup, HasRep, Insert;
    var m' := Insert(m, k, p);
    InsertAt(m, k, p, k);
    forall i | 0 <= i < |m'| ensures m'[i] in b { InsertAt(m, k, p, i); }
    forall i, j | 0 <= i < j < |m'| ensures m'[i] < |e.comp| && m'[j] < |e.comp| && !SameGroup(e, m'[i], m'[j]) {
      InsertPair(e, m, a, k, p, i, j);
    }
    forall u | u in b ensures HasRep(e, m', u) {
      assert u in a ==> HasRep(e, m, u);
      InsertRep(e, m, k, p, u);
    }
  }

  ghost function WaitingSet(e: Env, w: Work, cur: set<nat>, ty: ElementType): set<nat>
    requires Sizes(e, w) && |e.types| == |e.g|
  {
    set u: nat | u < |e.g| && Waiting(e, w, cur, ty, u)
  }

  lemma MainReps(e: Env, w: Work, m: seq<nat>, cur: set<nat>, ty: ElementType)
    requires Sizes(e, w) && |e.types| == |e.g|
    ensures MainOk(e, w, m, cur, ty) <==> Reps(e, m, WaitingSet(e, w, cur, ty))
  {
    hide IsReady;
    var s := WaitingSet(e, w, cur, ty);
    if Reps(e, m, s) {
      forall u: nat | u < |e.g| && Waiting(e, w, cur, ty, u) ensures HasRep(e, m, u) { assert u in s; }
    }
  }

  lemma MainInsert(e: Env, w: Work, w': Work, q: nat, p: nat, m: seq<nat>, k: nat, ty: ElementType)
    requires Sizes(e, w) && Sizes(e, w') && |e.types| == |e.g| && q < |e.g| && w.rem[q] != []
    requires p == w.rem[q][0] && p < |e.g| && p !in Group(e, q) && w.idx[p] != 0 && e.types[p] == ty
    requires MainOk(e, w, m, Group(e, q), ty) && k <= |m|
    requires w'.rem == Drop(w.rem, q) && w'.idx == w.idx
    requires IsReady(e, w'.rem, p)
    ensures MainOk(e, w', Insert(m, k, p), Group(e, q), ty) && p !in m
  {
    hide MainOk;
    var cur := Group(e, q);
    var a, b := WaitingSet(e, w, cur, ty), WaitingSet(e, w', cur, ty);
    forall u: nat | u < |e.g| && u !in cur
      ensures u in a ==> !SameGroup(e, u, p) && u in b
      ensures u in b ==> SameGroup(e, u, p) || u in a
    {
      ReadyDrop(e, w.rem, q, u);
    }
    MainReps(e, w, m, cur, ty);
    MainReps(e, w', Insert(m, k, p), cur, ty);
    RepsInsert(e, m, a, b, k, p);
  }

  lemma InnerKeep(e: Env, w: Work, w': Work, q: nat, p: nat, inner: seq<nat>, cur: set<nat>)
    requires Sizes(e, w) && Sizes(e, w') && CountsLeft(e, w) && q < |e.g| && w.rem[q] != [] && p == w.rem[q][0] && p < |e.g|
    requires InnerOk(e, w, inner, cur) && w'.idx == w.idx
    requires forall u :: 0 <= u < |e.g| && u != p ==> w'.count[u] == w.count[u]
    ensures w.idx[p] != 0 ==> p !in inner
    ensures (w.idx[p] != 0 || w'.count[p] == w.count[p]) ==> InnerOk(e, w', inner, cur)
  {
    EnterHas(w.rem, {}, {p}, |w.rem|, q, p);
  }

  lemma InnerInsert(e: Env, w: Work, inner: seq<nat>, k: nat, p: nat, cur: set<nat>)
    requires Sizes(e, w) && InnerOk(e, w, inner, cur) && k <= |inner|
    requires p in cur && p < |e.g| && w.idx[p] != 0 && w.count[p] == 0 && p !in inner
    ensures InnerOk(e, w, Insert(inner, k, p), cur)
  {
    var m' := Insert(inner, k, p);
    assert forall i :: 0 <= i < |m'| ==> m'[i] == if i < k then inner[i] else if i == k then p else inner[i - 1];
  }
}
