/** The intrusive queue of ready elements: addQ() (lib/order.cc:204-255). */
module OrderQueue {
  import opened OrderGraph
  import opened OrderState

  function Next(q: seq<nat>, i: nat): int {
    if i + 1 < |q| then q[i + 1] else -1
  }

  /** head and the tsi_suc links spell out exactly q. */
  ghost predicate Chain(suc: seq<int>, head: int, q: seq<nat>) {
    && (forall i :: 0 <= i < |q| ==> q[i] < |suc|)
    && (forall i, j :: 0 <= i < j < |q| ==> q[i] != q[j])
    && head == (if q == [] then -1 else q[0])
    && (forall i {:trigger Next(q, i)} :: 0 <= i < |q| ==> suc[q[i]] == Next(q, i))
  }

  /** Whether p has to wait behind other colors, and where it stops. */
  predicate TailCond(t: Tsort, p: nat, prefcolor: nat)
    requires p < |t.types| == |t.colors|
  {
    t.colors[p] != 0 && if t.types[p].Added? then t.colors[p] != prefcolor else t.colors[p] == prefcolor
  }

  predicate Stops(t: Tsort, p: nat, q: nat, prefcolor: nat)
    requires p < |t.types| == |t.colors| == |t.qcnt| && q < |t.types|
    reads t
  {
    !(TailCond(t, p, prefcolor) && t.colors[p] != t.colors[q]) && t.qcnt[q] <= t.qcnt[p]
  }

  ghost predicate Sized(t: Tsort)
    reads t
  {
    |t.types| == |t.colors| == |t.qcnt| == |t.suc| == |t.reqx|
  }

  function Insert(q: seq<nat>, k: nat, p: nat): (r: seq<nat>)
    requires k <= |q|
    ensures |r| == |q| + 1
  {
    q[..k] + [p] + q[k..]
  }

  lemma ChainInsert(suc: seq<int>, head: int, q: seq<nat>, k: nat, p: nat)
    requires Chain(suc, head, q) && k <= |q| && p < |suc| && p !in q
    ensures var suc' := suc[p := if k < |q| then q[k] else -1];
            k == 0 ==> Chain(suc', p, Insert(q, k, p))
    ensures var suc' := suc[p := if k < |q| then q[k] else -1];
            k > 0 ==> Chain(suc'[q[k - 1] := p], head, Insert(q, k, p))
  {
    var r := Insert(q, k, p);
    assert forall i :: 0 <= i < k ==> r[i] == q[i];
    assert r[k] == p;
    assert forall i :: k < i < |r| ==> r[i] == q[i - 1];
    var suc' := suc[p := if k < |q| then q[k] else -1];
    var suc'' := if k == 0 then suc' else suc'[q[k - 1] := p];
    forall i | 0 <= i < |r| ensures suc''[r[i]] == Next(r, i) {
      if i < k { assert suc[q[i]] == Next(q, i); }
      if i > k { assert suc[q[i - 1]] == Next(q, i - 1); }
    }
  }

  /** Inserts p before the first queued element it does not have to pass. The
      tail pointer rp matters only by being NULL for a queue never used before;
      p must not be linked anywhere, since inserting at the end leaves its own
      link alone. */
  method AddQ(t: Tsort, p: nat, qp: int, rp: int, prefcolor: nat, ghost q: seq<nat>)
    returns (head: int, tail: int, ghost k: nat)
    requires Sized(t) && p < |t.types| && p !in q && t.suc[p] == -1
    requires Chain(t.suc, qp, q) && (rp == -1 ==> q == [])
    modifies t`suc, t`reqx
    ensures Sized(t) && k <= |q| && Chain(t.suc, head, Insert(q, k, p)) && tail != -1
    ensures forall i :: 0 <= i < k ==> !Stops(t, p, q[i], prefcolor)
    ensures k < |q| ==> Stops(t, p, q[k], prefcolor)
    ensures forall u :: 0 <= u < |t.suc| && u != p && u !in q ==> t.suc[u] == old(t.suc)[u]
    ensures t.reqx == old(t.reqx)[p := 1]
  {
    t.reqx := t.reqx[p := 1];
    if rp == -1 {
      k := 0;
      return p, p, k;
    }
    var qprev, cur := -1, qp;
    k := 0;
    while cur != -1
      invariant k <= |q|
      invariant qprev == (if k == 0 then -1 else q[k - 1])
      invariant cur == (if k < |q| then q[k] else -1)
      invariant forall i :: 0 <= i < k ==> !Stops(t, p, q[i], prefcolor)
      decreases |q| - k
    {
      if TailCond(t, p, prefcolor) && t.colors[p] != t.colors[cur] {
      } else if t.qcnt[cur] <= t.qcnt[p] {
        break;
      }
      assert t.suc[q[k]] == Next(q, k);
      qprev, cur := cur, t.suc[cur];
      k := k + 1;
    }
    head, tail := qp, rp;
    ChainInsert(t.suc, qp, q, k, p);
    assert t.suc[p := -1] == t.suc;
    if qprev == -1 {
      t.suc := t.suc[p := cur];
      head := p;
    } else if cur == -1 {
      t.suc := t.suc[qprev := p];
      tail := p;
    } else {
      t.suc := t.suc[p := cur];
      t.suc := t.suc[qprev := p];
    }
  }

  /** Taking the head off leaves the rest linked. */
  lemma ChainTail(suc: seq<int>, head: int, q: seq<nat>)
    requires Chain(suc, head, q) && q != []
    ensures head == q[0] < |suc| && q[0] !in q[1..] && Chain(suc, suc[q[0]], q[1..])
  {
    var r := q[1..];
    assert forall i :: 0 <= i < |r| ==> r[i] == q[i + 1];
    forall i | 0 <= i < |r| ensures suc[r[i]] == Next(r, i) {
      assert suc[q[i + 1]] == Next(q, i + 1);
    }
    assert suc[q[0]] == Next(q, 0);
  }

  /** Fewer and fewer others wait for the queued elements. */
  ghost predicate Falling(qcnt: seq<int>, q: seq<nat>) {
    forall i, j :: 0 <= i < j < |q| && q[i] < |qcnt| && q[j] < |qcnt| ==> qcnt[q[i]] >= qcnt[q[j]]
  }

  /** Where addQ() puts an element: elements of one colour are queued by falling tsi_qcnt. The
      preferred colour is put towards the head on install and towards the tail on erase: an
      element of another colour on install, or of this one on erase, is never put right before
      an element of a different colour; any other goes by tsi_qcnt alone. */
  lemma QueueRule(t: Tsort, p: nat, q: seq<nat>, k: nat, prefcolor: nat)
    requires Sized(t) && p < |t.types| && k <= |q| && forall i :: 0 <= i < |q| ==> q[i] < |t.types|
    requires (forall i :: 0 <= i < k ==> !Stops(t, p, q[i], prefcolor)) && (k < |q| ==> Stops(t, p, q[k], prefcolor))
    ensures (forall i :: 0 <= i < |q| ==> t.colors[q[i]] == t.colors[p]) && Falling(t.qcnt, q) ==> Falling(t.qcnt, Insert(q, k, p))
    ensures var last := t.colors[p] != 0 && ((t.types[p] == Added) != (t.colors[p] == prefcolor));
            && (last && k < |q| ==> t.colors[q[k]] == t.colors[p])
            && (!last ==> forall i :: 0 <= i < k ==> t.qcnt[q[i]] > t.qcnt[p])
            && (k < |q| ==> t.qcnt[q[k]] <= t.qcnt[p])
  {
    var r := Insert(q, k, p);
    assert forall i :: 0 <= i < |r| ==> r[i] == if i < k then q[i] else if i == k then p else q[i - 1];
    if (forall i :: 0 <= i < |q| ==> t.colors[q[i]] == t.colors[p]) && Falling(t.qcnt, q) {
      forall i, j | 0 <= i < j < |r| ensures t.qcnt[r[i]] >= t.qcnt[r[j]] {
        if i < k { assert !Stops(t, p, q[i], prefcolor); }
      }
    }
  }
}
