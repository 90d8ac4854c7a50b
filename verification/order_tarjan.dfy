/** tarjan() and detectSCCs() (lib/order.cc:257-365). */
module OrderTarjan {
  import opened OrderGraph
  import opened OrderCount
  import opened OrderState
  import opened OrderSccSpec

  function EmptyTable(n: nat): seq<Scc> {
    seq(n + 3, i => Scc(0, []))
  }

  class SccData {
    var index: int
    var stack: seq<nat>
    var sccCnt: int
    var sccs: seq<Scc>

    constructor (n: nat)
      ensures index == 0 && stack == [] && sccCnt == 2
      ensures sccs == EmptyTable(n)
    {
      index, stack, sccCnt := 0, [], 2;
      sccs := EmptyTable(n);
    }
  }

  ghost function Snap(t: Tsort, sd: SccData): Search
    reads t, sd
  {
    Search(t.sccIdx, t.lowlink, sd.stack, sd.index, sd.sccCnt)
  }

  ghost function Untouched(idx: seq<int>): set<nat> {
    set u: nat | u < |idx| && idx[u] == 0
  }

  ghost function Found(idx: seq<int>): set<nat> {
    set u: nat | u < |idx| && idx[u] > 0
  }

  /** Entry c lists component c, and counts the relations entering it from outside. */
  ghost predicate SccOk(g: Graph, idx: seq<int>, c: int, scc: Scc) {
    && Distinct(scc.members)
    && |scc.members| >= 2
    && Elems(scc.members) == Component(idx, c)
    && scc.count == Enter(g, Component(idx, c), Component(idx, c), |g|)
  }

  ghost predicate SccsOk(g: Graph, idx: seq<int>, cnt: int, sccs: seq<Scc>) {
    && |sccs| == |g| + 3
    && 2 <= cnt <= |Found(idx)| + 2
    && (forall c :: 2 <= c < cnt && c < |sccs| ==> SccOk(g, idx, c, sccs[c]))
    && (forall c :: cnt <= c < |sccs| ==> sccs[c] == Scc(0, []))
  }

  lemma FoundBound(idx: seq<int>, v: nat)
    requires v < |idx| && idx[v] <= 0
    ensures |Found(idx)| < |idx|
  {
    SubsetSize(Found(idx), Below(|idx|) - {v});
  }

  /** Only the found components matter to the table. */
  lemma SccsSame(g: Graph, idx: seq<int>, idx': seq<int>, cnt: int, sccs: seq<Scc>)
    requires SccsOk(g, idx, cnt, sccs) && |idx| == |idx'|
    requires forall u :: 0 <= u < |idx| && (idx[u] > 0 || idx'[u] > 0) ==> idx[u] == idx'[u]
    ensures SccsOk(g, idx', cnt, sccs)
  {
    assert Found(idx) == Found(idx');
    forall c | 2 <= c < cnt && c < |sccs|
      ensures SccOk(g, idx', c, sccs[c])
    {
      assert SccOk(g, idx, c, sccs[c]);
      assert Component(idx, c) == Component(idx', c);
    }
  }

  function Marked(idx: seq<int>, m: seq<nat>, c: int): seq<int> {
    seq(|idx|, u requires 0 <= u < |idx| => if u in m then c else idx[u])
  }

  /** First loop: the stack from the top down to v gets the next component number. */
  method NumberMembers(t: Tsort, sd: SccData, v: nat, ghost k: nat) returns (stackIdx: nat)
    requires k < |sd.stack| && sd.stack[k] == v && Distinct(sd.stack)
    requires forall i :: 0 <= i < |sd.stack| ==> sd.stack[i] < |t.sccIdx|
    modifies t`sccIdx
    ensures stackIdx == k
    ensures t.sccIdx == Marked(old(t.sccIdx), sd.stack[k..], sd.sccCnt)
  {
    stackIdx := |sd.stack|;
    ghost var idx0 := t.sccIdx;
    var q := 0;
    while stackIdx == |sd.stack| || q != v
      invariant k <= stackIdx <= |sd.stack|
      invariant stackIdx < |sd.stack| ==> q == sd.stack[stackIdx]
      invariant t.sccIdx == Marked(idx0, sd.stack[stackIdx..], sd.sccCnt)
      decreases stackIdx
    {
      stackIdx := stackIdx - 1;
      q := sd.stack[stackIdx];
      t.sccIdx := t.sccIdx[q := sd.sccCnt];
      assert sd.stack[stackIdx..] == [q] + sd.stack[stackIdx + 1..];
    }
  }

  /** The relations of q that stay inside component c. */
  method CountInternal(t: Tsort, q: nat, c: int, ghost g: Graph) returns (n: nat)
    requires g == GraphOf(t.relations) && Closed(g) && q < |g| == |t.sccIdx| && q !in g[q]
    ensures n == Hits(g[q], Component(t.sccIdx, c))
  {
    n := 0;
    var i := 0;
    while i < |t.relations[q]|
      invariant 0 <= i <= |t.relations[q]|
      invariant n + Hits(g[q][i..], Component(t.sccIdx, c)) == Hits(g[q], Component(t.sccIdx, c))
    {
      var p := t.relations[q][i].suc;
      assert p == g[q][i] && p in g[q] && g[q][i..][1..] == g[q][i + 1..];
      if p != q && t.sccIdx[p] == c { n := n + 1; }
      i := i + 1;
    }
  }

  /** Second loop: requirements of the members, less those among themselves. */
  method CountMembers(t: Tsort, sd: SccData, v: nat, ghost k: nat, ghost g: Graph) returns (stackIdx: nat)
    requires g == GraphOf(t.relations) && Closed(g) && |t.sccIdx| == |g| && Counted(g, t.count)
    requires k < |sd.stack| && sd.stack[k] == v && Distinct(sd.stack)
    requires forall i :: 0 <= i < |sd.stack| ==> sd.stack[i] < |g|
    requires Component(t.sccIdx, sd.sccCnt) == Elems(sd.stack[k..])
    requires 0 <= sd.sccCnt < |sd.sccs| && sd.sccs[sd.sccCnt] == Scc(0, [])
    modifies sd`sccs
    ensures stackIdx == k
    ensures var s := Elems(sd.stack[k..]);
            sd.sccs == old(sd.sccs)[sd.sccCnt := Scc(Enter(g, s, s, |g|), [])]
  {
    ghost var s := Elems(sd.stack[k..]);
    var count := 0;
    stackIdx := |sd.stack|;
    var q := 0;
    EnterNone(g, {}, |g|);
    assert Elems(sd.stack[stackIdx..]) == {};
    while stackIdx == |sd.stack| || q != v
      invariant k <= stackIdx <= |sd.stack|
      invariant stackIdx < |sd.stack| ==> q == sd.stack[stackIdx]
      invariant var d := Elems(sd.stack[stackIdx..]);
                count == Enter(g, {}, d, |g|) - Enter(g, {}, s, |g|) + Enter(g, d, s, |g|)
      invariant sd.sccs == old(sd.sccs)[sd.sccCnt := Scc(count, [])]
      decreases stackIdx
    {
      ghost var d := Elems(sd.stack[stackIdx..]);
      stackIdx := stackIdx - 1;
      q := sd.stack[stackIdx];
      var internal := CountInternal(t, q, sd.sccCnt, g);
      count := count + t.count[q] - internal;
      sd.sccs := sd.sccs[sd.sccCnt := Scc(count, [])];
      assert sd.stack[stackIdx..] == [q] + sd.stack[stackIdx + 1..];
      assert Elems(sd.stack[stackIdx..]) == d + {q} && q !in d;
      EnterAdd(g, {}, d, q, |g|);
      EnterSkip(g, d, q, s, |g|);
    }
  }

  function Reversed(s: seq<nat>): seq<nat> {
    seq(|s|, i requires 0 <= i < |s| => s[|s| - 1 - i])
  }

  /** Third loop: the members leave the stack. */
  method MoveMembers(sd: SccData, k: nat)
    requires k < |sd.stack| && 0 <= sd.sccCnt < |sd.sccs| && sd.sccs[sd.sccCnt].members == []
    modifies sd`sccs, sd`stack
    ensures sd.stack == old(sd.stack)[..k]
    ensures sd.sccs == old(sd.sccs)[sd.sccCnt := Scc(old(sd.sccs)[sd.sccCnt].count, Reversed(old(sd.stack)[k..]))]
  {
    ghost var stack0 := sd.stack;
    ghost var sccs0 := sd.sccs;
    assert Reversed(stack0[|stack0|..]) == [];
    while |sd.stack| > k
      invariant k <= |sd.stack| <= |stack0| && sd.stack == stack0[..|sd.stack|]
      invariant sd.sccs == sccs0[sd.sccCnt := Scc(sccs0[sd.sccCnt].count, Reversed(stack0[|sd.stack|..]))]
    {
      var top := sd.stack[|sd.stack| - 1];
      assert Reversed(stack0[|sd.stack| - 1..]) == Reversed(stack0[|sd.stack|..]) + [top];
      var scc := sd.sccs[sd.sccCnt];
      sd.sccs := sd.sccs[sd.sccCnt := Scc(scc.count, scc.members + [top])];
      sd.stack := sd.stack[..|sd.stack| - 1];
    }
  }

  lemma SccsGrow(g: Graph, idx: seq<int>, idx': seq<int>, cnt: int, sccs: seq<Scc>, m: seq<nat>)
    requires SccsOk(g, idx, cnt, sccs) && |idx| == |idx'| == |g| && cnt < |g| + 2
    requires m != [] && Distinct(m) && |m| >= 2 && forall u :: u in m ==> u < |idx| && idx[u] <= 0
    requires idx' == Marked(idx, m, cnt) && forall u :: 0 <= u < |idx| ==> idx[u] < cnt
    ensures SccsOk(g, idx', cnt + 1, sccs[cnt := Scc(Enter(g, Elems(m), Elems(m), |g|), m)])
  {
    assert Component(idx', cnt) == Elems(m);
    forall c | 2 <= c < cnt ensures Component(idx', c) == Component(idx, c) {
      assert forall u: nat :: u < |idx| && u in m ==> idx[u] <= 0;
    }
    SubsetSize(Found(idx) + {m[0]}, Found(idx'));
    var table := sccs[cnt := Scc(Enter(g, Elems(m), Elems(m), |g|), m)];
    forall c | 2 <= c < cnt + 1 && c < |table| ensures SccOk(g, idx', c, table[c]) {
      if c < cnt { assert SccOk(g, idx, c, sccs[c]); }
    }
  }

  /** Takes the component of the root v off the stack. */
  method CloseScc(t: Tsort, sd: SccData, v: nat, ghost k: nat, ghost g: Graph)
    requires g == GraphOf(t.relations) && Closed(g) && |t.sccIdx| == |g| && Counted(g, t.count)
    requires k + 1 < |sd.stack| && sd.stack[k] == v && Distinct(sd.stack)
    requires forall i :: 0 <= i < |sd.stack| ==> sd.stack[i] < |g| && t.sccIdx[sd.stack[i]] < 0
    requires forall u :: 0 <= u < |g| ==> t.sccIdx[u] < sd.sccCnt
    requires SccsOk(g, t.sccIdx, sd.sccCnt, sd.sccs)
    modifies t`sccIdx, sd`sccs, sd`stack, sd`sccCnt
    ensures sd.stack == old(sd.stack)[..k] && sd.sccCnt == old(sd.sccCnt) + 1
    ensures t.sccIdx == Marked(old(t.sccIdx), old(sd.stack)[k..], old(sd.sccCnt))
    ensures SccsOk(g, t.sccIdx, sd.sccCnt, sd.sccs)
  {
    ghost var m := sd.stack[k..];
    ghost var idx0 := t.sccIdx;
    assert v in m;
    FoundBound(idx0, v);
    hide SccOk;
    var stackIdx := NumberMembers(t, sd, v, k);
    assert Component(t.sccIdx, sd.sccCnt) == Elems(m);
    stackIdx := CountMembers(t, sd, v, k, g);
    MoveMembers(sd, stackIdx);
    SccsSwap(g, idx0, sd.sccCnt, old(sd.sccs), m);
    assert sd.sccs == old(sd.sccs)[sd.sccCnt := Scc(Enter(g, Elems(m), Elems(m), |g|), Reversed(m))];
    sd.sccCnt := sd.sccCnt + 1;
  }

  /** Members are listed from the top of the stack down. */
  lemma SccsSwap(g: Graph, idx: seq<int>, cnt: int, sccs: seq<Scc>, m: seq<nat>)
    requires SccsOk(g, idx, cnt, sccs) && |idx| == |g| && cnt < |g| + 2
    requires |m| >= 2 && Distinct(m) && forall u :: u in m ==> u < |idx| && idx[u] < 0
    requires forall u :: 0 <= u < |idx| ==> idx[u] < cnt
    ensures SccsOk(g, Marked(idx, m, cnt), cnt + 1, sccs[cnt := Scc(Enter(g, Elems(m), Elems(m), |g|), Reversed(m))])
  {
    var r := Reversed(m);
    forall u ensures u in r <==> u in m {
      if u in m { var i :| 0 <= i < |m| && m[i] == u; assert r[|m| - 1 - i] == u; }
    }
    assert Elems(r) == Elems(m);
    assert Marked(idx, m, cnt) == Marked(idx, r, cnt);
    SccsGrow(g, idx, Marked(idx, r, cnt), cnt, sccs, r);
  }

  /** What the code needs of the predicates around it. */
  lemma PreBasics(g: Graph, s: Search, gray: set<nat>, v: nat)
    requires Pre(g, s, gray, v)
    ensures Closed(g) && Numbered(g, s) && Stacked(g, s) && NoWhite(g, s, gray) && UpReach(g, s, gray)
    ensures v < |g| == |s.idx| == |s.low| && s.idx[v] == 0
  {
  }

  lemma InvBasics(g: Graph, s0: Search, s: Search, gray: set<nat>, v: nat, i: nat)
    requires Numbered(g, s0) && v < |g| && i <= |g[v]| && Inv(g, s0, s, gray, v, i)
    ensures Closed(g) && |s.idx| == |s.low| == |g| && s.idx[v] < 0
    ensures s0.idx[v] == 0 && Untouched(s.idx) < Untouched(s0.idx)
  {
    assert Closed(g) && Numbered(g, s) by { hide LowTarget, Bounded, Seen, Keeps; }
    hide Wf, LowTarget, Bounded, Seen;
    assert v in Untouched(s0.idx) && v !in Untouched(s.idx);
  }

  lemma PostBasics(g: Graph, s0: Search, s: Search, gray: set<nat>, v: nat)
    requires Numbered(g, s0) && v < |g| && Post(g, s0, s, gray, v)
    ensures |s0.idx| == |s.idx| == |s.low| == |g|
    ensures Wf(g, s, gray) && s.idx[v] != 0
    ensures forall u :: 0 <= u < |g| && s0.idx[u] != 0 ==> s.idx[u] != 0
  {
    hide Wf, LowTarget, Bounded;
    assert Numbered(g, s) by { WfNumbered(g, s, gray); }
  }

  lemma WfNumbered(g: Graph, s: Search, gray: set<nat>)
    requires Wf(g, s, gray)
    ensures Closed(g) && Numbered(g, s)
  {
  }

  lemma RootStack(g: Graph, s0: Search, s: Search, gray: set<nat>, v: nat)
    requires Root(g, s0, s, gray, v)
    ensures v < |g| == |s.idx| && Closed(g) && Numbered(g, s) && Stacked(g, s)
    ensures |s0.stack| < |s.stack| && s.stack[|s0.stack|] == v && s0.stack == s.stack[..|s0.stack|]
    ensures s.stack[|s.stack| - 1] == v ==> s.stack == s0.stack + [v]
    ensures Distinct(s.stack)
    ensures forall i :: 0 <= i < |s.stack| ==> s.stack[i] < |g| && s.idx[s.stack[i]] < 0
    ensures forall u :: 0 <= u < |g| ==> s.idx[u] < s.cnt
    ensures s.cnt >= 2
  {
    hide NoWhite, UpReach, DownReach, Exact, Keeps, Seen, Bounded, LowTarget;
    var k := |s0.stack|;
    assert (s0.stack + [v])[k] == v;
    assert Numbered(g, s) && Stacked(g, s);
  }

  lemma RootMarked(g: Graph, s: Search, k: nat, v: nat, c: int)
    requires Numbered(g, s) && Stacked(g, s) && v < |g| && k < |s.stack| && s.stack[k] == v
    ensures Marked(s.idx, s.stack[k..], c) == Popped(s, s.stack[..k], v, c).idx
  {
    forall u | 0 <= u < |g| ensures u in s.stack[k..] <==> s.idx[u] <= s.idx[v] {
      if s.idx[u] <= s.idx[v] {
        assert u in s.stack;
        var i :| 0 <= i < |s.stack| && s.stack[i] == u;
        assert s.stack[k..][i - k] == u;
      }
    }
  }

  lemma CloseSingle(g: Graph, s0: Search, s: Search, gray: set<nat>, v: nat, sccs: seq<Scc>)
    requires Root(g, s0, s, gray, v) && s.stack == s0.stack + [v] && SccsOk(g, s.idx, s.cnt, sccs)
    ensures v < |s.idx| && Post(g, s0, Search(s.idx[v := 1], s.low, s0.stack, s.index, s.cnt), gray, v)
    ensures SccsOk(g, s.idx[v := 1], s.cnt, sccs)
  {
    Pop(g, s0, s, gray, v, 1);
    RootStack(g, s0, s, gray, v);
    assert Numbered(g, s) && Stacked(g, s);
    hide Root, Post, Stacked;
    RootMarked(g, s, |s0.stack|, v, 1);
    assert s.stack[|s0.stack|..] == [v];
    var idx := s.idx[v := 1];
    assert idx == Marked(s.idx, [v], 1);
    assert Search(idx, s.low, s0.stack, s.index, s.cnt) == Popped(s, s0.stack, v, 1);
    SccsSingle(g, s.idx, v, s.cnt, sccs);
  }

  lemma SccsSingle(g: Graph, idx: seq<int>, v: nat, cnt: int, sccs: seq<Scc>)
    requires SccsOk(g, idx, cnt, sccs) && v < |idx| && idx[v] < 0
    ensures SccsOk(g, idx[v := 1], cnt, sccs)
  {
    hide SccOk;
    SubsetSize(Found(idx), Found(idx[v := 1]));
    forall c | 2 <= c < cnt && c < |sccs|
      ensures SccOk(g, idx[v := 1], c, sccs[c])
    {
      SccOkSame(g, idx, idx[v := 1], c, sccs[c]);
    }
  }

  lemma SccOkSame(g: Graph, idx: seq<int>, idx': seq<int>, c: int, scc: Scc)
    requires SccOk(g, idx, c, scc) && |idx| == |idx'|
    requires forall u :: 0 <= u < |idx| ==> (idx[u] == c <==> idx'[u] == c)
    ensures SccOk(g, idx', c, scc)
  {
    assert Component(idx, c) == Component(idx', c);
  }

  /** A DFS from v: everything it visits is left on the stack or in its exact component. */
  method Tarjan(t: Tsort, sd: SccData, v: nat, ghost g: Graph, ghost gray: set<nat>)
    requires g == GraphOf(t.relations) && Counted(g, t.count)
    requires Pre(g, Snap(t, sd), gray, v)
    requires SccsOk(g, t.sccIdx, sd.sccCnt, sd.sccs)
    modifies t`sccIdx, t`lowlink, sd
    ensures Numbered(g, old(Snap(t, sd))) && Post(g, old(Snap(t, sd)), Snap(t, sd), gray, v)
    ensures SccsOk(g, t.sccIdx, sd.sccCnt, sd.sccs)
    decreases Untouched(t.sccIdx), 1
  {
    hide Pre, Inv, Post, NoWhite, Numbered, Stacked, UpReach, SccsOk, Counted;
    ghost var s0 := Snap(t, sd);
    PreBasics(g, s0, gray, v);
    Push(g, s0, gray, v);
    sd.index := sd.index - 1;
    t.sccIdx := t.sccIdx[v := sd.index];
    t.lowlink := t.lowlink[v := sd.index];
    sd.stack := sd.stack + [v];
    assert Snap(t, sd) == Pushed(s0, v);
    InvBasics(g, s0, Snap(t, sd), gray, v, 0);
    SccsSame(g, s0.idx, t.sccIdx, sd.sccCnt, sd.sccs);
    var i := 0;
    while i < |t.relations[v]|
      invariant 0 <= i <= |t.relations[v]|
      invariant Inv(g, s0, Snap(t, sd), gray, v, i)
      invariant SccsOk(g, t.sccIdx, sd.sccCnt, sd.sccs)
    {
      ghost var s := Snap(t, sd);
      InvBasics(g, s0, s, gray, v, i);
      var q := t.relations[v][i].suc;
      assert q == g[v][i];
      if t.sccIdx[q] > 0 {
        StepFound(g, s0, s, gray, v, i);
      } else if t.sccIdx[q] == 0 {
        StepEnter(g, s0, s, gray, v, i);
        Tarjan(t, sd, q, g, gray + {v});
        PostBasics(g, s, Snap(t, sd), gray + {v}, q);
        StepLeave(g, s0, s, Snap(t, sd), gray, v, i);
        t.lowlink := t.lowlink[v := if t.lowlink[v] > t.lowlink[q] then t.lowlink[v] else t.lowlink[q]];
      } else {
        StepStack(g, s0, s, gray, v, i);
        t.lowlink := t.lowlink[v := if t.lowlink[v] > t.sccIdx[q] then t.lowlink[v] else t.sccIdx[q]];
      }
      i := i + 1;
    }
    InvBasics(g, s0, Snap(t, sd), gray, v, i);
    if t.lowlink[v] == t.sccIdx[v] {
      CloseRoot(t, sd, v, g, gray, s0);
    } else {
      Blacken(g, s0, Snap(t, sd), gray, v);
    }
  }

  /** lib/order.cc:294-327: v is the root of a component. */
  method CloseRoot(t: Tsort, sd: SccData, v: nat, ghost g: Graph, ghost gray: set<nat>, ghost s0: Search)
    requires g == GraphOf(t.relations) && Counted(g, t.count)
    requires Root(g, s0, Snap(t, sd), gray, v)
    requires SccsOk(g, t.sccIdx, sd.sccCnt, sd.sccs)
    modifies t`sccIdx, sd
    ensures Post(g, s0, Snap(t, sd), gray, v)
    ensures SccsOk(g, t.sccIdx, sd.sccCnt, sd.sccs)
    decreases Untouched(t.sccIdx), 0
  {
    ghost var s := Snap(t, sd);
    hide Root, Post, SccsOk, Counted, Stacked, Numbered;
    RootStack(g, s0, s, gray, v);
    if sd.stack[|sd.stack| - 1] == v {
      CloseSingle(g, s0, s, gray, v, sd.sccs);
      t.sccIdx := t.sccIdx[v := 1];
      sd.stack := sd.stack[..|sd.stack| - 1];
    } else {
      Pop(g, s0, s, gray, v, sd.sccCnt);
      RootMarked(g, s, |s0.stack|, v, sd.sccCnt);
      CloseScc(t, sd, v, |s0.stack|, g);
      assert sd.stack == s0.stack;
      assert Snap(t, sd) == Popped(s, s0.stack, v, s.cnt);
    }
  }

  /** Every element has its exact component: number 1 when nothing else is
      mutually reachable with it, and otherwise a number from 2 to cnt - 1 that
      it shares with exactly the elements of its component. */
  ghost predicate Components(g: Graph, idx: seq<int>, cnt: int, sccs: seq<Scc>) {
    && |idx| == |g|
    && (forall u :: 0 <= u < |g| ==> 0 < idx[u] < cnt)
    && (forall u, v :: 0 <= u < |g| && 0 <= v < |g| && u != v ==>
          (Mutual(g, u, v) <==> idx[u] == idx[v] >= 2))
    && SccsOk(g, idx, cnt, sccs)
    && cnt < |sccs|
  }

  lemma StackEmpty(g: Graph, s: Search)
    requires Wf(g, s, {})
    ensures |s.idx| == |g| && forall u :: 0 <= u < |g| ==> s.idx[u] >= 0
  {
    hide NoWhite, DownReach, Exact, Stacked, Reach;
    forall u | 0 <= u < |g| ensures s.idx[u] >= 0 {
      assert s.idx[u] < 0 ==> ReachesGray(g, s, {}, u);
    }
  }

  lemma WfStart(g: Graph, s: Search)
    requires Closed(g) && |s.idx| == |s.low| == |g| && s.index == 0 && s.cnt == 2 && s.stack == []
    requires forall u :: 0 <= u < |g| ==> s.idx[u] == 0
    ensures Wf(g, s, {})
  {
    hide Reach;
  }

  lemma PreStart(g: Graph, s: Search, v: nat)
    requires Wf(g, s, {}) && v < |g| == |s.idx| && s.idx[v] == 0
    ensures Pre(g, s, {}, v) && Numbered(g, s)
  {
    WfNumbered(g, s, {});
    hide Wf;
  }

  lemma TableStart(g: Graph, idx: seq<int>)
    requires |idx| == |g| && forall u :: 0 <= u < |g| ==> idx[u] == 0
    ensures SccsOk(g, idx, 2, EmptyTable(|g|))
  {
  }

  lemma TableEnd(g: Graph, s: Search, sccs: seq<Scc>)
    requires Wf(g, s, {}) && SccsOk(g, s.idx, s.cnt, sccs)
    requires forall u :: 0 <= u < |g| ==> s.idx[u] > 0
    ensures Components(g, s.idx, s.cnt, sccs)
  {
    hide NoWhite, DownReach, UpReach, Stacked, Mutual;
    SubsetSize(Found(s.idx), Below(|g|));
  }

  /** detectSCCs(): a DFS from every element not yet in a component. */
  method DetectSCCs(t: Tsort, ghost g: Graph) returns (sccs: seq<Scc>, ghost cnt: int)
    requires g == GraphOf(t.relations) && Closed(g) && Counted(g, t.count)
    requires |t.sccIdx| == |t.lowlink| == |g| && forall u :: 0 <= u < |g| ==> t.sccIdx[u] == 0
    modifies t`sccIdx, t`lowlink
    ensures Components(g, t.sccIdx, cnt, sccs) && |t.lowlink| == |g|
  {
    hide Wf, SccsOk, Counted, Pre, Post, EmptyTable, Components, Closed, Numbered;
    var sd := new SccData(|t.sccIdx|);
    WfStart(g, Snap(t, sd));
    TableStart(g, t.sccIdx);
    var i := 0;
    while i < |t.sccIdx|
      invariant 0 <= i <= |t.sccIdx| == |t.lowlink| == |g|
      invariant Wf(g, Snap(t, sd), {}) && SccsOk(g, t.sccIdx, sd.sccCnt, sd.sccs)
      invariant forall u :: 0 <= u < i ==> t.sccIdx[u] != 0
    {
      StackEmpty(g, Snap(t, sd));
      if t.sccIdx[i] == 0 {
        ghost var s := Snap(t, sd);
        PreStart(g, s, i);
        Tarjan(t, sd, i, g, {});
        PostBasics(g, s, Snap(t, sd), {}, i);
      }
      i := i + 1;
    }
    StackEmpty(g, Snap(t, sd));
    sccs, cnt := sd.sccs, sd.sccCnt;
    TableEnd(g, Snap(t, sd), sccs);
  }
}
