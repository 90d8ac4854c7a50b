/** Strongly connected components: what tarjan() keeps while it walks the
    relation graph (lib/order.cc:257-341). */
module OrderSccSpec {
  import opened OrderGraph

  /** The part of the search state the proof talks about: tsi_SccIdx and
      tsi_SccLowlink of every element, the stack, the (falling) DFS number and
      the next component number. */
  datatype Search = Search(idx: seq<int>, low: seq<int>, stack: seq<nat>, index: int, cnt: int)

  /** An element is untouched at 0, on the stack below 0, in a found component above 0. */
  ghost predicate Numbered(g: Graph, s: Search) {
    && |s.idx| == |g| == |s.low|
    && s.index <= 0
    && s.cnt >= 2
    && (forall u :: 0 <= u < |g| ==> s.index <= s.idx[u] < s.cnt)
  }

  ghost predicate Stacked(g: Graph, s: Search)
    requires Numbered(g, s)
  {
    && (forall i :: 0 <= i < |s.stack| ==> s.stack[i] < |g| && s.idx[s.stack[i]] < 0)
    && (forall i, j :: 0 <= i < j < |s.stack| ==> s.idx[s.stack[i]] > s.idx[s.stack[j]])
    && (forall u :: 0 <= u < |g| && s.idx[u] < 0 ==> u in s.stack)
  }

  /** Found components have no relation out of them, finished elements none to an untouched one. */
  ghost predicate NoWhite(g: Graph, s: Search, gray: set<nat>)
    requires Numbered(g, s) && Closed(g)
  {
    && (forall u :: u in gray ==> u < |g| && s.idx[u] < 0)
    && (forall u: nat, v: nat :: Edge(g, u, v) && s.idx[u] > 0 ==> s.idx[v] > 0)
    && (forall u: nat, v: nat :: Edge(g, u, v) && s.idx[u] < 0 && u !in gray ==> s.idx[v] != 0)
  }

  ghost predicate DownReach(g: Graph, s: Search)
    requires Numbered(g, s)
  {
    forall x, y :: 0 <= x < |g| && 0 <= y < |g| && s.idx[y] <= s.idx[x] < 0 ==> Reach(g, x, y)
  }

  ghost predicate ReachesGray(g: Graph, s: Search, gray: set<nat>, y: nat)
    requires Numbered(g, s) && y < |g|
  {
    exists x :: x in gray && x < |g| && s.idx[y] <= s.idx[x] && Reach(g, y, x)
  }

  ghost predicate UpReach(g: Graph, s: Search, gray: set<nat>)
    requires Numbered(g, s)
  {
    forall y {:trigger ReachesGray(g, s, gray, y)} :: 0 <= y < |g| && s.idx[y] < 0 ==> ReachesGray(g, s, gray, y)
  }

  /** Component numbers are exact for every element that has one. */
  ghost predicate Exact(g: Graph, idx: seq<int>)
    requires |idx| == |g|
  {
    forall u, v :: 0 <= u < |g| && 0 <= v < |g| && u != v && idx[u] > 0 ==>
      (Mutual(g, u, v) <==> idx[u] == idx[v] >= 2)
  }

  ghost predicate Wf(g: Graph, s: Search, gray: set<nat>) {
    && Closed(g)
    && Numbered(g, s)
    && Stacked(g, s)
    && NoWhite(g, s, gray)
    && DownReach(g, s)
    && UpReach(g, s, gray)
    && Exact(g, s.idx)
  }

  ghost predicate Pre(g: Graph, s: Search, gray: set<nat>, v: nat) {
    && Wf(g, s, gray)
    && v < |g| && s.idx[v] == 0
    && forall x :: x in gray ==> Reach(g, x, v)
  }

  /** What was touched keeps its numbers. */
  ghost predicate Keeps(g: Graph, s0: Search, s: Search)
    requires Numbered(g, s0) && Numbered(g, s)
  {
    && s.index <= s0.index
    && s0.cnt <= s.cnt
    && s0.stack <= s.stack
    && (forall u :: 0 <= u < |g| && s0.idx[u] != 0 ==> s.idx[u] == s0.idx[u] && s.low[u] == s0.low[u])
    && (forall u :: 0 <= u < |g| && s0.idx[u] == 0 ==> s.idx[u] < s0.index || s.idx[u] >= 0)
    && (forall u :: 0 <= u < |g| && s0.idx[u] == 0 && s.idx[u] > 0 ==> s.idx[u] == 1 || s.idx[u] >= s0.cnt)
  }

  /** b is the number of an element of the earlier stack that v reaches. */
  ghost predicate LowTarget(g: Graph, s0: Search, v: nat, b: int)
    requires Numbered(g, s0)
  {
    exists z :: 0 <= z < |g| && s0.idx[z] < 0 && b == s0.idx[z] && Reach(g, v, z)
  }

  /** No relation leaves the part pushed since s0 for an earlier stack element numbered above b. */
  ghost predicate Bounded(g: Graph, s0: Search, s: Search, b: int, but: set<nat>)
    requires Numbered(g, s0) && Numbered(g, s) && Closed(g)
  {
    forall y: nat, z: nat :: Edge(g, y, z) && y !in but && s0.idx[y] == 0 && s.idx[y] < 0 && s0.idx[z] < 0
      ==> s0.idx[z] <= b
  }

  ghost predicate Post(g: Graph, s0: Search, s: Search, gray: set<nat>, v: nat)
    requires Numbered(g, s0) && v < |g|
  {
    && Wf(g, s, gray)
    && Keeps(g, s0, s)
    && s.idx[v] != 0
    && (s.idx[v] > 0 ==> s.stack == s0.stack && s.low[v] < s0.index)
    && (s.idx[v] < 0 ==> LowTarget(g, s0, v, s.low[v]))
    && Bounded(g, s0, s, s.low[v], {})
  }

  /** The first i relations of v have been looked at. */
  ghost predicate Seen(g: Graph, s0: Search, s: Search, v: nat, i: nat)
    requires Closed(g) && Numbered(g, s0) && Numbered(g, s) && v < |g| && i <= |g[v]|
  {
    && (forall j :: 0 <= j < i ==> s.idx[g[v][j]] != 0)
    && (forall j :: 0 <= j < i && s0.idx[g[v][j]] < 0 ==> s0.idx[g[v][j]] <= s.low[v])
  }

  /** The loop over the relations of v, after the first i of them. */
  ghost predicate Inv(g: Graph, s0: Search, s: Search, gray: set<nat>, v: nat, i: nat)
    requires Numbered(g, s0) && v < |g| && i <= |g[v]|
  {
    && Wf(g, s, gray + {v})
    && Keeps(g, s0, s)
    && s0.idx[v] == 0 && s.idx[v] == s0.index - 1
    && s0.stack + [v] <= s.stack
    && (s.low[v] == s.idx[v] || LowTarget(g, s0, v, s.low[v]))
    && s.low[v] >= s.idx[v]
    && Bounded(g, s0, s, s.low[v], {v})
    && Seen(g, s0, s, v, i)
  }

  function Pushed(s: Search, v: nat): Search
    requires v < |s.idx| == |s.low|
  {
    Search(s.idx[v := s.index - 1], s.low[v := s.index - 1], s.stack + [v], s.index - 1, s.cnt)
  }

  lemma PushReach(g: Graph, s: Search, gray: set<nat>, v: nat, x: nat)
    requires Numbered(g, s) && UpReach(g, s, gray) && x < |g| && s.idx[x] < 0
    requires forall w :: w in gray ==> Reach(g, w, v)
    ensures Reach(g, x, v)
  {
    hide Reach;
    assert ReachesGray(g, s, gray, x);
    var w :| w in gray && w < |g| && s.idx[x] <= s.idx[w] && Reach(g, x, w);
    ReachTrans(g, x, w, v);
  }

  lemma PushUp(g: Graph, s: Search, gray: set<nat>, v: nat)
    requires Numbered(g, s) && UpReach(g, s, gray) && v < |g| && s.idx[v] == 0
    requires forall w :: w in gray ==> w < |g| && s.idx[w] < 0
    ensures Numbered(g, Pushed(s, v)) && UpReach(g, Pushed(s, v), gray + {v})
  {
    hide Reach;
    var t := Pushed(s, v);
    forall y | 0 <= y < |g| && t.idx[y] < 0
      ensures ReachesGray(g, t, gray + {v}, y)
    {
      if y == v {
        ReachRefl(g, v);
        assert v in gray + {v};
      } else {
        assert ReachesGray(g, s, gray, y);
        var w :| w in gray && w < |g| && s.idx[y] <= s.idx[w] && Reach(g, y, w);
        assert w in gray + {v} && t.idx[w] == s.idx[w];
      }
    }
  }

  lemma PushDown(g: Graph, s: Search, gray: set<nat>, v: nat)
    requires Numbered(g, s) && UpReach(g, s, gray) && DownReach(g, s) && v < |g| && s.idx[v] == 0
    requires forall w :: w in gray ==> Reach(g, w, v)
    ensures Numbered(g, Pushed(s, v)) && DownReach(g, Pushed(s, v))
  {
    hide Reach;
    var t := Pushed(s, v);
    forall x, y | 0 <= x < |g| && 0 <= y < |g| && t.idx[y] <= t.idx[x] < 0
      ensures Reach(g, x, y)
    {
      if x == v { ReachRefl(g, v); } else if y == v { PushReach(g, s, gray, v, x); }
    }
  }

  lemma PushRest(g: Graph, s: Search, gray: set<nat>, v: nat)
    requires Closed(g) && Numbered(g, s) && Stacked(g, s) && NoWhite(g, s, gray) && v < |g| && s.idx[v] == 0
    ensures var t := Pushed(s, v);
            Numbered(g, t) && Stacked(g, t) && NoWhite(g, t, gray + {v}) && Keeps(g, s, t) && Bounded(g, s, t, t.low[v], {v})
  {
    hide NoWhite, Bounded, Stacked, Closed;
    PushStack(g, s, v);
    PushWhite(g, s, gray, v);
  }

  lemma PushStack(g: Graph, s: Search, v: nat)
    requires Numbered(g, s) && Stacked(g, s) && v < |g| && s.idx[v] == 0
    ensures Numbered(g, Pushed(s, v)) && Stacked(g, Pushed(s, v))
  {
  }

  lemma PushWhite(g: Graph, s: Search, gray: set<nat>, v: nat)
    requires Closed(g) && Numbered(g, s) && NoWhite(g, s, gray) && v < |g| && s.idx[v] == 0
    requires Numbered(g, Pushed(s, v))
    ensures NoWhite(g, Pushed(s, v), gray + {v}) && Bounded(g, s, Pushed(s, v), Pushed(s, v).low[v], {v})
  {
  }

  lemma Push(g: Graph, s: Search, gray: set<nat>, v: nat)
    requires Pre(g, s, gray, v)
    ensures Inv(g, s, Pushed(s, v), gray, v, 0)
  {
    hide UpReach, DownReach, Reach;
    PushUp(g, s, gray, v);
    PushDown(g, s, gray, v);
    PushRest(g, s, gray, v);
    hide Stacked, NoWhite, Keeps, Bounded;
  }

  function Max(a: int, b: int): int { if a > b then a else b }

  function Lowered(s: Search, v: nat, b: int): Search
    requires v < |s.low|
  {
    s.(low := s.low[v := Max(s.low[v], b)])
  }

  /** The invariant reads no lowlink. */
  lemma WfLow(g: Graph, s: Search, gray: set<nat>, v: nat, b: int)
    requires Wf(g, s, gray) && v < |g|
    ensures Wf(g, Lowered(s, v, b), gray)
  {
    hide Reach;
    assert Numbered(g, Lowered(s, v, b));
    forall y | 0 <= y < |g| && s.idx[y] < 0
      ensures ReachesGray(g, Lowered(s, v, b), gray, y)
    {
      assert ReachesGray(g, s, gray, y);
    }
  }

  lemma BoundedLow(g: Graph, s0: Search, s: Search, v: nat, b: int, c: int, but: set<nat>)
    requires Closed(g) && Numbered(g, s0) && Numbered(g, s) && v < |g|
    requires Bounded(g, s0, s, b, but) && b <= c
    ensures Numbered(g, Lowered(s, v, c)) && Bounded(g, s0, Lowered(s, v, c), c, but)
  {
  }

  lemma KeepsLow(g: Graph, s0: Search, s: Search, v: nat, b: int)
    requires Numbered(g, s0) && Numbered(g, s) && v < |g| && s0.idx[v] == 0 && Keeps(g, s0, s)
    ensures Numbered(g, Lowered(s, v, b)) && Keeps(g, s0, Lowered(s, v, b))
  {
  }

  lemma SeenNext(g: Graph, s0: Search, s: Search, t: Search, v: nat, i: nat, b: int)
    requires Closed(g) && Numbered(g, s0) && Numbered(g, s) && Numbered(g, t) && v < |g| && i < |g[v]|
    requires Seen(g, s0, s, v, i) && Keeps(g, s, t) && t.low[v] == s.low[v]
    requires t.idx[g[v][i]] != 0 && (s0.idx[g[v][i]] < 0 ==> s0.idx[g[v][i]] <= Max(t.low[v], b))
    ensures Numbered(g, Lowered(t, v, b)) && Seen(g, s0, Lowered(t, v, b), v, i + 1)
  {
    var r := Lowered(t, v, b);
    assert forall j :: 0 <= j < i ==> s.idx[g[v][j]] == r.idx[g[v][j]];
  }

  lemma KeepsSelf(g: Graph, s: Search)
    requires Numbered(g, s)
    ensures Keeps(g, s, s)
  {
  }

  /** A relation to a found component changes nothing. */
  lemma StepFound(g: Graph, s0: Search, s: Search, gray: set<nat>, v: nat, i: nat)
    requires Numbered(g, s0) && v < |g| && i < |g[v]| && Inv(g, s0, s, gray, v, i)
    requires s.idx[g[v][i]] > 0
    ensures Inv(g, s0, s, gray, v, i + 1)
  {
    assert Closed(g) && Numbered(g, s);
    hide Wf, LowTarget, Bounded;
  }

  /** A relation back to the stack. */
  lemma StepStack(g: Graph, s0: Search, s: Search, gray: set<nat>, v: nat, i: nat)
    requires Numbered(g, s0) && v < |g| && i < |g[v]| && Inv(g, s0, s, gray, v, i)
    requires s.idx[g[v][i]] < 0
    ensures Inv(g, s0, Lowered(s, v, s.idx[g[v][i]]), gray, v, i + 1)
  {
    assert Closed(g) && Numbered(g, s);
    var w := g[v][i];
    assert s0.idx[w] != 0 ==> s0.idx[w] == s.idx[w];
    assert s0.idx[w] == 0 ==> s.idx[w] <= s.idx[v];
    KeepsSelf(g, s);
    hide Wf, Reach, Bounded, Keeps, Seen;
    WfLow(g, s, gray + {v}, v, s.idx[w]);
    assert Edge(g, v, w);
    ReachEdge(g, v, w);
    BoundedLow(g, s0, s, v, s.low[v], Max(s.low[v], s.idx[w]), {v});
    KeepsLow(g, s0, s, v, s.idx[w]);
    SeenNext(g, s0, s, s, v, i, s.idx[w]);
  }

  /** Recursing into an untouched element is allowed. */
  lemma StepEnter(g: Graph, s0: Search, s: Search, gray: set<nat>, v: nat, i: nat)
    requires Numbered(g, s0) && v < |g| && i < |g[v]| && Inv(g, s0, s, gray, v, i)
    requires NoWhite(g, s0, gray)
    requires s.idx[g[v][i]] == 0
    ensures Pre(g, s, gray + {v}, g[v][i])
  {
    hide Reach, UpReach, Exact, Stacked, Bounded;
    var w := g[v][i];
    assert Edge(g, v, w);
    ReachEdge(g, v, w);
    forall x | x in gray + {v} ensures Reach(g, x, w) {
      assert Reach(g, x, v);
      ReachTrans(g, x, v, w);
    }
  }

  lemma KeepsTrans(g: Graph, s0: Search, s: Search, t: Search)
    requires Numbered(g, s0) && Numbered(g, s) && Numbered(g, t)
    requires Keeps(g, s0, s) && Keeps(g, s, t)
    ensures Keeps(g, s0, t)
  {
  }

  lemma BoundedJoin(g: Graph, s0: Search, s: Search, t: Search, v: nat, b: int, c: int, d: int)
    requires Closed(g) && Numbered(g, s0) && Numbered(g, s) && Numbered(g, t)
    requires Keeps(g, s0, s) && Keeps(g, s, t)
    requires Bounded(g, s0, s, b, {v}) && Bounded(g, s, t, c, {}) && b <= d && c <= d
    ensures Bounded(g, s0, t, d, {v})
  {
  }

  lemma LowJoin(g: Graph, s0: Search, s: Search, t: Search, v: nat, w: nat)
    requires Numbered(g, s0) && Numbered(g, s) && Numbered(g, t) && v < |g| && w < |g|
    requires Keeps(g, s0, s) && s0.idx[v] == 0 && s.idx[v] == s0.index - 1
    requires Reach(g, v, w) && LowTarget(g, s, w, t.low[w])
    ensures t.low[w] > s.idx[v] ==> LowTarget(g, s0, v, t.low[w])
  {
    hide Reach;
    var z :| 0 <= z < |g| && s.idx[z] < 0 && t.low[w] == s.idx[z] && Reach(g, w, z);
    ReachTrans(g, v, w, z);
  }

  /** Coming back from it. */
  lemma StepLeave(g: Graph, s0: Search, s: Search, t: Search, gray: set<nat>, v: nat, i: nat)
    requires Numbered(g, s0) && v < |g| && i < |g[v]| && Inv(g, s0, s, gray, v, i)
    requires s.idx[g[v][i]] == 0
    requires Post(g, s, t, gray + {v}, g[v][i])
    ensures Inv(g, s0, Lowered(t, v, t.low[g[v][i]]), gray, v, i + 1)
  {
    assert Closed(g) && Numbered(g, s) && Numbered(g, t);
    var w := g[v][i];
    var b := Max(t.low[v], t.low[w]);
    assert t.low[v] == s.low[v] && t.idx[v] == s.idx[v] && s0.idx[w] == 0;
    assert s.index <= s.idx[v];
    assert s0.stack + [v] <= t.stack;
    hide Wf, Reach, Bounded, LowTarget, Keeps, Seen, Numbered;
    WfLow(g, t, gray + {v}, v, t.low[w]);
    KeepsTrans(g, s0, s, t);
    BoundedJoin(g, s0, s, t, v, s.low[v], t.low[w], b);
    BoundedLow(g, s0, t, v, b, b, {v});
    assert Edge(g, v, w);
    ReachEdge(g, v, w);
    if t.idx[w] < 0 { LowJoin(g, s0, s, t, v, w); }
    KeepsLow(g, s0, t, v, t.low[w]);
    SeenNext(g, s0, s, t, v, i, t.low[w]);
  }

  /** v is not a root: it turns finished, and its stack part still reaches an open element. */
  lemma Blacken(g: Graph, s0: Search, s: Search, gray: set<nat>, v: nat)
    requires Numbered(g, s0) && v < |g| && Inv(g, s0, s, gray, v, |g[v]|)
    requires NoWhite(g, s0, gray) && UpReach(g, s0, gray)
    requires s.low[v] != s.idx[v]
    ensures Post(g, s0, s, gray, v)
  {
    hide Reach, LowTarget, Stacked, DownReach, Exact;
    forall y | 0 <= y < |g| && s.idx[y] < 0
      ensures ReachesGray(g, s, gray, y)
    {
      BlackenUp(g, s0, s, gray, v, y);
    }
    hide ReachesGray;
    BlackenNoWhite(g, s0, s, gray, v);
    hide NoWhite, Bounded, Keeps, Seen;
  }

  lemma BlackenNoWhite(g: Graph, s0: Search, s: Search, gray: set<nat>, v: nat)
    requires Closed(g) && Numbered(g, s0) && Numbered(g, s) && v < |g|
    requires NoWhite(g, s0, gray) && NoWhite(g, s, gray + {v})
    requires Keeps(g, s0, s) && Seen(g, s0, s, v, |g[v]|) && Bounded(g, s0, s, s.low[v], {v})
    ensures NoWhite(g, s, gray) && Bounded(g, s0, s, s.low[v], {})
  {
    assert forall z: nat :: Edge(g, v, z) ==> exists j :: 0 <= j < |g[v]| && g[v][j] == z;
  }

  lemma BlackenUp(g: Graph, s0: Search, s: Search, gray: set<nat>, v: nat, y: nat)
    requires Numbered(g, s0) && Numbered(g, s) && v < |g| && y < |g| && s.idx[y] < 0
    requires Keeps(g, s0, s) && s0.idx[v] == 0 && s.idx[v] == s0.index - 1
    requires forall x :: x in gray ==> x < |g| && s0.idx[x] < 0
    requires UpReach(g, s0, gray) && UpReach(g, s, gray + {v})
    requires LowTarget(g, s0, v, s.low[v])
    ensures ReachesGray(g, s, gray, y)
  {
    hide Reach;
    assert ReachesGray(g, s, gray + {v}, y);
    var x :| x in gray + {v} && x < |g| && s.idx[y] <= s.idx[x] && Reach(g, y, x);
    if x == v {
      var z :| 0 <= z < |g| && s0.idx[z] < 0 && s.low[v] == s0.idx[z] && Reach(g, v, z);
      assert ReachesGray(g, s0, gray, z);
      var w :| w in gray && w < |g| && s0.idx[z] <= s0.idx[w] && Reach(g, z, w);
      ReachTrans(g, v, z, w);
      ReachTrans(g, y, v, w);
    }
  }

  /** The part of the stack from v up becomes component c. */
  function Popped(s: Search, stack: seq<nat>, v: nat, c: int): Search
    requires v < |s.idx|
  {
    Search(seq(|s.idx|, u requires 0 <= u < |s.idx| => if s.idx[u] <= s.idx[v] then c else s.idx[u]),
           s.low, stack, s.index, Max(s.cnt, c + 1))
  }

  ghost predicate Root(g: Graph, s0: Search, s: Search, gray: set<nat>, v: nat) {
    && Numbered(g, s0) && v < |g| && Inv(g, s0, s, gray, v, |g[v]|)
    && Stacked(g, s0) && NoWhite(g, s0, gray)
    && s.low[v] == s.idx[v]
  }

  lemma SegmentReaches(g: Graph, s: Search, gray: set<nat>, v: nat, y: nat)
    requires Numbered(g, s) && v < |g| && y < |g| && s.idx[y] <= s.idx[v] < 0
    requires UpReach(g, s, gray + {v}) && DownReach(g, s)
    requires forall x :: x in gray ==> x < |g| && s.idx[v] < s.idx[x] < 0
    ensures Mutual(g, v, y)
  {
    hide Reach;
    assert ReachesGray(g, s, gray + {v}, y);
    var x :| x in gray + {v} && x < |g| && s.idx[y] <= s.idx[x] && Reach(g, y, x);
    assert Reach(g, x, v);
    ReachTrans(g, y, x, v);
  }

  /** No relation leaves the popped part, except into found components. */
  lemma SegmentClosed(g: Graph, s0: Search, s: Search, gray: set<nat>, v: nat, u: nat, z: nat)
    requires Closed(g) && Numbered(g, s0) && Numbered(g, s) && v < |g| && u < |g|
    requires NoWhite(g, s, gray + {v}) && Keeps(g, s0, s) && Seen(g, s0, s, v, |g[v]|)
    requires s0.idx[v] == 0 && s.idx[v] == s0.index - 1 == s.low[v]
    requires forall x :: x in gray ==> x < |g| && s.idx[v] < s.idx[x] < 0
    requires Bounded(g, s0, s, s.low[v], {v})
    requires s.idx[u] <= s.idx[v] && Edge(g, u, z)
    ensures s.idx[z] <= s.idx[v] || s.idx[z] > 0
  {
    if u == v {
      var j :| 0 <= j < |g[v]| && g[v][j] == z;
    }
  }

  lemma SegmentApart(g: Graph, s: Search, v: nat, u: nat, w: nat)
    requires Closed(g) && Numbered(g, s) && v < |g| && u < |g| && w < |g|
    requires s.idx[u] <= s.idx[v] < 0 && s.idx[w] > s.idx[v]
    requires forall a: nat, z: nat :: Edge(g, a, z) && s.idx[a] <= s.idx[v] ==> s.idx[z] <= s.idx[v] || s.idx[z] > 0
    requires forall a: nat, z: nat :: Edge(g, a, z) && s.idx[a] > 0 ==> s.idx[z] > 0
    ensures !Mutual(g, u, w)
  {
    hide Reach;
    if Mutual(g, u, w) {
      var d := set x: nat | x < |g| && s.idx[x] > 0;
      var t := set x: nat | x < |g| && (s.idx[x] <= s.idx[v] || s.idx[x] > 0);
      ReachStays(g, t, u, w);
      ReachStays(g, d, w, u);
    }
  }

  lemma PopExact(g: Graph, s: Search, v: nat, c: int)
    requires Closed(g) && Numbered(g, s) && v < |g| && s.idx[v] < 0 && Exact(g, s.idx)
    requires forall y :: 0 <= y < |g| && s.idx[y] <= s.idx[v] ==> Mutual(g, v, y)
    requires forall u, w :: 0 <= u < |g| && 0 <= w < |g| && s.idx[u] <= s.idx[v] < s.idx[w] ==> !Mutual(g, u, w)
    requires c == s.cnt || (c == 1 && forall y :: 0 <= y < |g| && s.idx[y] <= s.idx[v] ==> y == v)
    ensures Exact(g, Popped(s, [], v, c).idx)
  {
    hide Reach;
    var idx := Popped(s, [], v, c).idx;
    forall u, w | 0 <= u < |g| && 0 <= w < |g| && u != w && idx[u] > 0
      ensures Mutual(g, u, w) <==> idx[u] == idx[w] >= 2
    {
      if s.idx[u] <= s.idx[v] && s.idx[w] <= s.idx[v] {
        MutualTrans(g, u, v, w);
      }
    }
  }

  lemma PopUp(g: Graph, s0: Search, s: Search, gray: set<nat>, v: nat, c: int)
    requires Numbered(g, s) && v < |g| && s.idx[v] < 0 && c >= 1
    requires forall x :: x in gray ==> x < |g| && s.idx[v] < s.idx[x] < 0
    requires UpReach(g, s, gray + {v})
    ensures var t := Popped(s, s0.stack, v, c); Numbered(g, t) && UpReach(g, t, gray)
  {
    hide Reach;
    var t := Popped(s, s0.stack, v, c);
    assert Numbered(g, t);
    forall y | 0 <= y < |g| && t.idx[y] < 0
      ensures ReachesGray(g, t, gray, y)
    {
      assert ReachesGray(g, s, gray + {v}, y);
      var x :| x in gray + {v} && x < |g| && s.idx[y] <= s.idx[x] && Reach(g, y, x);
      assert x != v && t.idx[x] == s.idx[x] && t.idx[y] == s.idx[y];
    }
  }

  lemma PopStacked(g: Graph, s0: Search, s: Search, v: nat, c: int)
    requires Numbered(g, s0) && Numbered(g, s) && Stacked(g, s0) && Keeps(g, s0, s)
    requires v < |g| && s0.idx[v] == 0 && s.idx[v] == s0.index - 1 && c >= 1
    ensures Numbered(g, Popped(s, s0.stack, v, c)) && Stacked(g, Popped(s, s0.stack, v, c))
    ensures DownReach(g, s) ==> DownReach(g, Popped(s, s0.stack, v, c))
  {
    hide Reach;
    var t := Popped(s, s0.stack, v, c);
    forall u | 0 <= u < |g| ensures t.idx[u] < 0 <==> s0.idx[u] < 0 {}
    assert forall u :: 0 <= u < |g| && t.idx[u] < 0 ==> t.idx[u] == s0.idx[u];
  }

  /** v is a root: the part of the stack from v up is exactly its component. */
  lemma Pop(g: Graph, s0: Search, s: Search, gray: set<nat>, v: nat, c: int)
    requires Root(g, s0, s, gray, v)
    requires c == s.cnt || (c == 1 && s.stack == s0.stack + [v])
    ensures Post(g, s0, Popped(s, s0.stack, v, c), gray, v)
  {
    hide Reach, LowTarget, Exact, UpReach, DownReach;
    var t := Popped(s, s0.stack, v, c);
    assert forall x :: x in gray ==> x < |g| && s.idx[v] < s.idx[x] < 0;
    PopUp(g, s0, s, gray, v, c);
    PopStacked(g, s0, s, v, c);
    forall y | 0 <= y < |g| && s.idx[y] <= s.idx[v] ensures Mutual(g, v, y) {
      SegmentReaches(g, s, gray, v, y);
    }
    forall a: nat, z: nat | Edge(g, a, z) && s.idx[a] <= s.idx[v]
      ensures s.idx[z] <= s.idx[v] || s.idx[z] > 0
    {
      SegmentClosed(g, s0, s, gray, v, a, z);
    }
    hide Seen, Bounded;
    forall u: nat, w: nat | u < |g| && w < |g| && s.idx[u] <= s.idx[v] < s.idx[w] ensures !Mutual(g, u, w) {
      SegmentApart(g, s, v, u, w);
    }
    hide Mutual;
    PopSingle(g, s0, s, v, c);
    PopExact(g, s, v, c);
    assert Popped(s, [], v, c).idx == t.idx;
    PopPost(g, s0, s, gray, v, c);
  }

  lemma PopSingle(g: Graph, s0: Search, s: Search, v: nat, c: int)
    requires Numbered(g, s0) && Numbered(g, s) && Stacked(g, s0) && Stacked(g, s) && Keeps(g, s0, s)
    requires v < |g| && s0.idx[v] == 0 && s.idx[v] == s0.index - 1
    requires s0.stack + [v] <= s.stack
    requires c == s.cnt || s.stack == s0.stack + [v]
    ensures c == s.cnt || forall y :: 0 <= y < |g| && s.idx[y] <= s.idx[v] ==> y == v
  {
    if s.stack == s0.stack + [v] {
      assert forall x :: x in s0.stack ==> s0.idx[x] < 0;
      forall y | 0 <= y < |g| && s.idx[y] <= s.idx[v] ensures y == v {
        assert y in s.stack;
      }
    }
  }

  lemma PopPost(g: Graph, s0: Search, s: Search, gray: set<nat>, v: nat, c: int)
    requires Root(g, s0, s, gray, v)
    requires c == s.cnt || c == 1
    requires forall a: nat, z: nat :: Edge(g, a, z) && s.idx[a] <= s.idx[v] ==> s.idx[z] <= s.idx[v] || s.idx[z] > 0
    requires var t := Popped(s, s0.stack, v, c);
             Numbered(g, t) && Stacked(g, t) && DownReach(g, t) && UpReach(g, t, gray) && Exact(g, t.idx)
    ensures Post(g, s0, Popped(s, s0.stack, v, c), gray, v)
  {
    hide Reach, UpReach, DownReach, Exact, LowTarget, Stacked, Seen;
    var t := Popped(s, s0.stack, v, c);
    assert NoWhite(g, t, gray);
    assert Keeps(g, s0, t);
  }
}
