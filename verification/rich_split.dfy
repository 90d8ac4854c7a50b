/** The callbacks of the rich dependency parser, and rpmdsParseRichDep(), which
    splits a dependency into two with them (lib/rpmds.cc:1309-1507). */
module RichSplit {
  import opened Common
  import opened RichParse
  import opened RichTree

  /** What the parser calls back with, in order; a (pointer, length) pair is its text. */
  datatype Event =
    | Enter
    | Simple(pos: nat, name: string, sense: Compare, evr: string)
    | OpEvent(op: Op)
    | Leave(pos: nat, text: string, last: Option<Op>)

  function LastOp(ops: seq<Op>): Option<Op> {
    if ops == [] then None else Some(ops[|ops| - 1])
  }

  /** The events of a tree whose text starts at base. */
  function Events(t: Tree, base: nat): seq<Event>
    decreases t, 1
  {
    match t
    case Leaf(name, sense, evr) => [Simple(base, name, sense, evr)]
    case Node(args, ops, starts, text) =>
      [Enter] + EventsUpTo(t, base, if |args| == |starts| then |args| else 0) + [Leave(base, text, LastOp(ops))]
  }

  /** The events of its first k arguments, each with the operator behind it. */
  function EventsUpTo(t: Tree, base: nat, k: nat): seq<Event>
    requires k == 0 || (t.Node? && k <= |t.args| == |t.starts|)
    decreases t, 0, k
  {
    if k == 0 then []
    else EventsUpTo(t, base, k - 1) + Events(t.args[k - 1], base + t.starts[k - 1])
         + if k - 1 < |t.ops| then [OpEvent(t.ops[k - 1])] else []
  }

  lemma {:induction false} EventsSame(t: Tree, u: Tree, base: nat, k: nat)
    requires t.Node? && u.Node? && k <= |t.args| == |t.starts| && k <= |u.args| == |u.starts| && k <= |t.ops| && k <= |u.ops|
    requires t.args[..k] == u.args[..k] && t.ops[..k] == u.ops[..k] && t.starts[..k] == u.starts[..k]
    ensures EventsUpTo(t, base, k) == EventsUpTo(u, base, k)
  {
    if k > 0 {
      var j := k - 1;
      assert t.args[..j] == t.args[..k][..j] && u.args[..j] == u.args[..k][..j];
      assert t.ops[..j] == t.ops[..k][..j] && u.ops[..j] == u.ops[..k][..j];
      assert t.starts[..j] == t.starts[..k][..j] && u.starts[..j] == u.starts[..k][..j];
      assert t.args[j] == t.args[..k][j] == u.args[j];
      assert t.ops[j] == t.ops[..k][j] == u.ops[j];
      assert t.starts[j] == t.starts[..k][j] == u.starts[j];
      EventsSame(t, u, base, j);
    }
  }

  function Partial(acc: Acc): Tree {
    Node(acc.args, acc.ops, acc.starts, "")
  }

  ghost predicate Balanced(acc: Acc) { |acc.args| == |acc.starts| == |acc.ops| }

  ghost function Prefix(acc: Acc, b: nat): seq<Event>
    requires Balanced(acc)
  {
    [Enter] + EventsUpTo(Partial(acc), b, |acc.args|)
  }

  lemma PrefixNext(acc: Acc, item: Parsed, start: nat, op: Op, b: nat)
    requires Balanced(acc) && item.Ok?
    ensures var acc' := AddOp(AddArg(acc, item, start), op);
            Balanced(acc') && Prefix(acc', b) == Prefix(acc, b) + Events(item.tree, b + start) + [OpEvent(op)]
  {
    EventsSame(Partial(acc), Partial(AddOp(AddArg(acc, item, start), op)), b, |acc.args|);
  }

  lemma PrefixEnd(acc: Acc, item: Parsed, start: nat, s: string, b: nat, n: nat)
    requires Balanced(acc) && item.Ok? && b <= n <= |s| && Finish(s, b, n, AddArg(acc, item, start)).Ok?
    ensures Events(Finish(s, b, n, AddArg(acc, item, start)).tree, b) ==
            Prefix(acc, b) + Events(item.tree, b + start) + [Leave(b, s[b..n], LastOp(acc.ops))]
  {
    var t := Finish(s, b, n, AddArg(acc, item, start)).tree;
    EventsSame(Partial(acc), t, b, |acc.args|);
  }

  lemma LoopStart(s: string, b: nat)
    requires b <= |s|
    ensures ParseNode(s, b) == if b == |s| || s[b] != '(' then Fail else ParseLoop(s, b, b + 1, START)
    ensures Balanced(START) && Prefix(START, b) == [Enter]
  {
    hide ParseLoop;
  }

  lemma LoopNoItem(s: string, b: nat, p: nat, acc: Acc)
    requires b < p <= |s|
    ensures var start := WhiteEnd(s, p);
            start == |s| || s[start] == ')' ==> ParseLoop(s, b, p, acc) == Fail
  {
    hide WhiteEnd;
  }

  lemma LoopItem(s: string, b: nat, p: nat, acc: Acc, start: nat, item: Parsed)
    requires b < p <= |s| && start == WhiteEnd(s, p) < |s| && s[start] != ')'
    requires item == if s[start] == '(' then ParseNode(s, start) else ParseSimple(s, start)
    ensures item.Fail? ==> ParseLoop(s, b, p, acc) == Fail
    ensures item.Ok? ==> start < item.end <= |s| && (s[start] != '(' ==> item.tree.Leaf?)
    ensures item.Ok? ==>
              var e := WhiteEnd(s, item.end);
              && (e == |s| ==> ParseLoop(s, b, p, acc) == Fail)
              && (e < |s| && s[e] == ')' ==> ParseLoop(s, b, p, acc) == Finish(s, b, e + 1, AddArg(acc, item, start - b)))
              && (e < |s| && s[e] != ')' ==>
                    var op := OpOf(s[e..WordEnd(s, e)]);
                    ParseLoop(s, b, p, acc) ==
                      if op.None? || !MayFollow(acc.chain, op.value) then Fail
                      else ParseLoop(s, b, WordEnd(s, e), AddOp(AddArg(acc, item, start - b), op.value)))
  {
    hide WhiteEnd, WordEnd, OpOf, MayFollow, ParseSimple, ParseNode, AddArg, AddOp, Finish;
    assert item == ParseItem(s, start);
    if item.Ok? { assert OnePass(s, p) == AfterItem(s, start, item); }
  }

  /** rpmrichParseInternal(): the tree, and the callbacks made on the way. */
  method ParseInternal(s: string, b: nat) returns (r: Parsed, events: seq<Event>)
    requires b <= |s|
    ensures r == ParseNode(s, b)
    ensures r.Ok? ==> events == Events(r.tree, b)
    decreases |s| - b
  {
    hide ParseNode, ParseLoop, ParseSimple, WhiteEnd, WordEnd, OpOf, AddArg, AddOp, Finish, Events, MayFollow, Prefix, Balanced;
    LoopStart(s, b);
    events := [Enter];
    if b == |s| || s[b] != '(' { return Fail, events; }
    var p, acc := b + 1, START;
    while true
      invariant b < p <= |s| && Balanced(acc)
      invariant ParseNode(s, b) == ParseLoop(s, b, p, acc)
      invariant events == Prefix(acc, b)
      decreases |s| - p
    {
      var start := WhiteEnd(s, p);
      LoopNoItem(s, b, p, acc);
      if start == |s| || s[start] == ')' { return Fail, events; }
      var item, inner;
      if s[start] == '(' {
        item, inner := ParseInternal(s, start);
      } else {
        item, inner := ParseSimple(s, start), [];
        if item.Ok? {
          inner := [Simple(start, item.tree.name, item.tree.sense, item.tree.evr)];
          LeafEvents(item.tree, start);
        }
      }
      LoopItem(s, b, p, acc, start, item);
      if item.Fail? { return Fail, events; }
      events := events + inner;
      var e := WhiteEnd(s, item.end);
      if e == |s| { return Fail, events; }
      if s[e] == ')' {
        r := Finish(s, b, e + 1, AddArg(acc, item, start - b));
        if r.Ok? {
          PrefixEnd(acc, item, start - b, s, b, e + 1);
          events := events + [Leave(b, s[b..e + 1], LastOp(acc.ops))];
        }
        return;
      }
      var op := OpOf(s[e..WordEnd(s, e)]);
      if op.None? || !MayFollow(acc.chain, op.value) { return Fail, events; }
      PrefixNext(acc, item, start - b, op.value, b);
      events := events + [OpEvent(op.value)];
      acc := AddOp(AddArg(acc, item, start - b), op.value);
      p := WordEnd(s, e);
    }
  }

  lemma LeafEvents(t: Tree, base: nat)
    ensures t.Leaf? ==> Events(t, base) == [Simple(base, t.name, t.sense, t.evr)]
  {
  }

  // ---- rpmdsParseRichDepCB()

  /** A dependency as rpmds keeps it: name, comparison, version. */
  datatype Sub = Sub(name: string, sense: Compare, evr: string)

  /** struct rpmdsParseRichDepData; no operator is RPMRICHOP_SINGLE. */
  datatype Split = Split(depth: int, left: Option<Sub>, right: Option<Sub>, op: Option<Op>,
                         rightstart: Option<nat>, dochain: bool)

  const SPLIT: Split := Split(0, None, None, None, None, false)

  function Record(d: Split, sub: Sub, pos: nat): Split {
    if d.left.None? then d.(left := Some(sub)) else d.(right := Some(sub), rightstart := Some(pos))
  }

  /** One callback; s is the string being parsed. */
  function Step(s: string, d: Split, ev: Event): Split {
    match ev
    case Enter => d.(depth := d.depth + 1)
    case Simple(pos, name, sense, evr) =>
      if d.depth == 1 && !d.dochain then Record(d, Sub(name, sense, evr), pos) else d
    case OpEvent(op) =>
      if d.depth != 1 then d else if d.op.Some? then d.(dochain := true) else d.(op := Some(op))
    case Leave(pos, text, _) =>
      var d1 := d.(depth := d.depth - 1);
      if d1.depth == 0 && d1.dochain && d1.rightstart.Some? && d1.rightstart.value <= pos + |text| <= |s| then
        d1.(right := Some(Sub("(" + s[d1.rightstart.value..pos + |text|], NoCmp, "")))
      else if d1.depth == 1 && !d1.dochain then Record(d1, Sub(text, NoCmp, ""), pos)
      else d1
  }

  /** All callbacks in turn. */
  function Run(s: string, d: Split, evs: seq<Event>): Split {
    if evs == [] then d else Step(s, Run(s, d, evs[..|evs| - 1]), evs[|evs| - 1])
  }

  lemma {:induction false} RunConcat(s: string, d: Split, a: seq<Event>, b: seq<Event>)
    ensures Run(s, d, a + b) == Run(s, Run(s, d, a), b)
  {
    if b == [] {
      assert a + b == a;
    } else {
      var k := |b| - 1;
      assert (a + b)[..|a + b| - 1] == a + b[..k] && (a + b)[|a + b| - 1] == b[k];
      RunConcat(s, d, a, b[..k]);
    }
  }

  lemma RunNone(s: string, d: Split)
    ensures Run(s, d, []) == d
  {
  }

  lemma RunOne(s: string, d: Split, ev: Event)
    ensures Run(s, d, [ev]) == Step(s, d, ev)
  {
    assert [ev][..0] == [];
    assert Run(s, d, []) == d;
  }

  function SubOf(t: Tree): Sub {
    match t
    case Leaf(name, sense, evr) => Sub(name, sense, evr)
    case Node(_, _, _, text) => Sub(text, NoCmp, "")
  }

  /** Below the top level nothing is recorded. */
  lemma {:induction false} RunDeep(s: string, d: Split, t: Tree, base: nat, k: nat)
    requires t.Node? && k <= |t.args| == |t.starts| && d.depth >= 2
    ensures Run(s, d, EventsUpTo(t, base, k)) == d
    decreases t, 0, k
  {
    RunNone(s, d);
    hide Run, Events;
    if k > 0 {
      var a, b := EventsUpTo(t, base, k - 1), Events(t.args[k - 1], base + t.starts[k - 1]);
      var c := if k - 1 < |t.ops| then [OpEvent(t.ops[k - 1])] else [];
      RunDeep(s, d, t, base, k - 1);
      RunItem(s, d, t.args[k - 1], base + t.starts[k - 1]);
      RunConcat(s, d, a + b, c);
      RunConcat(s, d, a, b);
      if k - 1 < |t.ops| { RunOne(s, d, OpEvent(t.ops[k - 1])); }
    }
  }

  /** An argument is recorded at the top level, unless a chain was seen before. */
  lemma {:induction false} RunItem(s: string, d: Split, t: Tree, base: nat)
    requires d.depth >= 1
    ensures Run(s, d, Events(t, base)) == if d.depth == 1 && !d.dochain then Record(d, SubOf(t), base) else d
    decreases t, 1
  {
    match t {
      case Leaf(name, sense, evr) =>
        RunOne(s, d, Simple(base, name, sense, evr));
      case Node(args, ops, starts, text) =>
        var k := if |args| == |starts| then |args| else 0;
        var d1 := Step(s, d, Enter);
        var leave := Leave(base, text, LastOp(ops));
        RunOne(s, d, Enter);
        RunInner(s, d1, t, base, k);
        RunOne(s, d1, leave);
        RunConcat(s, d, [Enter], EventsUpTo(t, base, k));
        RunConcat(s, d, [Enter] + EventsUpTo(t, base, k), [leave]);
    }
  }

  lemma {:induction false} RunInner(s: string, d: Split, t: Tree, base: nat, k: nat)
    requires t.Node? && k == (if |t.args| == |t.starts| then |t.args| else 0) && d.depth >= 2
    ensures Run(s, d, EventsUpTo(t, base, k)) == d
    decreases t, 0, k + 1
  {
    if |t.args| == |t.starts| { RunDeep(s, d, t, base, k); }
  }

  /** The callback record after the first k arguments of the whole dependency. */
  function TopState(t: Tree, k: nat): Split
    requires t.Node? && k <= |t.args| == |t.starts| == |t.ops| + 1
  {
    Split(1,
          if k >= 1 then Some(SubOf(t.args[0])) else None,
          if k >= 2 then Some(SubOf(t.args[1])) else None,
          if k >= 1 && t.ops != [] then Some(t.ops[0]) else None,
          if k >= 2 then Some(t.starts[1]) else None,
          k >= 2 && |t.ops| >= 2)
  }

  lemma {:induction false} RunTop(s: string, t: Tree, k: nat)
    requires t.Node? && k <= |t.args| == |t.starts| == |t.ops| + 1
    ensures Run(s, SPLIT.(depth := 1), EventsUpTo(t, 0, k)) == TopState(t, k)
  {
    if k > 0 {
      var d := SPLIT.(depth := 1);
      var a, b := EventsUpTo(t, 0, k - 1), Events(t.args[k - 1], t.starts[k - 1]);
      var c := if k - 1 < |t.ops| then [OpEvent(t.ops[k - 1])] else [];
      RunTop(s, t, k - 1);
      var d1 := TopState(t, k - 1);
      RunItem(s, d1, t.args[k - 1], t.starts[k - 1]);
      RunConcat(s, d, a + b, c);
      RunConcat(s, d, a, b);
      var d2 := Run(s, d1, b);
      if k - 1 < |t.ops| { RunOne(s, d2, OpEvent(t.ops[k - 1])); }
    }
  }

  /** The two halves rpmdsParseRichDep() hands out, and the operator between them. */
  datatype Halves = Halves(left: Option<Sub>, right: Option<Sub>, op: Option<Op>)

  /** rpmdsParseRichDep(): parse with the callback, and accept no junk behind the dependency. */
  function SplitDep(s: string): Option<Halves> {
    var r := ParseNode(s, 0);
    if r.Ok? && r.end == |s| then
      var d := Run(s, SPLIT, Events(r.tree, 0));
      Some(Halves(d.left, d.right, d.op))
    else None
  }

  /** First argument, first operator, and the second argument or the rest of the chain as a dependency of its own. */
  function HalvesOf(t: Tree): Halves
    requires t.Node? && |t.args| == |t.starts| == |t.ops| + 1 && (|t.args| >= 2 ==> t.starts[1] <= |t.text|)
  {
    if |t.args| == 1 then Halves(Some(SubOf(t.args[0])), None, None)
    else if |t.args| == 2 then Halves(Some(SubOf(t.args[0])), Some(SubOf(t.args[1])), Some(t.ops[0]))
    else Halves(Some(SubOf(t.args[0])), Some(Sub(ChainText(t), NoCmp, "")), Some(t.ops[0]))
  }

  /** Splitting the text of an accepted node gives its halves. */
  lemma SplitNode(t: Tree)
    requires Good(t) && t.Node?
    ensures |t.args| == |t.starts| == |t.ops| + 1 && (|t.args| >= 2 ==> t.starts[1] <= |t.text|)
    ensures SplitDep(t.text) == Some(HalvesOf(t))
  {
    GoodNode(t);
    if |t.args| >= 2 { Rebuild(t); }
    var s, n := t.text, |t.args|;
    var r := ParseNode(s, 0);
    assert r.Ok? && r.tree == t && r.end == |s| by { hide ParseNode; }
    hide Good, ParseNode, ParseLoop, Run, Step, EventsUpTo, TopState;
    var evs, leave := EventsUpTo(t, 0, n), Leave(0, s, LastOp(t.ops));
    RunOne(s, SPLIT, Enter);
    TopEnter(s);
    RunTop(s, t, n);
    RunConcat(s, SPLIT, [Enter], evs);
    RunConcat(s, SPLIT, [Enter] + evs, [leave]);
    RunOne(s, TopState(t, n), leave);
    TopLeave(t);
    assert Events(t, 0) == [Enter] + evs + [leave];
  }

  lemma TopEnter(s: string)
    ensures Step(s, SPLIT, Enter) == SPLIT.(depth := 1)
  {
  }

  lemma TopLeave(t: Tree)
    requires t.Node? && |t.args| == |t.starts| == |t.ops| + 1 && (|t.args| >= 2 ==> t.starts[1] <= |t.text|)
    ensures var d := Step(t.text, TopState(t, |t.args|), Leave(0, t.text, LastOp(t.ops)));
            Halves(d.left, d.right, d.op) == HalvesOf(t)
  {
    if |t.args| >= 3 { assert t.text[t.starts[1]..|t.text|] == t.text[t.starts[1]..]; }
  }

  /** rpmdsParseRichDepData with its callback. */
  class SplitData {
    const source: string
    var depth: int
    var left: Option<Sub>
    var right: Option<Sub>
    var op: Option<Op>
    var rightstart: Option<nat>
    var dochain: bool

    constructor (s: string)
      ensures source == s && State() == SPLIT
    {
      source := s;
      depth, left, right, op, rightstart, dochain := 0, None, None, None, None, false;
    }

    ghost function State(): Split
      reads this
    {
      Split(depth, left, right, op, rightstart, dochain)
    }

    method Callback(ev: Event)
      modifies this
      ensures State() == Step(source, old(State()), ev)
    {
      match ev {
        case Enter =>
          depth := depth + 1;
        case Leave(pos, text, _) =>
          depth := depth - 1;
          if depth == 0 && dochain && rightstart.Some? && rightstart.value <= pos + |text| <= |source| {
            right := Some(Sub("(" + source[rightstart.value..pos + |text|], NoCmp, ""));
          }
          if depth == 1 && !dochain { Keep(Sub(text, NoCmp, ""), pos); }
        case Simple(pos, name, sense, evr) =>
          if depth == 1 && !dochain { Keep(Sub(name, sense, evr), pos); }
        case OpEvent(o) =>
          if depth == 1 {
            if op.Some? { dochain := true; } else { op := Some(o); }
          }
      }
    }

    method Keep(sub: Sub, pos: nat)
      modifies this
      ensures State() == Record(old(State()), sub, pos)
    {
      if left.None? {
        left := Some(sub);
      } else {
        right, rightstart := Some(sub), Some(pos);
      }
    }
  }

  method ParseRichDep(s: string) returns (r: Option<Halves>)
    ensures r == SplitDep(s)
  {
    hide ParseNode, Events, Step;
    var parsed, events := ParseInternal(s, 0);
    if parsed.Fail? || parsed.end != |s| { return None; }
    var data := new SplitData(s);
    var i := 0;
    while i < |events|
      invariant 0 <= i <= |events| && data.source == s && data.State() == Run(s, SPLIT, events[..i])
    {
      assert events[..i + 1][..i] == events[..i];
      data.Callback(events[i]);
      i := i + 1;
    }
    assert events[..i] == events;
    r := Some(Halves(data.left, data.right, data.op));
  }
}
