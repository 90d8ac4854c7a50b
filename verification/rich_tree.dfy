/** What every accepted rich dependency looks like, and why its parts parse again. */
module RichTree {
  import opened Common
  import opened RichParse
  import opened RichLocal

  /** Each operator may follow the one before it. */
  ghost predicate OpsOk(ops: seq<Op>) {
    forall i :: 0 <= i < |ops| - 1 ==> MayFollow(Some(ops[i]), ops[i + 1])
  }

  /** So a node is a chain of one of and, or, with, or it has one operator, or it is an if/unless with else. */
  lemma {:induction false} OpsKinds(ops: seq<Op>)
    requires OpsOk(ops) && |ops| >= 2
    ensures || ((forall i :: 0 <= i < |ops| ==> ops[i] == ops[0]) && (ops[0].And? || ops[0].Or? || ops[0].With?))
            || (|ops| == 2 && (ops[0].If? || ops[0].Unless?) && ops[1].Else?)
  {
    assert MayFollow(Some(ops[0]), ops[1]);
    if |ops| > 2 {
      var rest := ops[1..];
      forall i | 0 <= i < |rest| - 1 ensures MayFollow(Some(rest[i]), rest[i + 1]) {
        assert rest[i] == ops[i + 1] && rest[i + 1] == ops[i + 1 + 1];
      }
      OpsKinds(rest);
      forall i | 0 <= i < |ops| ensures ops[i] == ops[0] { if i > 0 { assert ops[i] == rest[i - 1]; } }
    }
  }

  /** Only leaves and nodes that denote sets of packages. */
  ghost predicate SetTree(t: Tree) {
    t.Node? ==>
      (forall i :: 0 <= i < |t.ops| ==> KeepsSets(t.ops[i])) && (forall i :: 0 <= i < |t.args| ==> SetTree(t.args[i]))
  }

  ghost predicate WithTop(t: Tree) {
    t.Node? && t.ops != [] && (t.ops[0].With? || t.ops[0].Without?)
  }

  /** The text of a node parses to that node, all of it. */
  ghost predicate Reparses(t: Tree)
    requires t.Node?
  {
    var r := ParseNode(t.text, 0);
    r.Ok? && r.tree == t && r.end == |t.text|
  }

  /** An accepted tree: names are not rich, operators fit, with and without stand
      over sets only, and every node's text parses to just that node. */
  ghost predicate Good(t: Tree) {
    match t
    case Leaf(name, _, _) => name != "" && name[0] != '('
    case Node(args, ops, starts, text) =>
      && |args| == |starts| == |ops| + 1 && OpsOk(ops) && Reparses(t)
      && (forall i :: 0 <= i < |args| ==> Good(args[i]))
      && (WithTop(t) ==> SetTree(t))
  }

  ghost predicate GoodAcc(acc: Acc) {
    && |acc.args| == |acc.starts| == |acc.ops| && OpsOk(acc.ops)
    && acc.chain == (if acc.ops == [] then None else Some(acc.ops[|acc.ops| - 1]))
    && (forall i :: 0 <= i < |acc.args| ==> Good(acc.args[i]))
    && (!acc.noWith ==> forall i :: 0 <= i < |acc.args| ==> SetTree(acc.args[i]))
  }

  lemma SimpleGood(s: string, p: nat)
    requires p < |s| && s[p] != '(' && ParseSimple(s, p).Ok?
    ensures Good(ParseSimple(s, p).tree) && SetTree(ParseSimple(s, p).tree)
  {
    hide ParseCompare;
    CompareName(s, s[p..TokenEnd(s, p, 0)], WhiteEnd(s, TokenEnd(s, p, 0)));
  }

  lemma CompareName(s: string, name: string, c: nat)
    requires c <= |s| && ParseCompare(s, name, c).Ok?
    ensures ParseCompare(s, name, c).tree.Leaf? && ParseCompare(s, name, c).tree.name == name
  {
  }

  lemma NodeReparses(s: string, p: nat)
    requires p <= |s| && ParseNode(s, p).Ok?
    ensures Reparses(ParseNode(s, p).tree)
  {
    var r := ParseNode(s, p);
    var z := r.tree.text;
    assert z == s[p..r.end] && z[0..|z|] == z;
    NodeLocal(s, p, z, 0);
  }

  lemma AccNext(acc: Acc, item: Parsed, start: nat, op: Op)
    requires GoodAcc(acc) && item.Ok? && Good(item.tree) && (!item.noWith ==> SetTree(item.tree)) && MayFollow(acc.chain, op)
    ensures GoodAcc(AddOp(AddArg(acc, item, start), op))
  {
    hide Good, SetTree;
    var ops' := acc.ops + [op];
    forall i | 0 <= i < |ops'| - 1 ensures MayFollow(Some(ops'[i]), ops'[i + 1]) {}
  }

  lemma AccEnd(acc: Acc, item: Parsed, start: nat, s: string, b: nat, n: nat)
    requires GoodAcc(acc) && item.Ok? && Good(item.tree) && (!item.noWith ==> SetTree(item.tree))
    requires b <= n <= |s| && Finish(s, b, n, AddArg(acc, item, start)).Ok?
    ensures var r := Finish(s, b, n, AddArg(acc, item, start));
            && r.tree.Node? && |r.tree.args| == |r.tree.starts| == |r.tree.ops| + 1 && OpsOk(r.tree.ops)
            && (forall i :: 0 <= i < |r.tree.args| ==> Good(r.tree.args[i]))
            && (WithTop(r.tree) ==> SetTree(r.tree)) && (!r.noWith ==> SetTree(r.tree))
  {
    hide Good;
    var ops := acc.ops;
    if |ops| >= 2 { OpsKinds(ops); }
    var args := acc.args + [item.tree];
    if !acc.noWith && !item.noWith {
      assert forall i :: 0 <= i < |args| ==> SetTree(args[i]);
    }
  }

  lemma {:induction false} LoopGood(s: string, b: nat, p: nat, acc: Acc)
    requires b < p <= |s| && ParseLoop(s, b, p, acc).Ok? && GoodAcc(acc)
    ensures var r := ParseLoop(s, b, p, acc);
            && |r.tree.args| == |r.tree.starts| == |r.tree.ops| + 1 && OpsOk(r.tree.ops)
            && (forall i :: 0 <= i < |r.tree.args| ==> Good(r.tree.args[i]))
            && (WithTop(r.tree) ==> SetTree(r.tree)) && (!r.noWith ==> SetTree(r.tree))
    decreases |s| - p, 6
  {
    hide Good, SetTree, GoodAcc, Finish, AddArg, AddOp;
    PassGood(s, p);
    var a := OnePass(s, p);
    if a.Close? {
      AccEnd(acc, a.item, a.start - b, s, b, a.end);
    } else {
      AccNext(acc, a.item, a.start - b, a.op);
      LoopGood(s, b, a.end, AddOp(AddArg(acc, a.item, a.start - b), a.op));
    }
  }

  lemma PassGood(s: string, p: nat)
    requires p <= |s| && !OnePass(s, p).Bad?
    ensures var item := OnePass(s, p).item; Good(item.tree) && (!item.noWith ==> SetTree(item.tree))
    decreases |s| - p, 5
  {
    hide Good, SetTree, ParseNode, ParseSimple;
    var start := WhiteEnd(s, p);
    if s[start] == '(' { NodeGood(s, start); } else { SimpleGood(s, start); }
  }

  /** Everything rpmrichParse() accepts is an accepted tree. */
  lemma {:induction false} NodeGood(s: string, b: nat)
    requires b <= |s| && ParseNode(s, b).Ok?
    ensures Good(ParseNode(s, b).tree)
    ensures !ParseNode(s, b).noWith ==> SetTree(ParseNode(s, b).tree)
    decreases |s| - b, 3
  {
    NodeReparses(s, b);
    assert GoodAcc(START);
    hide SetTree, GoodAcc, ParseLoop;
    LoopGood(s, b, b + 1, START);
  }

  /** The loop only appends. */
  lemma {:induction false} LoopPrefix(s: string, b: nat, p: nat, acc: Acc)
    requires b < p <= |s| && ParseLoop(s, b, p, acc).Ok?
    ensures acc.starts <= ParseLoop(s, b, p, acc).tree.starts
    ensures acc.args < ParseLoop(s, b, p, acc).tree.args
    ensures acc.ops <= ParseLoop(s, b, p, acc).tree.ops
    decreases |s| - p
  {
    hide OnePass;
    var a := OnePass(s, p);
    if a.Next? { LoopPrefix(s, b, a.end, AddOp(AddArg(acc, a.item, a.start - b), a.op)); }
  }

  /** Leading separators do not matter to the loop. */
  lemma LoopSkip(s: string, b: nat, p: nat, acc: Acc)
    requires b < p <= |s|
    ensures ParseLoop(s, b, p, acc) == ParseLoop(s, b, WhiteEnd(s, p), acc)
  {
    WhiteTwice(s, p);
    hide WhiteEnd, ParseItem, AfterItem;
    assert OnePass(s, p) == OnePass(s, WhiteEnd(s, p));
  }

  /** The string rpmdsParseRichDepCB() builds for the rest of a chain. */
  function ChainText(t: Tree): string
    requires t.Node? && |t.starts| >= 2 && t.starts[1] <= |t.text|
  {
    "(" + t.text[t.starts[1]..]
  }

  /** It parses to the same node without the first argument and operator. */
  lemma Rebuild(t: Tree)
    requires Good(t) && t.Node? && |t.args| >= 2
    ensures 1 < t.starts[1] <= |t.text| && |ChainText(t)| < |t.text|
    ensures var r := ParseNode(ChainText(t), 0);
            r.Ok? && r.end == |ChainText(t)| && r.tree.args == t.args[1..] && r.tree.ops == t.ops[1..]
  {
    hide Good, OnePass, Finish;
    GoodNode(t);
    var s := t.text;
    var a := OnePass(s, 1);
    SecondPass(s);
    var acc1 := AddOp(AddArg(START, a.item, a.start), a.op);
    assert ParseLoop(s, 0, 1, START) == ParseLoop(s, 0, a.end, acc1);
    LoopSkip(s, 0, a.end, acc1);
    var p := WhiteEnd(s, a.end);
    SecondStart(s, a.end, acc1);
    assert t.starts[1] == p;
    var z := ChainText(t);
    assert z[1..1 + (|s| - p)] == s[p..p + (|s| - p)];
    assert Tailed(acc1, START, 1);
    hide Tailed;
    LoopTail(s, 0, p, acc1, z, 0, 1, START, 1);
  }

  lemma GoodNode(t: Tree)
    requires Good(t) && t.Node?
    ensures |t.args| == |t.starts| == |t.ops| + 1 && OpsOk(t.ops)
    ensures t.text != "" && t.text[0] == '(' && ParseLoop(t.text, 0, 1, START).Ok?
    ensures ParseLoop(t.text, 0, 1, START).tree == t && ParseLoop(t.text, 0, 1, START).end == |t.text|
  {
    hide ParseLoop;
  }

  lemma SecondPass(s: string)
    requires 1 <= |s| && ParseLoop(s, 0, 1, START).Ok? && |ParseLoop(s, 0, 1, START).tree.args| >= 2
    ensures OnePass(s, 1).Next?
  {
    hide OnePass;
  }

  lemma SecondStart(s: string, p: nat, acc: Acc)
    requires 0 < p <= |s| && ParseLoop(s, 0, p, acc).Ok? && |acc.starts| == 1
    ensures |ParseLoop(s, 0, p, acc).tree.starts| >= 2 && ParseLoop(s, 0, p, acc).tree.starts[1] == WhiteEnd(s, p)
  {
    assert !OnePass(s, p).Bad? && OnePass(s, p).start == WhiteEnd(s, p) by { hide ParseItem, AfterItem, WhiteEnd; }
    hide OnePass, WhiteEnd;
    var a := OnePass(s, p);
    if a.Next? { LoopPrefix(s, 0, a.end, AddOp(AddArg(acc, a.item, a.start), a.op)); }
  }
}
