/** What rich dependencies mean, and that evaluation by splitting computes it. */
module RichMeaning {
  import opened Common
  import opened RichParse
  import opened RichTree
  import opened RichSplit
  import opened RichEval

  /** Package x is picked by a tree of with, without and or. c carries the inherited flags. */
  ghost predicate Matches(w: World, c: Dep, t: Tree, x: nat) {
    match t
    case Leaf(_, _, _) => !SubDep(c, SubOf(t)).rpmlib && w.offers(x, SubOf(t))
    case Node(args, ops, _, _) =>
      if ops == [] then args != [] && Matches(w, c, args[0], x)
      else match ops[0]
        case Or => exists i :: 0 <= i < |args| && Matches(w, c, args[i], x)
        case With => forall i :: 0 <= i < |args| ==> Matches(w, c, args[i], x)
        case Without => |args| >= 2 && Matches(w, c, args[0], x) && !Matches(w, c, args[1], x)
        case _ => false
  }

  ghost function Picked(w: World, c: Dep, t: Tree): set<nat> {
    set x | x in (if c.preTrans then w.installed else w.visible) && Matches(w, c, t, x)
  }

  /** The truth of the n-ary formula a dependency spells out. */
  ghost predicate Truth(w: World, c: Dep, t: Tree) {
    match t
    case Leaf(_, _, _) => SimpleSatisfied(w, SubDep(c, SubOf(t)))
    case Node(args, ops, _, _) =>
      if |args| != |ops| + 1 then false
      else if ops == [] then Truth(w, c, args[0])
      else match ops[0]
        case And => forall i :: 0 <= i < |args| ==> Truth(w, c, args[i])
        case Or => exists i :: 0 <= i < |args| && Truth(w, c, args[i])
        case If =>
          if |args| == 2 then Truth(w, c, args[0]) || !Truth(w, c, args[1])
          else (Truth(w, c, args[0]) || !Truth(w, c, args[1])) && (Truth(w, c, args[2]) || Truth(w, c, args[1]))
        case Unless =>
          if |args| == 2 then Truth(w, c, args[0]) && !Truth(w, c, args[1])
          else (Truth(w, c, args[0]) && !Truth(w, c, args[1])) || (Truth(w, c, args[2]) && Truth(w, c, args[1]))
        case Else => Truth(w, c, args[0])
        case With => Picked(w, c, t) != {}
        case Without => Picked(w, c, t) != {}
  }

  /** else only after if or unless. */
  ghost predicate ElseOk(t: Tree) {
    t.Node? ==>
      (t.ops != [] ==> !t.ops[0].Else?) && (forall i :: 0 <= i < |t.args| ==> ElseOk(t.args[i]))
  }

  /** c and d give their parts the same flags. */
  ghost predicate SameFlags(c: Dep, d: Dep) {
    c.tag == d.tag && c.transient == d.transient && c.preTrans == d.preTrans && !c.rpmlib && !d.rpmlib
  }

  lemma SubSame(c: Dep, d: Dep, sub: Sub)
    requires SameFlags(c, d)
    ensures SubDep(c, sub) == SubDep(d, sub)
  {
  }

  lemma SubFlags(c: Dep, d: Dep, sub: Sub)
    requires SameFlags(c, d) && IsRich(sub.name)
    ensures SameFlags(c, SubDep(d, sub)) && !SubDep(d, sub).installed
  {
  }

  lemma RichNotSystem(w: World, name: string)
    requires IsRich(name)
    ensures !SystemProvides(w, name)
  {
  }

  /** A dependency d stands for tree t, with the flags c hands down. */
  ghost predicate Stands(c: Dep, d: Dep, t: Tree) {
    && Good(t)
    && match t
       case Leaf(_, _, _) => d == SubDep(c, SubOf(t))
       case Node(_, _, _, text) => d.sub.name == text && SameFlags(c, d) && !(d.installed && d.transient)
  }

  /** Rich dependency text starts with a parenthesis. */
  lemma NodeRich(t: Tree)
    requires Good(t) && t.Node?
    ensures IsRich(t.text)
  {
    hide ParseLoop;
  }

  /** An argument stands for itself, as a part of d. */
  lemma ArgStands(c: Dep, d: Dep, t: Tree, i: nat)
    requires Stands(c, d, t) && t.Node? && i < |t.args|
    ensures Stands(c, SubDep(d, SubOf(t.args[i])), t.args[i])
  {
    var a := t.args[i];
    hide Reparses, OpsOk, WithTop, SetTree;
    if a.Leaf? { SubSame(c, d, SubOf(a)); } else { NodeRich(a); SubFlags(c, d, SubOf(a)); }
  }

  /** The rest of a chain as a tree of its own. */
  lemma RestStands(c: Dep, d: Dep, t: Tree) returns (u: Tree)
    requires Stands(c, d, t) && t.Node? && |t.args| >= 2
    ensures |t.args| == |t.starts| && t.starts[1] <= |t.text|
    ensures u.Node? && u.text == ChainText(t) && u.args == t.args[1..] && u.ops == t.ops[1..]
    ensures Stands(c, SubDep(d, Sub(ChainText(t), NoCmp, "")), u)
  {
    Rebuild(t);
    GoodNode(t);
    var z := ChainText(t);
    u := ParseNode(z, 0).tree;
    NodeGood(z, 0);
    assert u.text == z;
    hide ParseNode, ParseLoop, Good;
    NodeRich(u);
    SubFlags(c, d, Sub(z, NoCmp, ""));
  }

  lemma RestSize(t: Tree)
    requires Good(t) && t.Node? && |t.args| >= 2
    ensures |t.args| == |t.starts| && t.starts[1] <= |t.text| && |ChainText(t)| < |t.text|
  {
    GoodNode(t);
    Rebuild(t);
  }

  // ---- Set mode.

  function Combine(op: Op, a: set<nat>, b: set<nat>): set<nat> {
    if op.With? then a * b else if op.Without? then a - b else a + b
  }

  lemma DependNode(w: World, d: Dep, h: Halves)
    requires !d.rpmlib && IsRich(d.sub.name) && SplitDep(d.sub.name) == Some(h) && h.left.Some?
    requires h.op.Some? ==> KeepsSets(h.op.value) && h.right.Some?
    ensures DependSet(w, d) ==
            if h.op.None? then DependSet(w, SubDep(d, h.left.value))
            else Combine(h.op.value, DependSet(w, SubDep(d, h.left.value)), DependSet(w, SubDep(d, h.right.value)))
  {
    hide SplitDep;
    HalvesShort(d.sub.name);
  }

  lemma PickedOne(w: World, c: Dep, t: Tree)
    requires t.Node? && t.ops == [] && t.args != []
    ensures Picked(w, c, t) == Picked(w, c, t.args[0])
  {
  }

  /** A node picks what its first argument and the rest pick, combined; the rest is an argument or a shorter node. */
  lemma PickedTwo(w: World, c: Dep, t: Tree, u: Tree)
    requires t.Node? && |t.args| == |t.ops| + 1 >= 2 && KeepsSets(t.ops[0]) && (t.ops[0].Without? ==> |t.args| == 2)
    requires if |t.args| == 2 then u == t.args[1]
             else u.Node? && u.args == t.args[1..] && u.ops == t.ops[1..] && u.ops[0] == t.ops[0]
    ensures Picked(w, c, t) == Combine(t.ops[0], Picked(w, c, t.args[0]), Picked(w, c, u))
  {
    forall x ensures Matches(w, c, t, x) <==>
        (if t.ops[0].With? then Matches(w, c, t.args[0], x) && Matches(w, c, u, x)
         else if t.ops[0].Without? then Matches(w, c, t.args[0], x) && !Matches(w, c, u, x)
         else Matches(w, c, t.args[0], x) || Matches(w, c, u, x))
    {
      MatchesTwo(w, c, t, u, x);
    }
    hide Matches;
  }

  lemma MatchesTwo(w: World, c: Dep, t: Tree, u: Tree, x: nat)
    requires t.Node? && |t.args| == |t.ops| + 1 >= 2 && KeepsSets(t.ops[0]) && (t.ops[0].Without? ==> |t.args| == 2)
    requires if |t.args| == 2 then u == t.args[1]
             else u.Node? && u.args == t.args[1..] && u.ops == t.ops[1..] && u.ops[0] == t.ops[0]
    ensures Matches(w, c, t, x) <==>
        (if t.ops[0].With? then Matches(w, c, t.args[0], x) && Matches(w, c, u, x)
         else if t.ops[0].Without? then Matches(w, c, t.args[0], x) && !Matches(w, c, u, x)
         else Matches(w, c, t.args[0], x) || Matches(w, c, u, x))
  {
    if |t.args| > 2 {
      forall i | 0 <= i < |u.args| ensures u.args[i] == t.args[i + 1] {}
      assert forall i :: 1 <= i < |t.args| ==> t.args[i] == u.args[i - 1];
    }
  }

  lemma ChainSets(t: Tree)
    requires Good(t) && t.Node? && SetTree(t)
    ensures |t.args| == |t.ops| + 1 && (t.ops != [] ==> KeepsSets(t.ops[0]))
    ensures |t.ops| >= 2 ==> t.ops[1] == t.ops[0] && !t.ops[0].Without?
  {
    GoodNode(t);
    hide Good, ParseLoop;
    if |t.ops| >= 2 { OpsKinds(t.ops); }
  }

  /** unsatisfiedDependSet() computes the packages the tree picks; the "unsupported op"
      branch is not taken. */
  lemma {:induction false} SetMeaning(w: World, c: Dep, d: Dep, t: Tree)
    requires Stands(c, d, t) && SetTree(t)
    ensures DependSet(w, d) == Picked(w, c, t)
    decreases |d.sub.name|
  {
    if t.Leaf? {
      SetLeaf(w, c, d, t);
    } else {
      ChainSets(t);
      NodeRich(t);
      SplitNode(t);
      ArgsShort(t);
      ArgStands(c, d, t, 0);
      SetArgs(t);
      hide Good, SplitDep, ParseLoop, DependSet, Picked, SetTree;
      DependNode(w, d, HalvesOf(t));
      SetMeaning(w, c, SubDep(d, SubOf(t.args[0])), t.args[0]);
      if |t.args| == 1 {
        PickedOne(w, c, t);
      } else if |t.args| == 2 {
        ArgStands(c, d, t, 1);
        SetMeaning(w, c, SubDep(d, SubOf(t.args[1])), t.args[1]);
        PickedTwo(w, c, t, t.args[1]);
      } else {
        var u := RestStands(c, d, t);
        RestSize(t);
        SetRest(t, u);
        SetMeaning(w, c, SubDep(d, Sub(ChainText(t), NoCmp, "")), u);
        PickedTwo(w, c, t, u);
      }
    }
  }

  lemma SetLeaf(w: World, c: Dep, d: Dep, t: Tree)
    requires Stands(c, d, t) && t.Leaf?
    ensures DependSet(w, d) == Picked(w, c, t)
  {
  }

  lemma SetArgs(t: Tree)
    requires t.Node? && SetTree(t)
    ensures forall i :: 0 <= i < |t.args| ==> SetTree(t.args[i])
  {
  }

  lemma SetRest(t: Tree, u: Tree)
    requires t.Node? && u.Node? && SetTree(t) && |t.args| >= 1 && |t.ops| >= 1 && u.args == t.args[1..] && u.ops == t.ops[1..]
    ensures SetTree(u)
  {
  }

  // ---- Boolean mode.

  lemma SatisfiedNode(w: World, d: Dep, h: Halves)
    requires !d.rpmlib && IsRich(d.sub.name) && !(d.installed && d.transient) && SplitDep(d.sub.name) == Some(h)
    ensures h.left.Some? && |h.left.value.name| < |d.sub.name|
    ensures h.op.Some? ==> h.right.Some? && |h.right.value.name| < |d.sub.name|
    ensures Satisfied(w, d) == SatisfiedRich(w, d, h)
  {
    RichNotSystem(w, d.sub.name);
    HalvesShort(d.sub.name);
    hide SplitDep, SatisfiedRich, SystemProvides;
  }

  /** A chain of and, or or is its first argument and the rest. */
  lemma TruthTwo(w: World, c: Dep, t: Tree, u: Tree)
    requires t.Node? && |t.args| == |t.ops| + 1 >= 2 && (t.ops[0].And? || t.ops[0].Or?)
    requires if |t.args| == 2 then u == t.args[1]
             else u.Node? && u.args == t.args[1..] && u.ops == t.ops[1..] && u.ops[0] == t.ops[0]
    ensures Truth(w, c, t) <==>
            if t.ops[0].And? then Truth(w, c, t.args[0]) && Truth(w, c, u) else Truth(w, c, t.args[0]) || Truth(w, c, u)
  {
    if |t.args| > 2 {
      forall i | 0 <= i < |u.args| ensures u.args[i] == t.args[i + 1] {}
      assert forall i :: 1 <= i < |t.args| ==> t.args[i] == u.args[i - 1];
    }
  }

  lemma ChainOps(t: Tree)
    requires Good(t) && t.Node?
    ensures |t.args| == |t.starts| == |t.ops| + 1
    ensures |t.ops| >= 2 ==>
              || (t.ops[1] == t.ops[0] && (t.ops[0].And? || t.ops[0].Or? || t.ops[0].With?))
              || (|t.ops| == 2 && (t.ops[0].If? || t.ops[0].Unless?) && t.ops[1].Else?)
  {
    GoodNode(t);
    hide Good, ParseLoop;
    if |t.ops| >= 2 { OpsKinds(t.ops); }
  }

  lemma ElseArgs(t: Tree)
    requires t.Node? && ElseOk(t)
    ensures (t.ops != [] ==> !t.ops[0].Else?) && forall i :: 0 <= i < |t.args| ==> ElseOk(t.args[i])
  {
  }

  lemma ElseRest(t: Tree, u: Tree)
    requires t.Node? && u.Node? && ElseOk(t) && |t.args| >= 1 && |t.ops| >= 2 && u.args == t.args[1..] && u.ops == t.ops[1..]
    requires !t.ops[1].Else?
    ensures ElseOk(u)
  {
  }

  /** An argument is not mistaken for the else part of an if. */
  lemma NoElse(t: Tree)
    requires Good(t) && ElseOk(t)
    ensures !(IsRich(SubOf(t).name) && SplitDep(SubOf(t).name).Some? && SplitDep(SubOf(t).name).value.op == Some(Else))
  {
    if t.Node? {
      SplitNode(t);
      hide Good, SplitDep, ParseLoop;
    }
  }

  lemma WithMeaning(w: World, c: Dep, d: Dep, t: Tree)
    requires Stands(c, d, t) && WithTop(t)
    ensures DependSet(w, d) == Picked(w, c, t)
  {
    SetMeaning(w, c, d, t);
  }

  lemma MeaningLeaf(w: World, c: Dep, d: Dep, t: Tree)
    requires Stands(c, d, t) && t.Leaf?
    ensures Satisfied(w, d) == Truth(w, c, t)
  {
    hide SplitDep, SatisfiedRich;
  }

  /** unsatisfiedDepend() gives the truth value of the n-ary formula. */
  lemma {:induction false} Meaning(w: World, c: Dep, d: Dep, t: Tree)
    requires Stands(c, d, t) && ElseOk(t)
    ensures Satisfied(w, d) == Truth(w, c, t)
    decreases |d.sub.name|
  {
    if t.Leaf? {
      MeaningLeaf(w, c, d, t);
    } else {
      ChainOps(t);
      NodeRich(t);
      SplitNode(t);
      ArgsShort(t);
      ArgStands(c, d, t, 0);
      ElseArgs(t);
      hide Good, SplitDep, ParseLoop, Satisfied, Stands, Picked, DependSet, ElseOk;
      StandsNode(c, d, t);
      SatisfiedNode(w, d, HalvesOf(t));
      Meaning(w, c, SubDep(d, SubOf(t.args[0])), t.args[0]);
      if t.ops != [] {
        if t.ops[0].With? || t.ops[0].Without? {
          WithMeaning(w, c, d, t);
        } else if t.ops[0].And? || t.ops[0].Or? {
          MeaningChain(w, c, d, t);
        } else {
          MeaningIf(w, c, d, t);
        }
      }
    }
  }

  lemma StandsNode(c: Dep, d: Dep, t: Tree)
    requires Stands(c, d, t) && t.Node?
    ensures d.sub.name == t.text && SameFlags(c, d) && !(d.installed && d.transient) && Good(t)
  {
  }

  lemma MeaningChain(w: World, c: Dep, d: Dep, t: Tree)
    requires Stands(c, d, t) && ElseOk(t) && t.Node? && t.ops != [] && (t.ops[0].And? || t.ops[0].Or?)
    requires |t.args| == |t.ops| + 1 && Satisfied(w, SubDep(d, SubOf(t.args[0]))) == Truth(w, c, t.args[0])
    ensures Satisfied(w, d) == Truth(w, c, t)
    decreases |d.sub.name|, 0
  {
    ChainOps(t);
    NodeRich(t);
    SplitNode(t);
    ArgsShort(t);
    ElseArgs(t);
    StandsNode(c, d, t);
    hide Good, SplitDep, ParseLoop, Satisfied, Stands, ElseOk, Truth;
    SatisfiedNode(w, d, HalvesOf(t));
    if |t.args| == 2 {
      ArgStands(c, d, t, 1);
      Meaning(w, c, SubDep(d, SubOf(t.args[1])), t.args[1]);
      TruthTwo(w, c, t, t.args[1]);
    } else {
      var u := RestStands(c, d, t);
      RestSize(t);
      ElseRest(t, u);
      Meaning(w, c, SubDep(d, Sub(ChainText(t), NoCmp, "")), u);
      TruthTwo(w, c, t, u);
    }
  }

  lemma MeaningIf(w: World, c: Dep, d: Dep, t: Tree)
    requires Stands(c, d, t) && ElseOk(t) && t.Node? && t.ops != [] && (t.ops[0].If? || t.ops[0].Unless?)
    requires |t.args| == |t.ops| + 1 && Satisfied(w, SubDep(d, SubOf(t.args[0]))) == Truth(w, c, t.args[0])
    ensures Satisfied(w, d) == Truth(w, c, t)
    decreases |d.sub.name|, 0
  {
    ChainOps(t);
    NodeRich(t);
    SplitNode(t);
    ArgsShort(t);
    ElseArgs(t);
    StandsNode(c, d, t);
    hide Good, SplitDep, ParseLoop, Satisfied, Stands, ElseOk;
    SatisfiedNode(w, d, HalvesOf(t));
    if |t.args| == 2 {
      ArgStands(c, d, t, 1);
      ArgGood(t, 1);
      NoElse(t.args[1]);
      Meaning(w, c, SubDep(d, SubOf(t.args[1])), t.args[1]);
    } else {
      var u := RestStands(c, d, t);
      RestSize(t);
      var e := SubDep(d, Sub(ChainText(t), NoCmp, ""));
      StandsNode(c, e, u);
      NodeRich(u);
      SplitNode(u);
      ArgsShort(u);
      ArgStands(c, e, u, 0);
      ArgStands(c, e, u, 1);
      Meaning(w, c, SubDep(e, SubOf(u.args[0])), u.args[0]);
      Meaning(w, c, SubDep(e, SubOf(u.args[1])), u.args[1]);
    }
  }

  lemma ArgGood(t: Tree, i: nat)
    requires Good(t) && t.Node? && i < |t.args|
    ensures Good(t.args[i])
  {
  }

  /** For every rich dependency rpmrichParse() accepts, with else only after if or unless:
      evaluating it by splitting gives the truth of the formula it spells out. */
  lemma EvaluationMeaning(w: World, d: Dep)
    requires IsRich(d.sub.name) && !d.rpmlib && !(d.installed && d.transient)
    requires var r := ParseNode(d.sub.name, 0); r.Ok? && r.end == |d.sub.name| && ElseOk(r.tree)
    ensures Satisfied(w, d) == Truth(w, d, ParseNode(d.sub.name, 0).tree)
  {
    NodeGood(d.sub.name, 0);
    var t := ParseNode(d.sub.name, 0).tree;
    assert t.text == d.sub.name;
    hide ParseNode, Good, Satisfied, Truth;
    Meaning(w, d, d, t);
  }
}
