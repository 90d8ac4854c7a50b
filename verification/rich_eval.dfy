/** Evaluating dependencies: unsatisfiedDepend() and unsatisfiedDependSet() (lib/depends.cc:495-830). */
module RichEval {
  import opened Common
  import opened RichParse
  import opened RichTree
  import opened RichSplit

  datatype Tag = Requires | Conflicts | OtherTag

  /** A dependency with the flag bits evaluation looks at; installed is a nonzero rpmdsInstance(). */
  datatype Dep = Dep(sub: Sub, tag: Tag, rpmlib: bool, missingOk: bool, transient: bool, preTrans: bool, installed: bool)

  /** Everything evaluation asks the outside for. visible are the packages after the
      transaction (the database without erasures, and the added packages), installed
      the database as it is. Version overlap is inside offers. */
  datatype World = World(visible: set<nat>, installed: set<nat>, offers: (nat, Sub) -> bool,
                         rpmlibHas: Sub -> bool, system: string -> bool)

  predicate StartsWith(s: string, p: string) { |p| <= |s| && s[..|p|] == p }

  predicate IsRich(name: string) { name != "" && name[0] == '(' }

  /** The dependency rpmdsParseRichDepCB() makes of a part: it inherits flags, but
      neither the sense bits, MISSINGOK nor the instance. */
  function SubDep(dep: Dep, sub: Sub): Dep {
    Dep(sub, dep.tag, dep.rpmlib || (dep.tag.Requires? && |sub.name| > 7 && StartsWith(sub.name, "rpmlib(")),
        false, dep.transient, dep.preTrans, false)
  }

  /** systemProvides(): only user() and group() are looked up. */
  predicate SystemProvides(w: World, name: string) {
    (StartsWith(name, "user(") || StartsWith(name, "group(")) && name[|name| - 1] == ')' && w.system(name)
  }

  function Providers(w: World, dep: Dep): set<nat> {
    set x | x in (if dep.preTrans then w.installed else w.visible) && w.offers(x, dep.sub)
  }

  /** A dependency that is not rich. */
  predicate SimpleSatisfied(w: World, dep: Dep) {
    if dep.rpmlib then w.rpmlibHas(dep.sub) || dep.missingOk
    else SystemProvides(w, dep.sub.name) || (dep.installed && dep.transient) || Providers(w, dep) != {} || dep.missingOk
  }

  function NameOf(t: Tree): string { if t.Leaf? then t.name else t.text }

  // ---- Splitting makes names shorter, so evaluation ends.

  lemma PassShort(s: string, p: nat)
    requires p <= |s| && !OnePass(s, p).Bad?
    ensures var a := OnePass(s, p); a.start + |NameOf(a.item.tree)| <= a.end
  {
    hide ParseNode, WhiteEnd, AfterItem;
    var start := WhiteEnd(s, p);
    if s[start] != '(' { SimpleShort(s, start); }
  }

  lemma SimpleShort(s: string, p: nat)
    requires p <= |s| && ParseSimple(s, p).Ok?
    ensures ParseSimple(s, p).tree.Leaf? && |ParseSimple(s, p).tree.name| <= ParseSimple(s, p).end - p
  {
    hide ParseCompare;
    CompareName(s, s[p..TokenEnd(s, p, 0)], WhiteEnd(s, TokenEnd(s, p, 0)));
  }

  lemma {:induction false} LoopShort(s: string, b: nat, p: nat, acc: Acc)
    requires b < p <= |s| && ParseLoop(s, b, p, acc).Ok?
    requires forall i :: 0 <= i < |acc.args| ==> |NameOf(acc.args[i])| < p - b
    ensures var r := ParseLoop(s, b, p, acc); forall i :: 0 <= i < |r.tree.args| ==> |NameOf(r.tree.args[i])| < r.end - b
    decreases |s| - p
  {
    hide OnePass;
    PassShort(s, p);
    var a := OnePass(s, p);
    if a.Next? { LoopShort(s, b, a.end, AddOp(AddArg(acc, a.item, a.start - b), a.op)); }
  }

  lemma ArgsShort(t: Tree)
    requires Good(t) && t.Node?
    ensures forall i :: 0 <= i < |t.args| ==> |NameOf(t.args[i])| < |t.text|
  {
    GoodNode(t);
    hide Good, ParseLoop;
    LoopShort(t.text, 0, 1, START);
  }

  /** Both halves are there when they are used, and shorter. */
  lemma HalvesShort(s: string)
    ensures SplitDep(s).Some? ==>
              var h := SplitDep(s).value;
              h.left.Some? && |h.left.value.name| < |s| && (h.op.Some? ==> h.right.Some? && |h.right.value.name| < |s|)
  {
    if SplitDep(s).Some? {
      var t := ParseNode(s, 0).tree;
      NodeGood(s, 0);
      assert t.text == s;
      hide ParseNode;
      SplitNode(t);
      ArgsShort(t);
      if |t.args| >= 2 { Rebuild(t); }
      hide Good, SplitDep;
      assert NameOf(t.args[0]) == SubOf(t.args[0]).name;
      if |t.args| >= 2 { assert NameOf(t.args[1]) == SubOf(t.args[1]).name; }
    }
  }

  // ---- The code.

  /** unsatisfiedDependSet(): the packages a dependency of with, without and or picks. */
  function DependSet(w: World, dep: Dep): set<nat>
    decreases |dep.sub.name|
  {
    if dep.rpmlib then {}
    else if IsRich(dep.sub.name) then
      HalvesShort(dep.sub.name);
      match SplitDep(dep.sub.name)
      case None => {}
      case Some(h) =>
        if h.op.Some? && !KeepsSets(h.op.value) then {}
        else
          var set1 := DependSet(w, SubDep(dep, h.left.value));
          if h.op.None? || (!h.op.value.Or? && set1 == {}) then set1
          else
            var set2 := DependSet(w, SubDep(dep, h.right.value));
            if h.op.value.With? then set1 * set2 else if h.op.value.Without? then set1 - set2 else set1 + set2
    else Providers(w, dep)
  }

  /** unsatisfiedDepend(), true where it returns 0, without a solver callback. */
  predicate Satisfied(w: World, dep: Dep)
    decreases |dep.sub.name|
  {
    if dep.rpmlib || SystemProvides(w, dep.sub.name) || !IsRich(dep.sub.name) then SimpleSatisfied(w, dep)
    else if dep.installed && dep.transient then true
    else
      HalvesShort(dep.sub.name);
      match SplitDep(dep.sub.name)
      case None => dep.tag.Conflicts? != dep.installed
      case Some(h) => SatisfiedRich(w, dep, h)
  }

  predicate SatisfiedRich(w: World, dep: Dep, h: Halves)
    requires h.left.Some? && |h.left.value.name| < |dep.sub.name|
    requires h.op.Some? ==> h.right.Some? && |h.right.value.name| < |dep.sub.name|
    decreases |dep.sub.name|, 0
  {
    var a := SubDep(dep, h.left.value);
    match h.op
    case None => Satisfied(w, a)
    case Some(op) =>
      var b := SubDep(dep, h.right.value);
      match op
      case With => DependSet(w, dep) != {}
      case Without => DependSet(w, dep) != {}
      case And => Satisfied(w, a) && Satisfied(w, b)
      case Or => Satisfied(w, a) || Satisfied(w, b)
      case Else => Satisfied(w, a)
      case _ =>
        HalvesShort(b.sub.name);
        if IsRich(b.sub.name) && SplitDep(b.sub.name).Some? && SplitDep(b.sub.name).value.op == Some(Else) then
          var h2 := SplitDep(b.sub.name).value;
          var cond := Satisfied(w, SubDep(b, h2.left.value));
          if cond == op.If? then Satisfied(w, a) else Satisfied(w, SubDep(b, h2.right.value))
        else if op.If? then (if Satisfied(w, b) then Satisfied(w, a) else true)
        else (if Satisfied(w, b) then false else Satisfied(w, a))
  }
}
