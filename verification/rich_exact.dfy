/** Exactly when looking at the index keys is enough: rpmlib( names are never indexed
    (lib/rpmdb.cc:1981-2023), but for other tags than requires packages can provide them. */
module RichExact {
  import opened Common
  import opened RichParse
  import opened RichTree
  import opened RichSplit
  import opened RichEval
  import opened RichMeaning
  import opened RichIndex

  /** The index test for a dependency with tree t never misses a change that matters. */
  ghost predicate IndexSound(c: Dep, t: Tree) {
    forall ch: Change :: ChangeOk(ch) && Harmless(ch, Keys(t, false)) && Truth(After(ch), c, t) ==> Truth(ch.before, c, t)
  }

  ghost function LeafNames(t: Tree): set<string> {
    match t
    case Leaf(name, _, _) => {name}
    case Node(args, _, _, _) => set i, n | 0 <= i < |args| && n in LeafNames(args[i]) :: n
  }

  /** No name occurs twice. */
  ghost predicate ReadOnce(t: Tree) {
    t.Node? ==>
      && (forall i :: 0 <= i < |t.args| ==> ReadOnce(t.args[i]))
      && (forall i, j :: 0 <= i < j < |t.args| ==> LeafNames(t.args[i]) !! LeafNames(t.args[j]))
  }

  /* ---- Small worlds: one package that provides a, and perhaps another that provides b ---- */

  /** A package that provides just the names s matches. */
  ghost predicate Fits(t: Tree, s: set<string>) {
    match t
    case Leaf(name, _, _) => name in s
    case Node(args, ops, _, _) =>
      if ops == [] then args != [] && Fits(args[0], s)
      else match ops[0]
        case Or => exists i :: 0 <= i < |args| && Fits(args[i], s)
        case With => forall i :: 0 <= i < |args| ==> Fits(args[i], s)
        case Without => |args| >= 2 && Fits(args[0], s) && !Fits(args[1], s)
        case _ => false
  }

  /** The truth of a node that is not a set, from that of its arguments. */
  ghost predicate Combined(ops: seq<Op>, v: seq<bool>)
  {
    if |v| != |ops| + 1 then false
    else if ops == [] then v[0]
    else match ops[0]
      case And => forall i :: 0 <= i < |v| ==> v[i]
      case Or => exists i :: 0 <= i < |v| && v[i]
      case If => if |v| == 2 then v[0] || !v[1] else (v[0] || !v[1]) && (v[2] || v[1])
      case Unless => if |v| == 2 then v[0] && !v[1] else (v[0] && !v[1]) || (v[2] && v[1])
      case _ => v[0]
  }

  ghost predicate Holds(t: Tree, a: set<string>, b: set<string>)
    decreases t, 1
  {
    if t.Leaf? then t.name in a + b
    else if WithTop(t) then Fits(t, a) || Fits(t, b)
    else Combined(t.ops, Values(t, a, b))
  }

  ghost function Values(t: Tree, a: set<string>, b: set<string>): (v: seq<bool>)
    requires t.Node?
    ensures |v| == |t.args| && forall i :: 0 <= i < |v| ==> v[i] == Holds(t.args[i], a, b)
    decreases t, 0
  {
    seq(|t.args|, i requires 0 <= i < |t.args| => Holds(t.args[i], a, b))
  }

  ghost function Offers(a: set<string>, b: set<string>): (nat, Sub) -> bool {
    (x: nat, sub: Sub) => (x == 0 && sub.name in a) || (x == 1 && sub.name in b)
  }

  ghost function Small(a: set<string>, b: set<string>, ids: set<nat>, db: set<nat>): World {
    World(ids, db, Offers(a, b), _ => false, _ => false)
  }

  /** A dependency for which packages of the transaction count, by any name. */
  predicate Affected(c: Dep) { !Unaffected(c) && !c.rpmlib }

  lemma {:induction false} FitsMatch(w: World, c: Dep, t: Tree, x: nat, s: set<string>)
    requires Affected(c) && forall sub :: w.offers(x, sub) <==> sub.name in s
    ensures Matches(w, c, t, x) == Fits(t, s)
    decreases t
  {
    if t.Node? {
      forall i | 0 <= i < |t.args| ensures Matches(w, c, t.args[i], x) == Fits(t.args[i], s) {
        FitsMatch(w, c, t.args[i], x, s);
      }
    }
  }

  /** In a small world the truth is what the names say. */
  lemma {:induction false} HoldsTruth(c: Dep, t: Tree, a: set<string>, b: set<string>, ids: set<nat>, db: set<nat>)
    requires Good(t) && Affected(c) && (ids == {0} || ids == {0, 1})
    ensures Truth(Small(a, b, ids, db), c, t) == Holds(t, a, if 1 in ids then b else {})
    decreases t
  {
    var w := Small(a, b, ids, db);
    if t.Leaf? {
      LeafTruth(c, t, a, b, ids, db);
    } else if WithTop(t) {
      SetTruth(c, t, a, b, ids, db);
    } else {
      forall i | 0 <= i < |t.args| ensures Truth(w, c, t.args[i]) == Holds(t.args[i], a, if 1 in ids then b else {}) {
        ArgGood(t, i);
        HoldsTruth(c, t.args[i], a, b, ids, db);
      }
      TruthCombined(w, c, t, Values(t, a, if 1 in ids then b else {}));
    }
  }

  lemma TruthCombined(w: World, c: Dep, t: Tree, v: seq<bool>)
    requires t.Node? && !WithTop(t) && |v| == |t.args| && forall i :: 0 <= i < |v| ==> v[i] == Truth(w, c, t.args[i])
    ensures Truth(w, c, t) == Combined(t.ops, v)
  {
  }

  lemma LeafTruth(c: Dep, t: Tree, a: set<string>, b: set<string>, ids: set<nat>, db: set<nat>)
    requires t.Leaf? && Affected(c) && (ids == {0} || ids == {0, 1})
    ensures Truth(Small(a, b, ids, db), c, t) == (t.name in a + if 1 in ids then b else {})
  {
    var w, d := Small(a, b, ids, db), SubDep(c, SubOf(t));
    if t.name in a { assert 0 in Providers(w, d); }
    if 1 in ids && t.name in b { assert 1 in Providers(w, d); }
    if Providers(w, d) != {} { var x :| x in Providers(w, d); assert w.offers(x, d.sub); }
  }

  lemma SetTruth(c: Dep, t: Tree, a: set<string>, b: set<string>, ids: set<nat>, db: set<nat>)
    requires Good(t) && Affected(c) && (ids == {0} || ids == {0, 1}) && WithTop(t)
    ensures Truth(Small(a, b, ids, db), c, t) == (Fits(t, a) || Fits(t, if 1 in ids then b else {}))
  {
    var w := Small(a, b, ids, db);
    FitsMatch(w, c, t, 0, a);
    FitsMatch(w, c, t, 1, b);
    FitsNothing(t);
    assert |t.args| == |t.ops| + 1;
    hide Good, Fits, Matches;
    if Fits(t, a) { assert 0 in Picked(w, c, t); }
    if 1 in ids && Fits(t, b) { assert 1 in Picked(w, c, t); }
    if Picked(w, c, t) != {} { var x :| x in Picked(w, c, t); assert x in ids && Matches(w, c, t, x); }
  }

  lemma {:induction false} FitsNothing(t: Tree)
    requires Good(t) && SetTree(t)
    ensures !Fits(t, {})
    decreases t
  {
    hide Reparses, OpsOk;
    if t.Node? {
      forall i | 0 <= i < |t.args| ensures !Fits(t.args[i], {}) { FitsNothing(t.args[i]); }
      assert |t.args| == |t.ops| + 1 && !Fits(t.args[0], {});
      if t.ops != [] { assert KeepsSets(t.ops[0]); }
    }
  }

  /* ---- Names of other parts do not matter ---- */

  /** s and z have the same of these names. */
  ghost predicate Agree(names: set<string>, s: set<string>, z: set<string>) {
    forall n :: n in names ==> (n in s <==> n in z)
  }

  lemma {:induction false} FitsLocal(t: Tree, s: set<string>, z: set<string>)
    requires Agree(LeafNames(t), s, z)
    ensures Fits(t, s) == Fits(t, z)
    decreases t
  {
    if t.Node? {
      forall i | 0 <= i < |t.args| ensures Fits(t.args[i], s) == Fits(t.args[i], z) {
        assert LeafNames(t.args[i]) <= LeafNames(t);
        FitsLocal(t.args[i], s, z);
      }
    }
  }

  lemma {:induction false} HoldsLocal(t: Tree, a: set<string>, b: set<string>, y: set<string>, z: set<string>)
    requires Agree(LeafNames(t), a, y) && Agree(LeafNames(t), b, z)
    ensures Holds(t, a, b) == Holds(t, y, z)
    decreases t
  {
    if t.Leaf? {
    } else if WithTop(t) {
      FitsLocal(t, a, y);
      FitsLocal(t, b, z);
    } else {
      forall i | 0 <= i < |t.args| ensures Holds(t.args[i], a, b) == Holds(t.args[i], y, z) {
        assert LeafNames(t.args[i]) <= LeafNames(t);
        HoldsLocal(t.args[i], a, b, y, z);
      }
      assert Values(t, a, b) == Values(t, y, z);
    }
  }

  ghost function Join(parts: seq<set<string>>): set<string> {
    set i, n | 0 <= i < |parts| && n in parts[i] :: n
  }

  /** Names for each argument. */
  ghost predicate PartsOf(t: Tree, parts: seq<set<string>>) {
    t.Node? && |parts| == |t.args| && forall i :: 0 <= i < |parts| ==> parts[i] <= LeafNames(t.args[i])
  }

  /** Put together they do not interfere. */
  lemma JoinAt(t: Tree, parts: seq<set<string>>)
    requires ReadOnce(t) && PartsOf(t, parts)
    ensures Join(parts) <= LeafNames(t)
    ensures forall i :: 0 <= i < |parts| ==> Agree(LeafNames(t.args[i]), Join(parts), parts[i])
  {
    forall i, n | 0 <= i < |parts| && n in LeafNames(t.args[i]) && n in Join(parts) ensures n in parts[i] {
      var j :| 0 <= j < |parts| && n in parts[j];
      assert i == j;
    }
  }

  lemma PartsTree(t: Tree, i: nat)
    requires t.Node? && Good(t) && ReadOnce(t) && i < |t.args|
    ensures Good(t.args[i]) && ReadOnce(t.args[i]) && (SetTree(t) ==> SetTree(t.args[i])) && (ElseOk(t) ==> ElseOk(t.args[i]))
  {
    ArgGood(t, i);
  }

  /* ---- Any value can be had ---- */

  /** rpmlib( names alone make an escaping tree match. */
  lemma {:induction false} EscapeSet(t: Tree) returns (b: set<string>)
    requires Good(t) && SetTree(t) && ReadOnce(t) && Escapes(t)
    ensures b <= LeafNames(t) && (forall n :: n in b ==> RpmlibName(n)) && Fits(t, b)
    decreases t, 1, 0
  {
    if t.Leaf? {
      b := {t.name};
    } else {
      ChainSets(t);
      if t.ops != [] && t.ops[0].With? {
        var parts := EscapeArgs(t, |t.args|);
        b := Join(parts);
        JoinAt(t, parts);
        forall i | 0 <= i < |t.args| ensures Fits(t.args[i], b) { FitsLocal(t.args[i], b, parts[i]); }
      } else {
        var i: nat;
        if t.ops == [] || t.ops[0].Without? { i := 0; } else { i :| 0 <= i < |t.args| && Escapes(t.args[i]); }
        PartsTree(t, i);
        b := EscapeSet(t.args[i]);
        if t.ops != [] && t.ops[0].Without? {
          PartsTree(t, 1);
          FitsNothing(t.args[1]);
          assert LeafNames(t.args[0]) !! LeafNames(t.args[1]);
          FitsLocal(t.args[1], b, {});
        }
      }
    }
  }

  lemma {:induction false} EscapeArgs(t: Tree, k: nat) returns (parts: seq<set<string>>)
    requires t.Node? && Good(t) && SetTree(t) && ReadOnce(t) && k <= |t.args| && forall i :: 0 <= i < |t.args| ==> Escapes(t.args[i])
    ensures |parts| == k
    ensures forall i :: 0 <= i < k ==> parts[i] <= LeafNames(t.args[i]) && (forall n :: n in parts[i] ==> RpmlibName(n)) && Fits(t.args[i], parts[i])
    decreases t, 0, k
  {
    parts := [];
    if k > 0 {
      parts := EscapeArgs(t, k - 1);
      PartsTree(t, k - 1);
      var b := EscapeSet(t.args[k - 1]);
      parts := parts + [b];
    }
  }

  lemma {:induction false} FitSet(t: Tree) returns (b: set<string>)
    requires Good(t) && SetTree(t) && ReadOnce(t)
    ensures b <= LeafNames(t) && Fits(t, b)
    decreases t, 1, 0
  {
    if t.Leaf? {
      b := {t.name};
    } else {
      ChainSets(t);
      if t.ops != [] && t.ops[0].With? {
        var parts := FitArgs(t, |t.args|);
        b := Join(parts);
        JoinAt(t, parts);
        forall i | 0 <= i < |t.args| ensures Fits(t.args[i], b) { FitsLocal(t.args[i], b, parts[i]); }
      } else {
        PartsTree(t, 0);
        b := FitSet(t.args[0]);
        if t.ops != [] && t.ops[0].Without? {
          PartsTree(t, 1);
          FitsNothing(t.args[1]);
          assert LeafNames(t.args[0]) !! LeafNames(t.args[1]);
          FitsLocal(t.args[1], b, {});
        }
      }
    }
  }

  lemma {:induction false} FitArgs(t: Tree, k: nat) returns (parts: seq<set<string>>)
    requires t.Node? && Good(t) && SetTree(t) && ReadOnce(t) && k <= |t.args|
    ensures |parts| == k && forall i :: 0 <= i < k ==> parts[i] <= LeafNames(t.args[i]) && Fits(t.args[i], parts[i])
    decreases t, 0, k
  {
    parts := [];
    if k > 0 {
      parts := FitArgs(t, k - 1);
      PartsTree(t, k - 1);
      var b := FitSet(t.args[k - 1]);
      parts := parts + [b];
    }
  }

  /** Values of the arguments that give the wanted one. */
  ghost function Wanted(ops: seq<Op>, want: bool): seq<bool> {
    var n := |ops| + 1;
    seq(n, i => if ops != [] && ops[0].If? then (if i == 1 then n == 3 || !want else want)
                else if ops != [] && ops[0].Unless? then i == 0 && want else want)
  }

  lemma WantedGives(t: Tree, want: bool)
    requires Good(t) && t.Node? && ElseOk(t) && !WithTop(t)
    ensures |t.args| == |t.ops| + 1 && Combined(t.ops, Wanted(t.ops, want)) == want
  {
    OpsCases(t);
    ElseArgs(t);
    hide Good, ElseOk;
    var v := Wanted(t.ops, want);
    assert v[0] == (if t.ops != [] && t.ops[0].Unless? then want else want);
    if t.ops != [] { assert |v| >= 2 && v[1] == v[1]; }
  }

  lemma {:induction false} Settable(t: Tree, want: bool) returns (a: set<string>)
    requires Good(t) && ElseOk(t) && ReadOnce(t)
    ensures a <= LeafNames(t) && Holds(t, a, {}) == want
    decreases t, 1, 0
  {
    a := {};
    if t.Leaf? {
      if want { a := {t.name}; }
    } else if WithTop(t) {
      FitsNothing(t);
      if want { a := FitSet(t); }
    } else {
      WantedGives(t, want);
      var v := Wanted(t.ops, want);
      var parts := SettableArgs(t, v, |v|);
      a := Join(parts);
      JoinAt(t, parts);
      forall i | 0 <= i < |v| ensures Holds(t.args[i], a, {}) == v[i] { HoldsLocal(t.args[i], a, {}, parts[i], {}); }
      assert Values(t, a, {}) == v;
    }
  }

  lemma {:induction false} SettableArgs(t: Tree, v: seq<bool>, k: nat) returns (parts: seq<set<string>>)
    requires t.Node? && Good(t) && ElseOk(t) && ReadOnce(t) && k <= |t.args| == |v|
    ensures |parts| == k && forall i :: 0 <= i < k ==> parts[i] <= LeafNames(t.args[i]) && Holds(t.args[i], parts[i], {}) == v[i]
    decreases t, 0, k
  {
    parts := [];
    if k > 0 {
      parts := SettableArgs(t, v, k - 1);
      PartsTree(t, k - 1);
      var a := Settable(t.args[k - 1], v[k - 1]);
      parts := parts + [a];
    }
  }

  /* ---- An exposed part can be made to matter ---- */

  /** Values of the other arguments for which argument i decides. */
  ghost function Side(ops: seq<Op>, i: nat): seq<bool> {
    var n := |ops| + 1;
    seq(n, j => if ops == [] || ops[0].And? then true
                else if ops[0].If? then i == 0 || (i == 1 && n == 3 && j == 0)
                else if ops[0].Unless? then i == 2 || (i == 1 && j == 0)
                else false)
  }

  lemma SideDecides(t: Tree, i: nat, v: seq<bool>, z: seq<bool>)
    requires Good(t) && t.Node? && ElseOk(t) && !WithTop(t) && i < |t.args| == |t.ops| + 1 == |v| == |z| && v[i] != z[i]
    requires forall j :: 0 <= j < |v| && j != i ==> v[j] == z[j] == Side(t.ops, i)[j]
    ensures Combined(t.ops, v) != Combined(t.ops, z)
  {
    OpsCases(t);
    ElseArgs(t);
    hide Good, ElseOk;
    if t.ops != [] {
      assert i != 0 ==> v[0] == z[0] == Side(t.ops, i)[0];
      assert i != 1 ==> v[1] == z[1] == Side(t.ops, i)[1];
      if |t.ops| == 2 { assert i != 2 ==> v[2] == z[2] == Side(t.ops, i)[2]; }
    }
  }

  /** Names a, and rpmlib( names b whose provider changes the truth. */
  lemma {:induction false} Flipping(t: Tree) returns (a: set<string>, b: set<string>)
    requires Good(t) && ElseOk(t) && ReadOnce(t) && Exposed(t)
    ensures a <= LeafNames(t) && b <= LeafNames(t) && (forall n :: n in b ==> RpmlibName(n))
    ensures Holds(t, a, {}) != Holds(t, a, b)
    decreases t
  {
    a := {};
    if t.Leaf? {
      b := {t.name};
    } else if WithTop(t) {
      FitsNothing(t);
      b := EscapeSet(t);
    } else {
      var i :| 0 <= i < |t.args| && Exposed(t.args[i]);
      PartsTree(t, i);
      var a1;
      a1, b := Flipping(t.args[i]);
      WantedGives(t, true);
      var parts := SettableArgs(t, Side(t.ops, i), |t.args|);
      a := FlipNode(t, i, parts, a1, b);
    }
  }

  lemma FlipNode(t: Tree, i: nat, parts: seq<set<string>>, a1: set<string>, b: set<string>) returns (a: set<string>)
    requires t.Node? && Good(t) && ElseOk(t) && ReadOnce(t) && !WithTop(t) && i < |t.args| == |t.ops| + 1 && PartsOf(t, parts)
    requires forall j :: 0 <= j < |parts| ==> Holds(t.args[j], parts[j], {}) == Side(t.ops, i)[j]
    requires a1 <= LeafNames(t.args[i]) && b <= LeafNames(t.args[i]) && Holds(t.args[i], a1, {}) != Holds(t.args[i], a1, b)
    ensures a <= LeafNames(t) && b <= LeafNames(t) && Holds(t, a, {}) != Holds(t, a, b)
  {
    var all := parts[i := a1];
    a := Join(all);
    JoinAt(t, all);
    forall j | 0 <= j < |t.args| && j != i
      ensures Holds(t.args[j], a, {}) == Side(t.ops, i)[j] == Holds(t.args[j], a, b)
    {
      assert LeafNames(t.args[i]) !! LeafNames(t.args[j]) by {
        if i < j { assert LeafNames(t.args[i]) !! LeafNames(t.args[j]); } else { assert LeafNames(t.args[j]) !! LeafNames(t.args[i]); }
      }
      HoldsLocal(t.args[j], a, {}, parts[j], {});
      HoldsLocal(t.args[j], a, b, parts[j], {});
    }
    HoldsLocal(t.args[i], a, {}, a1, {});
    HoldsLocal(t.args[i], a, b, a1, b);
    SideDecides(t, i, Values(t, a, {}), Values(t, a, b));
  }

  /* ---- Exactly ---- */

  /** rpmlib( names are not among the keys. */
  lemma {:induction false} KeysNoRpmlib(t: Tree, neg: bool, k: Key)
    requires Good(t) && ElseOk(t) && k in Keys(t, neg)
    ensures !RpmlibName(k.name)
    decreases t
  {
    if t.Node? {
      OpsCases(t);
      ElseArgs(t);
      if Plain(t.ops) {
        PlainKeys(t, neg);
        var i := KeyOfArg(t, neg, k, |t.args|);
        ArgGood(t, i);
        KeysNoRpmlib(t.args[i], neg, k);
      } else {
        IfKeys(t, neg);
        forall i | 0 <= i < |t.args| ensures Good(t.args[i]) { ArgGood(t, i); }
        var c := Keys(t.args[1], !neg);
        if k in Keys(t.args[0], neg) {
          KeysNoRpmlib(t.args[0], neg, k);
        } else if k in c {
          KeysNoRpmlib(t.args[1], !neg, k);
        } else if |t.args| == 3 && k in Keys(t.args[2], neg) {
          KeysNoRpmlib(t.args[2], neg, k);
        } else {
          InFlip(c, k.neg, k.name);
          KeysNoRpmlib(t.args[1], !neg, Flip(k));
        }
      }
    }
  }

  lemma {:induction false} KeyOfArg(t: Tree, neg: bool, k: Key, n: nat) returns (i: nat)
    requires t.Node? && n <= |t.args| && k in KeysUpTo(t, neg, n)
    ensures i < n && k in Keys(t.args[i], neg)
    decreases n
  {
    if k in Keys(t.args[n - 1], neg) { i := n - 1; } else { i := KeyOfArg(t, neg, k, n - 1); }
  }

  /** A package that provides the names b comes, or goes. */
  ghost function Coming(a: set<string>, b: set<string>): Change {
    Change(Small(a, b, {0}, {0}), {}, {1}, x => if x == 0 then a else if x == 1 then b else {})
  }

  ghost function Going(a: set<string>, b: set<string>): Change {
    Change(Small(a, b, {0, 1}, {0, 1}), {1}, {}, x => if x == 0 then a else if x == 1 then b else {})
  }

  /** An exposed dependency misses one of the two. */
  lemma Missed(c: Dep, t: Tree, a: set<string>, b: set<string>)
    requires Good(t) && ElseOk(t) && Affected(c)
    requires (forall n :: n in b ==> RpmlibName(n)) && Holds(t, a, {}) != Holds(t, a, b)
    ensures !IndexSound(c, t)
  {
    var ch := if Holds(t, a, b) then Coming(a, b) else Going(a, b);
    assert ChangeOk(ch);
    forall x, n, neg | (x in ch.added || x in ch.removed) && n in ch.names(x) ensures Key(neg, n) !in Keys(t, false) {
      if Key(neg, n) in Keys(t, false) { KeysNoRpmlib(t, false, Key(neg, n)); }
    }
    assert Harmless(ch, Keys(t, false));
    HoldsTruth(c, t, a, b, {0}, {0});
    HoldsTruth(c, t, a, b, {0, 1}, {0});
    HoldsTruth(c, t, a, b, {0, 1}, {0, 1});
    HoldsTruth(c, t, a, b, {0}, {0, 1});
    hide Good, Holds, Truth, Keys, Harmless;
    assert After(Coming(a, b)) == Small(a, b, {0, 1}, {0});
    assert After(Going(a, b)) == Small(a, b, {0}, {0, 1});
  }

  /** A dependency that is not exposed is never missed. */
  lemma NeverMissed(c: Dep, t: Tree)
    requires Good(t) && ElseOk(t) && (Unaffected(c) || !Exposed(t))
    ensures IndexSound(c, t)
  {
    forall ch: Change | ChangeOk(ch) && Harmless(ch, Keys(t, false)) && Truth(After(ch), c, t) ensures Truth(ch.before, c, t) {
      TreeSound(ch, c, t);
    }
  }

  /** For dependencies that name everything once, the index is sound if and only if the
      dependency is not exposed, or its rpmlib( names or the transaction do not matter. */
  lemma IndexExactly(c: Dep, t: Tree)
    requires Good(t) && ElseOk(t) && ReadOnce(t) && !c.rpmlib
    ensures IndexSound(c, t) <==> Unaffected(c) || !Exposed(t)
  {
    hide Good, ElseOk, ReadOnce, IndexSound, Exposed;
    if Unaffected(c) || !Exposed(t) {
      NeverMissed(c, t);
    } else {
      var a, b := Flipping(t);
      Missed(c, t, a, b);
    }
  }

  /** A name that occurs twice can hide an exposed one: "(y or (y and rpmlib(x)))" is just y. */
  lemma RepeatedNameHides(c: Dep, t: Tree, u: Tree)
    requires Good(t) && ElseOk(t) && t.Node? && t.ops == [Or] && |t.args| == 2 && t.args[0].Leaf? && t.args[1] == u
    requires u.Node? && u.ops == [And] && |u.args| == 2 && u.args[0] == t.args[0] && u.args[1].Leaf?
    requires !RpmlibName(t.args[0].name) && RpmlibName(u.args[1].name)
    ensures Exposed(t) && IndexSound(c, t)
  {
    var y := t.args[0];
    assert Exposed(u.args[1]) && Exposed(u) && !Exposed(y);
    forall w: World ensures Truth(w, c, t) == Truth(w, c, y) {
      assert Truth(w, c, u) ==> Truth(w, c, u.args[0]);
      assert Truth(w, c, t) <==> Truth(w, c, t.args[0]) || Truth(w, c, t.args[1]);
    }
    ArgGood(t, 0);
    ArgKeys(t, false, 0);
    hide Good, ElseOk, Truth, Keys, Exposed;
    forall ch: Change | ChangeOk(ch) && Harmless(ch, Keys(t, false)) && Truth(After(ch), c, t) ensures Truth(ch.before, c, t) {
      SafePart(ch, Keys(t, false), Keys(y, false));
      TreeSound(ch, c, y);
    }
  }

  /** The conflict "(rpmlib(x) or y)" is filed under y only: a package that provides rpmlib(x)
      comes, the conflict bites, and nobody looks. */
  lemma ConflictMissed()
    ensures var d := Dep(Sub("(rpmlib(x) or y)", NoCmp, ""), Conflicts, false, false, false, false, false);
            var ch := Coming({}, {"rpmlib(x)"});
            && Indexed(d) && ChangeOk(ch) && IndexKeys(d.sub.name) == {"y"}
            && (forall x, n :: x in ch.added && n in ch.names(x) ==> n !in IndexKeys(d.sub.name)) && ch.removed == {}
            && !Satisfied(ch.before, d) && Satisfied(After(ch), d)
  {
    hide ParseNode, Satisfied, Truth, Good, Keys, Holds;
    var d := Dep(Sub(MISSED, NoCmp, ""), Conflicts, false, false, false, false, false);
    var b, ch := {"rpmlib(x)"}, Coming({}, {"rpmlib(x)"});
    var t := Node([Leaf("rpmlib(x)", NoCmp, ""), Leaf("y", NoCmp, "")], [Or], [1, 14], MISSED);
    MissedParses();
    NodeGood(MISSED, 0);
    MissedKeys(t);
    EitherName(t, {}, {});
    EitherName(t, {}, b);
    assert ElseOk(t);
    EvaluationMeaning(ch.before, d);
    EvaluationMeaning(After(ch), d);
    HoldsTruth(d, t, {}, b, {0}, {0});
    HoldsTruth(d, t, {}, b, {0, 1}, {0});
    assert After(ch) == Small({}, b, {0, 1}, {0});
    var keys := IndexKeys(MISSED);
    assert keys == set k | k in [Key(false, "y")] :: KeyText(k);
    assert Key(false, "y") in [Key(false, "y")];
  }

  lemma MissedKeys(t: Tree)
    requires t.Node? && t.args == [Leaf("rpmlib(x)", NoCmp, ""), Leaf("y", NoCmp, "")] && t.ops == [Or]
    ensures Keys(t, false) == [Key(false, "y")]
  {
    var name := "rpmlib(x)";
    assert name[..7] == "rpmlib(";
    assert Keys(t.args[0], false) == [] && Keys(t.args[1], false) == [Key(false, "y")];
    assert KeysUpTo(t, false, 0) == [] && KeysUpTo(t, false, 1) == [];
  }

  lemma EitherName(t: Tree, a: set<string>, b: set<string>)
    requires t.Node? && t.ops == [Or] && |t.args| == 2 && t.args[0].Leaf? && t.args[1].Leaf?
    ensures Holds(t, a, b) <==> t.args[0].name in a + b || t.args[1].name in a + b
  {
    var v := Values(t, a, b);
    assert v[0] == (t.args[0].name in a + b) && v[1] == (t.args[1].name in a + b);
  }

  const MISSED := "(rpmlib(x) or y)"

  lemma MissedFirst()
    ensures OnePass(MISSED, 1) == Next(1, Ok(Leaf("rpmlib(x)", NoCmp, ""), 11, false), Or, 13)
  {
    hide ParseNode, ParseLoop;
    var s := MISSED;
    MissedToken();
    hide TokenEnd;
    assert WhiteEnd(s, 1) == 1 && WhiteEnd(s, 10) == 11 && WhiteEnd(s, 11) == 11;
    assert s[11..13] == "or" && s[1..10] == "rpmlib(x)";
    assert ParseSimple(s, 1) == Ok(Leaf("rpmlib(x)", NoCmp, ""), 11, false);
    assert WordEnd(s, 11) == 13;
  }

  lemma MissedToken()
    ensures TokenEnd(MISSED, 1, 0) == 10 && TokenEnd(MISSED, 11, 0) == 13
  {
    var s := MISSED;
    assert TokenEnd(s, 10, 0) == 10;
    assert TokenEnd(s, 8, 1) == 10;
    assert TokenEnd(s, 5, 0) == TokenEnd(s, 8, 1);
    assert TokenEnd(s, 1, 0) == TokenEnd(s, 5, 0);
  }

  lemma MissedSecond()
    ensures OnePass(MISSED, 13) == Close(14, Ok(Leaf("y", NoCmp, ""), 15, false), 16)
  {
    hide ParseNode, ParseLoop;
    var s := MISSED;
    assert WhiteEnd(s, 13) == 14 && TokenEnd(s, 14, 0) == 15 && WhiteEnd(s, 15) == 15;
    assert TokenEnd(s, 15, 0) == 15 && s[15..15] == "" && s[14..15] == "y";
    assert ParseSimple(s, 14) == Ok(Leaf("y", NoCmp, ""), 15, false);
  }

  lemma MissedParses()
    ensures ParseNode(MISSED, 0) == Ok(Node([Leaf("rpmlib(x)", NoCmp, ""), Leaf("y", NoCmp, "")], [Or], [1, 14], MISSED), 16, false)
  {
    hide OnePass;
    MissedFirst();
    MissedSecond();
    assert MISSED[0..16] == MISSED;
  }
}
