/** The database keys of a rich dependency, and why looking only at them is enough
    (lib/rpmdb.cc:1973-2054, lib/depends.cc:1086-1126). */
module RichIndex {
  import opened Common
  import opened RichParse
  import opened RichTree
  import opened RichSplit
  import opened RichEval
  import opened RichMeaning

  /** One entry of argv: ' ' or '!', and a name. */
  datatype Key = Key(neg: bool, name: string)

  /** struct updateRichDepData; levels holds nargv_level up to the current level. */
  datatype Data = Data(argv: seq<Key>, neg: bool, levels: seq<nat>)

  predicate RpmlibName(name: string) { |name| > 7 && StartsWith(name, "rpmlib(") }

  function Flip(k: Key): Key { Key(!k.neg, k.name) }

  function FlipAll(ks: seq<Key>): (r: seq<Key>)
    ensures |r| == |ks|
  {
    seq(|ks|, i requires 0 <= i < |ks| => Flip(ks[i]))
  }

  predicate Negates(op: Op) { op.If? || op.Unless? }

  /** updateRichDepCB() */
  function Note(d: Data, ev: Event): Data {
    match ev
    case Enter => d.(levels := d.levels + [|d.argv|])
    case Simple(_, name, _, _) =>
      if name != "" && !RpmlibName(name) then d.(argv := d.argv + [Key(d.neg, name)]) else d
    case OpEvent(op) =>
      if d.levels == [] then d
      else
        var top := |d.levels| - 1;
        if Negates(op) then d.(levels := d.levels[top := |d.argv|], neg := !d.neg)
        else if op.Else? then
          if d.levels[top] <= |d.argv| then d.(argv := d.argv + FlipAll(d.argv[d.levels[top]..]), neg := !d.neg)
          else d.(neg := !d.neg)
        else d
    case Leave(_, _, last) =>
      var d1 := if d.levels == [] then d else d.(levels := d.levels[..|d.levels| - 1]);
      if last.Some? && Negates(last.value) then d1.(neg := !d1.neg) else d1
  }

  function NoteAll(d: Data, evs: seq<Event>): Data {
    if evs == [] then d else Note(NoteAll(d, evs[..|evs| - 1]), evs[|evs| - 1])
  }

  lemma {:induction false} NoteConcat(d: Data, a: seq<Event>, b: seq<Event>)
    ensures NoteAll(d, a + b) == NoteAll(NoteAll(d, a), b)
  {
    if b == [] {
      assert a + b == a;
    } else {
      var k := |b| - 1;
      assert (a + b)[..|a + b| - 1] == a + b[..k] && (a + b)[|a + b| - 1] == b[k];
      NoteConcat(d, a, b[..k]);
    }
  }

  lemma NoteOne(d: Data, ev: Event)
    ensures NoteAll(d, [ev]) == Note(d, ev) && NoteAll(d, []) == d
  {
    assert [ev][..0] == [];
    assert NoteAll(d, []) == d;
  }

  /** The keys a tree should have, under a given polarity: a condition counts
      negatively, and on both sides when there is an else. */
  function Keys(t: Tree, neg: bool): seq<Key>
    decreases t, 1
  {
    match t
    case Leaf(name, _, _) => if RpmlibName(name) || name == "" then [] else [Key(neg, name)]
    case Node(args, ops, _, _) =>
      if ops != [] && Negates(ops[0]) && |args| == 2 then Keys(args[0], neg) + Keys(args[1], !neg)
      else if ops != [] && Negates(ops[0]) && |args| == 3 then
        Keys(args[0], neg) + Keys(args[1], !neg) + FlipAll(Keys(args[1], !neg)) + Keys(args[2], neg)
      else KeysUpTo(t, neg, |args|)
  }

  function KeysUpTo(t: Tree, neg: bool, k: nat): seq<Key>
    requires t.Node? && k <= |t.args|
    decreases t, 0, k
  {
    if k == 0 then [] else KeysUpTo(t, neg, k - 1) + Keys(t.args[k - 1], neg)
  }

  function Grown(d: Data, ks: seq<Key>): Data { d.(argv := d.argv + ks) }

  ghost predicate Plain(ops: seq<Op>) {
    forall i :: 0 <= i < |ops| ==> !Negates(ops[i]) && !ops[i].Else?
  }

  /** The operators of an accepted node: plain ones, or if and unless with or without else. */
  lemma OpsCases(t: Tree)
    requires Good(t) && t.Node? && ElseOk(t)
    ensures |t.args| == |t.starts| == |t.ops| + 1
    ensures || Plain(t.ops)
            || (|t.ops| == 1 && Negates(t.ops[0]))
            || (|t.ops| == 2 && Negates(t.ops[0]) && t.ops[1].Else?)
  {
    GoodNode(t);
    hide Good, ParseLoop;
    if |t.ops| >= 2 { OpsKinds(t.ops); }
  }

  /** One argument with the operator behind it. */
  lemma NoteArg(d: Data, t: Tree, base: nat, k: nat)
    requires t.Node? && 1 <= k <= |t.args| == |t.starts|
    ensures var d1 := NoteAll(NoteAll(d, EventsUpTo(t, base, k - 1)), Events(t.args[k - 1], base + t.starts[k - 1]));
            NoteAll(d, EventsUpTo(t, base, k)) == if k - 1 < |t.ops| then Note(d1, OpEvent(t.ops[k - 1])) else d1
  {
    var a, b := EventsUpTo(t, base, k - 1), Events(t.args[k - 1], base + t.starts[k - 1]);
    var c := if k - 1 < |t.ops| then [OpEvent(t.ops[k - 1])] else [];
    assert EventsUpTo(t, base, k) == a + b + c;
    hide NoteAll, Note, EventsUpTo, Events;
    NoteConcat(d, a + b, c);
    NoteConcat(d, a, b);
    var d1 := NoteAll(NoteAll(d, a), b);
    if k - 1 < |t.ops| { NoteOne(d1, OpEvent(t.ops[k - 1])); } else { NoteOne(d1, Enter); }
  }

  /** The callback leaves exactly the keys of the tree, and everything else as it was. */
  lemma {:induction false} NoteTree(d: Data, t: Tree, base: nat)
    requires Good(t) && ElseOk(t)
    ensures NoteAll(d, Events(t, base)) == Grown(d, Keys(t, d.neg))
    decreases t, 1
  {
    hide NoteAll, EventsUpTo, Events, Good, ElseOk, Note, Keys;
    if t.Leaf? {
      NoteLeaf(d, t, base);
    } else {
      OpsCases(t);
      var n := |t.args|;
      var evs, leave := EventsUpTo(t, base, n), Leave(base, t.text, LastOp(t.ops));
      var d1 := d.(levels := d.levels + [|d.argv|]);
      NodeEvents(d, t, base);
      if Plain(t.ops) {
        NotePlain(d1, t, base, n);
        PlainKeys(t, d.neg);
        NoteLeave(d, d.argv + Keys(t, d.neg), d.neg, |d.argv|, t, base);
      } else {
        NoteIf(d1, t, base);
        assert d1.levels[..|d1.levels| - 1] == d.levels;
        var x :| NoteAll(d1, evs) ==
          Data(d1.argv + Keys(t, d1.neg), if |t.ops| == 1 then !d1.neg else d1.neg, d1.levels[..|d1.levels| - 1] + [x]);
        NoteLeave(d, d.argv + Keys(t, d.neg), if |t.ops| == 1 then !d.neg else d.neg, x, t, base);
      }
    }
  }

  lemma NoteLeaf(d: Data, t: Tree, base: nat)
    requires t.Leaf?
    ensures NoteAll(d, Events(t, base)) == Grown(d, Keys(t, d.neg))
  {
    NoteOne(d, Simple(base, t.name, t.sense, t.evr));
    hide NoteAll;
  }

  lemma NodeEvents(d: Data, t: Tree, base: nat)
    requires t.Node? && |t.args| == |t.starts|
    ensures var d1 := d.(levels := d.levels + [|d.argv|]);
            NoteAll(d, Events(t, base)) ==
            Note(NoteAll(d1, EventsUpTo(t, base, |t.args|)), Leave(base, t.text, LastOp(t.ops)))
  {
    var evs, leave := EventsUpTo(t, base, |t.args|), Leave(base, t.text, LastOp(t.ops));
    assert Events(t, base) == [Enter] + evs + [leave];
    hide NoteAll, EventsUpTo, Events;
    NoteOne(d, Enter);
    NoteConcat(d, [Enter], evs);
    NoteConcat(d, [Enter] + evs, [leave]);
    NoteOne(NoteAll(Note(d, Enter), evs), leave);
  }

  /** Leaving a node drops its level, and takes back the negation of an if or unless without else. */
  lemma NoteLeave(d: Data, argv: seq<Key>, neg: bool, x: nat, t: Tree, base: nat)
    requires t.Node?
    ensures Note(Data(argv, neg, d.levels + [x]), Leave(base, t.text, LastOp(t.ops))) ==
            Data(argv, if t.ops != [] && Negates(t.ops[|t.ops| - 1]) then !neg else neg, d.levels)
  {
    assert (d.levels + [x])[..|d.levels|] == d.levels;
  }

  lemma PlainKeys(t: Tree, neg: bool)
    requires t.Node? && Plain(t.ops)
    ensures Keys(t, neg) == KeysUpTo(t, neg, |t.args|)
  {
  }

  lemma IfKeys(t: Tree, neg: bool)
    requires t.Node? && (|t.args| == 2 || |t.args| == 3) && t.ops != [] && Negates(t.ops[0])
    ensures Keys(t, neg) ==
            if |t.args| == 2 then Keys(t.args[0], neg) + Keys(t.args[1], !neg)
            else Keys(t.args[0], neg) + Keys(t.args[1], !neg) + FlipAll(Keys(t.args[1], !neg)) + Keys(t.args[2], neg)
  {
  }

  lemma NoEvents(t: Tree, base: nat)
    ensures EventsUpTo(t, base, 0) == []
  {
  }

  lemma {:induction false} NotePlain(d: Data, t: Tree, base: nat, k: nat)
    requires Good(t) && ElseOk(t) && t.Node? && k <= |t.args| == |t.starts| && Plain(t.ops)
    ensures NoteAll(d, EventsUpTo(t, base, k)) == Grown(d, KeysUpTo(t, d.neg, k))
    decreases t, 0, k
  {
    hide NoteAll, Events, Good, ElseOk, Keys, Note;
    if k == 0 {
      NoteOne(d, Enter);
    } else {
      ArgGood(t, k - 1);
      ElseArgs(t);
      NotePlain(d, t, base, k - 1);
      var d1 := Grown(d, KeysUpTo(t, d.neg, k - 1));
      NoteTree(d1, t.args[k - 1], base + t.starts[k - 1]);
      NoteArg(d, t, base, k);
      if k - 1 < |t.ops| { PlainOp(Grown(d1, Keys(t.args[k - 1], d.neg)), t.ops[k - 1]); }
      assert d.argv + KeysUpTo(t, d.neg, k - 1) + Keys(t.args[k - 1], d.neg) == d.argv + KeysUpTo(t, d.neg, k);
    }
  }

  lemma PlainOp(d: Data, op: Op)
    requires !Negates(op) && !op.Else?
    ensures Note(d, OpEvent(op)) == d
  {
  }

  /** The first argument of an if or unless, and the operator. */
  lemma IfFirst(d: Data, op: Op, k0: seq<Key>)
    requires d.levels != [] && Negates(op)
    ensures Note(Grown(d, k0), OpEvent(op)) ==
            Data(d.argv + k0, !d.neg, d.levels[..|d.levels| - 1] + [|d.argv| + |k0|])
  {
    var top := |d.levels| - 1;
    assert d.levels[top := |d.argv| + |k0|] == d.levels[..top] + [|d.argv| + |k0|];
  }

  /** The condition, and the else behind it. */
  lemma IfElse(argv: seq<Key>, neg: bool, levels: seq<nat>, k1: seq<Key>)
    ensures var d := Data(argv, neg, levels + [|argv|]);
            Note(Grown(d, k1), OpEvent(Else)) == Data(argv + k1 + FlipAll(k1), !neg, levels + [|argv|])
  {
    assert (argv + k1)[|argv|..] == k1;
  }

  lemma {:induction false} NoteIf(d: Data, t: Tree, base: nat)
    requires Good(t) && ElseOk(t) && t.Node? && |t.args| == |t.starts| == |t.ops| + 1 && d.levels != []
    requires (|t.ops| == 1 || (|t.ops| == 2 && t.ops[1].Else?)) && Negates(t.ops[0])
    ensures exists x :: NoteAll(d, EventsUpTo(t, base, |t.args|)) ==
              Data(d.argv + Keys(t, d.neg), if |t.ops| == 1 then !d.neg else d.neg, d.levels[..|d.levels| - 1] + [x])
    decreases t, 0
  {
    hide NoteAll, Events, EventsUpTo, Good, ElseOk, Keys, Note, FlipAll, Grown;
    var k0, k1 := Keys(t.args[0], d.neg), Keys(t.args[1], !d.neg);
    var low, argv := d.levels[..|d.levels| - 1], d.argv + k0;
    var d1 := Data(argv, !d.neg, low + [|argv|]);
    ArgGood(t, 0);
    ArgGood(t, 1);
    ElseArgs(t);
    IfKeys(t, d.neg);
    NoEvents(t, base);
    NoteOne(d, Enter);
    NoteTree(d, t.args[0], base + t.starts[0]);
    NoteArg(d, t, base, 1);
    IfFirst(d, t.ops[0], k0);
    NoteTree(d1, t.args[1], base + t.starts[1]);
    NoteArg(d, t, base, 2);
    GrownIs(argv, !d.neg, low + [|argv|], k1);
    if |t.ops| == 2 {
      ArgGood(t, 2);
      IfElse(argv, !d.neg, low, k1);
      var more, k2 := argv + k1 + FlipAll(k1), Keys(t.args[2], d.neg);
      NoteTree(Data(more, d.neg, low + [|argv|]), t.args[2], base + t.starts[2]);
      NoteArg(d, t, base, 3);
      GrownIs(more, d.neg, low + [|argv|], k2);
      assert more + k2 == d.argv + (k0 + k1 + FlipAll(k1) + k2);
    } else {
      assert argv + k1 == d.argv + (k0 + k1);
    }
  }

  lemma GrownIs(argv: seq<Key>, neg: bool, levels: seq<nat>, ks: seq<Key>)
    ensures Grown(Data(argv, neg, levels), ks) == Data(argv + ks, neg, levels)
  {
  }

  /** struct updateRichDepData with its callback. */
  class IndexData {
    var argv: seq<Key>
    var neg: bool
    var levels: seq<nat>

    constructor ()
      ensures State() == Data([], false, [])
    {
      argv, neg, levels := [], false, [];
    }

    ghost function State(): Data
      reads this
    {
      Data(argv, neg, levels)
    }

    method Callback(ev: Event)
      modifies this
      ensures State() == Note(old(State()), ev)
    {
      match ev {
        case Enter =>
          levels := levels + [|argv|];
        case Simple(_, name, _, _) =>
          if name != "" && !RpmlibName(name) { argv := argv + [Key(neg, name)]; }
        case OpEvent(op) =>
          if levels != [] {
            if Negates(op) {
              levels := levels[|levels| - 1 := |argv|];
              neg := !neg;
            }
            if op.Else? {
              if levels[|levels| - 1] <= |argv| { CopyInverted(levels[|levels| - 1]); }
              neg := !neg;
            }
          }
        case Leave(_, _, last) =>
          if levels != [] { levels := levels[..|levels| - 1]; }
          if last.Some? && Negates(last.value) { neg := !neg; }
      }
    }

    /** "copy and invert condition block" */
    method CopyInverted(start: nat)
      requires start <= |argv|
      modifies this`argv
      ensures argv == old(argv) + FlipAll(old(argv)[start..])
    {
      var n, i := |argv|, start;
      ghost var argv0 := argv;
      while i < n
        invariant start <= i <= n && argv == argv0 + FlipAll(argv0[start..])[..i - start]
      {
        assert argv[i] == argv0[i] && FlipAll(argv0[start..])[i - start] == Flip(argv0[i]);
        argv := argv + [Flip(argv[i])];
        i := i + 1;
      }
      assert FlipAll(argv0[start..])[..n - start] == FlipAll(argv0[start..]);
    }
  }

  function KeyText(k: Key): string { if k.neg then "!" + k.name else k.name }

  /** The index keys of a dependency string. */
  ghost function IndexKeys(s: string): set<string> {
    var r := ParseNode(s, 0);
    if r.Ok? then set k | k in Keys(r.tree, false) :: KeyText(k) else {}
  }

  /** updateRichDep(): the keys written for s. Sorting only serves to drop duplicates. */
  method UpdateRichDep(s: string) returns (keys: set<string>)
    ensures ParseNode(s, 0).Fail? ==> keys == {}
    ensures ParseNode(s, 0).Ok? ==>
              keys == set k | k in NoteAll(Data([], false, []), Events(ParseNode(s, 0).tree, 0)).argv :: KeyText(k)
    ensures ParseNode(s, 0).Ok? && ElseOk(ParseNode(s, 0).tree) ==> keys == IndexKeys(s)
  {
    hide ParseNode, Good, Keys, Events, Note, ElseOk;
    keys := {};
    var parsed, events := ParseInternal(s, 0);
    if parsed.Fail? { return; }
    var data := new IndexData();
    var d0 := Data([], false, []);
    var i := 0;
    while i < |events|
      invariant 0 <= i <= |events| && data.State() == NoteAll(d0, events[..i])
    {
      assert events[..i + 1][..i] == events[..i];
      data.Callback(events[i]);
      i := i + 1;
    }
    assert events[..i] == events;
    NodeGood(s, 0);
    if ElseOk(parsed.tree) { NoteTree(d0, parsed.tree, 0); }
    keys := set k | k in data.argv :: KeyText(k);
  }

  /** Why else has to follow if or unless: a bare "(A else B)" leaves the polarity
      flipped for everything behind it, and files B itself under the wrong one. */
  lemma BareElseFlips(d: Data, t: Tree, base: nat)
    requires Good(t) && t.Node? && t.ops == [Else] && |t.args| == |t.starts| == 2
    requires ElseOk(t.args[0]) && ElseOk(t.args[1])
    ensures var k0 := Keys(t.args[0], d.neg);
            NoteAll(d, Events(t, base)) ==
            Data(d.argv + k0 + FlipAll(k0) + Keys(t.args[1], !d.neg), !d.neg, d.levels)
  {
    hide NoteAll, Events, EventsUpTo, Good, ElseOk, Keys, Note, FlipAll, Grown;
    var k0, n := Keys(t.args[0], d.neg), |d.argv|;
    var d1 := Data(d.argv, d.neg, d.levels + [n]);
    ArgGood(t, 0);
    ArgGood(t, 1);
    NodeEvents(d, t, base);
    NoEvents(t, base);
    NoteOne(d1, Enter);
    NoteTree(d1, t.args[0], base + t.starts[0]);
    NoteArg(d1, t, base, 1);
    IfElse(d.argv, d.neg, d.levels, k0);
    var d2 := Data(d.argv + k0 + FlipAll(k0), !d.neg, d.levels + [n]);
    NoteTree(d2, t.args[1], base + t.starts[1]);
    NoteArg(d1, t, base, 2);
    GrownIs(d2.argv, !d.neg, d.levels + [n], Keys(t.args[1], !d.neg));
    NoteLeave(d, d2.argv + Keys(t.args[1], !d.neg), !d.neg, n, t, base);
  }

  // ---- Soundness.

  lemma FlipConcat(a: seq<Key>, b: seq<Key>)
    ensures FlipAll(a + b) == FlipAll(a) + FlipAll(b)
  {
  }

  lemma {:induction false} FlipKeys(t: Tree, neg: bool)
    ensures Keys(t, !neg) == FlipAll(Keys(t, neg))
    decreases t, 1
  {
    if t.Node? {
      if t.ops != [] && Negates(t.ops[0]) && (|t.args| == 2 || |t.args| == 3) {
        hide Keys, FlipAll, KeysUpTo;
        IfKeys(t, neg);
        IfKeys(t, !neg);
        FlipKeys(t.args[0], neg);
        FlipKeys(t.args[1], !neg);
        var k0, k1 := Keys(t.args[0], neg), Keys(t.args[1], !neg);
        FlipConcat(k0, k1);
        if |t.args| == 3 {
          FlipKeys(t.args[2], neg);
          FlipConcat(k0 + k1, FlipAll(k1));
          FlipConcat(k0 + k1 + FlipAll(k1), Keys(t.args[2], neg));
        }
      } else {
        FlipUpTo(t, neg, |t.args|);
      }
    }
  }

  lemma {:induction false} FlipUpTo(t: Tree, neg: bool, k: nat)
    requires t.Node? && k <= |t.args|
    ensures KeysUpTo(t, !neg, k) == FlipAll(KeysUpTo(t, neg, k))
    decreases t, 0, k
  {
    if k > 0 {
      FlipUpTo(t, neg, k - 1);
      FlipKeys(t.args[k - 1], neg);
    }
  }

  /** A transaction: the database before, and what is removed and added; names lists
      everything a package provides under any version, files included. */
  datatype Change = Change(before: World, removed: set<nat>, added: set<nat>, names: nat -> set<string>)

  function After(ch: Change): World {
    ch.before.(visible := ch.before.visible - ch.removed + ch.added)
  }

  ghost predicate ChangeOk(ch: Change) {
    && ch.before.visible == ch.before.installed
    && (forall x, sub :: ch.before.offers(x, sub) ==> sub.name in ch.names(x))
  }

  /** A package that provides nothing but rpmlib( names, which are never indexed, can match
      this tree of with, without and or. */
  predicate Escapes(t: Tree) {
    match t
    case Leaf(name, _, _) => RpmlibName(name)
    case Node(args, ops, _, _) =>
      if ops == [] || ops[0].Without? then args != [] && Escapes(args[0])
      else if ops[0].With? then forall i :: 0 <= i < |args| ==> Escapes(args[i])
      else exists i :: 0 <= i < |args| && Escapes(args[i])
  }

  /** Some part of the formula can change with such a package. */
  predicate Exposed(t: Tree) {
    match t
    case Leaf(name, _, _) => RpmlibName(name)
    case Node(args, ops, _, _) =>
      if ops != [] && (ops[0].With? || ops[0].Without?) then Escapes(t)
      else exists i :: 0 <= i < |args| && Exposed(args[i])
  }

  /** rpmlib( names of requirements are not looked for in packages, and before the transaction
      its packages do not count. */
  predicate Unaffected(c: Dep) { c.tag.Requires? || c.preTrans }

  /** No package of s provides a name that ks has with polarity neg. */
  ghost predicate Avoids(ch: Change, s: set<nat>, ks: seq<Key>, neg: bool) {
    forall x, n :: x in s && n in ch.names(x) ==> Key(neg, n) !in ks
  }

  /** Nothing done can make t false. */
  ghost predicate Safe(ch: Change, ks: seq<Key>) {
    Avoids(ch, ch.removed, ks, false) && Avoids(ch, ch.added, ks, true)
  }

  /** Nothing done can make t true. */
  ghost predicate Harmless(ch: Change, ks: seq<Key>) {
    Avoids(ch, ch.added, ks, false) && Avoids(ch, ch.removed, ks, true)
  }

  lemma SafePart(ch: Change, ks: seq<Key>, part: seq<Key>)
    requires forall k :: k in part ==> k in ks
    ensures Safe(ch, ks) ==> Safe(ch, part)
    ensures Harmless(ch, ks) ==> Harmless(ch, part)
  {
  }

  lemma InFlip(ks: seq<Key>, neg: bool, n: string)
    ensures Key(neg, n) in FlipAll(ks) <==> Key(!neg, n) in ks
  {
    if Key(!neg, n) in ks {
      var i :| 0 <= i < |ks| && ks[i] == Key(!neg, n);
      assert FlipAll(ks)[i] == Key(neg, n);
    }
  }

  lemma AvoidsFlip(ch: Change, s: set<nat>, ks: seq<Key>, neg: bool)
    ensures Avoids(ch, s, FlipAll(ks), neg) <==> Avoids(ch, s, ks, !neg)
  {
    forall x, n | x in s && n in ch.names(x) ensures Key(neg, n) in FlipAll(ks) <==> Key(!neg, n) in ks {
      InFlip(ks, neg, n);
    }
    hide FlipAll;
    if Avoids(ch, s, ks, !neg) {
      forall x, n | x in s && n in ch.names(x) ensures Key(neg, n) !in FlipAll(ks) { assert Key(!neg, n) !in ks; }
    }
    if Avoids(ch, s, FlipAll(ks), neg) {
      forall x, n | x in s && n in ch.names(x) ensures Key(!neg, n) !in ks { assert Key(neg, n) !in FlipAll(ks); }
    }
  }

  lemma SafeFlip(ch: Change, ks: seq<Key>)
    ensures Safe(ch, FlipAll(ks)) <==> Harmless(ch, ks)
    ensures Harmless(ch, FlipAll(ks)) <==> Safe(ch, ks)
  {
    hide Avoids, FlipAll;
    AvoidsFlip(ch, ch.removed, ks, false);
    AvoidsFlip(ch, ch.removed, ks, true);
    AvoidsFlip(ch, ch.added, ks, false);
    AvoidsFlip(ch, ch.added, ks, true);
  }

  /** What one leaf says depends on packages that provide its name only. */
  lemma LeafSound(ch: Change, c: Dep, t: Tree)
    requires t.Leaf? && Good(t) && ChangeOk(ch) && (Unaffected(c) || !Exposed(t))
    ensures Safe(ch, Keys(t, false)) && Truth(ch.before, c, t) ==> Truth(After(ch), c, t)
    ensures Harmless(ch, Keys(t, false)) && Truth(After(ch), c, t) ==> Truth(ch.before, c, t)
  {
    var d, w, w' := SubDep(c, SubOf(t)), ch.before, After(ch);
    assert SystemProvides(w, t.name) == SystemProvides(w', t.name);
    if c.preTrans {
      assert Providers(w, d) == Providers(w', d);
    } else if !d.rpmlib {
      forall x | x in ch.removed + ch.added && w.offers(x, SubOf(t)) ensures Key(false, t.name) in Keys(t, false) && t.name in ch.names(x) {}
      if Safe(ch, Keys(t, false)) { assert Providers(w, d) <= Providers(w', d); }
      if Harmless(ch, Keys(t, false)) { assert Providers(w', d) <= Providers(w, d); }
    }
  }

  lemma {:induction false} KeysInUpTo(t: Tree, neg: bool, i: nat, n: nat)
    requires t.Node? && i < n <= |t.args|
    ensures forall k :: k in Keys(t.args[i], neg) ==> k in KeysUpTo(t, neg, n)
  {
    hide Keys;
    if i < n - 1 { KeysInUpTo(t, neg, i, n - 1); }
  }

  /** The keys of an argument are among those of a plain node. */
  lemma ArgKeys(t: Tree, neg: bool, i: nat)
    requires t.Node? && Plain(t.ops) && i < |t.args|
    ensures forall k :: k in Keys(t.args[i], neg) ==> k in Keys(t, neg)
  {
    PlainKeys(t, neg);
    KeysInUpTo(t, neg, i, |t.args|);
  }

  /** Whether a package matches is its own affair. */
  lemma {:induction false} MatchesSame(w: World, w': World, c: Dep, t: Tree, x: nat)
    requires w.offers == w'.offers
    ensures Matches(w, c, t, x) == Matches(w', c, t, x)
    decreases t
  {
    if t.Node? {
      forall i | 0 <= i < |t.args| ensures Matches(w, c, t.args[i], x) == Matches(w', c, t.args[i], x) {
        MatchesSame(w, w', c, t.args[i], x);
      }
    }
  }

  lemma SetPlain(t: Tree)
    requires t.Node? && SetTree(t)
    ensures Plain(t.ops) && forall i :: 0 <= i < |t.args| ==> SetTree(t.args[i])
  {
  }

  /** A package that a set tree picks provides a key of it. */
  lemma {:induction false} MatchKeyed(ch: Change, c: Dep, t: Tree, x: nat)
    requires Good(t) && SetTree(t) && ChangeOk(ch) && (c.tag.Requires? || !Escapes(t)) && Matches(ch.before, c, t, x)
    ensures exists n :: n in ch.names(x) && Key(false, n) in Keys(t, false)
    decreases t
  {
    if t.Leaf? {
      assert Key(false, t.name) in Keys(t, false);
    } else {
      ChainSets(t);
      SetPlain(t);
      var i := KeyedArg(ch.before, c, t, x);
      ArgGood(t, i);
      ArgKeys(t, false, i);
      hide Keys, Matches, Good, SetTree, ChangeOk, Escapes;
      MatchKeyed(ch, c, t.args[i], x);
    }
  }

  /** An argument that matches and does not escape. */
  lemma KeyedArg(w: World, c: Dep, t: Tree, x: nat) returns (i: nat)
    requires t.Node? && |t.args| == |t.ops| + 1 && (t.ops != [] ==> KeepsSets(t.ops[0]))
    requires (c.tag.Requires? || !Escapes(t)) && Matches(w, c, t, x)
    ensures i < |t.args| && Matches(w, c, t.args[i], x) && (c.tag.Requires? || !Escapes(t.args[i]))
  {
    if t.ops == [] || t.ops[0].Without? {
      i := 0;
    } else if t.ops[0].With? && !c.tag.Requires? {
      i :| 0 <= i < |t.args| && !Escapes(t.args[i]);
    } else {
      i :| 0 <= i < |t.args| && Matches(w, c, t.args[i], x);
    }
  }

  /** with and without are as monotonic as the rest: a package counts by what it provides itself. */
  lemma SetSound(ch: Change, c: Dep, t: Tree)
    requires Good(t) && SetTree(t) && ChangeOk(ch) && (Unaffected(c) || !Escapes(t))
    ensures Safe(ch, Keys(t, false)) ==> Picked(ch.before, c, t) <= Picked(After(ch), c, t)
    ensures Harmless(ch, Keys(t, false)) ==> Picked(After(ch), c, t) <= Picked(ch.before, c, t)
  {
    hide Keys, Matches, Good, SetTree, Escapes;
    var w, w' := ch.before, After(ch);
    forall x ensures Matches(w, c, t, x) == Matches(w', c, t, x) { MatchesSame(w, w', c, t, x); }
    if !c.preTrans {
      forall x | x in ch.removed + ch.added && Matches(w, c, t, x)
        ensures exists n :: n in ch.names(x) && Key(false, n) in Keys(t, false)
      {
        MatchKeyed(ch, c, t, x);
      }
    }
  }

  lemma IfParts(ch: Change, t: Tree)
    requires t.Node? && t.ops != [] && Negates(t.ops[0]) && (|t.args| == 2 || |t.args| == 3)
    ensures Safe(ch, Keys(t, false)) ==> Safe(ch, Keys(t.args[0], false)) && Harmless(ch, Keys(t.args[1], false))
    ensures Harmless(ch, Keys(t, false)) ==> Harmless(ch, Keys(t.args[0], false)) && Safe(ch, Keys(t.args[1], false))
    ensures |t.args| == 3 && Safe(ch, Keys(t, false)) ==> Safe(ch, Keys(t.args[1], false)) && Safe(ch, Keys(t.args[2], false))
    ensures |t.args| == 3 && Harmless(ch, Keys(t, false)) ==>
              Harmless(ch, Keys(t.args[1], false)) && Harmless(ch, Keys(t.args[2], false))
  {
    hide Keys, Safe, Harmless, FlipAll;
    var ks, k1 := Keys(t, false), Keys(t.args[1], false);
    IfKeys(t, false);
    FlipKeys(t.args[1], false);
    SafePart(ch, ks, Keys(t.args[0], false));
    SafePart(ch, ks, FlipAll(k1));
    SafeFlip(ch, k1);
    if |t.args| == 3 {
      SafePart(ch, ks, FlipAll(FlipAll(k1)));
      SafeFlip(ch, FlipAll(k1));
      SafePart(ch, ks, Keys(t.args[2], false));
    }
  }

  /** The index is sound: if no removed package provides a positive key and no added one a
      negative key, what was true stays true; with the roles exchanged, what was false stays false. */
  lemma {:induction false} TreeSound(ch: Change, c: Dep, t: Tree)
    requires Good(t) && ElseOk(t) && ChangeOk(ch) && (Unaffected(c) || !Exposed(t))
    ensures Safe(ch, Keys(t, false)) && Truth(ch.before, c, t) ==> Truth(After(ch), c, t)
    ensures Harmless(ch, Keys(t, false)) && Truth(After(ch), c, t) ==> Truth(ch.before, c, t)
    decreases t
  {
    if t.Leaf? {
      LeafSound(ch, c, t);
    } else {
      OpsCases(t);
      ElseArgs(t);
      if WithTop(t) {
        SetSound(ch, c, t);
        hide Good, Keys, Safe, Harmless, ElseOk, SetTree;
      } else {
        ArgsSound(ch, c, t);
        hide Good, Keys, Safe, Harmless, ElseOk, ChangeOk;
        if Plain(t.ops) {
          forall i | 0 <= i < |t.args|
            ensures Safe(ch, Keys(t, false)) ==> Safe(ch, Keys(t.args[i], false))
            ensures Harmless(ch, Keys(t, false)) ==> Harmless(ch, Keys(t.args[i], false))
          {
            ArgKeys(t, false, i);
            SafePart(ch, Keys(t, false), Keys(t.args[i], false));
          }
        } else {
          IfParts(ch, t);
        }
      }
    }
  }

  lemma {:induction false} ArgsSound(ch: Change, c: Dep, t: Tree)
    requires Good(t) && ElseOk(t) && ChangeOk(ch) && t.Node? && !WithTop(t) && (Unaffected(c) || !Exposed(t))
    ensures forall i :: 0 <= i < |t.args| ==>
              && (Safe(ch, Keys(t.args[i], false)) && Truth(ch.before, c, t.args[i]) ==> Truth(After(ch), c, t.args[i]))
              && (Harmless(ch, Keys(t.args[i], false)) && Truth(After(ch), c, t.args[i]) ==> Truth(ch.before, c, t.args[i]))
    decreases t, 0
  {
    hide Keys, Safe, Harmless, Truth, ChangeOk;
    forall i | 0 <= i < |t.args|
      ensures Safe(ch, Keys(t.args[i], false)) && Truth(ch.before, c, t.args[i]) ==> Truth(After(ch), c, t.args[i])
      ensures Harmless(ch, Keys(t.args[i], false)) && Truth(After(ch), c, t.args[i]) ==> Truth(ch.before, c, t.args[i])
    {
      ArgGood(t, i);
      ElseArgs(t);
      TreeSound(ch, c, t.args[i]);
    }
  }

  lemma KeysIndexed(s: string, k: Key)
    requires ParseNode(s, 0).Ok? && k in Keys(ParseNode(s, 0).tree, false)
    ensures KeyText(k) in IndexKeys(s)
  {
    hide ParseNode, Keys;
  }

  /** A rich dependency of an installed package as rpmtsCheck() meets it. */
  ghost predicate Indexed(d: Dep) {
    && IsRich(d.sub.name) && !d.rpmlib && !(d.installed && d.transient)
    && var r := ParseNode(d.sub.name, 0); r.Ok? && r.end == |d.sub.name| && ElseOk(r.tree)
  }

  /** Requirements: rpmtsCheck() looks at a dependency again when a removed package provides
      one of its keys or an added package one of its "!" keys. If neither happens, a satisfied
      requirement is still satisfied after the transaction. */
  lemma RequiresIndexSound(ch: Change, d: Dep)
    requires Indexed(d) && ChangeOk(ch) && (Unaffected(d) || !Exposed(ParseNode(d.sub.name, 0).tree))
    requires forall x, n :: x in ch.removed && n in ch.names(x) ==> n !in IndexKeys(d.sub.name)
    requires forall x, n :: x in ch.added && n in ch.names(x) ==> "!" + n !in IndexKeys(d.sub.name)
    ensures Satisfied(ch.before, d) ==> Satisfied(After(ch), d)
  {
    var s := d.sub.name;
    var t := ParseNode(s, 0).tree;
    NodeGood(s, 0);
    EvaluationMeaning(ch.before, d);
    EvaluationMeaning(After(ch), d);
    hide ParseNode, Keys, Good, ElseOk, Truth, Satisfied, ChangeOk, IndexKeys;
    forall x, n | x in ch.removed && n in ch.names(x) ensures Key(false, n) !in Keys(t, false) {
      if Key(false, n) in Keys(t, false) { KeysIndexed(s, Key(false, n)); }
    }
    forall x, n | x in ch.added && n in ch.names(x) ensures Key(true, n) !in Keys(t, false) {
      if Key(true, n) in Keys(t, false) { KeysIndexed(s, Key(true, n)); }
    }
    TreeSound(ch, d, t);
  }

  /** Conflicts: looked at again when an added package provides a key, or a removed one a "!" key.
      If neither happens, a conflict that did not bite still does not, unless it is exposed. */
  lemma ConflictsIndexSound(ch: Change, d: Dep)
    requires Indexed(d) && ChangeOk(ch) && (Unaffected(d) || !Exposed(ParseNode(d.sub.name, 0).tree))
    requires forall x, n :: x in ch.added && n in ch.names(x) ==> n !in IndexKeys(d.sub.name)
    requires forall x, n :: x in ch.removed && n in ch.names(x) ==> "!" + n !in IndexKeys(d.sub.name)
    ensures Satisfied(After(ch), d) ==> Satisfied(ch.before, d)
  {
    var s := d.sub.name;
    var t := ParseNode(s, 0).tree;
    NodeGood(s, 0);
    EvaluationMeaning(ch.before, d);
    EvaluationMeaning(After(ch), d);
    hide ParseNode, Keys, Good, ElseOk, Truth, Satisfied, ChangeOk, IndexKeys;
    forall x, n | x in ch.added && n in ch.names(x) ensures Key(false, n) !in Keys(t, false) {
      if Key(false, n) in Keys(t, false) { KeysIndexed(s, Key(false, n)); }
    }
    forall x, n | x in ch.removed && n in ch.names(x) ensures Key(true, n) !in Keys(t, false) {
      if Key(true, n) in Keys(t, false) { KeysIndexed(s, Key(true, n)); }
    }
    TreeSound(ch, d, t);
  }
}
