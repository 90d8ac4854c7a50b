/** Recording relations: addSingleRelation() (lib/order.cc:54-150). */
module OrderRelations {
  import opened OrderGraph
  import opened OrderCount
  import opened OrderState

  /** Dependency tags rpmtsOrder walks (lib/order.cc:552-560). */
  datatype DepTag = Require | Recommend | Suggest | Supplement | Enhance | OrderWith

  datatype Dep = Dep(tag: DepTag, flags: Flags)

  // Masks of include/rpm/rpmds.h:63-89.
  const ALL_REQUIRES: Flags :=
    {Interp, ScriptPre, ScriptPost, ScriptPreUn, ScriptPostUn, ScriptVerify, FindRequires, RpmLib, Keyring,
     PreTrans, PostTrans, PreUnTrans, PostUnTrans, PreReq, Meta, MissingOk}
  const INSTALL_ONLY: Flags := {ScriptPre, ScriptPost, RpmLib, Keyring, PreTrans, PostTrans}
  const ERASE_ONLY: Flags := {ScriptPreUn, ScriptPostUn, PreUnTrans, PostUnTrans}

  /** rpmdsIsWeak() and rpmdsIsReverse() (lib/rpmds.cc:1070-1095). */
  predicate IsWeak(dep: Dep) { !dep.tag.Require? || MissingOk in dep.flags }

  predicate IsReverse(dep: Dep) { dep.tag.Supplement? || dep.tag.Enhance? }

  /** The scriptlet flags of a relation, before weak dependencies are demoted. */
  function ScriptFlags(ty: ElementType, flags: Flags): Flags {
    var f := if ty.Removed? then flags * ERASE_ONLY else flags * INSTALL_ONLY;
    if flags * ALL_REQUIRES == {PreReq} then f + (if ty.Added? then {ScriptPre} else {ScriptPreUn}) else f
  }

  /** A weak dependency without scriptlet flags orders nothing. */
  predicate Ignored(ty: ElementType, dep: Dep) {
    IsWeak(dep) && !dep.tag.OrderWith? && ScriptFlags(ty, dep.flags) == {}
  }

  function RelFlags(ty: ElementType, dep: Dep): Flags {
    if IsWeak(dep) && !dep.tag.OrderWith? then {} else ScriptFlags(ty, dep.flags)
  }

  /** Which flags a relation keeps: those of its own direction; an old style prerequisite counts
      for %pre or %preun; weak dependencies keep none, but ordering hints do. */
  lemma FlagsKept(ty: ElementType, dep: Dep, f: Sense)
    ensures f in RelFlags(ty, dep) <==>
              && (dep.tag.OrderWith? || (dep.tag.Require? && MissingOk !in dep.flags))
              && (|| (f in dep.flags && ty != Removed && (f == ScriptPre || f == ScriptPost || f == RpmLib || f == Keyring || f == PreTrans || f == PostTrans))
                  || (f in dep.flags && ty == Removed && (f == ScriptPreUn || f == ScriptPostUn || f == PreUnTrans || f == PostUnTrans))
                  || (f == (if ty == Added then ScriptPre else ScriptPreUn) && OldPreReq(dep.flags)))
  {
    if dep.flags * ALL_REQUIRES == {PreReq} {
      forall g: Sense | g in dep.flags && g != PreReq ensures !RequiresFlag(g) { assert g !in dep.flags * ALL_REQUIRES; }
      assert PreReq in dep.flags * ALL_REQUIRES;
    }
    if OldPreReq(dep.flags) { assert dep.flags * ALL_REQUIRES == {PreReq}; }
  }

  /** Of the flags about what a requirement is for there is only PREREQ. */
  ghost predicate OldPreReq(flags: Flags) {
    PreReq in flags && forall g: Sense :: g in flags && g != PreReq ==> !RequiresFlag(g)
  }

  predicate RequiresFlag(g: Sense) {
    || g == Interp || g == ScriptPre || g == ScriptPost || g == ScriptPreUn || g == ScriptPostUn || g == ScriptVerify
    || g == FindRequires || g == RpmLib || g == Keyring || g == PreTrans || g == PostTrans || g == PreUnTrans
    || g == PostUnTrans || g == PreReq || g == Meta || g == MissingOk
  }

  /** Erasures are reversed installs. */
  predicate Reversed(ty: ElementType, dep: Dep) { IsReverse(dep) != ty.Removed? }

  /** The flags of the entries for v, in list order. */
  ghost function FlagsTo(rels: seq<Relation>, v: nat): seq<Flags> {
    if rels == [] then []
    else (if rels[0].suc == v then [rels[0].flags] else []) + FlagsTo(rels[1..], v)
  }

  ghost predicate EntriesOk(rels: seq<seq<Relation>>) {
    forall u, i :: 0 <= u < |rels| && 0 <= i < |rels[u]| ==> rels[u][i].suc < |rels| && rels[u][i].suc != u
  }

  ghost predicate Mirror(rels: seq<seq<Relation>>, fwd: seq<seq<Relation>>)
    requires |rels| == |fwd|
  {
    forall p, q :: 0 <= p < |rels| && 0 <= q < |rels| ==> FlagsTo(rels[q], p) == FlagsTo(fwd[p], q)
  }

  /** The two directions mirror each other entry by entry, and the counters count them. */
  ghost predicate Linked(rels: seq<seq<Relation>>, fwd: seq<seq<Relation>>, count: seq<int>, qcnt: seq<int>) {
    && |rels| == |fwd| == |count| == |qcnt|
    && EntriesOk(rels) && EntriesOk(fwd)
    && Mirror(rels, fwd)
    && (forall u :: 0 <= u < |rels| ==> count[u] == |fwd[u]| && qcnt[u] == |rels[u]|)
  }

  /** "if relation got already added just update the flags" */
  function OrFirst(rels: seq<Relation>, v: nat, flags: Flags): seq<Relation> {
    if rels == [] then []
    else if rels[0].suc == v then [Relation(v, rels[0].flags + flags)] + rels[1..]
    else [rels[0]] + OrFirst(rels[1..], v, flags)
  }

  ghost function OrHead(fs: seq<Flags>, flags: Flags): seq<Flags> {
    if fs == [] then [] else [fs[0] + flags] + fs[1..]
  }

  lemma FlagsStep(rels: seq<Relation>, w: nat)
    requires rels != []
    ensures rels[0].suc == w ==> FlagsTo(rels, w) == [rels[0].flags] + FlagsTo(rels[1..], w)
    ensures rels[0].suc != w ==> FlagsTo(rels, w) == FlagsTo(rels[1..], w)
  {
  }

  lemma {:induction false} OrFirstFlags(rels: seq<Relation>, v: nat, flags: Flags, w: nat)
    ensures FlagsTo(OrFirst(rels, v, flags), w) == if w == v then OrHead(FlagsTo(rels, v), flags) else FlagsTo(rels, w)
  {
    if rels != [] {
      var r, rest := OrFirst(rels, v, flags), rels[1..];
      FlagsStep(r, w);
      FlagsStep(rels, w);
      if rels[0].suc == v {
        assert r[1..] == rest;
        OrHeadStep(rels[0].flags, FlagsTo(rest, v), flags);
      } else {
        OrFirstFlags(rest, v, flags, w);
        assert r[1..] == OrFirst(rest, v, flags);
        if w == rels[0].suc {
          assert FlagsTo(r, w) == [rels[0].flags] + FlagsTo(rest, w) == FlagsTo(rels, w);
        } else {
          assert FlagsTo(r, w) == FlagsTo(OrFirst(rest, v, flags), w);
          assert FlagsTo(rels, w) == FlagsTo(rest, w);
        }
      }
    }
  }

  lemma OrHeadStep(f: Flags, fs: seq<Flags>, flags: Flags)
    ensures OrHead([f] + fs, flags) == [f + flags] + fs
  {
  }

  lemma {:induction false} OrFirstSucs(rels: seq<Relation>, v: nat, flags: Flags)
    ensures Sucs(OrFirst(rels, v, flags)) == Sucs(rels)
  {
    if rels != [] {
      OrFirstSucs(rels[1..], v, flags);
      var r := OrFirst(rels, v, flags);
      assert r[1..] == if rels[0].suc == v then rels[1..] else OrFirst(rels[1..], v, flags);
      assert Sucs(rels) == [rels[0].suc] + Sucs(rels[1..]);
      assert Sucs(r) == [r[0].suc] + Sucs(r[1..]);
    }
  }

  lemma {:induction false} FlagsSome(rels: seq<Relation>, v: nat)
    requires FlagsTo(rels, v) != []
    ensures exists i :: 0 <= i < |rels| && rels[i].suc == v
  {
    if rels[0].suc != v {
      FlagsSome(rels[1..], v);
      var i :| 0 <= i < |rels[1..]| && rels[1..][i].suc == v;
      assert rels[i + 1].suc == v;
    }
  }

  lemma {:induction false} OrFirstAt(rels: seq<Relation>, v: nat, flags: Flags, i: nat)
    requires i < |rels| && rels[i].suc == v && forall j :: 0 <= j < i ==> rels[j].suc != v
    ensures OrFirst(rels, v, flags) == rels[i := Relation(v, rels[i].flags + flags)]
  {
    if i > 0 { OrFirstAt(rels[1..], v, flags, i - 1); }
  }

  /** Searches the other element's list for the entry that mirrors a front entry. */
  method UpdateEntry(rels: seq<Relation>, v: nat, flags: Flags) returns (r: seq<Relation>)
    requires FlagsTo(rels, v) != []
    ensures r == OrFirst(rels, v, flags)
  {
    var i := 0;
    while i < |rels|
      invariant 0 <= i <= |rels| && forall j :: 0 <= j < i ==> rels[j].suc != v
    {
      if rels[i].suc == v {
        OrFirstAt(rels, v, flags, i);
        return rels[i := Relation(v, rels[i].flags + flags)];
      }
      i := i + 1;
    }
    FlagsSome(rels, v);
    assert false;
  }

  function Push(rels: seq<seq<Relation>>, at: nat, r: Relation): seq<seq<Relation>>
    requires at < |rels|
  {
    rels[at := [r] + rels[at]]
  }

  lemma PushLinked(rels: seq<seq<Relation>>, fwd: seq<seq<Relation>>, count: seq<int>, qcnt: seq<int>,
                   p: nat, q: nat, flags: Flags)
    requires Linked(rels, fwd, count, qcnt) && p < |rels| && q < |rels| && p != q
    ensures Linked(Push(rels, q, Relation(p, flags)), Push(fwd, p, Relation(q, flags)),
                   count[p := count[p] + 1], qcnt[q := qcnt[q] + 1])
  {
    var rels', fwd' := Push(rels, q, Relation(p, flags)), Push(fwd, p, Relation(q, flags));
    assert rels'[q][1..] == rels[q] && fwd'[p][1..] == fwd[p];
    hide Linked;
    PushEntries(rels, q, Relation(p, flags));
    PushEntries(fwd, p, Relation(q, flags));
    forall a, b | 0 <= a < |rels| && 0 <= b < |rels|
      ensures FlagsTo(rels'[b], a) == FlagsTo(fwd'[a], b)
    {
    }
  }

  lemma PushEntries(rels: seq<seq<Relation>>, at: nat, r: Relation)
    requires EntriesOk(rels) && at < |rels| && r.suc < |rels| && r.suc != at
    ensures EntriesOk(Push(rels, at, r))
  {
  }

  lemma MergeEntries(rels: seq<seq<Relation>>, at: nat, v: nat, flags: Flags)
    requires EntriesOk(rels) && at < |rels|
    ensures EntriesOk(rels[at := OrFirst(rels[at], v, flags)])
    ensures GraphOf(rels[at := OrFirst(rels[at], v, flags)]) == GraphOf(rels)
    ensures |OrFirst(rels[at], v, flags)| == |rels[at]|
  {
    var r := OrFirst(rels[at], v, flags);
    OrFirstSucs(rels[at], v, flags);
    assert |Sucs(r)| == |r| && |Sucs(rels[at])| == |rels[at]|;
    assert forall i :: 0 <= i < |r| ==> r[i].suc == Sucs(r)[i] == Sucs(rels[at])[i] == rels[at][i].suc;
    var rels' := rels[at := r];
    assert forall u :: 0 <= u < |rels| ==> GraphOf(rels')[u] == GraphOf(rels)[u];
  }

  lemma MergeLinked(rels: seq<seq<Relation>>, fwd: seq<seq<Relation>>, count: seq<int>, qcnt: seq<int>,
                    p: nat, q: nat, flags: Flags)
    requires Linked(rels, fwd, count, qcnt) && p < |rels| && q < |rels|
    ensures var rels', fwd' := rels[q := OrFirst(rels[q], p, flags)], fwd[p := OrFirst(fwd[p], q, flags)];
            Linked(rels', fwd', count, qcnt) && GraphOf(rels') == GraphOf(rels) && GraphOf(fwd') == GraphOf(fwd)
  {
    var rels', fwd' := rels[q := OrFirst(rels[q], p, flags)], fwd[p := OrFirst(fwd[p], q, flags)];
    assert EntriesOk(rels) && EntriesOk(fwd) && Mirror(rels, fwd);
    MergeEntries(rels, q, p, flags);
    MergeEntries(fwd, p, q, flags);
    hide EntriesOk;
    forall a: nat, b: nat | a < |rels| && b < |rels|
      ensures FlagsTo(rels'[b], a) == FlagsTo(fwd'[a], b)
    {
      if b == q { OrFirstFlags(rels[q], p, flags, a); }
      if a == p { OrFirstFlags(fwd[p], q, flags, b); }
    }
  }

  /** p is recorded as requiring q. */
  ghost predicate Recorded(rels: seq<seq<Relation>>, p: nat, q: nat) {
    q < |rels| && p in Sucs(rels[q])
  }

  lemma FlagsRecorded(rels: seq<seq<Relation>>, p: nat, q: nat)
    requires q < |rels| && FlagsTo(rels[q], p) != []
    ensures Recorded(rels, p, q)
  {
    FlagsSome(rels[q], p);
    var i :| 0 <= i < |rels[q]| && rels[q][i].suc == p;
    assert Sucs(rels[q])[i] == p;
  }

  lemma SameRecorded(rels: seq<seq<Relation>>, rels': seq<seq<Relation>>, p: nat, q: nat)
    requires GraphOf(rels) == GraphOf(rels')
    ensures Recorded(rels, p, q) <==> Recorded(rels', p, q)
  {
    assert |GraphOf(rels)| == |rels| && |GraphOf(rels')| == |rels'|;
    if q < |rels| { assert GraphOf(rels)[q] == Sucs(rels[q]) && GraphOf(rels')[q] == Sucs(rels'[q]); }
  }

  lemma FrontFlags(rels: seq<Relation>)
    requires rels != []
    ensures FlagsTo(rels, rels[0].suc) != []
  {
  }

  /** Not reversed: the latest requirer of q is p already. Reversed: the latest
      requirement of q is p, which is the relation the other way round. */
  predicate Merges(rels: seq<seq<Relation>>, fwd: seq<seq<Relation>>, p: nat, q: nat, reversed: bool)
    requires p < |rels| == |fwd| && q < |rels|
  {
    if reversed then fwd[q] != [] && fwd[q][0].suc == p else rels[q] != [] && rels[q][0].suc == p
  }

  lemma OrFront(rels: seq<Relation>, flags: Flags)
    requires rels != []
    ensures OrFirst(rels, rels[0].suc, flags) == rels[0 := Relation(rels[0].suc, rels[0].flags + flags)]
  {
  }

  lemma PushRecorded(rels: seq<seq<Relation>>, p: nat, q: nat, flags: Flags, a: nat, b: nat)
    requires p < |rels| && q < |rels|
    ensures Recorded(Push(rels, q, Relation(p, flags)), a, b) <==> Recorded(rels, a, b) || (a == p && b == q)
  {
    var r := [Relation(p, flags)] + rels[q];
    assert Sucs(r) == [p] + Sucs(rels[q]);
  }

  /** A dependency dep of p that rpmalSatisfiesDepend() resolved to q, or to nothing (-1). */
  datatype Request = Request(p: nat, q: int, dep: Dep)

  /** Both directions of all relations. */
  datatype Lists = Lists(rels: seq<seq<Relation>>, fwd: seq<seq<Relation>>)

  predicate Fits(types: seq<ElementType>, l: Lists, r: Request) {
    |l.rels| == |l.fwd| == |types| && r.p < |types| && -1 <= r.q < |types|
  }

  /** The request orders something at all. */
  predicate Counts(types: seq<ElementType>, r: Request)
    requires r.p < |types|
  {
    r.q != -1 && r.q != r.p && !Ignored(types[r.p], r.dep)
  }

  /** Who ends up requiring whom. */
  function Requirer(types: seq<ElementType>, r: Request): nat
    requires r.p < |types| && r.q >= 0
  {
    if Reversed(types[r.p], r.dep) then r.q else r.p
  }

  function Provider(types: seq<ElementType>, r: Request): nat
    requires r.p < |types| && r.q >= 0
  {
    if Reversed(types[r.p], r.dep) then r.p else r.q
  }

  predicate Merged(types: seq<ElementType>, l: Lists, r: Request)
    requires Fits(types, l, r) && Counts(types, r)
  {
    Merges(l.rels, l.fwd, Requirer(types, r), Provider(types, r), Reversed(types[r.p], r.dep))
  }

  /** The flags of "b requires a" and its mirror entry. */
  function OrEntry(l: Lists, a: nat, b: nat, flags: Flags): Lists
    requires a < |l.rels| == |l.fwd| && b < |l.rels|
  {
    Lists(l.rels[a := OrFirst(l.rels[a], b, flags)], l.fwd[b := OrFirst(l.fwd[b], a, flags)])
  }

  /** What one request does to the lists. */
  function Add(types: seq<ElementType>, l: Lists, r: Request): (after: Lists)
    requires Fits(types, l, r)
    ensures |after.rels| == |after.fwd| == |types|
  {
    if !Counts(types, r) then l
    else
      var req, prov, flags := Requirer(types, r), Provider(types, r), RelFlags(types[r.p], r.dep);
      if Merged(types, l, r) then
        if Reversed(types[r.p], r.dep) then OrEntry(l, req, prov, flags) else OrEntry(l, prov, req, flags)
      else Lists(Push(l.rels, prov, Relation(req, flags)), Push(l.fwd, req, Relation(prov, flags)))
  }

  /** "requirer requires provider" is recorded after the request iff it was before, or the
      request was not merged. A merge changes no relation, only flags; the one on the
      reversed path lands on the opposite relation, so it can lose the one asked for. */
  lemma AddRecorded(types: seq<ElementType>, l: Lists, r: Request, count: seq<int>, qcnt: seq<int>)
    requires Fits(types, l, r) && Counts(types, r) && Linked(l.rels, l.fwd, count, qcnt)
    ensures var (req, prov, rev) := (Requirer(types, r), Provider(types, r), Reversed(types[r.p], r.dep));
            var after := Add(types, l, r);
            && (Recorded(after.rels, req, prov) <==> Recorded(l.rels, req, prov) || !Merged(types, l, r))
            && (Merged(types, l, r) ==> GraphOf(after.rels) == GraphOf(l.rels))
            && (Merged(types, l, r) && !rev ==> Recorded(l.rels, req, prov))
            && (Merged(types, l, r) && rev ==> Recorded(l.rels, prov, req))
  {
    var req, prov, rev, flags := Requirer(types, r), Provider(types, r), Reversed(types[r.p], r.dep), RelFlags(types[r.p], r.dep);
    if Merged(types, l, r) {
      if rev {
        FrontFlags(l.fwd[prov]);
        assert FlagsTo(l.rels[req], prov) == FlagsTo(l.fwd[prov], req);
        MergeLinked(l.rels, l.fwd, count, qcnt, prov, req, flags);
        FlagsRecorded(l.rels, prov, req);
      } else {
        FrontFlags(l.rels[prov]);
        MergeLinked(l.rels, l.fwd, count, qcnt, req, prov, flags);
        FlagsRecorded(l.rels, req, prov);
      }
      SameRecorded(l.rels, Add(types, l, r).rels, req, prov);
    } else {
      PushRecorded(l.rels, req, prov, flags, req, prov);
    }
  }

  /** Package 0 requires package 1, and also supplements it with a scriptlet
      dependency: the second request asks for "1 requires 0" and is lost. */
  lemma ReversedMergeLosesRelation()
    ensures var types := [Added, Added];
            var first := Request(0, 1, Dep(Require, {}));
            var second := Request(0, 1, Dep(Supplement, {ScriptPre}));
            var l := Add(types, Lists([[], []], [[], []]), first);
            && Fits(types, l, second) && Counts(types, second)
            && Requirer(types, second) == 1 && Provider(types, second) == 0
            && !Recorded(Add(types, l, second).rels, 1, 0)
  {
    var types := [Added, Added];
    var second := Request(0, 1, Dep(Supplement, {ScriptPre}));
    assert ScriptPre in ScriptFlags(Added, {ScriptPre});
    var l := Add(types, Lists([[], []], [[], []]), Request(0, 1, Dep(Require, {})));
    assert l.rels[0] == [] && l.fwd[0][0].suc == 1;
    assert Add(types, l, second).rels[0] == [];
  }

  /** Requests one after the other. */
  function AddAll(types: seq<ElementType>, l: Lists, rs: seq<Request>): (r: Lists)
    requires |l.rels| == |l.fwd| == |types| && forall i :: 0 <= i < |rs| ==> rs[i].p < |types| && -1 <= rs[i].q < |types|
    ensures |r.rels| == |r.fwd| == |types|
  {
    if rs == [] then l else Add(types, AddAll(types, l, rs[..|rs| - 1]), rs[|rs| - 1])
  }

  /** addSingleRelation(): the mirror of the two directions and the counters survive
      every call, so neither assert(0) is reached. */
  method AddSingleRelation(t: Tsort, r: Request)
    requires Linked(t.relations, t.forward, t.count, t.qcnt)
    requires Fits(t.types, Lists(t.relations, t.forward), r)
    modifies t`relations, t`forward, t`count, t`qcnt
    ensures Linked(t.relations, t.forward, t.count, t.qcnt)
    ensures Lists(t.relations, t.forward) == Add(t.types, old(Lists(t.relations, t.forward)), r)
  {
    var p, q := r.p, r.q;
    if q == -1 || q == p { return; }
    var ty := t.types[p];
    if Ignored(ty, r.dep) { return; }
    var flags := RelFlags(ty, r.dep);
    if Reversed(ty, r.dep) {
      AddReversed(t, q, p, flags);
    } else {
      AddForward(t, p, q, flags);
    }
  }

  method AddForward(t: Tsort, p: nat, q: nat, flags: Flags)
    requires Linked(t.relations, t.forward, t.count, t.qcnt)
    requires p < |t.relations| == |t.forward| && q < |t.relations| && p != q
    modifies t`relations, t`forward, t`count, t`qcnt
    ensures Linked(t.relations, t.forward, t.count, t.qcnt)
    ensures Lists(t.relations, t.forward) ==
            if Merges(old(t.relations), old(t.forward), p, q, false)
            then OrEntry(old(Lists(t.relations, t.forward)), q, p, flags)
            else Lists(Push(old(t.relations), q, Relation(p, flags)), Push(old(t.forward), p, Relation(q, flags)))
  {
    var rels: seq<seq<Relation>>, fwd: seq<seq<Relation>> := t.relations, t.forward;
    if rels[q] != [] && rels[q][0].suc == p {
      FrontFlags(rels[q]);
      assert FlagsTo(fwd[p], q) != [];
      hide Linked, FlagsTo, OrFirst;
      OrFront(rels[q], flags);
      MergeLinked(rels, fwd, t.count, t.qcnt, p, q, flags);
      t.relations := rels[q := rels[q][0 := Relation(p, rels[q][0].flags + flags)]];
      var updated := UpdateEntry(fwd[p], q, flags);
      t.forward := fwd[p := updated];
    } else {
      Record(t, p, q, flags);
    }
  }

  method AddReversed(t: Tsort, p: nat, q: nat, flags: Flags)
    requires Linked(t.relations, t.forward, t.count, t.qcnt)
    requires p < |t.relations| == |t.forward| && q < |t.relations| && p != q
    modifies t`relations, t`forward, t`count, t`qcnt
    ensures Linked(t.relations, t.forward, t.count, t.qcnt)
    ensures Lists(t.relations, t.forward) ==
            if Merges(old(t.relations), old(t.forward), p, q, true)
            then OrEntry(old(Lists(t.relations, t.forward)), p, q, flags)
            else Lists(Push(old(t.relations), q, Relation(p, flags)), Push(old(t.forward), p, Relation(q, flags)))
  {
    var rels: seq<seq<Relation>>, fwd: seq<seq<Relation>> := t.relations, t.forward;
    if fwd[q] != [] && fwd[q][0].suc == p {
      FrontFlags(fwd[q]);
      assert FlagsTo(rels[p], q) != [];
      hide Linked, FlagsTo, OrFirst;
      OrFront(fwd[q], flags);
      MergeLinked(rels, fwd, t.count, t.qcnt, q, p, flags);
      t.forward := fwd[q := fwd[q][0 := Relation(p, fwd[q][0].flags + flags)]];
      var updated := UpdateEntry(rels[p], q, flags);
      t.relations := rels[p := updated];
    } else {
      Record(t, p, q, flags);
    }
  }

  method Record(t: Tsort, p: nat, q: nat, flags: Flags)
    requires Linked(t.relations, t.forward, t.count, t.qcnt)
    requires p < |t.relations| == |t.forward| && q < |t.relations| && p != q
    modifies t`relations, t`forward, t`count, t`qcnt
    ensures t.relations == Push(old(t.relations), q, Relation(p, flags))
    ensures t.forward == Push(old(t.forward), p, Relation(q, flags))
    ensures Linked(t.relations, t.forward, t.count, t.qcnt)
  {
    assert |t.count| == |t.qcnt| == |t.relations|;
    hide Linked;
    PushLinked(t.relations, t.forward, t.count, t.qcnt, p, q, flags);
    t.count := t.count[p := t.count[p] + 1];
    t.relations := t.relations[q := [Relation(p, flags)] + t.relations[q]];
    t.qcnt := t.qcnt[q := t.qcnt[q] + 1];
    t.forward := t.forward[p := [Relation(q, flags)] + t.forward[p]];
  }
}
