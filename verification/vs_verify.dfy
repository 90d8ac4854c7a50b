/** Verifying the signatures and digests of a package (rpmvsVerify, lib/rpmvs.cc). */
module VsVerify {
  import opened Common

  datatype Part = Header | Payload
  type Range = set<Part>

  datatype Type = Digest | Signature

  datatype Rc = OK | NotFound | Fail | NotTrusted | NoKey

  /** struct rpmsinfo_s: verdict is what checking it against its context comes to. */
  datatype Sinfo = Sinfo(typ: Type, disabler: nat, range: Range, hashalgo: nat, sigalgo: nat, id: nat,
                         wrapped: bool, strength: Type, ctx: bool, rc: Rc, verdict: Rc)

  const ALL: Range := {Header, Payload}

  function Bits(r: Range): nat { (if Header in r then 1 else 0) + (if Payload in r then 2 else 0) }

  function TypeBit(t: Type): nat { if t == Digest then 1 else 2 }

  /** Ranges upwards; signatures before digests, stronger algorithms first. */
  function SinfoCmp(a: Sinfo, b: Sinfo): int {
    if Bits(a.range) != Bits(b.range) then Bits(a.range) - Bits(b.range)
    else if a.typ != b.typ then TypeBit(b.typ) - TypeBit(a.typ)
    else if a.sigalgo != b.sigalgo then b.sigalgo - a.sigalgo
    else if a.hashalgo != b.hashalgo then b.hashalgo - a.hashalgo
    else if a.id != b.id then b.id - a.id
    else b.disabler - a.disabler
  }

  ghost predicate Sorted(s: seq<Sinfo>) {
    forall i, j :: 0 <= i < j < |s| ==> SinfoCmp(s[i], s[j]) <= 0
  }

  /** In the sorted table the header comes before the payload and that before both together; of one
      range signatures come before digests, and then what has the higher algorithm, id and disabler. */
  lemma SortedMeans(t: seq<Sinfo>, i: nat, j: nat)
    requires Sorted(t) && i < j < |t|
    ensures var a, b := t[i], t[j];
            && (a.range == {Payload} ==> b.range != {Header}) && (a.range == {Header, Payload} ==> b.range == {Header, Payload})
            && (a.range == b.range && a.typ == Digest ==> b.typ == Digest)
            && (a.range == b.range && a.typ == b.typ ==>
                  || a.sigalgo > b.sigalgo
                  || (a.sigalgo == b.sigalgo
                      && (|| a.hashalgo > b.hashalgo
                          || (a.hashalgo == b.hashalgo && (a.id > b.id || (a.id == b.id && a.disabler >= b.disabler))))))
  {
    var a, b := t[i], t[j];
    assert SinfoCmp(a, b) <= 0;
    if Bits(b.range) == 3 { BothParts(b.range); }
  }

  lemma BothParts(r: Range)
    requires Bits(r) == 3
    ensures r == {Header, Payload}
  {
    assert forall x :: x in r ==> x == Header || x == Payload;
  }

  lemma CmpOrder(a: Sinfo, b: Sinfo, c: Sinfo)
    ensures SinfoCmp(a, b) <= 0 || SinfoCmp(b, a) <= 0
    ensures SinfoCmp(a, b) <= 0 && SinfoCmp(b, c) <= 0 ==> SinfoCmp(a, c) <= 0
  {
  }

  /** So the comparison orders any table. */
  lemma CmpConsistent(s: seq<Sinfo>)
    ensures Consistent(SinfoCmp, s)
  {
    hide SinfoCmp;
    forall a, b ensures SinfoCmp(a, b) <= 0 || SinfoCmp(b, a) <= 0 { CmpOrder(a, b, b); }
    forall a, b, c | SinfoCmp(a, b) <= 0 && SinfoCmp(b, c) <= 0 ensures SinfoCmp(a, c) <= 0 { CmpOrder(a, b, c); }
  }

  /** rpmvsVerify() starts by sorting. */
  method SortTable(s: seq<Sinfo>) returns (r: seq<Sinfo>)
    ensures Sorted(r) && multiset(r) == multiset(s)
  {
    hide SinfoCmp, Consistent;
    r := QSort(SinfoCmp, s);
    CmpConsistent(s);
  }

  /* ---- What should come out, whatever the order ---- */

  /** Checked and good. */
  predicate Good(s: Sinfo, types: set<Type>) { s.typ in types && s.ctx && s.verdict == OK }

  /** The parts of a package whose digest is good. */
  ghost function Digested(sigs: seq<Sinfo>, types: set<Type>): Range {
    set r | r in ALL && exists s :: s in sigs && Good(s, types) && s.typ == Digest && r in s.range
  }

  /** The header itself carries a good signature. */
  ghost predicate HeaderSigned(sigs: seq<Sinfo>, types: set<Type>) {
    exists s :: s in sigs && Good(s, types) && s.typ == Signature && s.range == {Header}
  }

  /** A good signature, or a good digest from a header that is signed. */
  ghost predicate Vouches(s: Sinfo, sigs: seq<Sinfo>, types: set<Type>) {
    Good(s, types) && (s.typ == Signature || (s.wrapped && HeaderSigned(sigs, types)))
  }

  /** The parts of a package that a signature vouches for. */
  ghost function Signed(sigs: seq<Sinfo>, types: set<Type>): Range {
    set r | r in ALL && exists s :: s in sigs && Vouches(s, sigs, types) && r in s.range
  }

  /** The parts that have to be covered. */
  ghost function Needed(sigs: seq<Sinfo>, types: set<Type>, vfylevel: set<Type>): Range {
    (if vfylevel != {} then ALL else {}) + set r | r in ALL && exists s :: s in sigs && s.typ in types && r in s.range
  }

  /** Digests found in the header proper are about the payload and weak by themselves. */
  ghost predicate TableOk(sigs: seq<Sinfo>) {
    forall s :: s in sigs ==> s.strength == s.typ && (s.wrapped ==> s.typ == Digest && s.range == {Payload})
  }

  /** Sorting changes none of this. */
  lemma SameCoverage(a: seq<Sinfo>, b: seq<Sinfo>, types: set<Type>, vfylevel: set<Type>)
    requires multiset(a) == multiset(b)
    ensures Digested(a, types) == Digested(b, types) && Signed(a, types) == Signed(b, types)
    ensures Needed(a, types, vfylevel) == Needed(b, types, vfylevel) && (TableOk(a) <==> TableOk(b))
    ensures HeaderSigned(a, types) <==> HeaderSigned(b, types)
  {
    SamePlace(a, b);
    hide Good;
    forall s ensures s in a && Vouches(s, a, types) <==> s in b && Vouches(s, b, types) {
      assert HeaderSigned(a, types) <==> HeaderSigned(b, types);
    }
  }

  /* ---- First loop: check everything ---- */

  /** What checking leaves in an entry. */
  function Checked(s: Sinfo, types: set<Type>, strong: bool): Sinfo {
    if s.typ !in types then s
    else s.(strength := if s.wrapped && strong then Signature else s.strength, rc := if s.ctx then s.verdict else s.rc)
  }

  ghost predicate VouchedIn(t: seq<Sinfo>, types: set<Type>, n: nat, r: Part)
    requires n <= |t|
  {
    exists k :: 0 <= k < n && Vouches(t[k], t, types) && r in t[k].range
  }

  ghost predicate DigestIn(t: seq<Sinfo>, types: set<Type>, n: nat, r: Part)
    requires n <= |t|
  {
    exists k :: 0 <= k < n && Good(t[k], types) && t[k].typ == Digest && r in t[k].range
  }

  ghost predicate AskedIn(t: seq<Sinfo>, types: set<Type>, n: nat, r: Part)
    requires n <= |t|
  {
    exists k :: 0 <= k < n && t[k].typ in types && r in t[k].range
  }

  /** When a digest from the header comes up, all signatures of the header have been checked,
      and nothing else has vouched for it. */
  lemma StrongInTime(t: seq<Sinfo>, types: set<Type>, i: nat)
    requires Sorted(t) && TableOk(t) && i < |t| && t[i].wrapped
    ensures VouchedIn(t, types, i, Header) <==> HeaderSigned(t, types)
  {
    assert t[i] in t;
    if HeaderSigned(t, types) {
      var s :| s in t && Good(s, types) && s.typ == Signature && s.range == {Header};
      var k :| 0 <= k < |t| && t[k] == s;
      assert Bits(t[k].range) == 1 && Bits(t[i].range) == 2;
      LowerFirst(t, k, i);
      assert Vouches(t[k], t, types) && Header in t[k].range;
    }
    if VouchedIn(t, types, i, Header) {
      var k :| 0 <= k < i && Vouches(t[k], t, types) && Header in t[k].range;
      assert t[k] in t && SinfoCmp(t[k], t[i]) <= 0;
      OnlyHeader(t[k].range);
    }
  }

  lemma LowerFirst(t: seq<Sinfo>, k: nat, i: nat)
    requires Sorted(t) && k < |t| && i < |t| && Bits(t[k].range) < Bits(t[i].range)
    ensures k < i
  {
  }

  lemma OnlyHeader(r: Range)
    requires Header in r && Bits(r) <= 2
    ensures r == {Header}
  {
    assert Payload !in r;
    assert forall x :: x in r ==> x == Header;
  }

  /** One entry more. */
  lemma CheckStep(t: seq<Sinfo>, types: set<Type>, i: nat, r: Part)
    requires i < |t|
    ensures VouchedIn(t, types, i + 1, r) <==> VouchedIn(t, types, i, r) || (Vouches(t[i], t, types) && r in t[i].range)
    ensures DigestIn(t, types, i + 1, r) <==> DigestIn(t, types, i, r) || (Good(t[i], types) && t[i].typ == Digest && r in t[i].range)
    ensures AskedIn(t, types, i + 1, r) <==> AskedIn(t, types, i, r) || (t[i].typ in types && r in t[i].range)
  {
    hide Good, Vouches;
    if Vouches(t[i], t, types) && r in t[i].range { assert VouchedIn(t, types, i + 1, r); }
    if Good(t[i], types) && t[i].typ == Digest && r in t[i].range { assert DigestIn(t, types, i + 1, r); }
    if t[i].typ in types && r in t[i].range { assert AskedIn(t, types, i + 1, r); }
    if VouchedIn(t, types, i, r) { assert VouchedIn(t, types, i + 1, r); }
    if DigestIn(t, types, i, r) { assert DigestIn(t, types, i + 1, r); }
    if AskedIn(t, types, i, r) { assert AskedIn(t, types, i + 1, r); }
  }

  lemma CheckEnd(t: seq<Sinfo>, types: set<Type>, vfylevel: set<Type>, r: Part)
    ensures VouchedIn(t, types, |t|, r) <==> r in Signed(t, types)
    ensures DigestIn(t, types, |t|, r) <==> r in Digested(t, types)
    ensures AskedIn(t, types, |t|, r) || vfylevel != {} <==> r in Needed(t, types, vfylevel)
  {
    hide Good, Vouches;
    assert r in ALL;
    if VouchedIn(t, types, |t|, r) {
      var k :| 0 <= k < |t| && Vouches(t[k], t, types) && r in t[k].range;
      assert t[k] in t;
    }
    if DigestIn(t, types, |t|, r) {
      var k :| 0 <= k < |t| && Good(t[k], types) && t[k].typ == Digest && r in t[k].range;
      assert t[k] in t;
    }
    if AskedIn(t, types, |t|, r) {
      var k :| 0 <= k < |t| && t[k].typ in types && r in t[k].range;
      assert t[k] in t;
    }
  }

  /* ---- Second loop: judge ---- */

  predicate Broken(rc: Rc) { rc == Fail || rc == NoKey }

  /** The result of an entry once its type has been checked. */
  function Outcome(s: Sinfo, types: set<Type>): Rc { if s.typ in types && s.ctx then s.verdict else s.rc }

  /** Good, not there, or good by a key that is not trusted. */
  predicate Passable(s: Sinfo, types: set<Type>) {
    var rc := if s.typ in types && s.ctx then s.verdict else s.rc;
    rc == OK || rc == NotFound || rc == NotTrusted
  }

  lemma VerdictsMean(was: seq<Sinfo>, t: seq<Sinfo>, types: set<Type>)
    requires multiset(was) == multiset(t)
    ensures (exists s :: s in was && s.typ == Signature && Signature in types && s.ctx && (s.verdict == Fail || s.verdict == NoKey)) ==>
              exists k :: 0 <= k < |t| && t[k].typ == Signature && Broken(Outcome(t[k], types))
    ensures (forall s :: s in was && s.typ == Signature ==> Passable(s, types)) ==>
              !exists k :: 0 <= k < |t| && t[k].typ == Signature && Broken(Outcome(t[k], types))
  {
    SamePlace(was, t);
    if s :| s in was && s.typ == Signature && Signature in types && s.ctx && (s.verdict == Fail || s.verdict == NoKey) {
      var k :| 0 <= k < |t| && t[k] == s;
      assert Broken(Outcome(t[k], types));
    }
    if forall s :: s in was && s.typ == Signature ==> Passable(s, types) {
      forall k | 0 <= k < |t| && t[k].typ == Signature ensures !Broken(Outcome(t[k], types)) { assert t[k] in was; }
    }
  }

  function Alternative(sigs: seq<Sinfo>, s: Sinfo, n: nat): Option<Sinfo>
    requires n <= |sigs|
  {
    if n == 0 then None
    else
      var r := Alternative(sigs, s, n - 1);
      if r.Some? then r else if s.id != sigs[n - 1].id && s.disabler == sigs[n - 1].disabler then Some(sigs[n - 1]) else None
  }

  lemma {:induction false} AltStays(sigs: seq<Sinfo>, s: Sinfo, n: nat, m: nat)
    requires n <= m <= |sigs| && Alternative(sigs, s, n).Some?
    ensures Alternative(sigs, s, m) == Alternative(sigs, s, n)
    decreases m
  {
    if n < m { AltStays(sigs, s, n, m - 1); }
  }

  /** The alternative of an entry: the first with another id that the same flag disables. */
  lemma {:induction false} AltIs(sigs: seq<Sinfo>, s: Sinfo, n: nat)
    requires n <= |sigs|
    ensures var r := Alternative(sigs, s, n);
            if r.None? then forall k :: 0 <= k < n && sigs[k].disabler == s.disabler ==> sigs[k].id == s.id
            else exists k ::
              && 0 <= k < n && sigs[k] == r.value && sigs[k].disabler == s.disabler && sigs[k].id != s.id
              && forall j :: 0 <= j < k && sigs[j].disabler == s.disabler ==> sigs[j].id == s.id
    decreases n
  {
    if n > 0 { AltIs(sigs, s, n - 1); }
  }

  /** A bad digest whose first alternative is good. */
  ghost predicate Excused(t: seq<Sinfo>, types: set<Type>, s: Sinfo) {
    Outcome(s, types) == Fail && Alternative(t, s, |t|).Some? && Outcome(Alternative(t, s, |t|).value, types) == OK
  }

  /** Only a wrong digest is excused, and only by a good entry of the same kind. */
  lemma ExcusedBy(t: seq<Sinfo>, types: set<Type>, s: Sinfo)
    requires Excused(t, types, s)
    ensures Outcome(s, types) == Fail
    ensures exists k :: 0 <= k < |t| && t[k].disabler == s.disabler && t[k].id != s.id && Outcome(t[k], types) == OK
  {
    AltIs(t, s, |t|);
  }

  /** The same entry, whose result may have been set aside. */
  predicate Similar(s: Sinfo, t: Sinfo, types: set<Type>) {
    && s.typ == t.typ && s.id == t.id && s.disabler == t.disabler
    && (s.rc == Outcome(t, types) || (s.rc == NotFound && Outcome(t, types) == Fail))
  }

  lemma {:induction false} AltSimilar(a: seq<Sinfo>, b: seq<Sinfo>, types: set<Type>, s: Sinfo, s': Sinfo, n: nat)
    requires n <= |a| == |b| && (forall k :: 0 <= k < |a| ==> Similar(a[k], b[k], types)) && Similar(s, s', types)
    ensures var x, y := Alternative(a, s, n), Alternative(b, s', n);
            (x.Some? <==> y.Some?) && (x.Some? ==> (x.value.rc == OK <==> Outcome(y.value, types) == OK))
    decreases n
  {
    if n > 0 { AltSimilar(a, b, types, s, s', n - 1); }
  }

  /** Part r is covered by a good signature, or by a good digest of a signed header. */
  ghost predicate VouchedFor(sigs: seq<Sinfo>, types: set<Type>, r: Part) {
    exists s :: s in sigs && Vouches(s, sigs, types) && r in s.range
  }

  lemma FullySigned(sigs: seq<Sinfo>, types: set<Type>, vfylevel: set<Type>)
    requires vfylevel != {} && Signed(sigs, types) == Needed(sigs, types, vfylevel)
    ensures forall r: Part :: VouchedFor(sigs, types, r)
  {
    hide Vouches;
    forall r: Part ensures VouchedFor(sigs, types, r) {
      assert r == Header || r == Payload;
      assert r in ALL && r in Needed(sigs, types, vfylevel);
      assert r in Signed(sigs, types);
    }
  }

  class Vs {
    var sigs: seq<Sinfo>
    const vfylevel: set<Type>

    constructor (level: set<Type>, entries: seq<Sinfo>)
      ensures vfylevel == level && sigs == entries
    {
      vfylevel, sigs := level, entries;
    }

    /** Check all entries of the given types in order and note what is covered. */
    method Check(types: set<Type>) returns (digested: Range, signed: Range, range: Range)
      requires Sorted(sigs) && TableOk(sigs)
      modifies this`sigs
      ensures |sigs| == |old(sigs)|
      ensures forall i :: 0 <= i < |sigs| ==> sigs[i] == Checked(old(sigs)[i], types, HeaderSigned(old(sigs), types))
      ensures digested == Digested(old(sigs), types) && signed == Signed(old(sigs), types) && range == Needed(old(sigs), types, vfylevel)
    {
      hide Sorted, Digested, Signed, Needed, VouchedIn, DigestIn, AskedIn, HeaderSigned;
      ghost var t := sigs;
      digested, signed := {}, {};
      range := if vfylevel != {} then ALL else {};
      NothingYet(t, types);
      var i := 0;
      while i < |sigs|
        invariant 0 <= i <= |sigs| == |t|
        invariant forall k :: i <= k < |t| ==> sigs[k] == t[k]
        invariant forall k :: 0 <= k < i ==> sigs[k] == Checked(t[k], types, HeaderSigned(t, types))
        invariant forall r: Part :: r in signed <==> VouchedIn(t, types, i, r)
        invariant forall r: Part :: r in digested <==> DigestIn(t, types, i, r)
        invariant forall r: Part :: r in range <==> AskedIn(t, types, i, r) || vfylevel != {}
      {
        var s := sigs[i];
        assert t[i] in t;
        if t[i].wrapped { StrongInTime(t, types, i); }
        forall r: Part { CheckStep(t, types, i, r); }
        if s.typ in types {
          if s.wrapped && Header in signed { s := s.(strength := Signature); }
          if s.ctx {
            s := s.(rc := s.verdict);
            if s.rc == OK {
              if s.typ == Digest { digested := digested + s.range; } else { signed := signed + s.range; }
              if s.strength == Digest { digested := digested + s.range; } else { signed := signed + s.range; }
            }
          }
          range := range + s.range;
        }
        sigs := sigs[i := s];
        i := i + 1;
      }
      forall r: Part { CheckEnd(t, types, vfylevel, r); }
    }

    /** getAlt: the first other entry that the same flag disables. */
    method GetAlt(s: Sinfo) returns (r: Option<Sinfo>)
      ensures r == Alternative(sigs, s, |sigs|)
    {
      var i := 0;
      while i < |sigs|
        invariant 0 <= i <= |sigs| && Alternative(sigs, s, i) == None
      {
        if s.id != sigs[i].id && s.disabler == sigs[i].disabler {
          AltStays(sigs, s, i + 1, |sigs|);
          return Some(sigs[i]);
        }
        i := i + 1;
      }
      return None;
    }

    /** rpmvsVerify, with a callback that only looks.  A type fails if one of its entries is
        bad, or if it has to cover the package and does not; once any signature is good,
        signatures have to. */
    method Verify(types: set<Type>) returns (failed: set<Type>, ghost t: seq<Sinfo>)
      requires TableOk(sigs)
      modifies this`sigs
      ensures multiset(t) == multiset(old(sigs)) && Sorted(t)
      ensures var was := old(sigs);
              Signature in failed <==>
                || (exists k :: 0 <= k < |t| && t[k].typ == Signature && Broken(Outcome(t[k], types)))
                || ((Signature in vfylevel || Signed(was, types) != {}) && Signed(was, types) != Needed(was, types, vfylevel))
      ensures var was := old(sigs);
              Digest in failed <==>
                || (exists k :: 0 <= k < |t| && t[k].typ == Digest && Broken(Outcome(t[k], types)) && !Excused(t, types, t[k]))
                || (Digest in vfylevel && Digested(was, types) != Needed(was, types, vfylevel))
      ensures Signature in vfylevel && Signature !in failed ==> forall r: Part :: VouchedFor(old(sigs), types, r)
      // at every level a checked signature that is wrong or whose key is missing fails, and one that is not trusted does not
      ensures (exists s :: s in old(sigs) && s.typ == Signature && Signature in types && s.ctx && (s.verdict == Fail || s.verdict == NoKey)) ==> Signature in failed
      ensures Signed(old(sigs), types) == Needed(old(sigs), types, vfylevel) && (forall s :: s in old(sigs) && s.typ == Signature ==> Passable(s, types)) ==>
                Signature !in failed
    {
      hide Sorted, Digested, Signed, Needed, HeaderSigned, TableOk;
      var sorted := SortTable(sigs);
      SameCoverage(sigs, sorted, types, vfylevel);
      sigs := sorted;
      t := sigs;
      var digested, signed, range := Check(types);
      var level := if signed != {} then vfylevel + {Signature} else vfylevel;
      failed := CollectFailed(types, t);
      if Digest in level && digested != range { failed := failed + {Digest}; }
      if Signature in level && signed != range { failed := failed + {Signature}; }
      if Signature in vfylevel && signed == range { FullySigned(old(sigs), types, vfylevel); }
      VerdictsMean(old(sigs), t, types);
    }

    /** Second loop: bad entries fail their type, but a bad digest is ignored if its
        alternative is good. */
    method CollectFailed(types: set<Type>, ghost t: seq<Sinfo>) returns (failed: set<Type>)
      requires |sigs| == |t| && forall i :: 0 <= i < |t| ==> sigs[i] == Checked(t[i], types, HeaderSigned(t, types))
      modifies this`sigs
      ensures Signature in failed <==> exists k :: 0 <= k < |t| && t[k].typ == Signature && Broken(Outcome(t[k], types))
      ensures Digest in failed <==> exists k :: 0 <= k < |t| && t[k].typ == Digest && Broken(Outcome(t[k], types)) && !Excused(t, types, t[k])
    {
      hide HeaderSigned, Alternative;
      failed := {};
      var i := 0;
      while i < |sigs|
        invariant 0 <= i <= |sigs| == |t|
        invariant forall k :: 0 <= k < |t| ==> Similar(sigs[k], t[k], types)
        invariant forall k :: i <= k < |t| ==> sigs[k].rc == Outcome(t[k], types)
        invariant Signature in failed <==> exists k :: 0 <= k < i && t[k].typ == Signature && Broken(Outcome(t[k], types))
        invariant Digest in failed <==> exists k :: 0 <= k < i && t[k].typ == Digest && Broken(Outcome(t[k], types)) && !Excused(t, types, t[k])
      {
        var s := sigs[i];
        if s.typ == Digest && s.rc == Fail {
          var alt := GetAlt(s);
          AltSimilar(sigs, t, types, s, t[i], |t|);
          if alt.Some? && alt.value.rc == OK { s := s.(rc := NotFound); }
        }
        sigs := sigs[i := s];
        if s.rc == Fail || s.rc == NoKey { failed := failed + {s.typ}; }
        i := i + 1;
      }
    }
  }

  lemma NothingYet(t: seq<Sinfo>, types: set<Type>)
    ensures forall r: Part :: !VouchedIn(t, types, 0, r) && !DigestIn(t, types, 0, r) && !AskedIn(t, types, 0, r)
    ensures forall r: Part :: r in ALL
  {
    forall r: Part ensures r in ALL { assert r == Header || r == Payload; }
  }
}
