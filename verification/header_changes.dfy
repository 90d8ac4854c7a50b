/** Any sequence of changes to a header keeps its region (lib/header.cc). */
module HeaderChanges {
  import opened Common
  import opened HeaderBytes
  import opened HeaderBlob
  import opened HeaderSwab
  import opened HeaderPieces
  import opened HeaderStore
  import opened HeaderImport
  import opened HeaderDrips
  import opened HeaderOrigin

  datatype Op = Put(td: Td, append: bool) | Mod(td: Td) | Del(tag: nat)

  function OpTag(op: Op): nat { if op.Del? then op.tag else op.td.tag }

  /** A change to an ordinary tag; a value to append says its type. */
  ghost predicate OpOk(op: Op) {
    && !IsRegionTag(OpTag(op)) && OpTag(op) < TAG_END
    && (!op.Del? ==> TdOk(op.td)) && (op.Put? && op.append ==> op.td.kind != 0)
  }

  /** Bytes a change brings in. */
  ghost function OpSize(op: Op): nat
    requires OpOk(op)
  {
    if op.Del? || TdBytes(op.td).None? then 0 else |TdBytes(op.td).value|
  }

  ghost predicate OpsOk(ops: seq<Op>) { forall i :: 0 <= i < |ops| ==> OpOk(ops[i]) }

  ghost function OpsSize(ops: seq<Op>): nat
    requires OpsOk(ops)
  {
    if ops == [] then 0 else OpsSize(ops[..|ops| - 1]) + OpSize(ops[|ops| - 1])
  }

  ghost predicate Below(index: seq<Entry>, n: nat) {
    forall e :: e in index ==> e.length <= n
  }

  /* ---- One change ---- */

  lemma KeptSame(s: seq<Entry>, t: seq<Entry>, blob: Bytes, legacy: bool, o: Origin)
    requires Kept(s, blob, legacy, o) && multiset(s) == multiset(t)
    ensures Kept(t, blob, legacy, o)
  {
    hide OriginOk, SwabbedData, RegionOf, IsDrip, MemberOf;
    SamePlace(s, t);
  }

  lemma KeptMore(s: seq<Entry>, t: seq<Entry>, e: Entry, blob: Bytes, legacy: bool, o: Origin)
    requires Kept(s, blob, legacy, o) && multiset(t) == multiset(s) + multiset{e} && IsDrip(e)
    ensures Kept(t, blob, legacy, o)
  {
    hide OriginOk, SwabbedData, RegionOf, DataShape;
    forall x | x in t ensures x in s || x == e { assert x in multiset(t); }
    if o.Origin? { RegionFacts(o); }
  }

  lemma KeptReplaced(s: seq<Entry>, t: seq<Entry>, was: Entry, now: Entry, blob: Bytes, legacy: bool, o: Origin)
    requires Kept(s, blob, legacy, o) && was in s && multiset(t) == multiset(s) - multiset{was} + multiset{now}
    requires !IsRegionTag(was.tag) && IsDrip(now)
    ensures Kept(t, blob, legacy, o)
  {
    hide OriginOk, SwabbedData, RegionOf, DataShape;
    forall x | x in t ensures x in s || x == now { assert x in multiset(t); }
    if o.Origin? { RegionFacts(o); }
  }

  lemma KeptFewer(s: seq<Entry>, t: seq<Entry>, gone: seq<Entry>, tag: nat, blob: Bytes, legacy: bool, o: Origin)
    requires Kept(s, blob, legacy, o) && multiset(t) + multiset(gone) == multiset(s)
    requires !IsRegionTag(tag) && forall e :: e in gone ==> e.tag == tag
    ensures Kept(t, blob, legacy, o)
  {
    hide OriginOk, SwabbedData, RegionOf, IsDrip, MemberOf;
    forall x | x in t ensures x in s {
      assert x in multiset(t) && (multiset(t) + multiset(gone))[x] >= multiset(t)[x];
      assert x in multiset(s);
    }
    if o.Origin? {
      RegionFacts(o);
      OriginLoaded(o);
      assert RegionOf(o) !in multiset(gone);
    }
  }

  /** An entry with the tag of a change is a member or a drip. */
  lemma OrdinaryEntry(s: seq<Entry>, blob: Bytes, legacy: bool, o: Origin, e: Entry)
    requires Kept(s, blob, legacy, o) && e in s && !IsRegionTag(e.tag)
    ensures DataShape(e) && e.offset <= 0 && e.tag < TAG_END && e.length > 0
  {
    hide OriginOk, SwabbedData, RegionOf;
    if o.Origin? { RegionFacts(o); }
  }

  lemma AddedDrip(td: Td)
    requires TdOk(td) && Addable(td) && !IsRegionTag(td.tag)
    ensures IsDrip(Drip(td, TdBytes(td).value))
  {
    ValueShape(td);
  }

  lemma ValueShape(td: Td)
    requires TdOk(td) && TypeOk(td.kind) && TdBytes(td).Some?
    ensures var n := |TdBytes(td).value|; n % Width(td.kind) == 0 && (Width(td.kind) > 1 ==> n == Width(td.kind) * td.count)
  {
    hide Terminated;
    if !IsString(td.kind) { UnitsOf(Width(td.kind), td.count); }
  }

  lemma UnitsOf(w: nat, n: nat)
    requires IsWidth(w)
    ensures w * n % w == 0
  {
    if w == 1 {
    } else if w == 2 {
      assert w * n == 2 * n;
    } else if w == 4 {
      assert w * n == 4 * n;
    } else {
      assert w * n == 8 * n;
    }
  }

  lemma ModifiedDrip(e: Entry, td: Td)
    requires TdOk(td) && TypeOk(td.kind) && TdBytes(td).Some? && TdBytes(td).value != []
    requires e.tag == td.tag && !IsRegionTag(td.tag) && e.offset <= 0
    ensures IsDrip(Modified(e, td, TdBytes(td).value))
  {
    hide TdBytes;
    ValueShape(td);
  }

  lemma AppendedDrip(e: Entry, td: Td, blob: Bytes)
    requires TdOk(td) && TypeOk(td.kind) && TdBytes(td).Some? && DataIn(e, |blob|) && e.kind == td.kind && e.length > 0
    requires e.tag == td.tag && !IsRegionTag(td.tag) && e.offset <= 0 && DataShape(e) && e.length + |TdBytes(td).value| < WORD
    ensures IsDrip(Appended(e, td, TdBytes(td).value, blob))
  {
    hide TdBytes, DataOf;
    ValueShape(td);
    SumUnits(Width(e.kind), e.length, |TdBytes(td).value|);
    if Width(e.kind) > 1 {
      assert e.length + |TdBytes(td).value| == Width(e.kind) * (e.count + td.count);
      assert e.count + td.count <= e.length + |TdBytes(td).value|;
    }
  }

  lemma ShapeType(e: Entry)
    requires DataShape(e)
    ensures TypeOk(e.kind)
  {
  }

  lemma SumUnits(w: nat, a: nat, b: nat)
    requires IsWidth(w) && a % w == 0 && b % w == 0
    ensures (a + b) % w == 0
  {
    if w == 1 { } else if w == 2 { } else if w == 4 { } else { }
  }

  /* ---- Runs ---- */

  lemma BelowSame(s: seq<Entry>, t: seq<Entry>, n: nat)
    requires multiset(s) == multiset(t) && Below(s, n)
    ensures Below(t, n)
  {
    SamePlace(s, t);
  }

  lemma BelowMore(s: seq<Entry>, t: seq<Entry>, e: Entry, n: nat, m: nat)
    requires multiset(t) <= multiset(s) + multiset{e} && Below(s, n) && n <= m && e.length <= m
    ensures Below(t, m)
  {
    forall x | x in t ensures x in s || x == e {
      assert x in multiset(t);
      assert (multiset(s) + multiset{e})[x] >= multiset(t)[x] > 0;
    }
  }

  method ApplyPut(h: Header, op: Op, ghost o: Origin, ghost n: nat)
    requires h.Valid() && OpOk(op) && op.Put? && Kept(h.index, h.blob[..], h.legacy, o) && Below(h.index, n) && n + OpSize(op) < WORD
    modifies h`index, h`sorted
    ensures h.Valid() && Kept(h.index, h.blob[..], h.legacy, o) && Below(h.index, n + OpSize(op))
  {
    hide Kept, IsDrip, TdBytes, DataShape, ByTag, EntriesIn, Below, Appended;
    ghost var s, b := h.index, h.blob[..];
    var ok, appended;
    ghost var was, now;
    ok, appended, was, now := h.HeaderPut(op.td, op.append);
    if !ok {
      SameIndex(s, h.index, b, h.legacy, o, n, op);
    } else if appended {
      OrdinaryEntry(s, b, h.legacy, o, was);
      assert TypeOk(was.kind) by { ShapeType(was); }
      BelowAt(s, n, was);
      AppendedDrip(was, op.td, b);
      KeptReplaced(s, h.index, was, now, b, h.legacy, o);
      AppendedLength(was, op.td, b);
      BelowMore(s, h.index, now, n, n + OpSize(op));
    } else {
      ghost var e := Drip(op.td, TdBytes(op.td).value);
      AddedDrip(op.td);
      KeptMore(s, h.index, e, b, h.legacy, o);
      BelowMore(s, h.index, e, n, n + OpSize(op));
    }
  }

  lemma AppendedLength(e: Entry, td: Td, blob: Bytes)
    requires TdOk(td) && TdBytes(td).Some? && DataIn(e, |blob|)
    ensures Appended(e, td, TdBytes(td).value, blob).length == e.length + |TdBytes(td).value|
  {
  }

  method ApplyMod(h: Header, op: Op, ghost o: Origin, ghost n: nat)
    requires h.Valid() && OpOk(op) && op.Mod? && Kept(h.index, h.blob[..], h.legacy, o) && Below(h.index, n) && n + OpSize(op) < WORD
    modifies h`index, h`sorted
    ensures h.Valid() && Kept(h.index, h.blob[..], h.legacy, o) && Below(h.index, n + OpSize(op))
  {
    hide Kept, IsDrip, TdBytes, DataShape, ByTag, EntriesIn, Below;
    ghost var s, b := h.index, h.blob[..];
    var ok;
    ghost var was, now;
    ok, was, now := h.HeaderMod(op.td);
    if !ok {
      SameIndex(s, h.index, b, h.legacy, o, n, op);
    } else {
      OrdinaryEntry(s, b, h.legacy, o, was);
      ModifiedDrip(was, op.td);
      KeptReplaced(s, h.index, was, now, b, h.legacy, o);
      BelowMore(s, h.index, now, n, n + OpSize(op));
    }
  }

  /** Carry out one change. */
  method Apply(h: Header, op: Op, ghost o: Origin, ghost n: nat)
    requires h.Valid() && OpOk(op) && Kept(h.index, h.blob[..], h.legacy, o) && Below(h.index, n) && n + OpSize(op) < WORD
    modifies h`index, h`sorted
    ensures h.Valid() && Kept(h.index, h.blob[..], h.legacy, o) && Below(h.index, n + OpSize(op))
  {
    hide Kept, Below, ByTag, EntriesIn;
    match op
    case Put(_, _) => ApplyPut(h, op, o, n);
    case Mod(_) => ApplyMod(h, op, o, n);
    case Del(tag) =>
      ghost var s := h.index;
      var rc;
      ghost var gone;
      rc, gone := h.HeaderDel(tag);
      KeptFewer(s, h.index, gone, tag, h.blob[..], h.legacy, o);
      BelowFewer(s, h.index, gone, n);
  }

  lemma SameIndex(s: seq<Entry>, t: seq<Entry>, blob: Bytes, legacy: bool, o: Origin, n: nat, op: Op)
    requires Kept(s, blob, legacy, o) && multiset(s) == multiset(t) && Below(s, n) && OpOk(op)
    ensures Kept(t, blob, legacy, o) && Below(t, n + OpSize(op))
  {
    hide Kept, OpSize;
    KeptSame(s, t, blob, legacy, o);
    BelowSame(s, t, n);
  }

  lemma BelowAt(s: seq<Entry>, n: nat, e: Entry)
    requires Below(s, n) && e in s
    ensures e.length <= n
  {
  }

  lemma BelowFewer(s: seq<Entry>, t: seq<Entry>, gone: seq<Entry>, n: nat)
    requires multiset(t) + multiset(gone) == multiset(s) && Below(s, n)
    ensures Below(t, n)
  {
    forall x | x in t ensures x in s {
      assert x in multiset(t) && (multiset(t) + multiset(gone))[x] >= multiset(t)[x];
      assert x in multiset(s);
    }
  }

  /** Carry out any number of changes. */
  method Run(h: Header, ops: seq<Op>, ghost o: Origin, ghost n: nat)
    requires h.Valid() && OpsOk(ops) && Kept(h.index, h.blob[..], h.legacy, o) && Below(h.index, n) && n + OpsSize(ops) < WORD
    modifies h`index, h`sorted
    ensures h.Valid() && Kept(h.index, h.blob[..], h.legacy, o)
  {
    hide Kept, Below, OpSize, OpOk, ByTag, EntriesIn;
    var i := 0;
    assert ops[..0] == [];
    while i < |ops|
      invariant 0 <= i <= |ops| && h.Valid() && OpsOk(ops[..i])
      invariant Kept(h.index, h.blob[..], h.legacy, o) && Below(h.index, n + OpsSize(ops[..i]))
    {
      SizeSoFar(ops, i);
      Apply(h, ops[i], o, n + OpsSize(ops[..i]));
      i := i + 1;
    }
  }

  lemma SizeSoFar(ops: seq<Op>, i: nat)
    requires OpsOk(ops) && i < |ops|
    ensures OpsOk(ops[..i]) && OpsOk(ops[..i + 1]) && OpOk(ops[i])
    ensures OpsSize(ops[..i + 1]) == OpsSize(ops[..i]) + OpSize(ops[i]) <= OpsSize(ops)
  {
    hide OpOk, OpSize;
    assert ops[..i + 1][..i] == ops[..i];
    SizeUp(ops, i + 1);
  }

  lemma {:induction false} SizeUp(ops: seq<Op>, k: nat)
    requires OpsOk(ops) && k <= |ops|
    ensures OpsOk(ops[..k]) && OpsSize(ops[..k]) <= OpsSize(ops)
    decreases |ops|
  {
    hide OpOk, OpSize;
    if k == |ops| {
      assert ops[..k] == ops;
    } else {
      SizeUp(ops[..|ops| - 1], k);
      assert ops[..|ops| - 1][..k] == ops[..k];
    }
  }
}
