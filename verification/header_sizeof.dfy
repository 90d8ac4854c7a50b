/** headerSizeof against headerExport (lib/header.cc). */
module HeaderSizeof {
  import opened Common
  import opened HeaderBytes
  import opened HeaderBlob
  import opened HeaderSwab
  import opened HeaderPieces
  import opened HeaderStore
  import opened HeaderImport
  import opened HeaderDrips
  import opened HeaderOrigin
  import opened HeaderExport
  import opened HeaderChanges
  import opened HeaderImmutable

  /** Tags of packages: region tags, or at least the first legal tag. */
  ghost predicate LegalTags(index: seq<Entry>) {
    forall e :: e in index ==> IsRegionTag(e.tag) || e.tag >= I18NTABLE
  }

  /** The drips of an index in its order. */
  ghost function DripsIn(index: seq<Entry>): (es: seq<Entry>)
  {
    if index == [] then []
    else
      var init, e := DripsIn(index[..|index| - 1]), index[|index| - 1];
      if e.offset < 0 then init else init + [e]
  }

  /** Size of the region on disk. */
  ghost function RegionSize(o: Origin): nat
    requires OriginOk(o)
  {
    INFO * RegionLen(o) + |RegionData(o)|
  }

  /** Bytes of a header with the given drips, without magic. */
  ghost function SizeOf(o: Origin, es: seq<Entry>): nat
    requires OriginOk(o)
  {
    8 + INFO * ExportIl(o, es) + ExportDl(o, es)
  }

  lemma {:induction false} DripsInAre(index: seq<Entry>, region: Entry)
    requires (forall e :: e in index ==> Sort3(e, region)) && region.offset < 0
    ensures AllDrips(DripsIn(index)) && forall e :: e in DripsIn(index) ==> e in index
    ensures ByTag(index) ==> ByTag(DripsIn(index))
    decreases |index|
  {
    hide DataShape;
    if index != [] {
      var n := |index| - 1;
      DripsInAre(index[..n], region);
      assert index[n] in index && forall e :: e in index[..n] ==> e in index;
      var init := DripsIn(index[..n]);
      if ByTag(index) {
        forall e | e in init ensures e.tag <= index[n].tag {
          assert e in index[..n];
          var k :| 0 <= k < n && index[k] == e;
        }
      }
    }
  }

  lemma SizeStep(o: Origin, es: seq<Entry>, e: Entry)
    requires OriginOk(o)
    ensures var s := SizeOf(o, es); SizeOf(o, es + [e]) == s + AlignDiff(e.kind, s) + INFO + e.length
  {
    hide OriginOk, RegionData, AlignDiff, SumTo, Laid;
    var at, s := |RegionData(o)|, SizeOf(o, es);
    assert (es + [e])[..|es|] == es;
    SumLaid(at, es + [e]);
    AlignShift(e.kind, ExportDl(o, es), 1 + 2 * ExportIl(o, es));
  }

  lemma SizeNone(o: Origin)
    requires OriginOk(o)
    ensures SizeOf(o, []) == 8 + RegionSize(o) && (o.NoRegion? ==> RegionSize(o) == 0)
  {
    hide OriginOk;
    NoDrips(|RegionData(o)|);
  }

  lemma RegionLength(o: Origin)
    requires o.Origin? && OriginOk(o)
    ensures RegionSize(o) == RegionOf(o).length + if o.blob.regionTag == 0 then INFO + RegionOf(o).count else 0
  {
    hide OriginOk, RegionData, RegionOf, SumTo, Members, Loadable;
    OriginLoaded(o);
    RegionSizes(o);
    RegionFacts(o);
  }

  /** The index has its region entry first, if any, and no other. */
  ghost predicate Fronted(index: seq<Entry>, legacy: bool, o: Origin)
    requires OriginOk(o)
  {
    if o.NoRegion? then forall i :: 0 <= i < |index| ==> !IsRegionTag(index[i].tag) && index[i].offset == 0
    else
      && |index| > 0 && index[0] == RegionOf(o) && RegionOf(o).offset < 0 && IsRegionTag(RegionOf(o).tag)
      && (legacy <==> o.blob.regionTag == 0)
      && forall i :: 0 < i < |index| ==> !IsRegionTag(index[i].tag)
  }

  /** The loop of headerSizeof. */
  method CountBytes(index: seq<Entry>, legacy: bool, start: nat, ghost o: Origin) returns (size: nat)
    requires OriginOk(o) && Fronted(index, legacy, o) && start % 8 == 0
    ensures size == start + SizeOf(o, DripsIn(index)) - 8
  {
    hide OriginOk, SizeOf, RegionSize, AlignDiff, RegionOf;
    size := start;
    SizeNone(o);
    var i := 0;
    while i < |index|
      invariant 0 <= i <= |index|
      invariant size == if i == 0 then start else start + SizeOf(o, DripsIn(index[..i])) - 8
    {
      var e := index[i];
      assert index[..i + 1][..i] == index[..i];
      assert index[..0] == [];
      if IsRegionTag(e.tag) {
        RegionLength(o);
        size := size + e.length;
        if i == 0 && legacy { size := size + INFO + e.count; }
      } else if e.offset >= 0 {
        SizeStep(o, DripsIn(index[..i]), e);
        SizeShift(e.kind, start, size, SizeOf(o, DripsIn(index[..i])));
        size := size + AlignDiff(e.kind, size);
        size := size + INFO + e.length;
      }
      i := i + 1;
    }
    assert index[..i] == index;
  }

  lemma SizeShift(kind: nat, start: nat, size: nat, s: nat)
    requires start % 8 == 0 && size + 8 == start + s
    ensures AlignDiff(kind, size) == AlignDiff(kind, s)
  {
    if start >= 8 { AlignShift(kind, s, start / 8 - 1); } else { AlignShift(kind, size, 1); }
  }

  /** The size counted in the order of the tags. */
  method HeaderSizeof(h: Header, magic: bool, ghost o: Origin) returns (size: nat)
    requires h.Valid() && Kept(h.index, h.blob[..], h.legacy, o) && LegalTags(h.index)
    modifies h`index, h`sorted
    ensures h.Valid() && multiset(h.index) == multiset(old(h.index)) && ByTag(h.index)
    ensures OriginOk(o) && size == SizeOf(o, DripsIn(h.index)) + if magic then 8 else 0
  {
    hide OriginOk, SwabbedData, EntriesIn, SizeOf;
    h.HeaderSort();
    RegionAtFront(old(h.index), h.index, h.blob[..], h.legacy, o);
    size := CountBytes(h.index, h.legacy, if magic then 16 else 8, o);
  }

  /** In tag order, too, the region entry comes first, and it is the only one. */
  lemma RegionAtFront(was: seq<Entry>, index: seq<Entry>, blob: Bytes, legacy: bool, o: Origin)
    requires Kept(was, blob, legacy, o) && multiset(was) == multiset(index) && ByTag(index) && LegalTags(was)
    ensures OriginOk(o) && Fronted(index, legacy, o)
  {
    hide OriginOk, SwabbedData, RegionOf, DataShape;
    SamePlace(was, index);
    if o.NoRegion? {
      forall i | 0 <= i < |index| ensures !IsRegionTag(index[i].tag) && index[i].offset == 0 { assert index[i] in index; }
    } else {
      RegionFacts(o);
      OriginLoaded(o);
      LowestFirst(index, RegionOf(o));
    }
  }

  lemma LowestFirst(index: seq<Entry>, region: Entry)
    requires multiset(index)[region] == 1 && IsRegionTag(region.tag) && ByTag(index) && LegalTags(index)
    requires forall e :: e in index ==> Sort3(e, region)
    ensures |index| > 0 && index[0] == region && forall i :: 0 < i < |index| ==> !IsRegionTag(index[i].tag)
  {
    hide DataShape;
    assert region in multiset(index);
    var r :| 0 <= r < |index| && index[r] == region;
    assert index[0] in index && index[0].tag <= index[r].tag;
    OnlyFirst(index, region);
    forall i | 0 < i < |index| ensures !IsRegionTag(index[i].tag) { assert index[i] in index; }
  }

  /* ---- The two agree ---- */

  ghost predicate DistinctTags(es: seq<Entry>) {
    forall i, j :: 0 <= i < j < |es| ==> es[i].tag != es[j].tag
  }

  lemma {:induction false} DripCount(index: seq<Entry>, e: Entry)
    ensures multiset(DripsIn(index))[e] == if e.offset < 0 then 0 else multiset(index)[e]
    decreases |index|
  {
    if index != [] {
      var n := |index| - 1;
      DripCount(index[..n], e);
      assert index == index[..n] + [index[n]];
    }
  }

  /** Sorted by distinct tags, the same entries are in the same order. */
  lemma {:induction false} OneOrder(a: seq<Entry>, b: seq<Entry>)
    requires multiset(a) == multiset(b) && ByTag(a) && ByTag(b) && DistinctTags(a)
    ensures a == b
    decreases |a|
  {
    hide ByTag, DistinctTags;
    SamePlace(a, b);
    if a != [] {
      var n := |a| - 1;
      LastSame(a, b);
      WithoutLast(a);
      WithoutLast(b);
      PrefixSorted(a);
      PrefixSorted(b);
      OneOrder(a[..n], b[..n]);
      assert a == a[..n] + [a[n]] && b == b[..n] + [b[n]];
    }
  }

  lemma PrefixSorted(a: seq<Entry>)
    requires a != [] && ByTag(a)
    ensures ByTag(a[..|a| - 1]) && (DistinctTags(a) ==> DistinctTags(a[..|a| - 1]))
  {
  }

  lemma LastSame(a: seq<Entry>, b: seq<Entry>)
    requires |a| == |b| > 0 && (forall e :: e in a <==> e in b) && ByTag(a) && ByTag(b) && DistinctTags(a)
    ensures a[|a| - 1] == b[|a| - 1]
  {
    var n := |a| - 1;
    assert a[n] in b && b[n] in a;
    var i :| 0 <= i <= n && b[i] == a[n];
    var j :| 0 <= j <= n && a[j] == b[n];
    assert a[j].tag <= a[n].tag && b[i].tag <= b[n].tag;
  }

  lemma WithoutLast(a: seq<Entry>)
    requires a != []
    ensures multiset(a[..|a| - 1]) == multiset(a) - multiset{a[|a| - 1]}
  {
    assert a == a[..|a| - 1] + [a[|a| - 1]];
  }

  lemma SameDrips(index: seq<Entry>, rest: seq<Entry>, es: seq<Entry>, region: Entry)
    requires multiset(index) == multiset(rest) + multiset(es) && AllDrips(es) && forall e :: e in rest ==> e.offset < 0
    requires ByTag(index) && ByTag(es) && DistinctTags(es) && region.offset < 0 && forall e :: e in index ==> Sort3(e, region)
    ensures DripsIn(index) == es
  {
    hide DataShape, DripsIn;
    forall e ensures multiset(DripsIn(index))[e] == multiset(es)[e] {
      DripCount(index, e);
      assert (multiset(rest) + multiset(es))[e] == multiset(rest)[e] + multiset(es)[e];
      if e.offset < 0 { NotADrip(es, e); } else { assert e !in rest; }
    }
    assert multiset(DripsIn(index)) == multiset(es);
    DripsInAre(index, region);
    OneOrder(es, DripsIn(index));
  }

  lemma NotADrip(es: seq<Entry>, e: Entry)
    requires AllDrips(es) && e.offset < 0
    ensures e !in es && multiset(es)[e] == 0
  {
    assert forall k :: 0 <= k < |es| ==> IsDrip(es[k]);
    hide DataShape;
  }

  /** headerSizeof is the length headerExport writes. */
  method SizeAndExport(h: Header, ghost o: Origin) returns (size: nat, out: Option<Bytes>)
    requires h.Valid() && Kept(h.index, h.blob[..], h.legacy, o) && LegalTags(h.index)
    requires OneEach(h.index)
    modifies h`index, h`sorted
    ensures out.Some? ==> |out.value| == size
  {
    hide Kept, OriginOk, LegalTags, SizeOf, EntriesIn, ByTag, AllDrips, RegionPart, Exported, ExportDl, DripsIn, DistinctTags;
    ghost var index := h.index;
    size := HeaderSizeof(h, false, o);
    KeptSame(index, h.index, h.blob[..], h.legacy, o);
    ghost var es, rest;
    out, es, rest := DoExport(h.index, h.blob, h.legacy, o);
    ExportedSame(index, h.index, h.blob[..], h.legacy, o, rest, es);
    if out.Some? { ExportedSize(o, es); }
  }

  lemma ExportedSize(o: Origin, es: seq<Entry>)
    requires OriginOk(o) && AllDrips(es) && ExportIl(o, es) <= TAGS_MAX
    ensures |Exported(o, es)| == SizeOf(o, es)
  {
    hide OriginOk, AllDrips, RegionData, RegionIndex, IndexBytes, DripBytes, Laid, SumTo, Exported, ExportDl;
    ExportedParts(o, es);
  }

  lemma ExportedSame(was: seq<Entry>, index: seq<Entry>, blob: Bytes, legacy: bool, o: Origin, rest: seq<Entry>, es: seq<Entry>)
    requires Kept(index, blob, legacy, o) && multiset(was) == multiset(index) && ByTag(index) && ByTag(es) && OriginOk(o)
    requires OneEach(was)
    requires multiset(index) == multiset(rest) + multiset(es) && AllDrips(es) && RegionPart(rest, o)
    ensures DripsIn(index) == es
  {
    hide OriginOk, SwabbedData, RegionOf, IsDrip, MemberOf, ByTag, DripsIn, RegionPart, OneEach;
    DistinctDrips(was, rest, es);
    if o.Origin? {
      RegionFacts(o);
      OriginLoaded(o);
      RestBelow(rest, o);
      SameDrips(index, rest, es, RegionOf(o));
    } else {
      RestBelow(rest, o);
      SameDrips(index, rest, es, Entry(IMAGE, BIN_TYPE, -16, 0, Null, 0, 0));
    }
  }

  lemma RestBelow(rest: seq<Entry>, o: Origin)
    requires OriginOk(o) && RegionPart(rest, o)
    ensures forall e :: e in rest ==> e.offset < 0
  {
    hide OriginOk, RegionOf, Loadable, MemberOf;
    if o.Origin? {
      RegionFacts(o);
      OriginLoaded(o);
      forall k | 1 <= k < |rest| ensures rest[k].offset < 0 { MemberBelow(rest[k], RegionOf(o)); }
    }
  }

  lemma MemberBelow(e: Entry, region: Entry)
    requires MemberOf(e, region)
    ensures e.offset == region.offset
  {
  }

  /** No tag was put twice. */
  ghost predicate OneEach(index: seq<Entry>) {
    && (forall e :: e in index && e.offset >= 0 ==> multiset(index)[e] == 1)
    && (forall e, f :: e in index && f in index && e.offset >= 0 && f.offset >= 0 && e.tag == f.tag ==> e == f)
  }

  lemma DistinctDrips(was: seq<Entry>, rest: seq<Entry>, es: seq<Entry>)
    requires multiset(was) == multiset(rest) + multiset(es) && AllDrips(es) && OneEach(was)
    ensures DistinctTags(es)
  {
    hide DataShape;
    forall i, j | 0 <= i < j < |es| ensures es[i].tag != es[j].tag {
      assert IsDrip(es[i]) && IsDrip(es[j]);
      InBoth(was, rest, es, es[i]);
      InBoth(was, rest, es, es[j]);
      TwoPlaces(es, i, j);
    }
  }

  lemma InBoth(was: seq<Entry>, rest: seq<Entry>, es: seq<Entry>, e: Entry)
    requires multiset(was) == multiset(rest) + multiset(es) && e in es
    ensures e in was && multiset(es)[e] <= multiset(was)[e]
  {
    assert e in multiset(es) && e in multiset(was);
  }

  lemma TwoPlaces(es: seq<Entry>, i: nat, j: nat)
    requires i < j < |es|
    ensures es[i] == es[j] ==> multiset(es)[es[i]] >= 2
  {
    assert es == es[..j] + es[j..];
    assert es[..j][i] == es[i] && es[j..][0] == es[j];
    assert es[i] in multiset(es[..j]) && es[j] in multiset(es[j..]);
    assert multiset(es) == multiset(es[..j]) + multiset(es[j..]);
  }
}
