/** Writing a header out (doExport and headerSizeof, lib/header.cc). */
module HeaderExport {
  import opened Common
  import opened HeaderBytes
  import opened HeaderBlob
  import opened HeaderSwab
  import opened HeaderPieces
  import opened HeaderStore
  import opened HeaderImport
  import opened HeaderDrips
  import opened HeaderOrigin

  /* ---- The region ---- */

  ghost function Trailer(o: Origin): Bytes
    requires o.Origin? && OriginOk(o)
  {
    RegionFacts(o);
    if o.blob.regionTag != 0 then o.bytes[DataStart(o.blob.il) + SumTo(0, Members(o))..] else InfoBytes(NewTrailer(o))
  }

  /** What is in the way of the data is not changed by loading. */
  lemma LoadedBytes(o: Origin, c: Bytes)
    requires o.Origin? && OriginOk(o) && SwabbedData(c, o.bytes, o.blob)
    ensures |c| == |o.bytes| && AllFit(Members(o), DataStart(o.blob.il), |o.bytes|)
    ensures c == Swabbed(o.bytes, DataStart(o.blob.il), Members(o))
    ensures forall y :: 0 <= y < |c| && (y < DataStart(o.blob.il) || y >= DataStart(o.blob.il) + SumTo(0, Members(o))) ==> c[y] == o.bytes[y]
  {
    OriginLoaded(o);
    hide SumTo, OriginOk, Loadable, Swabbed, AllFit, Members;
    var ps, ds, n := Members(o), DataStart(o.blob.il), SumTo(0, Members(o));
    assert AllFit(ps, ds, |o.bytes|) && c == Swabbed(o.bytes, ds, ps) by { MembersIs(o, c); }
    forall y | 0 <= y < |c| && (y < ds || y >= ds + n) ensures c[y] == o.bytes[y] {
      forall k | 0 <= k < |ps| ensures !Inside(ps[k], ds, y) { MemberFacts(o, k); }
      SwabbedOut(o.bytes, ds, ps, y);
    }
  }

  lemma MembersIs(o: Origin, c: Bytes)
    requires o.Origin? && OriginOk(o) && SwabbedData(c, o.bytes, o.blob)
    ensures AllFit(Members(o), DataStart(o.blob.il), |o.bytes|) && c == Swabbed(o.bytes, DataStart(o.blob.il), Members(o))
  {
  }

  /** The index entry of the region, the rest of its index, and its data. */
  method CopyParts(buf: array<byte>, dc: nat, head: Bytes, rest: Bytes, data: Bytes)
    requires |head| == INFO && 24 + |rest| <= dc && dc + |data| <= buf.Length
    modifies buf
    ensures buf[8..24] == head && buf[24..24 + |rest|] == rest && buf[dc..dc + |data|] == data
    ensures forall k :: 0 <= k < buf.Length && !(8 <= k < 24 + |rest|) && !(dc <= k < dc + |data|) ==> buf[k] == old(buf[k])
  {
    Write(buf, 24, rest);
    Write(buf, dc, data);
    Write(buf, 8, head);
    assert buf[24..24 + |rest|] == rest;
    assert buf[dc..dc + |data|] == data;
  }

  /** Copy an exact region: its index and its data, trailer included. */
  method CopyExact(buf: array<byte>, blob: array<byte>, region: Entry, dc: nat, ghost o: Origin)
    requires o.Origin? && OriginOk(o) && o.blob.regionTag != 0 && region == RegionOf(o)
    requires SwabbedData(blob[..], o.bytes, o.blob) && buf != blob
    requires 8 + INFO * RegionLen(o) <= dc && dc + |RegionData(o)| <= buf.Length
    modifies buf
    ensures Copied(o, buf[..], dc) && CopiedTrailer(o, buf[..], dc)
    ensures forall k :: 0 <= k < buf.Length && !(8 <= k < 8 + INFO * RegionLen(o)) && !(dc <= k < dc + |RegionData(o)|) ==> buf[k] == old(buf[k])
  {
    hide OriginOk, Loadable, SumTo, Members, Swabbed, AllFit, InfoBytes, InfoAt, RegionData, RegionOf, SwabbedData, RegionHead,
         Copied, CopiedTrailer;
    OriginLoaded(o);
    RegionSizes(o);
    RegionFacts(o);
    LoadedBytes(o, blob[..]);
    ExactHead(o, blob[..]);
    var rdl, rdlen := -region.offset, region.rdlen;
    var off := InfoAt(blob[..], 8).offset;
    var head := Info(region.tag, region.kind, if off != 0 then rdlen else off, region.count);
    CopyParts(buf, dc, InfoBytes(head), blob[24..8 + rdl], blob[8 + rdl..8 + rdl + rdlen + region.count]);
    ExactCopied(o, blob[..], buf[..], dc);
  }

  lemma ExactCopied(o: Origin, w: Bytes, c: Bytes, dc: nat)
    requires o.Origin? && OriginOk(o) && o.blob.regionTag != 0 && SwabbedData(w, o.bytes, o.blob)
    requires var ds, n := DataStart(o.blob.il), SumTo(0, Members(o));
             && ds + n + INFO == |w| && 24 <= ds <= dc && dc + n + INFO <= |c|
             && c[8..24] == InfoBytes(RegionHead(o)) && c[24..ds] == w[24..ds] && c[dc..dc + n + INFO] == w[ds..ds + n + INFO]
    ensures Copied(o, c, dc) && CopiedTrailer(o, c, dc)
  {
    hide OriginOk, Loadable, SumTo, Members, Swabbed, AllFit, InfoBytes, InfoAt, RegionOf, SwabbedData, RegionHead;
    OriginLoaded(o);
    LoadedBytes(o, w);
    var ds, n := DataStart(o.blob.il), SumTo(0, Members(o));
    assert w[24..ds] == o.bytes[24..ds];
    SubSlice(c, dc, dc + n + INFO, 0, n);
    SubSlice(c, dc, dc + n + INFO, n, n + INFO);
    SubSlice(w, ds, ds + n + INFO, 0, n);
    SubSlice(w, ds, ds + n + INFO, n, n + INFO);
    assert w[ds + n..ds + n + INFO] == o.bytes[ds + n..ds + n + INFO];
  }

  /** A header that had no region gets one: a first entry and a trailer. */
  method CopyLegacy(buf: array<byte>, blob: array<byte>, region: Entry, dc: nat, ghost o: Origin)
    requires o.Origin? && OriginOk(o) && o.blob.regionTag == 0 && region == RegionOf(o)
    requires SwabbedData(blob[..], o.bytes, o.blob) && buf != blob
    requires 8 + INFO * RegionLen(o) <= dc && dc + |RegionData(o)| <= buf.Length
    modifies buf
    ensures Copied(o, buf[..], dc) && CopiedTrailer(o, buf[..], dc)
    ensures forall k :: 0 <= k < buf.Length && !(8 <= k < 8 + INFO * RegionLen(o)) && !(dc <= k < dc + |RegionData(o)|) ==> buf[k] == old(buf[k])
  {
    hide OriginOk, Loadable, SumTo, Members, Swabbed, AllFit, InfoBytes, InfoAt, RegionData, RegionOf, SwabbedData, RegionHead,
         Copied, CopiedTrailer;
    LegacySizes(o, blob[..]);
    LegacyHead(o);
    var rdl, rdlen := -region.offset, region.rdlen;
    var head := Info(region.tag, region.kind, rdlen, region.count);
    var trailer := Info(region.tag, region.kind, -rdl - region.count, region.count);
    var w := blob[..];
    assert head == RegionHead(o) && trailer == NewTrailer(o);
    hide NewTrailer, RegionLen;
    CopyParts(buf, dc, InfoBytes(head), w[8..8 + rdl], w[8 + rdl..8 + rdl + rdlen] + InfoBytes(trailer));
    LegacyCopied(o, w, buf[..], dc);
  }

  lemma LegacySizes(o: Origin, w: Bytes)
    requires o.Origin? && OriginOk(o) && o.blob.regionTag == 0 && SwabbedData(w, o.bytes, o.blob)
    ensures var r, n := RegionOf(o), SumTo(0, Members(o));
            && r.kind == BIN_TYPE && r.count == INFO && r.rdlen == n && r.offset == -(INFO * o.blob.il)
            && |w| == DataStart(o.blob.il) + n && |RegionData(o)| == n + INFO && RegionLen(o) == o.blob.il + 1
  {
    hide OriginOk, Loadable, SumTo, Members, Swabbed, AllFit, RegionData, RegionOf, SwabbedData;
    OriginLoaded(o);
    RegionSizes(o);
    RegionFacts(o);
    LoadedBytes(o, w);
  }

  lemma LegacyHead(o: Origin)
    requires o.Origin? && OriginOk(o) && o.blob.regionTag == 0
    ensures RegionHead(o) == Info(IMAGE, BIN_TYPE, SumTo(0, Members(o)), INFO) && RegionOf(o).tag == IMAGE
  {
    hide SumTo, PiecesOf, Describes, SmallIn;
  }

  lemma LegacyCopied(o: Origin, w: Bytes, c: Bytes, dc: nat)
    requires o.Origin? && OriginOk(o) && o.blob.regionTag == 0 && SwabbedData(w, o.bytes, o.blob)
    requires var ds, n := DataStart(o.blob.il), SumTo(0, Members(o));
             && ds + n == |w| && ds + INFO <= dc && dc + n + INFO <= |c|
             && c[8..24] == InfoBytes(RegionHead(o)) && c[24..ds + INFO] == w[8..ds]
             && c[dc..dc + n + INFO] == w[ds..ds + n] + InfoBytes(NewTrailer(o))
    ensures Copied(o, c, dc) && CopiedTrailer(o, c, dc)
  {
    hide OriginOk, Loadable, SumTo, Members, Swabbed, AllFit, InfoBytes, InfoAt, RegionOf, SwabbedData, RegionHead;
    OriginLoaded(o);
    LoadedBytes(o, w);
    var ds, n := DataStart(o.blob.il), SumTo(0, Members(o));
    assert w[8..ds] == o.bytes[8..ds];
    SubSlice(c, dc, dc + n + INFO, 0, n);
    SubSlice(c, dc, dc + n + INFO, n, n + INFO);
  }

  ghost predicate CopiedTrailer(o: Origin, c: Bytes, dc: nat)
    requires o.Origin? && OriginOk(o)
  {
    var at := dc + SumTo(0, Members(o));
    at + INFO <= |c| && c[at..at + INFO] == Trailer(o)
  }

  lemma ExactHead(o: Origin, c: Bytes)
    requires o.Origin? && OriginOk(o) && o.blob.regionTag != 0 && |c| == |o.bytes|
    requires forall y :: 0 <= y < DataStart(o.blob.il) <= |c| ==> c[y] == o.bytes[y]
    ensures 24 <= |c| && InfoAt(c, 8) == RegionHead(o) == InfoAt(o.bytes, 8)
    ensures RegionOf(o).tag == RegionHead(o).tag && RegionHead(o) == Info(RegionOf(o).tag, BIN_TYPE, SumTo(0, Members(o)), INFO)
  {
    hide SumTo, InfoAt, Describes, SmallIn, PiecesOf;
    assert c[8..24] == o.bytes[8..24];
    InfoAtSame(c, 8, o.bytes, 8);
  }

  /** Write the region out and swap its data back; its size comes out as it was. */
  method ExportRegion(buf: array<byte>, blob: array<byte>, region: Entry, legacy: bool, dc: nat, ghost o: Origin)
    returns (pe: nat, te: nat)
    requires o.Origin? && OriginOk(o) && (legacy <==> o.blob.regionTag == 0) && region == RegionOf(o)
    requires SwabbedData(blob[..], o.bytes, o.blob) && buf != blob
    requires 8 + INFO * RegionLen(o) <= dc && dc + |RegionData(o)| <= buf.Length
    modifies buf
    ensures pe == 8 + INFO * RegionLen(o) && te == dc + |RegionData(o)|
    ensures buf[8..pe] == RegionIndex(o) && buf[dc..te] == RegionData(o)
    ensures forall k :: 0 <= k < buf.Length && !(8 <= k < pe) && !(dc <= k < te) ==> buf[k] == old(buf[k])
  {
    hide OriginOk, Loadable, SumTo, Members, InfoBytes, RegionData, RegionOf, SwabbedData, RegionHead, Copied, CopiedTrailer,
         RegionIndex, SwabAll;
    OriginLoaded(o);
    RegionSizes(o);
    RegionFacts(o);
    var ril := -region.offset / INFO;
    if legacy {
      CopyLegacy(buf, blob, region, dc, o);
      ril := ril + 1;
    } else {
      CopyExact(buf, blob, region, dc, o);
    }
    ghost var c := buf[..];
    RegionRestored(o, c, dc);
    var count, _ := RegionSwab(buf, false, ril, 0, 8, dc, buf.Length, 0);
    assert count == Some(region.rdlen + region.count);
    RegionWritten(o, c, buf[..], dc);
    pe, te := 8 + INFO * ril, dc + region.rdlen + region.count;
  }

  lemma RegionWritten(o: Origin, c: Bytes, r: Bytes, dc: nat)
    requires o.Origin? && OriginOk(o) && Copied(o, c, dc) && CopiedTrailer(o, c, dc) && |r| == |c|
    requires var n, ds := SumTo(0, Members(o)), DataStart(o.blob.il);
             && dc + n + INFO <= |c| && ds + n <= |o.bytes|
             && r[dc..dc + n] == o.bytes[ds..ds + n] && r[dc + n..dc + n + INFO] == c[dc + n..dc + n + INFO]
             && forall y :: 0 <= y < |c| && !(dc <= y < dc + n + INFO) ==> r[y] == c[y]
    ensures 8 + INFO * RegionLen(o) <= |r| && dc + |RegionData(o)| <= |r|
    ensures r[8..8 + INFO * RegionLen(o)] == RegionIndex(o) && r[dc..dc + |RegionData(o)|] == RegionData(o)
  {
    hide OriginOk, Loadable, SumTo, Members, InfoBytes, InfoAt, RegionOf, RegionHead, Copied, RegionData, RegionIndex, Trailer;
    OriginLoaded(o);
    RegionSizes(o);
    CopiedRoom(o, c, dc);
    var n, pe := SumTo(0, Members(o)), 8 + INFO * RegionLen(o);
    IndexIs(o, c, dc);
    assert r[8..pe] == c[8..pe];
    DataIs(o);
    assert r[dc..dc + n + INFO] == r[dc..dc + n] + r[dc + n..dc + n + INFO];
  }

  lemma IndexIs(o: Origin, c: Bytes, dc: nat)
    requires o.Origin? && OriginOk(o) && Copied(o, c, dc)
    ensures 8 + INFO * RegionLen(o) <= |c| && c[8..8 + INFO * RegionLen(o)] == RegionIndex(o)
  {
    hide OriginOk, Loadable, SumTo, Members, InfoBytes, InfoAt, RegionOf, RegionHead, Swabbed, AllFit;
    OriginLoaded(o);
    RegionFacts(o);
    CopiedRoom(o, c, dc);
    var ds, pe := DataStart(o.blob.il), 8 + INFO * RegionLen(o);
    assert c[8..pe] == c[8..24] + c[24..pe];
    if o.blob.regionTag != 0 {
      OriginHead(o);
      BytesOfInfo(o.bytes, 8);
      assert o.bytes[8..ds] == o.bytes[8..24] + o.bytes[24..ds];
    }
  }

  lemma DataIs(o: Origin)
    requires o.Origin? && OriginOk(o)
    ensures var n, ds := SumTo(0, Members(o)), DataStart(o.blob.il);
            ds + n <= |o.bytes| && RegionData(o) == o.bytes[ds..ds + n] + Trailer(o)
  {
    hide OriginOk, Loadable, SumTo, Members, InfoBytes, InfoAt, RegionOf, RegionHead;
    OriginLoaded(o);
    RegionFacts(o);
    var n, ds := SumTo(0, Members(o)), DataStart(o.blob.il);
    if o.blob.regionTag != 0 {
      assert o.bytes[ds..] == o.bytes[ds..ds + n] + o.bytes[ds + n..];
    } else {
      assert o.bytes[ds..] == o.bytes[ds..ds + n];
    }
  }

  lemma OriginHead(o: Origin)
    requires o.Origin? && OriginOk(o) && o.blob.regionTag != 0
    ensures 24 <= DataStart(o.blob.il) <= |o.bytes| && InfoAt(o.bytes, 8) == RegionHead(o)
  {
    ExactHead(o, o.bytes);
  }

  /* ---- The order of the entries ---- */

  /** What OffsetCmp compares after the offsets. */
  function Rank(e: Entry): int { if e.offset < 0 then Address(e.data) else e.tag }

  lemma OffsetOrder(a: Entry, b: Entry)
    requires a.tag < TAG_END && b.tag < TAG_END
    ensures OffsetCmp(a, b) <= 0 <==> a.offset < b.offset || (a.offset == b.offset && Rank(a) <= Rank(b))
  {
    SmallDiff(a.tag, b.tag);
  }

  lemma OffsetConsistent(index: seq<Entry>)
    requires SmallTags(index)
    ensures Consistent(OffsetCmp, index)
  {
    forall a, b | a in index && b in index
      ensures OffsetCmp(a, b) <= 0 <==> a.offset < b.offset || (a.offset == b.offset && Rank(a) <= Rank(b))
    {
      OffsetOrder(a, b);
    }
    hide OffsetCmp, Rank;
  }

  /** The region entry first, then its members, then the drips by tag. */
  ghost predicate Arranged(s: seq<Entry>, o: Origin, m: nat)
    requires OriginOk(o)
  {
    && m <= |s| && AllDrips(s[m..])
    && (forall i, j :: m <= i < j < |s| ==> s[i].tag <= s[j].tag)
    && if o.NoRegion? then m == 0
       else m > 0 && s[0] == RegionOf(o) && forall k :: 1 <= k < m ==> MemberOf(s[k], RegionOf(o))
  }

  lemma KeptSmall(index: seq<Entry>, blob: Bytes, legacy: bool, o: Origin)
    requires Kept(index, blob, legacy, o)
    ensures SmallTags(index)
  {
    hide OriginOk, SwabbedData, RegionOf, DataShape;
    if o.Origin? { RegionFacts(o); }
  }

  /** Each entry is the region, a member or a drip, told apart by offset and address. */
  ghost predicate Sort3(e: Entry, region: Entry) {
    e == region || MemberOf(e, region) || IsDrip(e)
  }

  lemma RegionLeads(s: seq<Entry>, region: Entry)
    requires OrderedBy(OffsetCmp, s) && SmallTags(s) && multiset(s)[region] == 1 && forall e :: e in s ==> Sort3(e, region)
    requires region.offset < 0 && region.data == InBlob(8)
    ensures |s| > 0 && s[0] == region && forall k :: 0 < k < |s| ==> s[k] != region
  {
    hide DataShape;
    assert region in multiset(s);
    var r :| 0 <= r < |s| && s[r] == region;
    assert s[0] in s && s[r] in s;
    OffsetOrder(s[0], s[r]);
    assert s[0] == region;
    OnlyFirst(s, region);
  }

  lemma OnlyFirst(s: seq<Entry>, x: Entry)
    requires |s| > 0 && s[0] == x && multiset(s)[x] == 1
    ensures forall k :: 0 < k < |s| ==> s[k] != x
  {
    assert s == [x] + s[1..];
    assert multiset(s) == multiset{x} + multiset(s[1..]);
    assert x !in multiset(s[1..]);
    forall k | 0 < k < |s| ensures s[k] != x { assert s[k] == s[1..][k - 1] && s[1..][k - 1] in multiset(s[1..]); }
  }

  lemma {:induction false} Boundary(s: seq<Entry>, region: Entry, k: nat) returns (m: nat)
    requires OrderedBy(OffsetCmp, s) && SmallTags(s) && region.offset < 0
    requires 0 < k <= |s| && forall i :: 1 <= i < |s| ==> MemberOf(s[i], region) || IsDrip(s[i])
    requires forall i :: 1 <= i < k ==> MemberOf(s[i], region)
    ensures 0 < m <= |s| && (forall i :: 1 <= i < m ==> MemberOf(s[i], region)) && forall i :: m <= i < |s| ==> IsDrip(s[i])
    decreases |s| - k
  {
    hide DataShape;
    if k < |s| && MemberOf(s[k], region) {
      m := Boundary(s, region, k + 1);
    } else {
      m := k;
      forall i | m <= i < |s| ensures IsDrip(s[i]) {
        if i > m {
          assert s[m] in s && s[i] in s;
          OffsetOrder(s[m], s[i]);
        }
      }
    }
  }

  lemma DripsByTag(s: seq<Entry>, m: nat)
    requires OrderedBy(OffsetCmp, s) && SmallTags(s) && m <= |s| && forall i :: m <= i < |s| ==> IsDrip(s[i])
    ensures AllDrips(s[m..]) && forall i, j :: m <= i < j < |s| ==> s[i].tag <= s[j].tag
  {
    forall i, j | m <= i < j < |s| ensures s[i].tag <= s[j].tag {
      assert s[i] in s && s[j] in s;
      OffsetOrder(s[i], s[j]);
    }
  }

  lemma Arrange(index: seq<Entry>, s: seq<Entry>, blob: Bytes, legacy: bool, o: Origin) returns (m: nat)
    requires Kept(index, blob, legacy, o) && multiset(s) == multiset(index) && (Consistent(OffsetCmp, index) ==> OrderedBy(OffsetCmp, s))
    ensures Arranged(s, o, m)
  {
    hide OriginOk, SwabbedData, RegionOf, DataShape, OrderedBy, Consistent, OffsetCmp, IsDrip, MemberOf;
    KeptSmall(index, blob, legacy, o);
    OffsetConsistent(index);
    SamePlace(index, s);
    if o.NoRegion? {
      m := 0;
      assert forall i :: 0 <= i < |s| ==> s[i] in s;
      DripsByTag(s, 0);
    } else {
      RegionFacts(o);
      OriginLoaded(o);
      RegionLeads(s, RegionOf(o));
      assert forall i :: 0 <= i < |s| ==> s[i] in s;
      m := Boundary(s, RegionOf(o), 1);
      DripsByTag(s, m);
    }
  }

  /* ---- headerExport ---- */

  ghost function ExportIl(o: Origin, es: seq<Entry>): nat { RegionLen(o) + |es| }

  ghost function ExportDl(o: Origin, es: seq<Entry>): nat
    requires OriginOk(o)
  {
    SumTo(|RegionData(o)|, Laid(|RegionData(o)|, es))
  }

  /** The blob of a region and drips, both read from the original blob and the drips' values. */
  ghost function Exported(o: Origin, es: seq<Entry>): Bytes
    requires OriginOk(o) && AllDrips(es)
  {
    var at := |RegionData(o)|;
    Be32(ExportIl(o, es)) + Be32(ExportDl(o, es))
    + RegionIndex(o) + IndexBytes(Laid(at, es)) + RegionData(o) + DripBytes(at, es)
  }

  /** First pass: the number of index entries and the size of the data. */
  method Measure(s: seq<Entry>, legacy: bool, ghost o: Origin, ghost m: nat) returns (il: nat, dl: nat, from: nat)
    requires OriginOk(o) && Arranged(s, o, m) && (legacy <==> o.Origin? && o.blob.regionTag == 0)
    ensures from == m && il == ExportIl(o, s[m..]) && dl == ExportDl(o, s[m..])
  {
    hide OriginOk, SumTo, Laid, RegionData, RegionIndex, RegionOf, Members, IsDrip, AlignDiff, Loadable;
    il, dl, from := 0, 0, 0;
    RegionSizes(o);
    if o.Origin? { RegionFacts(o); OriginLoaded(o); }
    FirstIsRegion(s, o, m);
    if |s| > 0 && IsRegionTag(s[0].tag) {
      var region := s[0];
      il := -region.offset / INFO;
      dl := region.rdlen + region.count;
      if legacy { il := il + 1; }
      from := SkipRegion(s, region, m);
    }
    ghost var at := dl;
    var i := from;
    NoDrips(at);
    assert s[m..m] == [];
    while i < |s|
      invariant m <= i <= |s| && il == RegionLen(o) + (i - m) && dl == SumTo(at, Laid(at, s[m..i]))
    {
      MeasureStep(at, s, m, i);
      if s[i].length > 0 {
        dl := dl + AlignDiff(s[i].kind, dl) + s[i].length;
        il := il + 1;
      }
      i := i + 1;
    }
    assert s[m..i] == s[m..];
  }

  lemma FirstIsRegion(s: seq<Entry>, o: Origin, m: nat)
    requires OriginOk(o) && Arranged(s, o, m)
    ensures |s| > 0 ==> (IsRegionTag(s[0].tag) <==> o.Origin?)
  {
    hide OriginOk, RegionOf, DataShape;
    if o.Origin? { RegionFacts(o); } else { assert s[0..] == s; }
  }

  /** Skip the rest of the entries in the region. */
  method SkipRegion(s: seq<Entry>, region: Entry, ghost m: nat) returns (from: nat)
    requires 0 < m <= |s| && s[0] == region && region.offset <= -16 && AllDrips(s[m..])
    requires forall k :: 1 <= k < m ==> MemberOf(s[k], region)
    ensures from == m
  {
    hide DataShape;
    from := 0;
    assert forall k :: m <= k < |s| ==> s[k] == s[m..][k - m];
    while from < |s| && s[from].offset <= region.offset + 1
      invariant 0 <= from <= m
    {
      from := from + 1;
    }
  }

  lemma MeasureStep(at: nat, s: seq<Entry>, m: nat, i: nat)
    requires m <= i < |s| && AllDrips(s[m..])
    ensures s[i].length > 0
    ensures var t := SumTo(at, Laid(at, s[m..i])); SumTo(at, Laid(at, s[m..i + 1])) == t + AlignDiff(s[i].kind, t) + s[i].length
  {
    hide SumTo, Laid, AlignDiff, DataShape;
    assert s[m..][i - m] == s[i];
    assert s[m..i + 1][..i - m] == s[m..i];
    SumLaid(at, s[m..i + 1]);
  }

  /** What is not written as a drip: nothing, or the region entry and its untouched members. */
  ghost predicate RegionPart(rest: seq<Entry>, o: Origin)
    requires OriginOk(o)
  {
    if o.NoRegion? then rest == []
    else |rest| > 0 && rest[0] == RegionOf(o) && forall k :: 1 <= k < |rest| ==> MemberOf(rest[k], RegionOf(o))
  }

  /** Write out a header: it fails only beyond the limits on entries and bytes, and the
      two passes agree. */
  method DoExport(index: seq<Entry>, blob: array<byte>, legacy: bool, ghost o: Origin)
    returns (out: Option<Bytes>, ghost es: seq<Entry>, ghost rest: seq<Entry>)
    requires Kept(index, blob[..], legacy, o)
    ensures OriginOk(o) && AllDrips(es) && ByTag(es) && RegionPart(rest, o) && multiset(index) == multiset(rest) + multiset(es)
    ensures out.Some? <==> ExportIl(o, es) <= TAGS_MAX && ExportDl(o, es) <= DATA_MAX
    ensures out.Some? ==> out.value == Exported(o, es)
  {
    hide OriginOk, SumTo, Laid, RegionData, RegionIndex, RegionOf, Members, IsDrip, MemberOf, SwabbedData, Exported, ExportDl,
         IndexBytes, DripBytes, OrderedBy, Consistent, Be32;
    var s := QSort(OffsetCmp, index);
    ghost var m := Arrange(index, s, blob[..], legacy, o);
    es, rest := s[m..], s[..m];
    Halves(index, s, o, m);
    hide Arranged, RegionPart, Kept, AllDrips;
    var il, dl, from := Measure(s, legacy, o, m);
    if il > TAGS_MAX || dl > DATA_MAX { return None, es, rest; }
    var bytes := Compose(s, blob, legacy, il, dl, from, o);
    out := Some(bytes);
  }

  lemma Halves(index: seq<Entry>, s: seq<Entry>, o: Origin, m: nat)
    requires OriginOk(o) && Arranged(s, o, m) && multiset(s) == multiset(index)
    ensures AllDrips(s[m..]) && ByTag(s[m..]) && RegionPart(s[..m], o) && multiset(index) == multiset(s[..m]) + multiset(s[m..])
  {
    hide OriginOk, RegionOf, MemberOf, IsDrip;
    assert s == s[..m] + s[m..];
  }

  /** Second pass: write the intro, the region and the drips. */
  method Compose(s: seq<Entry>, blob: array<byte>, legacy: bool, il: nat, dl: nat, from: nat, ghost o: Origin) returns (out: Bytes)
    requires OriginOk(o) && Arranged(s, o, from) && (legacy <==> o.Origin? && o.blob.regionTag == 0)
    requires o.Origin? ==> SwabbedData(blob[..], o.bytes, o.blob)
    requires il == ExportIl(o, s[from..]) && dl == ExportDl(o, s[from..])
    ensures out == Exported(o, s[from..])
  {
    hide OriginOk, SumTo, Laid, RegionData, RegionIndex, RegionOf, Members, IsDrip, MemberOf, SwabbedData, Exported, ExportDl,
         IndexBytes, DripBytes, Be32;
    ghost var es := s[from..];
    var ds := 8 + INFO * il;
    var ei := new byte[ds + dl];
    var intro := Be32(il) + Be32(dl);
    Write(ei, 0, intro);
    var pe, te := 8, ds;
    ExportRoom(o, es);
    FirstIsRegion(s, o, from);
    if |s| > 0 && IsRegionTag(s[0].tag) {
      OriginLoaded(o);
      pe, te := ExportRegion(ei, blob, s[0], legacy, ds, o);
    }
    RegionWhole(o, ei[..], pe, ds, te);
    ghost var c := ei[..];
    ExportDrips(ei, s[from..], pe, ds, te);
    SlicesKept(ei[..], c, pe, ds, te);
    WholeBlob(o, es, ei[..], pe, ds, te);
    out := ei[..];
  }

  lemma ExportRoom(o: Origin, es: seq<Entry>)
    requires OriginOk(o)
    ensures |RegionData(o)| <= ExportDl(o, es) && |RegionIndex(o)| == INFO * RegionLen(o) && (o.NoRegion? ==> RegionData(o) == [])
    ensures ExportDl(o, es) == SumTo(|RegionData(o)|, Laid(|RegionData(o)|, es))
  {
    hide OriginOk, SumTo, Laid, RegionData, RegionIndex;
    SumUp(|RegionData(o)|, Laid(|RegionData(o)|, es), 0);
    RegionSizes(o);
  }

  lemma RegionWhole(o: Origin, c: Bytes, pe: nat, ds: nat, te: nat)
    requires OriginOk(o) && 8 <= pe <= ds <= te <= |c|
    requires if o.NoRegion? then pe == 8 && te == ds else c[8..pe] == RegionIndex(o) && c[ds..te] == RegionData(o)
    ensures c[8..pe] == RegionIndex(o) && c[ds..te] == RegionData(o)
  {
  }

  lemma WholeBlob(o: Origin, es: seq<Entry>, r: Bytes, pe: nat, ds: nat, te: nat)
    requires OriginOk(o) && AllDrips(es) && 8 <= pe <= ds <= te <= |r| && te - ds == |RegionData(o)|
    requires r[0..8] == Be32(ExportIl(o, es)) + Be32(ExportDl(o, es)) && r[8..pe] == RegionIndex(o) && r[ds..te] == RegionData(o)
    requires r[pe..ds] == IndexBytes(Laid(te - ds, es)) && r[te..] == DripBytes(te - ds, es)
    ensures r == Exported(o, es)
  {
    hide OriginOk, SumTo, Laid, RegionData, RegionIndex, ExportDl, IndexBytes, DripBytes, Be32, AllDrips;
    FiveParts(r, 8, pe, ds, te);
  }

  lemma SlicesKept(r: Bytes, c: Bytes, pe: nat, ds: nat, te: nat)
    requires 8 <= pe <= ds <= te <= |r| == |c| && forall k :: 0 <= k < |c| && (k < pe || ds <= k < te) ==> r[k] == c[k]
    ensures r[0..8] == c[0..8] && r[8..pe] == c[8..pe] && r[ds..te] == c[ds..te]
  {
  }

  lemma FiveParts(r: Bytes, i: nat, j: nat, k: nat, l: nat)
    requires i <= j <= k <= l <= |r|
    ensures r == r[0..i] + r[i..j] + r[j..k] + r[k..l] + r[l..]
  {
  }
}
