/** Header round trip (lib/header.cc): what is put into a header, written out and loaded
    again comes back. */
module HeaderRoundTrip {
  import opened Common
  import opened HeaderBytes
  import opened HeaderBlob
  import opened HeaderSwab
  import opened HeaderPieces
  import opened HeaderStore
  import opened HeaderImport
  import opened HeaderGaps
  import opened HeaderDrips
  import opened HeaderOrigin
  import opened HeaderExport
  import opened HeaderChanges
  import opened HeaderImmutable

  /* ---- Reading back what was laid out ---- */

  lemma LaidAt(at: nat, es: seq<Entry>, k: nat)
    requires k < |es|
    ensures var ps, s := Laid(at, es), SumTo(at, Laid(at, es[..k]));
            && ps[k] == LaidNext(s, es[k]) && at <= s
            && SumTo(at, ps[..k]) == s && SumTo(at, ps[..k + 1]) == Last(ps[k]) == SumTo(at, Laid(at, es[..k + 1])) <= SumTo(at, ps)
  {
    hide SumTo, AlignDiff, LaidNext;
    LaidPrefix(at, es, k);
    LaidPrefix(at, es, k + 1);
    SumUp(at, Laid(at, es), k + 1);
    SumUp(at, Laid(at, es), k);
    LaidLast(at, es[..k + 1]);
    assert es[..k + 1][..k] == es[..k];
    SumLaid(at, es[..k + 1]);
    NextLast(SumTo(at, Laid(at, es[..k])), es[k]);
  }

  lemma LaidLast(at: nat, es: seq<Entry>)
    requires es != []
    ensures Laid(at, es)[|es| - 1] == LaidNext(SumTo(at, Laid(at, es[..|es| - 1])), es[|es| - 1])
  {
    hide SumTo, AlignDiff, LaidNext;
  }

  lemma NextLast(s: nat, e: Entry)
    ensures Last(LaidNext(s, e)) == s + AlignDiff(e.kind, s) + e.length && LaidNext(s, e).len == e.length
    ensures LaidNext(s, e).info.offset >= s && LaidNext(s, e).info.offset % Width(e.kind) == 0
  {
    hide AlignDiff;
  }

  lemma {:induction false} IndexBytesAt(ps: seq<Piece>, k: nat)
    requires k < |ps|
    ensures IndexBytes(ps)[INFO * k..INFO * k + INFO] == InfoBytes(ps[k].info)
    decreases |ps|
  {
    hide InfoBytes;
    var n := |ps| - 1;
    if k < n {
      IndexBytesAt(ps[..n], k);
      assert IndexBytes(ps)[..INFO * n] == IndexBytes(ps[..n]);
      assert IndexBytes(ps)[INFO * k..INFO * k + INFO] == IndexBytes(ps)[..INFO * n][INFO * k..INFO * k + INFO];
    }
  }

  lemma {:induction false} DripBytesAt(at: nat, es: seq<Entry>, k: nat)
    requires AllDrips(es) && k < |es|
    ensures IsDrip(es[k])
    ensures var p := Laid(at, es)[k]; at <= p.info.offset && Last(p) <= SumTo(at, Laid(at, es)) && p.len == es[k].length
    ensures var p := Laid(at, es)[k];
            DripBytes(at, es)[p.info.offset - at..Last(p) - at] == DiskBytes(es[k])
    decreases |es|
  {
    hide SumTo, Laid, DripBytes, AlignDiff, IsDrip, LaidNext, DiskBytes, Zeros;
    assert IsDrip(es[k]);
    var n := |es| - 1;
    LaidAt(at, es, k);
    NextLast(SumTo(at, Laid(at, es[..k])), es[k]);
    NextBytes(at, es);
    assert AllDrips(es[..n]);
    var s := SumTo(at, Laid(at, es[..n]));
    var x, y, z := DripBytes(at, es[..n]), Zeros(AlignDiff(es[n].kind, s)), DiskBytes(es[n]);
    if k < n {
      DripBytesAt(at, es[..n], k);
      LaidPrefix(at, es, n);
      assert Laid(at, es[..n])[k] == Laid(at, es)[k] && es[..n][k] == es[k];
      PrefixSlice(x, y + z, Laid(at, es)[k].info.offset - at, Last(Laid(at, es)[k]) - at);
    } else {
      LastOffset(s, es[n]);
      SuffixSlice(x, y, z);
    }
  }

  lemma PrefixSlice(x: Bytes, y: Bytes, lo: nat, hi: nat)
    requires lo <= hi <= |x|
    ensures (x + y)[lo..hi] == x[lo..hi]
  {
  }

  lemma SuffixSlice(x: Bytes, y: Bytes, z: Bytes)
    ensures (x + (y + z))[|x| + |y|..|x| + |y| + |z|] == z
  {
  }

  lemma LastOffset(s: nat, e: Entry)
    ensures LaidNext(s, e).info.offset == s + AlignDiff(e.kind, s)
  {
  }

  /* ---- The written blob is accepted ---- */

  /** A drip with a legal tag whose data is as long as type and count say. */
  ghost predicate Measured(e: Entry) {
    && IsDrip(e) && e.tag >= I18NTABLE
    && 1 <= e.count <= e.length && (e.kind == BIN_TYPE || e.count <= ARRAY_MAX)
    && DataLength(e.kind, e.data.bytes, 0, e.count, e.length) == Some(e.length)
  }

  ghost predicate AllMeasured(es: seq<Entry>) {
    forall k :: 0 <= k < |es| ==> Measured(es[k])
  }

  ghost function DataSize(es: seq<Entry>): nat { SumTo(0, Laid(0, es)) }

  ghost predicate WithinLimits(es: seq<Entry>) {
    es != [] && |es| <= TAGS_MAX && DataSize(es) <= DATA_MAX && DataStart(|es|) + DataSize(es) < HEADER_MAX
  }

  ghost function OutBlob(es: seq<Entry>): Bytes
    requires AllMeasured(es)
  {
    MeasuredDrips(es);
    Exported(NoRegion, es)
  }

  lemma MeasuredDrips(es: seq<Entry>)
    requires AllMeasured(es)
    ensures AllDrips(es)
  {
    hide DataLength, IsDrip;
    forall k | 0 <= k < |es| ensures IsDrip(es[k]) { assert Measured(es[k]); }
  }

  lemma WrittenParts(es: seq<Entry>)
    requires AllMeasured(es) && WithinLimits(es)
    ensures AllDrips(es)
    ensures var b, ds := OutBlob(es), DataStart(|es|);
            && Sized(b, |es|, DataSize(es)) && U32(b, 0) == |es| && U32(b, 4) == DataSize(es)
            && b[8..ds] == IndexBytes(Laid(0, es)) && b[ds..] == DripBytes(0, es)
  {
    hide AllMeasured, IndexBytes, DripBytes, Laid, SumTo, Be32, Exported, AllDrips;
    MeasuredDrips(es);
    ExportedParts(NoRegion, es);
    var b := OutBlob(es);
    assert Be32(DataSize(es)) == Be32(DataSize(es))[0..4];
    U32Same(b, 4, Be32(DataSize(es)), 0);
  }

  lemma WrittenEntry(es: seq<Entry>, k: nat)
    requires AllMeasured(es) && WithinLimits(es) && k < |es|
    ensures DataStart(k + 1) <= |OutBlob(es)| && EntryAt(OutBlob(es), k) == Laid(0, es)[k].info
    ensures var p, s := Laid(0, es)[k], SumTo(0, Laid(0, es[..k]));
            && p.len == es[k].length && p.info.tag == es[k].tag && p.info.kind == es[k].kind && p.info.count == es[k].count
            && s <= p.info.offset && p.info.offset % Width(p.info.kind) == 0 && Last(p) == SumTo(0, Laid(0, es[..k + 1])) <= DataSize(es)
  {
    hide IndexBytes, DripBytes, Laid, SumTo, OutBlob, InfoAt, InfoBytes, AlignDiff, DataLength;
    var b, ds, ps := OutBlob(es), DataStart(|es|), Laid(0, es);
    assert Measured(es[k]);
    WrittenParts(es);
    LaidAt(0, es, k);
    NextLast(SumTo(0, Laid(0, es[..k])), es[k]);
    IndexBytesAt(ps, k);
    SubSlice(b, 8, ds, INFO * k, INFO * k + INFO);
    InfoOfBytes(b, DataStart(k), ps[k].info);
  }

  lemma WrittenData(es: seq<Entry>, k: nat)
    requires AllMeasured(es) && WithinLimits(es) && k < |es|
    ensures var b, p, ds := OutBlob(es), Laid(0, es)[k], DataStart(|es|);
            && IsDrip(es[k]) && 0 <= p.info.offset && ds + Last(p) <= |b|
            && b[ds + p.info.offset..ds + Last(p)] == DiskBytes(es[k])
  {
    hide IndexBytes, DripBytes, Laid, SumTo, OutBlob, DiskBytes, IsDrip, AllMeasured;
    WrittenParts(es);
    DripBytesAt(0, es, k);
    var b, p, ds := OutBlob(es), Laid(0, es)[k], DataStart(|es|);
    SubSlice(b, ds, ds + DataSize(es), p.info.offset, p.info.offset + p.len);
    assert b[ds..] == b[ds..ds + DataSize(es)];
  }

  lemma WrittenLen(es: seq<Entry>, k: nat)
    requires AllMeasured(es) && WithinLimits(es) && k < |es|
    ensures Sized(OutBlob(es), |es|, DataSize(es)) && Len(OutBlob(es), |es|, DataSize(es), k) == Some(es[k].length)
  {
    hide IndexBytes, DripBytes, Laid, SumTo, OutBlob, InfoAt, AlignDiff, StrLen, U32;
    var e, b, p, ds, dl := es[k], OutBlob(es), Laid(0, es)[k], DataStart(|es|), DataSize(es);
    assert Measured(e);
    WrittenParts(es);
    WrittenEntry(es, k);
    WrittenData(es, k);
    if IsString(e.kind) {
      SwabNone(e.data.bytes, 0, e.length, 1);
      assert e.data.bytes[0..0 + e.length] == e.data.bytes;
      DataLengthSame(e.kind, e.data.bytes, 0, e.count, e.length, b, ds + p.info.offset, ds + dl);
    }
  }

  function OutHeader(il: nat, dl: nat): Blob { Blob(il, dl, 0, 0, 0) }

  lemma WrittenPasses(es: seq<Entry>, tags: Tags, k: nat)
    requires AllMeasured(es) && WithinLimits(es) && k < |es|
    ensures Sized(OutBlob(es), |es|, DataSize(es)) && Passes(OutBlob(es), OutHeader(|es|, DataSize(es)), tags, k)
  {
    hide Laid, SumTo, OutBlob, InfoAt, DataLength, U32, Len;
    assert Measured(es[k]);
    WrittenEntry(es, k);
    WrittenLen(es, k);
    if k > 0 {
      WrittenEntry(es, k - 1);
      WrittenLen(es, k - 1);
    }
  }

  lemma WrittenAccepted(es: seq<Entry>, tags: Tags)
    requires AllMeasured(es) && WithinLimits(es)
    ensures Accepted(OutBlob(es), 0, false, tags, OutHeader(|es|, DataSize(es))) && SmallIn(OutBlob(es), |es|)
  {
    hide Laid, SumTo, OutBlob, InfoAt, DataLength, U32, IndexBytes, DripBytes, Passes, Measured;
    var b, h := OutBlob(es), OutHeader(|es|, DataSize(es));
    WrittenParts(es);
    forall i | 0 <= i < |es| ensures Passes(b, h, tags, i) && es[i].tag < TAG_END {
      WrittenPasses(es, tags, i);
      MeasuredTag(es[i]) by { assert Measured(es[i]); }
    }
    MeasuredTag(es[0]) by { assert Measured(es[0]); }
    WrittenEntry(es, 0);
    forall i | 0 <= i < |es| ensures EntryAt(b, i).tag < TAG_END { WrittenEntry(es, i); }
  }

  lemma MeasuredTag(e: Entry)
    requires Measured(e)
    ensures I18NTABLE <= e.tag < TAG_END
  {
  }

  lemma WrittenPieces(es: seq<Entry>)
    requires AllMeasured(es) && WithinLimits(es)
    ensures Sized(OutBlob(es), |es|, DataSize(es)) && PiecesOf(OutBlob(es), |es|, DataSize(es), 0, |es|) == Laid(0, es)
  {
    hide Laid, SumTo, OutBlob, InfoAt, U32, Len, Measured;
    WrittenParts(es);
    var ps, qs := PiecesOf(OutBlob(es), |es|, DataSize(es), 0, |es|), Laid(0, es);
    forall k | 0 <= k < |es| ensures ps[k] == qs[k] {
      WrittenEntry(es, k);
      WrittenLen(es, k);
    }
  }

  /* ---- Loaded again ---- */

  /** The same tag, type, count and data. */
  ghost predicate SameValue(e: Entry, was: Entry, blob: Bytes) {
    && e.tag == was.tag && e.kind == was.kind && e.count == was.count
    && was.data.Own? && DataIn(e, |blob|) && DataOf(e, blob) == was.data.bytes
  }

  /** The data of a drip, swapped to disk order and back. */
  lemma BackAgain(es: seq<Entry>, k: nat, c: Bytes)
    requires AllMeasured(es) && WithinLimits(es) && k < |es|
    requires var ps, ds := Laid(0, es), DataStart(|es|);
             AllFit(ps, ds, |OutBlob(es)|) && AllApart(ps) && c == Swabbed(OutBlob(es), ds, ps)
    ensures var p, at := Laid(0, es)[k], DataStart(|es|) + Laid(0, es)[k].info.offset;
            && IsDrip(es[k]) && 0 <= p.info.offset && p.len == es[k].length && at + p.len <= |c|
            && c[at..at + p.len] == es[k].data.bytes
  {
    hide Laid, SumTo, OutBlob, Swabbed, AllFit, AllApart, Mirror, DiskBytes, AllMeasured, SwabAt;
    var b, p, e, ps, ds := OutBlob(es), Laid(0, es)[k], es[k], Laid(0, es), DataStart(|es|);
    WrittenEntry(es, k);
    WrittenData(es, k);
    var at, w := ds + p.info.offset, Width(e.kind);
    var l := c[at..at + p.len];
    forall x | 0 <= x < p.len ensures l[x] == e.data.bytes[x] {
      SwabbedIn(b, ds, ps, k, x);
      MirrorOk(x, w, p.len);
      DiskAt(e, Mirror(x, w));
      SliceAt(b, at, DiskBytes(e), 0, p.len, Mirror(x, w)) by { assert DiskBytes(e)[0..0 + p.len] == DiskBytes(e); }
      assert l[x] == c[at + x];
    }
  }

  lemma DiskAt(e: Entry, x: nat)
    requires IsDrip(e) && x < e.length
    ensures 0 <= Mirror(x, Width(e.kind)) < e.length && DiskBytes(e)[x] == e.data.bytes[Mirror(x, Width(e.kind))]
  {
    hide SwabAt, Mirror;
    SwabAtIn(e.data.bytes, 0, e.length, Width(e.kind), x);
  }

  /** The entries as they are loaded. */
  ghost function Reloaded(es: seq<Entry>): (loaded: seq<Entry>)
    requires forall k :: 0 <= k < |es| ==> Laid(0, es)[k].info.offset >= 0
    ensures |loaded| == |es|
  {
    Listed(Laid(0, es), DataStart(|es|), -(INFO * |es|))
  }

  lemma ReloadedSame(es: seq<Entry>, c: Bytes)
    requires AllMeasured(es) && WithinLimits(es)
    requires var h := OutHeader(|es|, DataSize(es)); Loadable(OutBlob(es), h) && SwabbedData(c, OutBlob(es), h)
    ensures forall k :: 0 <= k < |es| ==> Laid(0, es)[k].info.offset >= 0
    ensures forall k :: 0 <= k < |es| ==> SameValue(Reloaded(es)[k], es[k], c)
  {
    hide SumTo, OutBlob, Swabbed, Laid, AllMeasured, InfoAt, SmallIn;
    var b, h, ds, ps := OutBlob(es), OutHeader(|es|, DataSize(es)), DataStart(|es|), Laid(0, es);
    WrittenPieces(es);
    DescribedFit(b, 8, ds, |b|, ps);
    hide Describes, AllFit, AllApart;
    forall k | 0 <= k < |es| ensures ps[k].info.offset >= 0 { WrittenEntry(es, k); }
    forall k | 0 <= k < |es| ensures SameValue(Reloaded(es)[k], es[k], c) {
      BackAgain(es, k, c);
      WrittenEntry(es, k);
    }
  }

  lemma EverythingDrips(index: seq<Entry>, rest: seq<Entry>, es: seq<Entry>)
    requires multiset(index) == multiset(rest) + multiset(es) && rest == [] && forall e :: e in index ==> Measured(e)
    ensures multiset(es) == multiset(index) && AllMeasured(es)
  {
    hide Measured;
    assert multiset(rest) == multiset{};
    SamePlace(es, index);
    forall k | 0 <= k < |es| ensures Measured(es[k]) { assert es[k] in es; }
  }

  /** Acceptance, in turn, implies the limits. */
  lemma FoundAgain(es: seq<Entry>, tags: Tags, h: Blob)
    requires AllMeasured(es) && |es| <= TAGS_MAX && DataSize(es) <= DATA_MAX && Accepted(OutBlob(es), 0, false, tags, h)
    ensures WithinLimits(es) && h == OutHeader(|es|, DataSize(es))
  {
    hide Laid, SumTo, InfoOk, AllMeasured, Exported, IndexBytes, DripBytes, AllDrips, ExportDl, RegionData, RegionIndex;
    MeasuredDrips(es);
    ExportedSizes(es);
    assert WithinLimits(es);
    WrittenAccepted(es, tags);
  }

  lemma ExportedSizes(es: seq<Entry>)
    requires AllMeasured(es) && |es| <= TAGS_MAX
    ensures var b := OutBlob(es); |b| == DataStart(|es|) + DataSize(es) && U32(b, 0) == |es|
  {
    hide Laid, SumTo, Exported, IndexBytes, DripBytes, AllDrips;
    MeasuredDrips(es);
    ExportedParts(NoRegion, es);
  }

  lemma WrittenLoads(es: seq<Entry>, tags: Tags)
    requires AllMeasured(es) && WithinLimits(es)
    ensures var b, h := OutBlob(es), OutHeader(|es|, DataSize(es));
            Source(b, 0, false, tags, h) && Loadable(b, h) && Loads(b, h)
  {
    hide AllMeasured, Laid, SumTo, OutBlob, Accepted, SmallIn, Loadable;
    var b, h := OutBlob(es), OutHeader(|es|, DataSize(es));
    WrittenAccepted(es, tags);
    AcceptedLoadable(b, 0, false, tags, h);
    WrittenPieces(es);
  }

  ghost predicate PlusRegion(index: multiset<Entry>, loaded: seq<Entry>, region: Entry) {
    region.tag == IMAGE && index == multiset([region] + loaded)
  }

  lemma ReloadedIndex(es: seq<Entry>, tags: Tags, index: multiset<Entry>)
    requires AllMeasured(es) && WithinLimits(es)
    requires var b, h := OutBlob(es), OutHeader(|es|, DataSize(es)); Loadable(b, h) && Loads(b, h) && Imported(index, b, h)
    requires forall k :: 0 <= k < |es| ==> Laid(0, es)[k].info.offset >= 0
    ensures exists region: Entry :: PlusRegion(index, Reloaded(es), region)
  {
    hide AllMeasured, Laid, SumTo, OutBlob, Source, Loadable, Loads, Imported, WithinLimits, OriginOk, RegionOf;
    var b, h := OutBlob(es), OutHeader(|es|, DataSize(es));
    var o := Origin(b, h);
    WrittenLoads(es, tags);
    WrittenPieces(es);
    SourceOrigin(b, 0, false, tags, h);
    MembersNatural(o);
    RegionFacts(o);
    AllImported(b, 0, false, tags, h, index);
    LegacyHead(o);
    assert PlusRegion(index, Reloaded(es), RegionOf(o));
  }

  /** Write a header without a region out and load it again: within the limits, exactly
      the same entries come back, beside one made up for the region. */
  method RoundTrip(h: Header, tags: Tags) returns (out: Option<Bytes>, back: Header?, ghost es: seq<Entry>, ghost loaded: seq<Entry>)
    requires Kept(h.index, h.blob[..], h.legacy, NoRegion) && forall e :: e in h.index ==> Measured(e)
    ensures AllMeasured(es) && multiset(es) == multiset(h.index) && ByTag(es)
    ensures out.Some? <==> |es| <= TAGS_MAX && DataSize(es) <= DATA_MAX
    ensures out.Some? ==> |out.value| == DataStart(|es|) + DataSize(es)
    ensures back != null <==> WithinLimits(es)
    ensures back != null ==> fresh(back) && back.Valid() && |loaded| == |es|
    ensures back != null ==> forall k :: 0 <= k < |es| ==> SameValue(loaded[k], es[k], back.blob[..])
    ensures back != null ==> exists region: Entry :: PlusRegion(multiset(back.index), loaded, region)
  {
    hide Kept, Measured, Accepted, WithinLimits, DataSize, OutBlob, SmallIn, EntriesIn, Loads, Loadable, SwabbedData, Imported,
         SameValue, Laid, SumTo, Exported, AllDrips, ByTag, AllMeasured, OutHeader, Reloaded, PlusRegion;
    back, loaded := null, [];
    ghost var rest;
    out, es, rest := DoExport(h.index, h.blob, h.legacy, NoRegion);
    EverythingDrips(h.index, rest, es);
    SameSizes(es);
    if WithinLimits(es) { WrittenAccepted(es, tags); LimitsIn(es); }
    if out.None? { return; }
    ExportedSizes(es);
    var init := HdrblobInit(out.value, 0, false, tags);
    if init.None? { return; }
    FoundAgain(es, tags, init.value);
    WrittenLoads(es, tags);
    var b := new byte[|out.value|];
    Write(b, 0, out.value);
    assert b[..] == out.value;
    back := HdrblobImport(b, init.value, 0, false, tags);
    ReloadedSame(es, b[..]);
    loaded := Reloaded(es);
    ReloadedIndex(es, tags, multiset(back.index));
  }

  lemma LimitsIn(es: seq<Entry>)
    requires WithinLimits(es)
    ensures |es| <= TAGS_MAX && DataSize(es) <= DATA_MAX
  {
  }

  lemma SameSizes(es: seq<Entry>)
    requires AllMeasured(es)
    ensures AllDrips(es) && OutBlob(es) == Exported(NoRegion, es) && ExportIl(NoRegion, es) == |es| && ExportDl(NoRegion, es) == DataSize(es)
  {
    hide AllMeasured, Exported, Laid, SumTo, AllDrips;
    MeasuredDrips(es);
  }

  /* ---- What headerPut stores is measured ---- */

  lemma {:induction false} NulsSplit(b: Bytes, p: nat, q: nat, r: nat)
    requires p <= q <= r <= |b|
    ensures Nuls(b, p, r) == Nuls(b, p, q) + Nuls(b, q, r)
    decreases q - p
  {
    if p < q { NulsSplit(b, p + 1, q, r); }
  }

  lemma {:induction false} NulsPrefix(b: Bytes, c: Bytes, p: nat, q: nat)
    requires p <= q <= |b|
    ensures Nuls(b + c, p, q) == Nuls(b, p, q)
    decreases q - p
  {
    if p < q { NulsPrefix(b, c, p + 1, q); }
  }

  lemma {:induction false} NoNuls(b: Bytes, p: nat, q: nat)
    requires p <= q <= |b| && forall k :: p <= k < q ==> b[k] != 0
    ensures Nuls(b, p, q) == 0
    decreases q - p
  {
    if p < q { NoNuls(b, p + 1, q); }
  }

  lemma {:induction false} TerminatedNuls(items: seq<Bytes>)
    requires forall i, k :: 0 <= i < |items| && 0 <= k < |items[i]| ==> items[i][k] != 0
    ensures var b := Terminated(items); Nuls(b, 0, |b|) == |items| <= |b| && (items != [] ==> b != [] && b[|b| - 1] == 0)
    decreases |items|
  {
    if items != [] {
      var n := |items| - 1;
      TerminatedNuls(items[..n]);
      var x, y, b := Terminated(items[..n]), items[n], Terminated(items);
      assert b == x + (y + [0]) && forall k :: |x| <= k < |x| + |y| ==> b[k] == y[k - |x|];
      NulsPrefix(x, y + [0], 0, |x|);
      NulsSplit(b, 0, |x|, |b|);
      NulsSplit(b, |x|, |x| + |y|, |b|);
      NoNuls(b, |x|, |x| + |y|);
    }
  }

  /** Every value that headerPut adds under a legal tag measures as type and count say. */
  lemma PutMeasured(td: Td)
    requires TdOk(td) && Addable(td) && I18NTABLE <= td.tag && |TdBytes(td).value| < WORD
    ensures Measured(Drip(td, TdBytes(td).value))
  {
    hide StrLen;
    AddedDrip(td);
    var b := TdBytes(td).value;
    if IsString(td.kind) {
      var items := td.value.items[..td.count];
      TerminatedNuls(items);
      StrLenExact(b, 0, td.count, |b|, |b|);
    }
  }
}
