/** Region immutability (lib/header.cc): load, change, write out. */
module HeaderImmutable {
  import opened Common
  import opened HeaderBytes
  import opened HeaderBlob
  import opened HeaderSwab
  import opened HeaderPieces
  import opened HeaderStore
  import opened HeaderImport
  import opened HeaderGaps
  import opened HeaderDrips
  import opened HeaderOrigin
  import opened HeaderExport
  import opened HeaderChanges

  /* ---- What loading establishes ---- */

  /** The blob was accepted: without a region, or with one of exactly its size. */
  ghost predicate Source(b: Bytes, regionTag: nat, exact: bool, tags: Tags, h: Blob) {
    && Accepted(b, regionTag, exact, tags, h) && (regionTag == 0 || IsRegionTag(regionTag))
    && SmallIn(b, h.il) && (h.regionTag != 0 ==> exact)
  }

  lemma SourceOrigin(b: Bytes, regionTag: nat, exact: bool, tags: Tags, h: Blob)
    requires Source(b, regionTag, exact, tags, h) && Loadable(b, h) && Loads(b, h)
    ensures OriginOk(Origin(b, h))
  {
    hide Accepted, Loadable, Loads, SmallIn, SumTo, Announced;
    var o := Origin(b, h);
    if h.regionTag != 0 { SourceAnnounced(b, regionTag, tags, h); }
    forall k | 0 <= k < |Members(o)| ensures Last(Members(o)[k]) <= SumTo(0, Members(o)) {
      SourceInside(b, regionTag, exact, tags, h, k);
    }
  }

  lemma SourceAnnounced(b: Bytes, regionTag: nat, tags: Tags, h: Blob)
    requires Source(b, regionTag, true, tags, h) && Loadable(b, h) && h.regionTag != 0
    ensures Announced(Origin(b, h))
  {
    hide VerifyRegion, InfoOk, InfoAt, Describes;
    AcceptedRegion(b, regionTag, true, tags, h);
    IntroRegion(b, regionTag, true, h);
  }

  lemma SourceInside(b: Bytes, regionTag: nat, exact: bool, tags: Tags, h: Blob, k: nat)
    requires Source(b, regionTag, exact, tags, h) && Loadable(b, h) && Loads(b, h) && k < |Members(Origin(b, h))|
    ensures Last(Members(Origin(b, h))[k]) <= SumTo(0, Members(Origin(b, h)))
  {
    hide SumTo, InfoAt, Len, Describes, SmallIn, Accepted;
    var ps := Members(Origin(b, h));
    if h.regionTag != 0 {
      LoadedPacked(b, regionTag, tags, h);
    } else {
      DescribedFit(b, DataStart(First(h)), DataStart(h.il), |b|, ps);
    }
  }

  /** A loaded entry is a member of the region. */
  lemma LoadedMember(b: Bytes, regionTag: nat, exact: bool, tags: Tags, h: Blob, k: nat)
    requires Source(b, regionTag, exact, tags, h) && Loadable(b, h) && Loads(b, h) && k < |Members(Origin(b, h))|
    ensures OriginOk(Origin(b, h)) && Members(Origin(b, h))[k].info.offset >= 0
    ensures var o := Origin(b, h);
            var p := Members(o)[k];
            MemberOf(Entry(p.info.tag, p.info.kind, RegionOf(o).offset, p.info.count, InBlob(DataStart(h.il) + p.info.offset), p.len, 0), RegionOf(o))
  {
    hide SumTo, InfoAt, Len, Loadable, SmallIn, Intro, RegionOf, Members, DataLength, Loads, OriginOk;
    var o := Origin(b, h);
    SourceOrigin(b, regionTag, exact, tags, h);
    RegionFacts(o);
    MemberFacts(o, k);
    var p := Members(o)[k];
    WholeUnits(p.info.kind, b, DataStart(h.il) + p.info.offset, p.info.count, |b|);
    SourceEntry(b, regionTag, exact, tags, h, k);
  }

  lemma SourceEntry(b: Bytes, regionTag: nat, exact: bool, tags: Tags, h: Blob, k: nat)
    requires Source(b, regionTag, exact, tags, h) && Loadable(b, h) && k < |Members(Origin(b, h))|
    ensures var p := Members(Origin(b, h))[k]; p.len > 0 && I18NTABLE <= p.info.tag < TAG_END
  {
    hide InfoAt, DataLength, Describes, Intro;
    assert Passes(b, h, tags, First(h) + k);
    assert EntryAt(b, First(h) + k).tag < TAG_END;
  }

  lemma ImportKept(b: Bytes, regionTag: nat, exact: bool, tags: Tags, h: Blob, index: seq<Entry>, c: Bytes, legacy: bool)
    requires Source(b, regionTag, exact, tags, h) && Loadable(b, h) && Loads(b, h)
    requires SwabbedData(c, b, h) && Imported(multiset(index), b, h) && (legacy <==> h.regionTag == 0)
    ensures Kept(index, c, legacy, Origin(b, h)) && Below(index, |b|)
  {
    hide Source, SumTo, SwabbedData, RegionOf, Members, Loads, IsDrip, MemberOf, OriginOk, Loadable, Imported, Listed;
    var o := Origin(b, h);
    SourceOrigin(b, regionTag, exact, tags, h);
    MembersNatural(o);
    var region := RegionOf(o);
    var members := Listed(Members(o), DataStart(h.il), region.offset);
    AllImported(b, regionTag, exact, tags, h, multiset(index));
    RegionFacts(o);
    LoadedMembers(b, regionTag, exact, tags, h);
    OneRegion(index, members, region);
    forall e | e in index ensures e.length <= |b| { assert e in multiset(index); }
  }

  lemma LoadedMembers(b: Bytes, regionTag: nat, exact: bool, tags: Tags, h: Blob)
    requires Source(b, regionTag, exact, tags, h) && Loadable(b, h) && Loads(b, h) && OriginOk(Origin(b, h))
    requires forall k :: 0 <= k < |Members(Origin(b, h))| ==> Members(Origin(b, h))[k].info.offset >= 0
    ensures var o := Origin(b, h);
            var members := Listed(Members(o), DataStart(h.il), RegionOf(o).offset);
            forall k :: 0 <= k < |members| ==> MemberOf(members[k], RegionOf(o)) && members[k].length <= |b|
  {
    hide Source, SumTo, RegionOf, Members, Loads, IsDrip, MemberOf, OriginOk, Loadable, InfoAt;
    var o := Origin(b, h);
    var members := Listed(Members(o), DataStart(h.il), RegionOf(o).offset);
    forall k | 0 <= k < |members| ensures MemberOf(members[k], RegionOf(o)) && members[k].length <= |b| {
      LoadedMember(b, regionTag, exact, tags, h, k);
      MemberFacts(o, k);
    }
  }

  lemma MembersNatural(o: Origin)
    requires o.Origin? && OriginOk(o)
    ensures forall k :: 0 <= k < |Members(o)| ==> Members(o)[k].info.offset >= 0
  {
    hide OriginOk, Members, SumTo, InfoAt, Loadable;
    OriginLoaded(o);
    forall k | 0 <= k < |Members(o)| ensures Members(o)[k].info.offset >= 0 { MemberFacts(o, k); }
  }

  lemma OneRegion(index: seq<Entry>, members: seq<Entry>, region: Entry)
    requires multiset(index) == multiset([region] + members) && IsRegionTag(region.tag)
    requires forall k :: 0 <= k < |members| ==> MemberOf(members[k], region)
    ensures multiset(index)[region] == 1 && forall e :: e in index ==> e == region || MemberOf(e, region)
  {
    hide DataShape;
    assert region !in members;
    assert multiset([region] + members) == multiset{region} + multiset(members);
    forall e | e in index ensures e == region || e in members { assert e in multiset(index); }
  }

  /** Without dribbles the loaded index is the region entry and all members. */
  lemma AllImported(b: Bytes, regionTag: nat, exact: bool, tags: Tags, h: Blob, index: multiset<Entry>)
    requires Source(b, regionTag, exact, tags, h) && Loadable(b, h) && Loads(b, h) && Imported(index, b, h)
    requires OriginOk(Origin(b, h)) && forall k :: 0 <= k < |Members(Origin(b, h))| ==> Members(Origin(b, h))[k].info.offset >= 0
    ensures var o := Origin(b, h);
            index == multiset([RegionOf(o)] + Listed(Members(o), DataStart(h.il), RegionOf(o).offset))
  {
    hide Accepted, SumTo, SmallIn, Describes, PiecesOf, Listed, Survivors, InfoAt;
    NoneListed(DataStart(h.il), -(INFO * h.il) + 1);
    assert PiecesOf(b, h.il, h.dl, h.il, h.il) == [];
    SplitOf(b, h, h.il);
    assert index - multiset([]) == index;
    NoneGone(index, multiset([RegionOf(Origin(b, h))] + Listed(Members(Origin(b, h)), DataStart(h.il), RegionOf(Origin(b, h)).offset)));
  }

  lemma NoneGone(now: multiset<Entry>, was: multiset<Entry>)
    ensures Survivors(now, was, []) ==> now == was
  {
    if Survivors(now, was, []) { assert forall e :: now[e] == was[e]; }
  }

  /* ---- The region on the way out ---- */

  /** out starts its index with the index of b and its data with the data of b. */
  ghost predicate RegionKept(out: Bytes, b: Bytes, h: Blob)
    requires Sized(b, h.il, h.dl)
  {
    && |out| >= 8
    && var ds, dc := DataStart(h.il), DataStart(U32(out, 0));
    && ds <= dc && dc + h.dl <= |out|
    && out[8..ds] == b[8..ds] && out[dc..dc + h.dl] == b[ds..]
  }

  lemma ExportedParts(o: Origin, es: seq<Entry>)
    requires OriginOk(o) && AllDrips(es) && ExportIl(o, es) <= TAGS_MAX
    ensures var out, pe, dc, n := Exported(o, es), 8 + INFO * RegionLen(o), DataStart(ExportIl(o, es)), |RegionData(o)|;
            && pe <= dc && dc + n <= |out| == dc + ExportDl(o, es)
            && U32(out, 0) == ExportIl(o, es)
            && out[8..pe] == RegionIndex(o) && out[dc..dc + n] == RegionData(o)
            && out[pe..dc] == IndexBytes(Laid(n, es)) && out[dc + n..] == DripBytes(n, es)
            && out[4..8] == Be32(ExportDl(o, es))
  {
    hide OriginOk, RegionIndex, RegionData, IndexBytes, DripBytes, Laid, SumTo, Be32, ExportDl, AllDrips, Exported, U32;
    ExportRoom(o, es);
    var at := |RegionData(o)|;
    var a, c, d, e, f, g := Be32(ExportIl(o, es)), Be32(ExportDl(o, es)), RegionIndex(o), IndexBytes(Laid(at, es)), RegionData(o), DripBytes(at, es);
    ExportedIs(o, es);
    SixParts(a, c, d, e, f, g);
    U32Same(Exported(o, es), 0, a, 0);
  }

  lemma ExportedIs(o: Origin, es: seq<Entry>)
    requires OriginOk(o) && AllDrips(es)
    ensures var at := |RegionData(o)|;
            Exported(o, es) == Be32(ExportIl(o, es)) + Be32(ExportDl(o, es)) + RegionIndex(o) + IndexBytes(Laid(at, es)) + RegionData(o) + DripBytes(at, es)
  {
    hide OriginOk, RegionIndex, RegionData, IndexBytes, DripBytes, Laid, SumTo, Be32, ExportDl, AllDrips;
  }

  lemma SixParts(a: Bytes, b: Bytes, c: Bytes, d: Bytes, e: Bytes, f: Bytes)
    requires |a| == 4 && |b| == 4
    ensures var r, i, j := a + b + c + d + e + f, 8 + |c|, 8 + |c| + |d|;
            r[0..4] == a == a[0..4] && r[4..8] == b && r[8..i] == c && r[i..j] == d && r[j..j + |e|] == e && r[j + |e|..] == f
  {
  }

  lemma ExportedKept(o: Origin, es: seq<Entry>)
    requires o.Origin? && OriginOk(o) && o.blob.regionTag != 0 && AllDrips(es) && ExportIl(o, es) <= TAGS_MAX
    ensures Sized(o.bytes, o.blob.il, o.blob.dl) && RegionKept(Exported(o, es), o.bytes, o.blob)
  {
    hide OriginOk, IndexBytes, DripBytes, Laid, SumTo, Be32, ExportDl, AllDrips, Exported, Loadable;
    OriginLoaded(o);
    RegionFacts(o);
    ExportedParts(o, es);
  }

  /** Load a blob of exactly its region, make any changes to other tags, and write the
      header out: the original index entries and data bytes come out unchanged.  It only
      fails if the blob does not load or the changes exceed a limit. */
  method RegionImmutable(b: array<byte>, h: Blob, ops: seq<Op>, ghost regionTag: nat, ghost tags: Tags)
    returns (out: Option<Bytes>, ghost es: seq<Entry>)
    requires Source(b[..], regionTag, true, tags, h) && h.regionTag != 0
    requires OpsOk(ops) && b.Length + OpsSize(ops) < WORD
    modifies b
    ensures Loadable(old(b[..]), h)
    ensures out.Some? ==> RegionKept(out.value, old(b[..]), h)
    ensures var o := Origin(old(b[..]), h);
            if !Loads(old(b[..]), h) then out.None?
            else OriginOk(o) && (out.Some? <==> ExportIl(o, es) <= TAGS_MAX && ExportDl(o, es) <= DATA_MAX)
  {
    hide Accepted, SumTo, SwabbedData, Kept, Imported, Loadable, Loads, Exported, OriginOk, Below, OpsOk, EntriesIn, ByTag, SmallIn,
         RegionKept, AllDrips, ExportDl, RegionPart;
    ghost var b0 := b[..];
    es := [];
    SourceSized(b0, regionTag, tags, h);
    var hdr := HdrblobImport(b, h, regionTag, true, tags);
    if hdr == null { return None, es; }
    ghost var o := Origin(b0, h);
    ImportKept(b0, regionTag, true, tags, h, hdr.index, b[..], hdr.legacy);
    Run(hdr, ops, o, b.Length);
    ghost var rest;
    out, es, rest := DoExport(hdr.index, hdr.blob, hdr.legacy, o);
    if out.Some? { ExportedKept(o, es); }
  }

  /** Without changes the very same blob comes out. */
  method Unchanged(b: array<byte>, h: Blob, ghost regionTag: nat, ghost tags: Tags) returns (out: Option<Bytes>)
    requires Source(b[..], regionTag, true, tags, h) && h.regionTag != 0
    modifies b
    ensures Loadable(old(b[..]), h)
    ensures out == if Loads(old(b[..]), h) then Some(old(b[..])) else None
  {
    hide Accepted, SumTo, SwabbedData, Kept, Imported, Loadable, Loads, Exported, OriginOk, Below, EntriesIn, ByTag, SmallIn,
         AllDrips, ExportDl, RegionPart;
    ghost var b0 := b[..];
    SourceSized(b0, regionTag, tags, h);
    var hdr := HdrblobImport(b, h, regionTag, true, tags);
    if hdr == null { return None; }
    ghost var o := Origin(b0, h);
    ImportKept(b0, regionTag, true, tags, h, hdr.index, b[..], hdr.legacy);
    MembersOnly(b0, regionTag, true, tags, h, hdr.index);
    ghost var es, rest;
    out, es, rest := DoExport(hdr.index, hdr.blob, hdr.legacy, o);
    NothingAdded(hdr.index, rest, es);
    SameBlob(b0, regionTag, tags, h);
  }

  lemma MembersOnly(b: Bytes, regionTag: nat, exact: bool, tags: Tags, h: Blob, index: seq<Entry>)
    requires Source(b, regionTag, exact, tags, h) && Loadable(b, h) && Loads(b, h) && Imported(multiset(index), b, h)
    ensures forall e :: e in index ==> e.offset < 0
  {
    hide Source, SumTo, Members, Loads, OriginOk, Loadable, Imported, RegionOf;
    var o := Origin(b, h);
    SourceOrigin(b, regionTag, exact, tags, h);
    MembersNatural(o);
    AllImported(b, regionTag, exact, tags, h, multiset(index));
    RegionFacts(o);
    forall e | e in index ensures e.offset < 0 { assert e in multiset(index); }
  }

  lemma NothingAdded(index: seq<Entry>, rest: seq<Entry>, es: seq<Entry>)
    requires multiset(index) == multiset(rest) + multiset(es) && AllDrips(es) && forall e :: e in index ==> e.offset < 0
    ensures es == []
  {
    DripsFrom(index, rest, es);
  }

  lemma DripsFrom(index: seq<Entry>, rest: seq<Entry>, es: seq<Entry>)
    requires multiset(index) == multiset(rest) + multiset(es) && AllDrips(es)
    ensures es != [] ==> exists e :: e in index && e.offset == 0
  {
    hide DataShape;
    if es != [] {
      assert es[0] in multiset(es) && es[0] in multiset(index) && IsDrip(es[0]);
    }
  }

  lemma SameBlob(b: Bytes, regionTag: nat, tags: Tags, h: Blob)
    requires Source(b, regionTag, true, tags, h) && h.regionTag != 0 && Loadable(b, h) && Loads(b, h) && OriginOk(Origin(b, h)) && AllDrips([])
    ensures var o := Origin(b, h); Exported(o, []) == b && ExportIl(o, []) <= TAGS_MAX && ExportDl(o, []) <= DATA_MAX
  {
    hide Source, Loadable, Loads, OriginOk, Be32, SumTo, Laid, IndexBytes, DripBytes, AllDrips, U32;
    var o, ds := Origin(b, h), DataStart(h.il);
    NoDrips(|RegionData(o)|);
    SourceIntro(b, regionTag, tags, h);
    Be32OfU32(b, 0);
    Be32OfU32(b, 4);
    FourParts(b, ds);
  }

  lemma SourceIntro(b: Bytes, regionTag: nat, tags: Tags, h: Blob)
    requires Source(b, regionTag, true, tags, h)
    ensures Sized(b, h.il, h.dl) && U32(b, 0) == h.il <= TAGS_MAX && U32(b, 4) == h.dl <= DATA_MAX
  {
    hide InfoOk, VerifyRegion, SmallIn;
  }

  lemma FourParts(b: Bytes, ds: nat)
    requires 8 <= ds <= |b|
    ensures b == b[0..4] + b[4..8] + b[8..ds] + [] + b[ds..] + []
  {
  }

  lemma SourceSized(b: Bytes, regionTag: nat, tags: Tags, h: Blob)
    requires Source(b, regionTag, true, tags, h)
    ensures Sized(b, h.il, h.dl)
  {
  }

  /* ---- The digest ---- */

  /** The bytes hdrblobDigestUpdate feeds to a digest. */
  ghost function DigestInput(b: Bytes, h: Blob): Bytes
    requires Sized(b, h.il, h.dl) && h.ril <= h.il && h.rdl <= h.dl
  {
    [0x8e, 0xad, 0xe8, 0x01, 0, 0, 0, 0] + Be32(h.ril) + Be32(h.rdl)
    + b[8..DataStart(h.ril)] + b[DataStart(h.il)..DataStart(h.il) + h.rdl]
  }

  /** Digests are taken over all of the region: equal inputs have the same numbers of entries and
      bytes, the same entries and the same data. */
  lemma DigestPins(a: Bytes, h: Blob, b: Bytes, k: Blob)
    requires Sized(a, h.il, h.dl) && h.ril <= h.il && h.rdl <= h.dl && h.ril < WORD && h.rdl < WORD
    requires Sized(b, k.il, k.dl) && k.ril <= k.il && k.rdl <= k.dl && k.ril < WORD && k.rdl < WORD
    requires DigestInput(a, h) == DigestInput(b, k)
    ensures h.ril == k.ril && h.rdl == k.rdl
    ensures a[8..8 + 16 * h.ril] == b[8..8 + 16 * h.ril]
    ensures a[8 + 16 * h.il..8 + 16 * h.il + h.rdl] == b[8 + 16 * k.il..8 + 16 * k.il + h.rdl]
  {
    hide DigestInput, Be32, U32;
    DigestParts(a, h);
    DigestParts(b, k);
    U32Same(Be32(h.ril), 0, Be32(k.ril), 0);
    U32Same(Be32(h.rdl), 0, Be32(k.rdl), 0);
  }

  lemma DigestParts(a: Bytes, h: Blob)
    requires Sized(a, h.il, h.dl) && h.ril <= h.il && h.rdl <= h.dl
    ensures var x, n := DigestInput(a, h), 16 + 16 * h.ril;
            && |x| == n + h.rdl && x[8..12] == Be32(h.ril) && x[12..16] == Be32(h.rdl)
            && x[16..n] == a[8..8 + 16 * h.ril] && x[n..] == a[8 + 16 * h.il..8 + 16 * h.il + h.rdl]
  {
    hide Be32;
    PartsAt([0x8e, 0xad, 0xe8, 0x01, 0, 0, 0, 0], Be32(h.ril), Be32(h.rdl), a[8..DataStart(h.ril)], a[DataStart(h.il)..DataStart(h.il) + h.rdl]);
  }

  lemma PartsAt(m: Bytes, p: Bytes, q: Bytes, e: Bytes, d: Bytes)
    requires |m| == 8 && |p| == |q| == 4
    ensures var x, n := m + p + q + e + d, 16 + |e|;
            |x| == n + |d| && x[8..12] == p && x[12..16] == q && x[16..n] == e && x[n..] == d
  {
  }

  /** If the new blob is read with its region, the digest is taken over the same bytes. */
  lemma DigestKept(b: Bytes, regionTag: nat, tags: Tags, h: Blob, out: Bytes, newTag: nat, exact: bool, h': Blob)
    requires Source(b, regionTag, true, tags, h) && h.regionTag != 0 && Loadable(b, h) && Loads(b, h)
    requires RegionKept(out, b, h) && Intro(out, newTag, exact) == Some(h') && (newTag == 0 || newTag == h.regionTag)
    ensures h'.regionTag == h.regionTag && h'.ril == h.ril <= h'.il && h'.rdl == h.rdl <= h'.dl
    ensures h.ril <= h.il && h.rdl <= h.dl && DigestInput(out, h') == DigestInput(b, h)
  {
    hide InfoOk, InfoAt, Be32, SumTo, Loadable, PiecesOf;
    SameRegion(b, regionTag, tags, h, out);
    SourceTag(b, regionTag, tags, h);
  }

  lemma SourceTag(b: Bytes, regionTag: nat, tags: Tags, h: Blob)
    requires Source(b, regionTag, true, tags, h) && h.regionTag != 0
    ensures IsRegionTag(h.regionTag) && h.ril == h.il && h.rdl == h.dl == Start(b, 0) + INFO
  {
    hide Accepted, VerifyRegion;
    AcceptedRegion(b, regionTag, true, tags, h);
    AcceptedLayout(b, regionTag, true, tags, h);
  }

  /** The first entry and the trailer read the same. */
  lemma SameRegion(b: Bytes, regionTag: nat, tags: Tags, h: Blob, out: Bytes)
    requires Source(b, regionTag, true, tags, h) && h.regionTag != 0 && Loadable(b, h) && Loads(b, h) && RegionKept(out, b, h)
    ensures var ds, dc, at := DataStart(h.il), DataStart(U32(out, 0)), Start(b, 0);
            && 24 <= ds <= dc && 0 <= at && dc + at + INFO <= |out| && ds + at + INFO <= |b|
            && InfoAt(out, 8) == InfoAt(b, 8) && InfoAt(out, dc + at) == InfoAt(b, ds + at)
  {
    hide Accepted, InfoAt, SumTo, PiecesOf, Describes, SmallIn;
    SourceTag(b, regionTag, tags, h);
    var ds, dc, at := DataStart(h.il), DataStart(U32(out, 0)), Start(b, 0);
    SubSlice(out, 8, ds, 0, INFO);
    SubSlice(b, 8, ds, 0, INFO);
    InfoAtSame(out, 8, b, 8);
    SubSlice(out, dc, dc + h.dl, at, at + INFO);
    SubSlice(b, ds, ds + h.dl, at, at + INFO);
    assert b[ds..] == b[ds..ds + h.dl];
    InfoAtSame(out, dc + at, b, ds + at);
  }
}
