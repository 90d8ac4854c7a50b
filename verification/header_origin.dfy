/** A header with an immutable region: what every change to it keeps, and the region
    as it is written back (doExport, lib/header.cc). */
module HeaderOrigin {
  import opened Common
  import opened HeaderBytes
  import opened HeaderBlob
  import opened HeaderSwab
  import opened HeaderPieces
  import opened HeaderStore
  import opened HeaderImport
  import opened HeaderDrips

  /** The blob a header was loaded from, as it was on disk. */
  datatype Origin = NoRegion | Origin(bytes: Bytes, blob: Blob)

  ghost function Members(o: Origin): seq<Piece>
    requires o.Origin? && Loadable(o.bytes, o.blob)
  {
    PiecesOf(o.bytes, o.blob.il, o.blob.dl, First(o.blob), o.blob.il)
  }

  /** An exact-size region, or a header without one: loaded, no dribbles, all data before the trailer. */
  ghost predicate OriginOk(o: Origin) {
    o.Origin? ==>
      && Loadable(o.bytes, o.blob) && Loads(o.bytes, o.blob)
      && (o.blob.regionTag != 0 ==> Announced(o))
      && (forall k :: 0 <= k < |Members(o)| ==> Last(Members(o)[k]) <= SumTo(0, Members(o)))
  }

  ghost predicate Announced(o: Origin)
    requires o.Origin? && Loadable(o.bytes, o.blob)
  {
    var e := EntryAt(o.bytes, 0);
    RegionCount(o.bytes, o.blob) == o.blob.il && IsRegionTag(e.tag) && e.kind == BIN_TYPE && e.count == INFO && e.offset == o.blob.dl - INFO
  }

  ghost function RegionOf(o: Origin): Entry
    requires o.Origin? && Loadable(o.bytes, o.blob)
  {
    RegionEntry(o.bytes, o.blob, SumTo(0, Members(o)))
  }

  /** A loaded entry that was not touched since. */
  ghost predicate MemberOf(e: Entry, region: Entry) {
    && e.offset == region.offset && !IsRegionTag(e.tag) && e.tag < TAG_END
    && e.data.InBlob? && e.data.at > 8 && e.length > 0 && DataShape(e)
  }

  /** What any sequence of changes keeps: the loaded bytes, one region entry, and beside
      it only untouched members of the region and drips. */
  ghost predicate Kept(index: seq<Entry>, blob: Bytes, legacy: bool, o: Origin) {
    && OriginOk(o)
    && if o.NoRegion? then !legacy && forall e :: e in index ==> IsDrip(e)
       else
         && (legacy <==> o.blob.regionTag == 0)
         && SwabbedData(blob, o.bytes, o.blob)
         && multiset(index)[RegionOf(o)] == 1
         && forall e :: e in index ==> e == RegionOf(o) || MemberOf(e, RegionOf(o)) || IsDrip(e)
  }

  /* ---- The region on disk ---- */

  ghost function RegionHead(o: Origin): Info
    requires o.Origin? && OriginOk(o)
  {
    Info(RegionOf(o).tag, BIN_TYPE, SumTo(0, Members(o)), INFO)
  }

  /** The index of the region: as it was, or with a new first entry. */
  ghost function RegionIndex(o: Origin): Bytes
    requires OriginOk(o)
  {
    if o.NoRegion? then []
    else if o.blob.regionTag != 0 then o.bytes[8..DataStart(o.blob.il)]
    else InfoBytes(RegionHead(o)) + o.bytes[8..DataStart(o.blob.il)]
  }

  /** The data of the region: as it was, or with a new trailer. */
  ghost function RegionData(o: Origin): Bytes
    requires OriginOk(o)
  {
    if o.NoRegion? then []
    else if o.blob.regionTag != 0 then o.bytes[DataStart(o.blob.il)..]
    else o.bytes[DataStart(o.blob.il)..] + InfoBytes(NewTrailer(o))
  }

  ghost function NewTrailer(o: Origin): Info
    requires o.Origin?
  {
    Info(IMAGE, BIN_TYPE, -(INFO * (o.blob.il + 1)), INFO)
  }

  /** Number of index entries of the region. */
  ghost function RegionLen(o: Origin): nat {
    if o.NoRegion? then 0 else if o.blob.regionTag != 0 then o.blob.il else o.blob.il + 1
  }

  lemma RegionSizes(o: Origin)
    requires OriginOk(o)
    ensures |RegionIndex(o)| == INFO * RegionLen(o)
    ensures o.Origin? ==> |RegionData(o)| == SumTo(0, Members(o)) + INFO && |Members(o)| == RegionLen(o) - 1
    ensures o.NoRegion? ==> RegionData(o) == []
  {
    hide Describes, SumTo, SmallIn;
  }

  lemma {:induction false} SumShift(n: nat, ps: seq<Piece>)
    requires n % 8 == 0
    ensures SumTo(n, ps) == n + SumTo(0, ps)
    decreases |ps|
  {
    hide AlignDiff;
    if ps != [] {
      SumShift(n, ps[..|ps| - 1]);
      AlignShift(ps[|ps| - 1].info.kind, SumTo(0, ps[..|ps| - 1]), n / 8);
    }
  }

  /** The region's own entry counts like 16 bytes before all others. */
  lemma SumHead(q: Piece, ps: seq<Piece>)
    requires q.info.kind == BIN_TYPE && q.len == INFO
    ensures SumTo(0, [q] + ps) == INFO + SumTo(0, ps)
  {
    hide SumTo, AlignDiff;
    SumAppend(0, [q], ps);
    SumOne(q);
    SumShift(INFO, ps);
  }

  lemma SumOne(q: Piece)
    requires q.info.kind == BIN_TYPE && q.len == INFO
    ensures SumTo(0, [q]) == INFO
  {
    assert [q][..0] == [];
  }

  /* ---- Writing the region back ---- */

  /** c holds the region with its data still in host order: the index from 8, the data from dc. */
  ghost predicate Copied(o: Origin, c: Bytes, dc: nat)
    requires o.Origin? && OriginOk(o)
  {
    var h, n := o.blob, SumTo(0, Members(o));
    && 8 + INFO * RegionLen(o) <= dc && dc + n + INFO <= |c|
    && c[8..24] == InfoBytes(RegionHead(o))
    && c[24..8 + INFO * RegionLen(o)] == o.bytes[DataStart(First(h))..DataStart(h.il)]
    && AllFit(Members(o), DataStart(h.il), |o.bytes|) && DataStart(h.il) + n <= |o.bytes|
    && c[dc..dc + n] == Swabbed(o.bytes, DataStart(h.il), Members(o))[DataStart(h.il)..DataStart(h.il) + n]
  }

  function HeadPiece(i: Info): Piece { Piece(i, INFO) }

  /** The facts about the members that the proofs below need. */
  lemma MemberFacts(o: Origin, k: nat)
    requires o.Origin? && OriginOk(o) && k < |Members(o)|
    ensures Loadable(o.bytes, o.blob)
    ensures var p, h := Members(o)[k], o.blob;
            && p.info == EntryAt(o.bytes, First(h) + k) && PieceOk(o.bytes, DataStart(h.il), |o.bytes|, p)
            && Last(p) <= SumTo(0, Members(o)) <= h.dl <= DATA_MAX && Fits(p, DataStart(h.il), |o.bytes|)
    ensures AllApart(Members(o)) && AllFit(Members(o), DataStart(o.blob.il), |o.bytes|)
  {
    hide SumTo, PieceOk, SmallIn, InfoAt;
    var h, ds := o.blob, DataStart(o.blob.il);
    DescribedFit(o.bytes, DataStart(First(h)), ds, |o.bytes|, Members(o));
    assert DataStart(First(h)) + INFO * k == DataStart(First(h) + k);
  }

  lemma MemberBytes(o: Origin, c: Bytes, dc: nat, k: nat)
    requires o.Origin? && OriginOk(o) && Copied(o, c, dc) && k < |Members(o)| && Width(Members(o)[k].info.kind) == 1
    ensures var p, ds := Members(o)[k], DataStart(o.blob.il);
            && 0 <= p.info.offset && dc + Last(p) <= |c| && ds + Last(p) <= |o.bytes|
            && c[dc + p.info.offset..dc + p.info.offset + p.len] == o.bytes[ds + p.info.offset..ds + p.info.offset + p.len]
  {
    hide SumTo, InfoAt, PieceOk, OriginOk, Swabbed, AllApart, Members, InfoBytes, RegionHead, EntryAt, Loadable;
    MemberFacts(o, k);
    var p, ds, n := Members(o)[k], DataStart(o.blob.il), SumTo(0, Members(o));
    var w := Swabbed(o.bytes, ds, Members(o));
    SwabbedNarrow(o.bytes, ds, Members(o), k);
    SubSlice(c, dc, dc + n, p.info.offset, p.info.offset + p.len);
    SubSlice(w, ds, ds + n, p.info.offset, p.info.offset + p.len);
  }

  lemma MemberPiece(o: Origin, c: Bytes, dc: nat, k: nat)
    requires o.Origin? && OriginOk(o) && Copied(o, c, dc) && k < |Members(o)|
    ensures PieceOk(c, dc, |c|, Members(o)[k])
  {
    hide SumTo, InfoAt, OriginOk, Copied, Swabbed, AllApart, Members, AllFit, StrLen, Loadable;
    MemberFacts(o, k);
    var p, ds := Members(o)[k], DataStart(o.blob.il);
    assert dc + SumTo(0, Members(o)) + INFO <= |c| by { CopiedRoom(o, c, dc); }
    var at, ac := ds + p.info.offset, dc + p.info.offset;
    if IsString(p.info.kind) {
      MemberBytes(o, c, dc, k);
      DataLengthSame(p.info.kind, o.bytes, at, p.info.count, |o.bytes|, c, ac, |c|);
    }
  }

  lemma CopiedRoom(o: Origin, c: Bytes, dc: nat)
    requires o.Origin? && OriginOk(o) && Copied(o, c, dc)
    ensures 8 + INFO * RegionLen(o) <= dc && dc + SumTo(0, Members(o)) + INFO <= |c| && |Members(o)| == RegionLen(o) - 1
  {
    hide SumTo, InfoAt, Swabbed, AllFit, InfoBytes, RegionHead, Loadable;
    RegionSizes(o);
  }

  lemma MemberInfo(o: Origin, c: Bytes, dc: nat, k: nat)
    requires o.Origin? && OriginOk(o) && Copied(o, c, dc) && k < |Members(o)|
    ensures 24 + INFO * k + INFO <= |c| && Members(o)[k].info == InfoAt(c, 24 + INFO * k)
  {
    hide SumTo, InfoAt, OriginOk, Swabbed, AllFit, InfoBytes, RegionHead, Members, Loadable;
    MemberFacts(o, k);
    CopiedRoom(o, c, dc);
    var h, len := o.blob, INFO * (RegionLen(o) - 1);
    var lo := DataStart(First(h));
    SubSlice(c, 24, 24 + len, INFO * k, INFO * k + INFO);
    SubSlice(o.bytes, lo, lo + len, INFO * k, INFO * k + INFO);
    InfoAtSame(c, 24 + INFO * k, o.bytes, lo + INFO * k);
    assert lo + INFO * k == DataStart(First(h) + k);
  }

  lemma HeadOk(o: Origin, c: Bytes, dc: nat)
    requires o.Origin? && OriginOk(o) && Copied(o, c, dc)
    ensures InfoAt(c, 8) == RegionHead(o) && dc <= |c| && PieceOk(c, dc, |c|, HeadPiece(RegionHead(o)))
  {
    hide SumTo, InfoAt, Swabbed, AllFit, InfoBytes, Members, Describes, SmallIn, Len;
    RegionFacts(o);
    InfoOfBytes(c, 8, RegionHead(o));
    CopiedRoom(o, c, dc);
  }

  lemma RegionFacts(o: Origin)
    requires o.Origin? && OriginOk(o)
    ensures SumTo(0, Members(o)) <= o.blob.dl <= DATA_MAX && IsRegionTag(RegionOf(o).tag) && o.blob.il > 0
    ensures RegionOf(o).kind == BIN_TYPE && RegionOf(o).count == INFO && RegionOf(o).data == InBlob(8)
    ensures RegionOf(o).rdlen == SumTo(0, Members(o)) && RegionOf(o).length == |o.bytes| - 8 > 0
    ensures RegionOf(o).offset == -(INFO * o.blob.il) && |o.bytes| == DataStart(o.blob.il) + o.blob.dl
    ensures o.blob.dl == SumTo(0, Members(o)) + if o.blob.regionTag != 0 then INFO else 0
  {
    hide SumTo, InfoAt, Describes, SmallIn, PiecesOf;
  }

  lemma OriginLoaded(o: Origin)
    requires o.Origin? && OriginOk(o)
    ensures Loadable(o.bytes, o.blob)
  {
  }

  lemma RegionDescribes(o: Origin, c: Bytes, dc: nat)
    requires o.Origin? && OriginOk(o) && Copied(o, c, dc)
    ensures Describes(c, 8, dc, |c|, [HeadPiece(RegionHead(o))] + Members(o))
  {
    hide SumTo, InfoAt, OriginOk, Copied, PieceOk, Members, Loadable, RegionHead, Apart;
    CopiedRoom(o, c, dc);
    HeadOk(o, c, dc);
    OriginLoaded(o);
    var q, ps := HeadPiece(RegionHead(o)), Members(o);
    var all := [q] + ps;
    forall k | 0 <= k < |all| ensures all[k].info == InfoAt(c, 8 + INFO * k) && PieceOk(c, dc, |c|, all[k]) {
      if k > 0 {
        assert all[k] == ps[k - 1];
        MemberInfo(o, c, dc, k - 1);
        MemberPiece(o, c, dc, k - 1);
      }
    }
    forall j, k | 0 <= j < k < |all| ensures Apart(all[j], all[k]) {
      assert all[k] == ps[k - 1];
      MemberFacts(o, k - 1);
      if j > 0 { assert all[j] == ps[j - 1]; } else { HeadApart(o, k - 1); }
    }
  }

  lemma HeadApart(o: Origin, k: nat)
    requires o.Origin? && OriginOk(o) && k < |Members(o)|
    ensures Apart(HeadPiece(RegionHead(o)), Members(o)[k])
  {
    hide SumTo, Members, Loadable, RegionOf;
  }

  /** Swapping the copied region gives the original bytes back. */
  lemma RegionRestored(o: Origin, c: Bytes, dc: nat)
    requires o.Origin? && OriginOk(o) && Copied(o, c, dc)
    ensures var n, ds := SumTo(0, Members(o)), DataStart(o.blob.il);
            && 8 + INFO * RegionLen(o) <= dc && dc + n + INFO <= |c| && ds + n <= |o.bytes|
            && var r := SwabAll(c, 8, dc, |c|, 0, 0, RegionLen(o));
            && r.Some? && r.value.dl == n + INFO
            && r.value.bytes[dc..dc + n] == o.bytes[ds..ds + n]
            && r.value.bytes[dc + n..dc + n + INFO] == c[dc + n..dc + n + INFO]
            && forall y :: 0 <= y < |c| && !(dc <= y < dc + n + INFO) ==> r.value.bytes[y] == c[y]
  {
    hide SumTo, InfoAt, OriginOk, Copied, PieceOk, Members, Loadable, Describes, Swabbed, AllFit, AllApart, SwabAll, Listed, RegionHead;
    OriginLoaded(o);
    var q, ps, ds, n := HeadPiece(RegionHead(o)), Members(o), DataStart(o.blob.il), SumTo(0, Members(o));
    CopiedRoom(o, c, dc);
    RegionDescribes(o, c, dc);
    DescribedFit(c, 8, dc, |c|, [q] + ps);
    SwabAllPieces(c, 8, dc, |c|, 0, 0, [q] + ps);
    SumHead(q, ps) by { HeadShape(o); }
    RestoredData(o, c, dc);
    HeadShape(o);
    SwabbedNarrow(c, dc, [q] + ps, 0);
    forall y | 0 <= y < |c| && !(dc <= y < dc + n + INFO) ensures Swabbed(c, dc, [q] + ps)[y] == c[y] {
      forall k | 0 <= k < |[q] + ps| ensures !Inside(([q] + ps)[k], dc, y) {
        if k > 0 { assert ([q] + ps)[k] == ps[k - 1]; MemberFacts(o, k - 1); }
      }
      SwabbedOut(c, dc, [q] + ps, y);
    }
  }

  lemma HeadShape(o: Origin)
    requires o.Origin? && OriginOk(o)
    ensures var i := RegionHead(o); i.kind == BIN_TYPE && i.offset == SumTo(0, Members(o)) && Width(i.kind) == 1
  {
    hide SumTo, Members, Loadable;
  }

  lemma RestoredData(o: Origin, c: Bytes, dc: nat)
    requires o.Origin? && OriginOk(o) && Copied(o, c, dc)
    requires var all := [HeadPiece(RegionHead(o))] + Members(o); AllFit(all, dc, |c|) && AllApart(all)
    ensures var n, ds := SumTo(0, Members(o)), DataStart(o.blob.il);
            && dc + n <= |c| && ds + n <= |o.bytes|
            && Swabbed(c, dc, [HeadPiece(RegionHead(o))] + Members(o))[dc..dc + n] == o.bytes[ds..ds + n]
  {
    hide SumTo, InfoAt, PieceOk, Members, Loadable, Describes, Swabbed, AllFit, AllApart, RegionHead, OriginOk, InfoBytes;
    HeadShape(o);
    OriginLoaded(o);
    var ps, n, ds := Members(o), SumTo(0, Members(o)), DataStart(o.blob.il);
    forall k | 0 <= k < |ps| ensures Last(ps[k]) <= n { MemberFacts(o, k); }
    MembersApart(o);
    SwabTwice(o.bytes, ds, c, dc, ps, HeadPiece(RegionHead(o)), n);
  }

  lemma MembersApart(o: Origin)
    requires o.Origin? && OriginOk(o)
    ensures AllApart(Members(o)) && AllFit(Members(o), DataStart(o.blob.il), |o.bytes|)
  {
    hide SumTo, PieceOk, SmallIn, InfoAt;
    DescribedFit(o.bytes, DataStart(First(o.blob)), DataStart(o.blob.il), |o.bytes|, Members(o));
  }
}
