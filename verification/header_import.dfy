/** Loading an accepted blob into a header (hdrblobImport, lib/header.cc). */
module HeaderImport {
  import opened Common
  import opened HeaderBytes
  import opened HeaderBlob
  import opened HeaderSwab
  import opened HeaderPieces
  import opened HeaderStore

  /* ---- The pieces of an accepted blob ---- */

  /** Entries lo to hi - 1 with their data lengths. */
  function PiecesOf(b: Bytes, il: nat, dl: nat, lo: nat, hi: nat): (ps: seq<Piece>)
    requires Sized(b, il, dl) && lo <= hi <= il
    ensures |ps| == hi - lo
  {
    seq(hi - lo, k requires 0 <= k < hi - lo =>
      var len := Len(b, il, dl, lo + k); Piece(EntryAt(b, lo + k), if len.Some? then len.value else 0))
  }

  lemma PassesPiece(b: Bytes, h: Blob, tags: Tags, i: nat)
    requires Sized(b, h.il, h.dl) && First(h) <= i < h.il && h.dl <= DATA_MAX && Passes(b, h, tags, i)
    ensures Len(b, h.il, h.dl, i).Some?
    ensures PieceOk(b, DataStart(h.il), DataStart(h.il) + h.dl, Piece(EntryAt(b, i), Len(b, h.il, h.dl, i).value))
  {
    hide InfoAt, DataLength;
  }

  lemma AcceptedDescribes(b: Bytes, regionTag: nat, exact: bool, tags: Tags, h: Blob, lo: nat, hi: nat)
    requires Accepted(b, regionTag, exact, tags, h) && First(h) <= lo <= hi <= h.il
    ensures var ds := DataStart(h.il); Describes(b, DataStart(lo), ds, ds + h.dl, PiecesOf(b, h.il, h.dl, lo, hi))
  {
    hide Passes, VerifyRegion, PieceOk, InfoAt, Len;
    AcceptedLayout(b, regionTag, exact, tags, h);
    var ps, ds := PiecesOf(b, h.il, h.dl, lo, hi), DataStart(h.il);
    forall k | 0 <= k < |ps| ensures ps[k].info == InfoAt(b, DataStart(lo) + INFO * k) && PieceOk(b, ds, ds + h.dl, ps[k]) {
      assert Passes(b, h, tags, lo + k);
      PassesPiece(b, h, tags, lo + k);
      assert DataStart(lo + k) == DataStart(lo) + INFO * k;
    }
    forall j, k | 0 <= j < k < |ps| ensures Apart(ps[j], ps[k]) {
      assert InOrder(b, h, lo + j, lo + k);
      assert Passes(b, h, tags, lo + j);
      PassesPiece(b, h, tags, lo + j);
    }
  }

  lemma {:induction false} SumAppend(dl: nat, ps: seq<Piece>, qs: seq<Piece>)
    ensures SumTo(dl, ps + qs) == SumTo(SumTo(dl, ps), qs)
    decreases |qs|
  {
    if qs == [] {
      assert ps + qs == ps;
    } else {
      var n := |qs| - 1;
      SumAppend(dl, ps, qs[..n]);
      assert (ps + qs)[..|ps + qs| - 1] == ps + qs[..n];
    }
  }

  lemma {:induction false} SwabbedAppend(b: Bytes, ds: nat, ps: seq<Piece>, qs: seq<Piece>)
    requires AllFit(ps, ds, |b|) && AllFit(qs, ds, |b|) && AllFit(ps + qs, ds, |b|)
    ensures Swabbed(Swabbed(b, ds, ps), ds, qs) == Swabbed(b, ds, ps + qs)
    decreases |qs|
  {
    hide SwabAt;
    if qs == [] {
      assert ps + qs == ps;
    } else {
      var n := |qs| - 1;
      assert (ps + qs)[..|ps + qs| - 1] == ps + qs[..n];
      SwabbedAppend(b, ds, ps, qs[..n]);
    }
  }

  /** The later entries look the same once the earlier ones are swapped. */
  lemma DescribesAfter(b: Bytes, pe: nat, ds: nat, end: nat, ps: seq<Piece>, qs: seq<Piece>)
    requires Describes(b, pe, ds, end, ps + qs)
    ensures AllFit(ps, ds, |b|) && AllFit(qs, ds, |b|) && AllFit(ps + qs, ds, |b|)
    ensures Describes(b, pe, ds, end, ps) && Describes(Swabbed(b, ds, ps), pe + INFO * |ps|, ds, end, qs)
  {
    hide InfoAt, PieceOk, Swabbed, Apart, Fits;
    DescribedFit(b, pe, ds, end, ps + qs);
    SplitPieces(b, ds, ps, qs);
    assert forall k :: 0 <= k < |ps| ==> ps[k] == (ps + qs)[k];
    forall k | 0 <= k < |qs|
      ensures qs[k].info == InfoAt(Swabbed(b, ds, ps), pe + INFO * |ps| + INFO * k) && PieceOk(Swabbed(b, ds, ps), ds, end, qs[k])
    {
      assert qs[k] == (ps + qs)[|ps| + k];
      AfterOne(b, pe + INFO * (|ps| + k), ds, end, ps, qs[k]);
      assert pe + INFO * |ps| + INFO * k == pe + INFO * (|ps| + k);
    }
  }

  lemma SplitPieces(b: Bytes, ds: nat, ps: seq<Piece>, qs: seq<Piece>)
    requires AllFit(ps + qs, ds, |b|) && AllApart(ps + qs)
    ensures AllFit(ps, ds, |b|) && AllFit(qs, ds, |b|) && AllApart(ps) && AllApart(qs)
    ensures forall j, k :: 0 <= j < |ps| && 0 <= k < |qs| ==> Apart(ps[j], qs[k])
  {
    hide Apart, Fits;
    var all, n := ps + qs, |ps|;
    assert forall k :: 0 <= k < n ==> ps[k] == all[k];
    forall k | 0 <= k < |qs| ensures Fits(qs[k], ds, |b|) { assert qs[k] == all[n + k]; }
    forall j, k | 0 <= j < |ps| && 0 <= k < |qs| ensures Apart(ps[j], qs[k]) { assert qs[k] == all[n + k]; }
    forall j, k | 0 <= j < k < |qs| ensures Apart(qs[j], qs[k]) { assert qs[j] == all[n + j] && qs[k] == all[n + k]; }
  }

  lemma AfterOne(b: Bytes, p: nat, ds: nat, end: nat, ps: seq<Piece>, q: Piece)
    requires p + INFO <= ds <= end <= |b| && AllFit(ps, ds, |b|) && Fits(q, ds, |b|)
    requires (forall k :: 0 <= k < |ps| ==> Apart(ps[k], q)) && PieceOk(b, ds, end, q) && q.info == InfoAt(b, p)
    ensures q.info == InfoAt(Swabbed(b, ds, ps), p) && PieceOk(Swabbed(b, ds, ps), ds, end, q)
  {
    hide InfoAt, DataLength, Swabbed;
    var c, at := Swabbed(b, ds, ps), ds + q.info.offset;
    forall y | 0 <= y < ds ensures b[y] == c[y] { SwabbedOut(b, ds, ps, y); }
    IndexKept(b, c, ds, p);
    SwabbedSlice(b, ds, ps, q);
    DataLengthSame(q.info.kind, b, at, q.info.count, end, c, at, end);
  }

  /* ---- hdrblobImport ---- */

  const BASENAMES := 1117
  const OLDFILENAMES := 1027

  /** Number of entries in the region, itself included. */
  function RegionCount(b: Bytes, h: Blob): nat
    requires Sized(b, h.il, h.dl) && h.il > 0
  {
    if Start(b, 0) != 0 then h.ril else h.il
  }

  /** The entry that stands for the region: made up for a header that has none. */
  function RegionEntry(b: Bytes, h: Blob, rdlen: nat): Entry
    requires Sized(b, h.il, h.dl) && h.il > 0
  {
    if h.regionTag == 0 then Entry(IMAGE, BIN_TYPE, -(INFO * h.il), INFO, InBlob(8), |b| - 8, rdlen)
    else Entry(EntryAt(b, 0).tag, EntryAt(b, 0).kind, -(INFO * RegionCount(b, h)), EntryAt(b, 0).count, InBlob(8), |b| - 8, rdlen)
  }

  /** The data area holds the entries, aligned one after the other, and the trailer. */
  ghost predicate Loads(b: Bytes, h: Blob)
    requires Sized(b, h.il, h.dl) && h.il > 0
  {
    if h.regionTag == 0 then SumTo(0, PiecesOf(b, h.il, h.dl, 0, h.il)) == h.dl
    else RegionCount(b, h) > 0 && SumTo(0, PiecesOf(b, h.il, h.dl, 1, h.il)) + INFO == h.dl
  }

  ghost predicate SmallIn(b: Bytes, il: nat) {
    DataStart(il) <= |b| && forall i {:trigger EntryAt(b, i)} :: 0 <= i < il ==> EntryAt(b, i).tag < TAG_END
  }

  /** The tags a dribble takes the place of. */
  predicate Replaces(dribbles: seq<Entry>, tag: nat) {
    exists j :: 0 <= j < |dribbles| && (dribbles[j].tag == tag || (dribbles[j].tag == BASENAMES && tag == OLDFILENAMES))
  }

  /** All of the old index but what the dribbles replace, with multiplicity. */
  ghost predicate Survivors(now: multiset<Entry>, was: multiset<Entry>, dribbles: seq<Entry>) {
    forall e :: now[e] == if Replaces(dribbles, e.tag) then 0 else was[e]
  }

  /** One dribble replaces the region entries with its tag, and basenames also the
      old file names. */
  method DropTag(hdr: Header, tag: nat)
    requires hdr.Valid() && tag < TAG_END
    modifies hdr`index, hdr`sorted
    ensures hdr.Valid()
    ensures forall e :: multiset(hdr.index)[e] ==
                        if e.tag == tag || (tag == BASENAMES && e.tag == OLDFILENAMES) then 0 else multiset(old(hdr.index))[e]
  {
    ghost var before := multiset(hdr.index);
    var rc;
    ghost var gone;
    rc, gone := hdr.HeaderDel(tag);
    ghost var between := multiset(hdr.index);
    OneTagLess(between, gone, tag, before);
    if tag == BASENAMES {
      rc, gone := hdr.HeaderDel(OLDFILENAMES);
      OneTagLess(multiset(hdr.index), gone, OLDFILENAMES, between);
    }
  }

  /** Dribble entries replace duplicate region entries. */
  method DropReplaced(hdr: Header, dribbles: seq<Entry>)
    requires hdr.Valid() && forall e :: e in dribbles ==> e.tag < TAG_END
    modifies hdr`index, hdr`sorted
    ensures hdr.Valid() && Survivors(multiset(hdr.index), multiset(old(hdr.index)), dribbles)
  {
    hide Survivors, Replaces;
    var j := 0;
    ghost var was := multiset(hdr.index);
    NoneReplaced(was);
    while j < |dribbles|
      invariant 0 <= j <= |dribbles| && hdr.Valid()
      invariant Survivors(multiset(hdr.index), was, dribbles[..j])
    {
      assert dribbles[j] in dribbles;
      ghost var before := multiset(hdr.index);
      DropTag(hdr, dribbles[j].tag);
      MoreReplaced(multiset(hdr.index), before, was, dribbles, j);
      j := j + 1;
    }
    assert dribbles[..j] == dribbles;
  }

  lemma NoneReplaced(was: multiset<Entry>)
    ensures Survivors(was, was, [])
  {
  }

  lemma OneTagLess(now: multiset<Entry>, gone: seq<Entry>, tag: nat, was: multiset<Entry>)
    requires now + multiset(gone) == was && (forall e :: e in gone ==> e.tag == tag) && forall e :: e in now ==> e.tag != tag
    ensures forall e :: now[e] == if e.tag == tag then 0 else was[e]
  {
    forall e ensures now[e] == if e.tag == tag then 0 else was[e] {
      assert e in multiset(gone) <==> e in gone;
      assert (now + multiset(gone))[e] == now[e] + multiset(gone)[e];
    }
  }

  lemma MoreReplaced(now: multiset<Entry>, before: multiset<Entry>, was: multiset<Entry>, dribbles: seq<Entry>, j: nat)
    requires j < |dribbles| && Survivors(before, was, dribbles[..j])
    requires var t := dribbles[j].tag;
             forall e :: now[e] == if e.tag == t || (t == BASENAMES && e.tag == OLDFILENAMES) then 0 else before[e]
    ensures Survivors(now, was, dribbles[..j + 1])
  {
    var d := dribbles[j];
    forall e: Entry
      ensures Replaces(dribbles[..j + 1], e.tag) <==>
              Replaces(dribbles[..j], e.tag) || e.tag == d.tag || (d.tag == BASENAMES && e.tag == OLDFILENAMES)
    {
      MoreTags(dribbles, j, e.tag);
    }
    hide Replaces;
  }

  lemma MoreTags(dribbles: seq<Entry>, j: nat, tag: nat)
    requires j < |dribbles|
    ensures var d := dribbles[j]; Replaces(dribbles[..j + 1], tag) <==>
              Replaces(dribbles[..j], tag) || tag == d.tag || (d.tag == BASENAMES && tag == OLDFILENAMES)
  {
    var d := dribbles[..j + 1];
    assert d[j] == dribbles[j] && forall i :: 0 <= i < j ==> d[i] == dribbles[..j][i];
    if i :| 0 <= i < |d| && (d[i].tag == tag || (d[i].tag == BASENAMES && tag == OLDFILENAMES)) {
      assert i < j ==> dribbles[..j][i] == d[i];
    }
  }

  /** What acceptance leaves for the loader to rely on. */
  ghost predicate Loadable(b: Bytes, h: Blob) {
    && Sized(b, h.il, h.dl) && 0 < h.il && h.ril <= h.il && h.dl <= DATA_MAX
    && SmallIn(b, h.il)
    && (h.regionTag == 0 <==> EntryAt(b, 0).tag >= I18NTABLE)
    && Describes(b, DataStart(First(h)), DataStart(h.il), |b|, PiecesOf(b, h.il, h.dl, First(h), h.il))
  }

  lemma AcceptedLoadable(b: Bytes, regionTag: nat, exact: bool, tags: Tags, h: Blob)
    requires Accepted(b, regionTag, exact, tags, h) && (regionTag == 0 || IsRegionTag(regionTag)) && SmallIn(b, h.il)
    ensures Loadable(b, h)
  {
    AcceptedRegion(b, regionTag, exact, tags, h);
    hide Accepted, SmallIn, Describes, EntryAt;
    AcceptedDescribes(b, regionTag, exact, tags, h, First(h), h.il);
  }

  lemma AcceptedRegion(b: Bytes, regionTag: nat, exact: bool, tags: Tags, h: Blob)
    requires Accepted(b, regionTag, exact, tags, h) && (regionTag == 0 || IsRegionTag(regionTag))
    ensures Sized(b, h.il, h.dl) && 0 < h.il && h.ril <= h.il && h.dl <= DATA_MAX
    ensures h.regionTag == 0 <==> EntryAt(b, 0).tag >= I18NTABLE
    ensures h.regionTag != 0 ==> IsRegionTag(h.regionTag) && EntryAt(b, 0).tag == h.regionTag
  {
    hide InfoAt, DataLength;
    if h.regionTag == 0 {
      assert h.il > 0;
      assert Passes(b, h, tags, 0);
    }
  }

  /** The loaded index: the region entry, its members but those a dribble replaces,
      and the dribbles. */
  ghost predicate Imported(index: multiset<Entry>, b: Bytes, h: Blob)
    requires Loadable(b, h) && (h.regionTag != 0 ==> RegionCount(b, h) > 0)
  {
    var ds, n := DataStart(h.il), if h.regionTag == 0 then h.il else RegionCount(b, h);
    var ps, qs := PiecesOf(b, h.il, h.dl, First(h), n), PiecesOf(b, h.il, h.dl, n, h.il);
    SplitOf(b, h, n);
    var members, dribbles := Listed(ps, ds, -(INFO * n)), Listed(qs, ds, -(INFO * n) + 1);
    && multiset(dribbles) <= index
    && Survivors(index - multiset(dribbles), multiset([RegionEntry(b, h, SumTo(0, ps))] + members), dribbles)
  }

  lemma SplitOf(b: Bytes, h: Blob, n: nat)
    requires Loadable(b, h) && First(h) <= n <= h.il
    ensures var ps, qs := PiecesOf(b, h.il, h.dl, First(h), n), PiecesOf(b, h.il, h.dl, n, h.il);
            && PiecesOf(b, h.il, h.dl, First(h), h.il) == ps + qs
            && Describes(b, DataStart(First(h)), DataStart(h.il), |b|, ps + qs)
            && (forall k :: 0 <= k < |ps| ==> ps[k].info.offset >= 0)
            && (forall k :: 0 <= k < |qs| ==> qs[k].info.offset >= 0)
  {
    hide Describes, SmallIn;
    var ps, qs := PiecesOf(b, h.il, h.dl, First(h), n), PiecesOf(b, h.il, h.dl, n, h.il);
    assert PiecesOf(b, h.il, h.dl, First(h), h.il) == ps + qs;
    DescribedFit(b, DataStart(First(h)), DataStart(h.il), |b|, ps + qs);
    assert forall k :: 0 <= k < |ps| ==> ps[k] == (ps + qs)[k];
    forall k | 0 <= k < |qs| ensures qs[k].info.offset >= 0 { assert qs[k] == (ps + qs)[|ps| + k]; }
  }

  lemma ListedIn(b: Bytes, h: Blob, lo: nat, hi: nat, rid: int)
    requires Loadable(b, h) && First(h) <= lo <= hi <= h.il
    ensures var ps := PiecesOf(b, h.il, h.dl, lo, hi);
            && (forall k :: 0 <= k < |ps| ==> ps[k].info.offset >= 0)
            && EntriesIn(Listed(ps, DataStart(h.il), rid), |b|)
  {
    hide Describes, Len, Loadable, PiecesOf, EntryAt;
    LoadableSizes(b, h);
    var ps, ds := PiecesOf(b, h.il, h.dl, lo, hi), DataStart(h.il);
    forall k | 0 <= k < |ps|
      ensures ps[k].info.offset >= 0 && ds + ps[k].info.offset + ps[k].len <= |b| && ps[k].info.tag < TAG_END
    {
      PieceFacts(b, h, lo, hi, k);
    }
  }

  lemma PieceFacts(b: Bytes, h: Blob, lo: nat, hi: nat, k: nat)
    requires Loadable(b, h) && First(h) <= lo <= hi <= h.il && k < hi - lo
    ensures var p := PiecesOf(b, h.il, h.dl, lo, hi)[k];
            p.info.offset >= 0 && DataStart(h.il) + p.info.offset + p.len <= |b| && p.info.tag < TAG_END
  {
    hide Describes, Len, InfoAt;
    var p, all := PiecesOf(b, h.il, h.dl, lo, hi)[k], PiecesOf(b, h.il, h.dl, First(h), h.il);
    DescribedFit(b, DataStart(First(h)), DataStart(h.il), |b|, all);
    assert p == all[lo - First(h) + k] && p.info == EntryAt(b, lo + k);
  }

  /** What the methods below read off a loadable blob. */
  lemma LoadableSizes(b: Bytes, h: Blob)
    requires Loadable(b, h)
    ensures Sized(b, h.il, h.dl) && 0 < h.il && h.ril <= h.il && h.dl <= DATA_MAX
  {
  }

  /** An original v3 header: a region entry is created for it. */
  method ImportLegacy(b: array<byte>, h: Blob) returns (hdr: Header?)
    requires Loadable(b[..], h) && h.regionTag == 0
    modifies b
    ensures hdr != null <==> Loads(old(b[..]), h)
    ensures hdr != null ==> fresh(hdr) && hdr.Valid() && hdr.blob == b && hdr.legacy && !hdr.sorted
    ensures hdr != null ==> SwabbedData(b[..], old(b[..]), h) && Imported(multiset(hdr.index), old(b[..]), h)
  {
    hide Describes, SmallIn, SumTo, EntriesIn, Swabbed, SwabAll, Listed;
    ghost var b0 := b[..];
    ghost var ps := PiecesOf(b0, h.il, h.dl, 0, h.il);
    var ds, rid := DataStart(h.il), -(INFO * h.il);
    SwabAllPieces(b0, 8, ds, b.Length, rid, 0, ps);
    ListedIn(b0, h, 0, h.il, rid);
    var rdlen, entries := RegionSwab(b, true, h.il, 0, 8, ds, b.Length, rid);
    if rdlen.None? || rdlen.value != h.dl { return null; }
    var region := Entry(IMAGE, BIN_TYPE, rid, INFO, InBlob(8), b.Length - 8, rdlen.value);
    RegionFirst(region, entries, b.Length);
    hdr := new Header.Loaded(b, [region] + entries, true);
    AllListed(b0, h, multiset([region] + entries));
  }

  /** The blob after loading: every entry's data in host order. */
  ghost predicate SwabbedData(c: Bytes, b: Bytes, h: Blob)
    requires Loadable(b, h)
  {
    var ps, ds := PiecesOf(b, h.il, h.dl, First(h), h.il), DataStart(h.il);
    AllFit(ps, ds, |b|) && c == Swabbed(b, ds, ps)
  }

  lemma RegionFirst(region: Entry, entries: seq<Entry>, size: nat)
    requires EntriesIn(entries, size) && DataIn(region, size) && region.tag < TAG_END
    ensures EntriesIn([region] + entries, size)
  {
  }

  lemma AllListed(b: Bytes, h: Blob, index: multiset<Entry>)
    requires Loadable(b, h) && (h.regionTag != 0 ==> RegionCount(b, h) == h.il)
    requires var ps := PiecesOf(b, h.il, h.dl, First(h), h.il);
             && (forall k :: 0 <= k < |ps| ==> ps[k].info.offset >= 0)
             && index == multiset([RegionEntry(b, h, SumTo(0, ps))] + Listed(ps, DataStart(h.il), -(INFO * h.il)))
    ensures Imported(index, b, h)
  {
    hide Describes, SmallIn, Survivors, Listed, PiecesOf, SumTo, RegionEntry;
    SplitOf(b, h, h.il);
    NoneListed(DataStart(h.il), -(INFO * h.il) + 1);
    assert PiecesOf(b, h.il, h.dl, h.il, h.il) == [];
    assert index - multiset([]) == index;
    NoneReplaced(index);
  }

  lemma NoneListed(ds: nat, rid: int)
    ensures Listed([], ds, rid) == []
  {
  }

  /** Load dribble entries from the region: those after its own. */
  method ImportDribbles(hdr: Header, b: array<byte>, h: Blob, ril: nat, dl: nat, ghost b0: Bytes)
    returns (rdlen: nat)
    requires Loadable(b0, h) && First(h) <= ril < h.il && 0 < ril && hdr.blob == b && hdr.Valid() && b.Length == |b0|
    requires var ps, ds := PiecesOf(b0, h.il, h.dl, First(h), ril), DataStart(h.il);
             AllFit(ps, ds, |b0|) && b[..] == Swabbed(b0, ds, ps)
    modifies b, hdr`index, hdr`sorted
    ensures hdr.Valid() && hdr.blob == b && !hdr.sorted
    ensures rdlen == SumTo(dl, PiecesOf(b0, h.il, h.dl, ril, h.il)) && SwabbedData(b[..], b0, h)
    ensures var qs := PiecesOf(b0, h.il, h.dl, ril, h.il);
            && (forall k :: 0 <= k < |qs| ==> qs[k].info.offset >= 0)
            && var dribbles := Listed(qs, DataStart(h.il), -(INFO * ril) + 1);
            && multiset(dribbles) <= multiset(hdr.index)
            && Survivors(multiset(hdr.index) - multiset(dribbles), multiset(old(hdr.index)), dribbles)
  {
    hide Loadable, SumTo, Swabbed, SwabAll, Listed, Survivors, PiecesOf, EntryAt, Describes, AllFit, EntriesIn, ByTag;
    LoadableSizes(b0, h);
    ghost var ps, qs := PiecesOf(b0, h.il, h.dl, First(h), ril), PiecesOf(b0, h.il, h.dl, ril, h.il);
    var ds, rid, pe := DataStart(h.il), -(INFO * ril) + 1, DataStart(ril);
    SplitOf(b0, h, ril);
    DescribesAfter(b0, DataStart(First(h)), ds, |b0|, ps, qs);
    SwabAllPieces(b[..], pe, ds, b.Length, rid, dl, qs);
    ListedIn(b0, h, ril, h.il, rid);
    SwabbedAppend(b0, ds, ps, qs);
    var nbytes, dribbles := RegionSwab(b, true, h.il - ril, dl, pe, ds, b.Length, rid);
    rdlen := nbytes.value;
    AddDribbles(hdr, dribbles);
  }

  /** Replace duplicates, then append the dribbles. */
  method AddDribbles(hdr: Header, dribbles: seq<Entry>)
    requires hdr.Valid() && EntriesIn(dribbles, hdr.blob.Length)
    modifies hdr`index, hdr`sorted
    ensures hdr.Valid() && !hdr.sorted && multiset(dribbles) <= multiset(hdr.index)
    ensures Survivors(multiset(hdr.index) - multiset(dribbles), multiset(old(hdr.index)), dribbles)
  {
    hide Survivors, Replaces;
    DropReplaced(hdr, dribbles);
    ghost var kept := hdr.index;
    hdr.index := hdr.index + dribbles;
    hdr.sorted := false;
    assert multiset(hdr.index) - multiset(dribbles) == multiset(kept);
  }

  /** The region's own entries. */
  method LoadRegion(b: array<byte>, h: Blob, ril: nat) returns (hdr: Header, rdlen: nat)
    requires Loadable(b[..], h) && h.regionTag != 0 && 0 < ril == RegionCount(b[..], h)
    modifies b
    ensures fresh(hdr) && hdr.Valid() && hdr.blob == b && !hdr.legacy && !hdr.sorted
    ensures var ps, ds := PiecesOf(old(b[..]), h.il, h.dl, 1, ril), DataStart(h.il);
            && AllFit(ps, ds, b.Length) && b[..] == Swabbed(old(b[..]), ds, ps)
            && (forall k :: 0 <= k < |ps| ==> ps[k].info.offset >= 0)
            && rdlen == SumTo(0, ps)
            && hdr.index == [RegionEntry(old(b[..]), h, rdlen)] + Listed(ps, ds, -(INFO * ril))
  {
    hide Loadable, SumTo, EntriesIn, Swabbed, SwabAll, Listed, PiecesOf, Describes, AllFit, InfoAt;
    LoadableSizes(b[..], h);
    ghost var b0 := b[..];
    var e := EntryAt(b[..], 0);
    var ds, rid := DataStart(h.il), -(INFO * ril);
    ghost var ps, qs := PiecesOf(b0, h.il, h.dl, 1, ril), PiecesOf(b0, h.il, h.dl, ril, h.il);
    SplitOf(b0, h, ril);
    DescribesAfter(b0, DataStart(1), ds, |b0|, ps, qs);
    SwabAllPieces(b0, DataStart(1), ds, b.Length, rid, 0, ps);
    ListedIn(b0, h, 1, ril, rid);
    SmallFirst(b0, h);
    var nbytes, members := RegionSwab(b, true, ril - 1, 0, DataStart(1), ds, b.Length, rid);
    rdlen := nbytes.value;
    var region := Entry(e.tag, e.kind, rid, e.count, InBlob(8), b.Length - 8, rdlen);
    RegionFirst(region, members, b.Length);
    hdr := new Header.Loaded(b, [region] + members, false);
  }

  /** A v4 header, or an upgraded v3 header with a legacy region. */
  method ImportRegion(b: array<byte>, h: Blob) returns (hdr: Header?)
    requires Loadable(b[..], h) && h.regionTag != 0
    modifies b
    ensures hdr != null <==> Loads(old(b[..]), h)
    ensures hdr != null ==> fresh(hdr) && hdr.Valid() && hdr.blob == b && !hdr.legacy && !hdr.sorted
    ensures hdr != null ==> SwabbedData(b[..], old(b[..]), h) && Imported(multiset(hdr.index), old(b[..]), h)
  {
    hide Describes, SmallIn, SumTo, EntriesIn, Swabbed, Listed, Survivors, PiecesOf, ByTag, RegionEntry;
    ghost var b0 := b[..];
    var ril := RegionCount(b[..], h);
    if ril == 0 { return null; }
    ghost var ps, qs := PiecesOf(b0, h.il, h.dl, 1, ril), PiecesOf(b0, h.il, h.dl, ril, h.il);
    SplitOf(b0, h, ril);
    SumAppend(0, ps, qs);
    var rdlen;
    hdr, rdlen := LoadRegion(b, h, ril);
    if ril < h.il {
      rdlen := ImportDribbles(hdr, b, h, ril, rdlen, b0);
    } else {
      assert qs == [] && ps + qs == ps;
      AllListed(b0, h, multiset(hdr.index));
    }
    if rdlen + INFO != h.dl { return null; }
  }

  lemma SmallFirst(b: Bytes, h: Blob)
    requires Loadable(b, h)
    ensures EntryAt(b, 0).tag < TAG_END
  {
    hide Describes;
  }

  /** Load a blob that hdrblobInit accepted: it succeeds exactly if the entries, aligned
      one after the other, fill the data area. */
  method HdrblobImport(b: array<byte>, h: Blob, ghost regionTag: nat, ghost exact: bool, ghost tags: Tags)
    returns (hdr: Header?)
    requires Accepted(b[..], regionTag, exact, tags, h) && (regionTag == 0 || IsRegionTag(regionTag)) && SmallIn(b[..], h.il)
    modifies b
    ensures Loadable(old(b[..]), h)
    ensures hdr != null <==> Loads(old(b[..]), h)
    ensures hdr != null ==> fresh(hdr) && hdr.Valid() && hdr.blob == b && (hdr.legacy <==> h.regionTag == 0) && hdr.sorted
    ensures hdr != null ==> SwabbedData(b[..], old(b[..]), h) && Imported(multiset(hdr.index), old(b[..]), h)
  {
    hide Accepted, Describes, SmallIn, Imported, SwabbedData, Loads, EntriesIn, ByTag;
    AcceptedLoadable(b[..], regionTag, exact, tags, h);
    if !(InfoAt(b[..], 8).tag < I18NTABLE) {
      hdr := ImportLegacy(b, h);
    } else {
      hdr := ImportRegion(b, h);
    }
    if hdr != null { hdr.HeaderSort(); }
  }
}
