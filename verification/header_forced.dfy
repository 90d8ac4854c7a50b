/** The offsets of a loaded region are forced exactly if alignment needs no padding: a blob
    with padding can be changed so that it is still accepted and still loads, with an entry
    out of its slot (lib/header.cc:301-353, 946-1031). */
module HeaderForced {
  import opened Common
  import opened HeaderBytes
  import opened HeaderBlob
  import opened HeaderSwab
  import opened HeaderPieces
  import opened HeaderImport
  import opened HeaderGaps

  /** x over the bytes of b from p on. */
  function Splice(b: Bytes, p: nat, x: Bytes): (r: Bytes)
    requires p + |x| <= |b|
    ensures |r| == |b|
  {
    b[..p] + x + b[p + |x|..]
  }

  lemma SpliceIn(b: Bytes, p: nat, x: Bytes)
    requires p + |x| <= |b|
    ensures Splice(b, p, x)[p..p + |x|] == x
  {
  }

  lemma SpliceOut(b: Bytes, p: nat, x: Bytes, lo: nat, hi: nat)
    requires p + |x| <= |b| && lo <= hi <= |b| && (hi <= p || p + |x| <= lo)
    ensures Splice(b, p, x)[lo..hi] == b[lo..hi]
  {
    var l, r := Splice(b, p, x)[lo..hi], b[lo..hi];
    forall k | 0 <= k < hi - lo ensures l[k] == r[k] { assert l[k] == Splice(b, p, x)[lo + k]; }
    assert |l| == |r|;
  }

  /** Entry i can move up by its own width. */
  ghost predicate Movable(b: Bytes, regionTag: nat, tags: Tags, h: Blob, i: nat) {
    && Accepted(b, regionTag, true, tags, h) && h.regionTag != 0 && Loads(b, h) && 1 <= i && i + 1 < h.il
    && Len(b, h.il, h.dl, i).Some? && End(b, h.il, h.dl, i) + Width(EntryAt(b, i).kind) <= Start(b, i + 1)
  }

  function NewInfo(b: Bytes, i: nat): Info
    requires DataStart(i + 1) <= |b|
  {
    var e := EntryAt(b, i);
    e.(offset := e.offset + Width(e.kind))
  }

  /** What stands from the old start of entry i to its new end. */
  function NewData(b: Bytes, il: nat, dl: nat, i: nat): Bytes
    requires Sized(b, il, dl) && i < il && Len(b, il, dl, i).Some?
  {
    var e, at := EntryAt(b, i), DataStart(il) + EntryAt(b, i).offset;
    Zeros(Width(e.kind)) + b[at..at + Len(b, il, dl, i).value]
  }

  /** The blob with entry i moved. */
  function Raised(b: Bytes, il: nat, dl: nat, i: nat): (r: Bytes)
    requires Sized(b, il, dl) && i < il && Len(b, il, dl, i).Some?
    requires End(b, il, dl, i) + Width(EntryAt(b, i).kind) <= dl
    ensures |r| == |b|
  {
    Splice(Splice(b, DataStart(i), InfoBytes(NewInfo(b, i))), DataStart(il) + Start(b, i), NewData(b, il, dl, i))
  }

  /** It ends before the trailer, and the region is all there is. */
  lemma MovableRoom(b: Bytes, regionTag: nat, tags: Tags, h: Blob, i: nat)
    requires Movable(b, regionTag, tags, h, i)
    ensures Sized(b, h.il, h.dl) && 0 <= Start(b, 0) == h.dl - INFO
    ensures 1 <= i && i + 1 < h.il && Len(b, h.il, h.dl, i).Some?
    ensures 0 <= Start(b, i) && End(b, h.il, h.dl, i) + Width(EntryAt(b, i).kind) <= Start(b, i + 1) <= Start(b, 0)
    ensures h.dl <= DATA_MAX
  {
    hide Passes, VerifyRegion, SumTo, InfoAt, Len;
    AcceptedLayout(b, regionTag, true, tags, h);
    LoadedPacked(b, regionTag, tags, h);
    assert Placed(b, h, i + 1) && ClearOf(b, h, Start(b, 0), i + 1);
  }

  /** Bytes outside of the entry and of its data are the same. */
  lemma RaisedSame(b: Bytes, regionTag: nat, tags: Tags, h: Blob, i: nat, lo: nat, hi: nat)
    requires Movable(b, regionTag, tags, h, i) && lo <= hi <= |b|
    requires hi <= DataStart(i) || DataStart(i + 1) <= lo
    requires var at := DataStart(h.il) + Start(b, i);
             hi <= at || at + Len(b, h.il, h.dl, i).value + Width(EntryAt(b, i).kind) <= lo
    ensures Sized(b, h.il, h.dl) && End(b, h.il, h.dl, i) + Width(EntryAt(b, i).kind) <= h.dl
    ensures Raised(b, h.il, h.dl, i)[lo..hi] == b[lo..hi]
  {
    hide Movable, InfoBytes, Len, InfoAt, Splice;
    MovableRoom(b, regionTag, tags, h, i);
    var c := Splice(b, DataStart(i), InfoBytes(NewInfo(b, i)));
    SpliceOut(b, DataStart(i), InfoBytes(NewInfo(b, i)), lo, hi);
    SpliceOut(c, DataStart(h.il) + Start(b, i), NewData(b, h.il, h.dl, i), lo, hi);
  }

  lemma RaisedEntry(b: Bytes, regionTag: nat, tags: Tags, h: Blob, i: nat, j: nat)
    requires Movable(b, regionTag, tags, h, i) && j < h.il
    ensures Sized(b, h.il, h.dl) && End(b, h.il, h.dl, i) + Width(EntryAt(b, i).kind) <= h.dl
    ensures EntryAt(Raised(b, h.il, h.dl, i), j) == if j == i then NewInfo(b, i) else EntryAt(b, j)
  {
    hide Movable, InfoBytes, Len, InfoAt, Splice;
    MovableRoom(b, regionTag, tags, h, i);
    var c := Raised(b, h.il, h.dl, i);
    if j == i {
      var d := Splice(b, DataStart(i), InfoBytes(NewInfo(b, i)));
      SpliceIn(b, DataStart(i), InfoBytes(NewInfo(b, i)));
      SpliceOut(d, DataStart(h.il) + Start(b, i), NewData(b, h.il, h.dl, i), DataStart(i), DataStart(i) + INFO);
      InfoOfBytes(c, DataStart(i), NewInfo(b, i));
    } else {
      RaisedSame(b, regionTag, tags, h, i, DataStart(j), DataStart(j) + INFO);
      InfoAtSame(c, DataStart(j), b, DataStart(j));
    }
  }

  /** Where the entries are, seen from entry i. */
  lemma MovableSpot(b: Bytes, regionTag: nat, tags: Tags, h: Blob, i: nat, j: nat)
    requires Movable(b, regionTag, tags, h, i) && 1 <= j < h.il
    ensures Sized(b, h.il, h.dl) && h.dl <= DATA_MAX && Len(b, h.il, h.dl, j).Some? && Passes(b, h, tags, j)
    ensures 0 <= Start(b, j) && End(b, h.il, h.dl, j) <= Start(b, 0) == h.dl - INFO
    ensures j < i ==> End(b, h.il, h.dl, j) <= Start(b, i)
    ensures i < j ==> End(b, h.il, h.dl, i) + Width(EntryAt(b, i).kind) <= Start(b, j)
  {
    hide Passes, VerifyRegion, SumTo, InfoAt, Len, Loads;
    MovableRoom(b, regionTag, tags, h, i);
    AcceptedLayout(b, regionTag, true, tags, h);
    assert Passes(b, h, tags, j) && Placed(b, h, j) && Placed(b, h, i + 1) && ClearOf(b, h, Start(b, 0), j);
    PassesPiece(b, h, tags, j);
    if j < i { assert InOrder(b, h, j, i); }
    if i + 1 < j { assert InOrder(b, h, i + 1, j); }
  }

  /** Every entry keeps its data. */
  lemma RaisedData(b: Bytes, regionTag: nat, tags: Tags, h: Blob, i: nat, j: nat)
    requires Movable(b, regionTag, tags, h, i) && 1 <= j < h.il
    ensures Sized(b, h.il, h.dl) && End(b, h.il, h.dl, i) + Width(EntryAt(b, i).kind) <= h.dl
    ensures Len(b, h.il, h.dl, j).Some? && 0 <= Start(b, j)
    ensures var w, n := if j == i then Width(EntryAt(b, i).kind) else 0, Len(b, h.il, h.dl, j).value;
            var at, c := DataStart(h.il) + Start(b, j), Raised(b, h.il, h.dl, i);
            at + w + n <= |b| && c[at + w..at + w + n] == b[at..at + n]
  {
    hide Movable, InfoBytes, Len, InfoAt, Passes, Splice, Raised;
    MovableRoom(b, regionTag, tags, h, i);
    MovableSpot(b, regionTag, tags, h, i, j);
    MovableSpot(b, regionTag, tags, h, i, i);
    var at, n := DataStart(h.il) + Start(b, j), Len(b, h.il, h.dl, j).value;
    if j == i { RaisedOwn(b, h.il, h.dl, i); } else { RaisedSame(b, regionTag, tags, h, i, at, at + n); }
  }

  lemma RaisedOwn(b: Bytes, il: nat, dl: nat, i: nat)
    requires Sized(b, il, dl) && i < il && Len(b, il, dl, i).Some? && 0 <= Start(b, i)
    requires End(b, il, dl, i) + Width(EntryAt(b, i).kind) <= dl
    ensures var w, n, at := Width(EntryAt(b, i).kind), Len(b, il, dl, i).value, DataStart(il) + Start(b, i);
            at + w + n <= |b| && Raised(b, il, dl, i)[at + w..at + w + n] == b[at..at + n]
  {
    hide InfoBytes, Len, InfoAt, Splice;
    var d, x := Splice(b, DataStart(i), InfoBytes(NewInfo(b, i))), NewData(b, il, dl, i);
    var w, n, at := Width(EntryAt(b, i).kind), Len(b, il, dl, i).value, DataStart(il) + Start(b, i);
    SpliceIn(d, at, x);
    SubSlice(Splice(d, at, x), at, at + |x|, w, w + n);
    assert x[w..w + n] == b[at..at + n];
  }

  lemma RaisedLen(b: Bytes, regionTag: nat, tags: Tags, h: Blob, i: nat, j: nat)
    requires Movable(b, regionTag, tags, h, i) && 1 <= j < h.il
    ensures Sized(b, h.il, h.dl) && End(b, h.il, h.dl, i) + Width(EntryAt(b, i).kind) <= h.dl
    ensures Len(Raised(b, h.il, h.dl, i), h.il, h.dl, j) == Len(b, h.il, h.dl, j) && Len(b, h.il, h.dl, j).Some?
  {
    hide Movable, InfoAt, Raised, DataLength, Passes;
    MovableRoom(b, regionTag, tags, h, i);
    MovableSpot(b, regionTag, tags, h, i, i);
    MovableSpot(b, regionTag, tags, h, i, j);
    RaisedEntry(b, regionTag, tags, h, i, j);
    RaisedData(b, regionTag, tags, h, i, j);
    var c, w, e := Raised(b, h.il, h.dl, i), if j == i then Width(EntryAt(b, i).kind) else 0, EntryAt(b, j);
    var ds := DataStart(h.il);
    DataLengthSame(e.kind, b, ds + e.offset, e.count, ds + h.dl, c, ds + e.offset + w, ds + h.dl);
  }

  lemma MovableIntro(b: Bytes, regionTag: nat, tags: Tags, h: Blob, i: nat)
    requires Movable(b, regionTag, tags, h, i)
    ensures Intro(b, regionTag, true) == Some(h) && Loads(b, h) && h.regionTag != 0 && 1 <= i && i + 1 < h.il
  {
  }

  lemma RaisedIntro(b: Bytes, regionTag: nat, tags: Tags, h: Blob, i: nat)
    requires Movable(b, regionTag, tags, h, i)
    ensures Sized(b, h.il, h.dl) && End(b, h.il, h.dl, i) + Width(EntryAt(b, i).kind) <= h.dl
    ensures Intro(Raised(b, h.il, h.dl, i), regionTag, true) == Some(h)
  {
    hide Movable, InfoAt, Raised, U32, InfoOk, Len, Loads;
    MovableIntro(b, regionTag, tags, h, i);
    MovableRoom(b, regionTag, tags, h, i);
    RaisedEntry(b, regionTag, tags, h, i, 0);
    var c, t := Raised(b, h.il, h.dl, i), DataStart(h.il) + Start(b, 0);
    RaisedSame(b, regionTag, tags, h, i, 0, 4);
    RaisedSame(b, regionTag, tags, h, i, 4, 8);
    RaisedSame(b, regionTag, tags, h, i, t, t + INFO);
    U32Same(c, 0, b, 0);
    U32Same(c, 4, b, 4);
    InfoAtSame(c, t, b, t);
  }

  lemma RaisedPasses(b: Bytes, regionTag: nat, tags: Tags, h: Blob, i: nat, j: nat)
    requires Movable(b, regionTag, tags, h, i) && 1 <= j < h.il
    ensures Sized(b, h.il, h.dl) && End(b, h.il, h.dl, i) + Width(EntryAt(b, i).kind) <= h.dl
    ensures Passes(Raised(b, h.il, h.dl, i), h, tags, j)
  {
    hide Movable, InfoAt, Raised, Len, Intro, Loads;
    MovableIntro(b, regionTag, tags, h, i);
    MovableRoom(b, regionTag, tags, h, i);
    MovableSpot(b, regionTag, tags, h, i, j);
    MovableSpot(b, regionTag, tags, h, i, i);
    RaisedEntry(b, regionTag, tags, h, i, j);
    RaisedLen(b, regionTag, tags, h, i, j);
    if j > 1 {
      MovableSpot(b, regionTag, tags, h, i, j - 1);
      RaisedEntry(b, regionTag, tags, h, i, j - 1);
      RaisedLen(b, regionTag, tags, h, i, j - 1);
    }
    StepAligned(Start(b, i), Width(EntryAt(b, i).kind));
    RegionEnds(b, regionTag, h);
  }

  lemma RegionEnds(b: Bytes, regionTag: nat, h: Blob)
    requires Intro(b, regionTag, true) == Some(h) && h.regionTag != 0
    ensures h.rdl == h.dl == Start(b, 0) + INFO
  {
    IntroRegion(b, regionTag, true, h);
  }

  /** The changed blob is accepted and loads, with the same pieces but for one offset. */
  lemma RaisedLoads(b: Bytes, regionTag: nat, tags: Tags, h: Blob, i: nat)
    requires Movable(b, regionTag, tags, h, i)
    ensures Sized(b, h.il, h.dl) && End(b, h.il, h.dl, i) + Width(EntryAt(b, i).kind) <= h.dl
    ensures var c, ps := Raised(b, h.il, h.dl, i), PiecesOf(b, h.il, h.dl, 1, h.il);
            && Accepted(c, regionTag, true, tags, h) && Loads(c, h)
            && SameShape(ps, PiecesOf(c, h.il, h.dl, 1, h.il))
            && PiecesOf(c, h.il, h.dl, 1, h.il)[i - 1].info.offset == ps[i - 1].info.offset + Width(ps[i - 1].info.kind)
  {
    hide Movable, Passes, InfoAt, Raised, Len, SumTo, Intro;
    MovableIntro(b, regionTag, tags, h, i);
    MovableRoom(b, regionTag, tags, h, i);
    RaisedIntro(b, regionTag, tags, h, i);
    var c := Raised(b, h.il, h.dl, i);
    var ps, qs := PiecesOf(b, h.il, h.dl, 1, h.il), PiecesOf(c, h.il, h.dl, 1, h.il);
    forall j | 1 <= j < h.il ensures Passes(c, h, tags, j) { RaisedPasses(b, regionTag, tags, h, i, j); }
    RaisedEntry(b, regionTag, tags, h, i, 0);
    forall k | 0 <= k < |ps|
      ensures qs[k] == ps[k].(info := ps[k].info.(offset := ps[k].info.offset + if k == i - 1 then Width(ps[k].info.kind) else 0))
    {
      RaisedEntry(b, regionTag, tags, h, i, k + 1);
      RaisedLen(b, regionTag, tags, h, i, k + 1);
    }
    ShapeSums(ps, qs);
  }

  /** An entry before padding can move. */
  lemma SlottedMovable(b: Bytes, regionTag: nat, tags: Tags, h: Blob) returns (i: nat)
    requires Accepted(b, regionTag, true, tags, h) && h.regionTag != 0 && Loads(b, h) && h.il > 1
    requires var ps := PiecesOf(b, h.il, h.dl, 1, h.il); Slotted(ps) && Padding(ps) > 0
    ensures Movable(b, regionTag, tags, h, i)
  {
    hide Passes, InfoAt, Len, SumTo, AlignDiff, Intro, Loads, Packed, Slot, Padding;
    var ps := PiecesOf(b, h.il, h.dl, 1, h.il);
    LoadedPacked(b, regionTag, tags, h);
    i := FirstPadded(ps);
    assert Passes(b, h, tags, i);
    PassesPiece(b, h, tags, i);
    PaddedRoom(ps, i);
    assert ps[i - 1].info.offset == Slot(ps, i - 1) && ps[i].info.offset == Slot(ps, i);
    assert ps[i - 1] == Piece(EntryAt(b, i), Len(b, h.il, h.dl, i).value) && ps[i].info == EntryAt(b, i + 1);
  }

  lemma PaddedRoom(ps: seq<Piece>, k: nat)
    requires AllUnits(ps) && 0 < k < |ps| && AlignDiff(ps[k].info.kind, SumTo(0, ps[..k])) > 0
    ensures Slot(ps, k - 1) + ps[k - 1].len + Width(ps[k - 1].info.kind) <= Slot(ps, k)
  {
    hide SumTo, AlignDiff;
    SlotEnd(ps, k - 1);
    SlotAligned(ps, k - 1);
    assert Units(ps[k - 1]) && ps[..k - 1 + 1] == ps[..k];
    PaddingUnit(ps[k - 1].info.kind, ps[k].info.kind, Slot(ps, k - 1), ps[k - 1].len);
  }

  /** Exact-size blobs of one shape that are accepted and load have all their entries at the
      running sums if and only if that shape needs no padding. */
  lemma ForcedBlobs(b: Bytes, regionTag: nat, tags: Tags, h: Blob)
    requires Accepted(b, regionTag, true, tags, h) && h.regionTag != 0 && Loads(b, h) && h.il > 1
    ensures var ps := PiecesOf(b, h.il, h.dl, 1, h.il);
            (forall c: Bytes :: Accepted(c, regionTag, true, tags, h) && Loads(c, h) && SameShape(ps, PiecesOf(c, h.il, h.dl, 1, h.il)) ==>
               Slotted(PiecesOf(c, h.il, h.dl, 1, h.il))) <==> Padding(ps) == 0
  {
    hide Slotted, Padding, PiecesOf, Loads, InfoOk, Intro;
    var ps := PiecesOf(b, h.il, h.dl, 1, h.il);
    if Padding(ps) == 0 {
      forall c: Bytes | Accepted(c, regionTag, true, tags, h) && Loads(c, h) && SameShape(ps, PiecesOf(c, h.il, h.dl, 1, h.il))
        ensures Slotted(PiecesOf(c, h.il, h.dl, 1, h.il))
      {
        ShapeSums(ps, PiecesOf(c, h.il, h.dl, 1, h.il));
        LoadedLayout(c, regionTag, tags, h);
      }
    } else if Slotted(ps) {
      var i := SlottedMovable(b, regionTag, tags, h);
      RaisedLoads(b, regionTag, tags, h, i);
      var c := Raised(b, h.il, h.dl, i);
      RaisedNotSlotted(ps, PiecesOf(c, h.il, h.dl, 1, h.il), i - 1);
    } else {
      SelfShape(ps);
    }
  }

  lemma SelfShape(ps: seq<Piece>)
    ensures SameShape(ps, ps)
  {
  }

  lemma RaisedNotSlotted(ps: seq<Piece>, qs: seq<Piece>, k: nat)
    requires SameShape(ps, qs) && Slotted(ps) && k < |ps| && qs[k].info.offset == ps[k].info.offset + Width(ps[k].info.kind)
    ensures !Slotted(qs)
  {
    hide SumTo, AlignDiff;
    ShapeSlot(ps, qs, k);
    assert ps[k].info.offset == Slot(ps, k);
  }
}
