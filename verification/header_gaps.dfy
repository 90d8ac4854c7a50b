/** Where the data of a loaded region can lie: between the offsets that the validator
    accepts and the running sums that the loader computes (lib/header.cc). */
module HeaderGaps {
  import opened Common
  import opened HeaderBytes
  import opened HeaderBlob
  import opened HeaderSwab
  import opened HeaderPieces
  import opened HeaderImport

  /** In order, aligned, not empty and below n. */
  ghost predicate Packed(ps: seq<Piece>, n: nat) {
    && (forall k :: 0 <= k < |ps| ==> PieceIn(ps[k], n))
    && (forall k :: 0 < k < |ps| ==> Last(ps[k - 1]) <= ps[k].info.offset)
  }

  predicate PieceIn(p: Piece, n: nat) {
    0 <= p.info.offset && p.info.offset % Width(p.info.kind) == 0 && Units(p) && Last(p) <= n
  }

  predicate Units(p: Piece) { 0 < p.len && p.len % Width(p.info.kind) == 0 }

  /** Where entry k starts if the data is laid out without gaps. */
  function Slot(ps: seq<Piece>, k: nat): nat
    requires k < |ps|
  {
    var s := SumTo(0, ps[..k]);
    s + AlignDiff(ps[k].info.kind, s)
  }

  ghost predicate Slotted(ps: seq<Piece>) {
    forall k: nat {:trigger Slot(ps, k)} :: k < |ps| ==> ps[k].info.offset == Slot(ps, k)
  }

  function Total(ps: seq<Piece>): nat {
    if ps == [] then 0 else Total(ps[..|ps| - 1]) + ps[|ps| - 1].len
  }

  /** Padding that alignment makes necessary. */
  function Padding(ps: seq<Piece>): nat {
    if ps == [] then 0 else Padding(ps[..|ps| - 1]) + AlignDiff(ps[|ps| - 1].info.kind, SumTo(0, ps[..|ps| - 1]))
  }

  /** Bytes before and between the pieces that belong to none of them. */
  function Gaps(ps: seq<Piece>): int {
    if ps == [] then 0
    else
      var n := |ps| - 1;
      Gaps(ps[..n]) + ps[n].info.offset - if n == 0 then 0 else Last(ps[n - 1])
  }

  lemma {:induction false} SumParts(ps: seq<Piece>)
    ensures SumTo(0, ps) == Total(ps) + Padding(ps)
  {
    if ps != [] { SumParts(ps[..|ps| - 1]); }
  }

  lemma {:induction false} GapParts(ps: seq<Piece>)
    requires ps != []
    ensures Gaps(ps) + Total(ps) == Last(ps[|ps| - 1])
    decreases |ps|
  {
    var n := |ps| - 1;
    if n > 0 {
      GapParts(ps[..n]);
    } else {
      assert ps[..n] == [];
    }
  }

  /** No entry starts before its slot, and none ends before the running sum. */
  lemma {:induction false} SlotsBelow(ps: seq<Piece>, n: nat, k: nat)
    requires Packed(ps, n) && k < |ps|
    ensures Slot(ps, k) <= ps[k].info.offset && SumTo(0, ps[..k + 1]) <= Last(ps[k])
    decreases k
  {
    hide AlignDiff;
    assert ps[..k + 1][..k] == ps[..k];
    if k > 0 { SlotsBelow(ps, n, k - 1); }
    AlignLeast(ps[k].info.kind, SumTo(0, ps[..k]), ps[k].info.offset);
  }

  /** All of the slack is alignment padding; without padding every offset is forced. */
  lemma PackedExactly(ps: seq<Piece>)
    requires ps != [] && Packed(ps, SumTo(0, ps))
    ensures Last(ps[|ps| - 1]) == SumTo(0, ps) && Gaps(ps) == Padding(ps)
    ensures Padding(ps) == 0 ==> Slotted(ps)
  {
    hide AlignDiff, Slot;
    var n := |ps| - 1;
    SlotsBelow(ps, SumTo(0, ps), n);
    assert ps[..n + 1] == ps;
    SumParts(ps);
    GapParts(ps);
    if Padding(ps) == 0 {
      forall k: nat | k < |ps| ensures ps[k].info.offset == Slot(ps, k) { NoSlack(ps, k); }
    }
  }

  lemma {:induction false} PaddingUp(ps: seq<Piece>, k: nat)
    requires k <= |ps|
    ensures Padding(ps[..k]) <= Padding(ps)
    decreases |ps|
  {
    if k == |ps| {
      assert ps[..k] == ps;
    } else {
      var n := |ps| - 1;
      PaddingUp(ps[..n], k);
      assert ps[..n][..k] == ps[..k];
    }
  }

  /** Without padding, the bytes before entry k are those of the earlier entries, and
      the later ones leave no room to move. */
  lemma NoSlack(ps: seq<Piece>, k: nat)
    requires Packed(ps, SumTo(0, ps)) && Padding(ps) == 0 && k < |ps|
    ensures ps[k].info.offset == Slot(ps, k)
  {
    hide AlignDiff;
    SlotsBelow(ps, SumTo(0, ps), k);
    RoomAfter(ps, SumTo(0, ps), k);
    SumParts(ps);
    SumParts(ps[..k]);
    PaddingUp(ps, k);
    PaddingUp(ps, k + 1);
    assert ps[..k + 1][..k] == ps[..k];
  }

  /** The entries from k on fit between the start of entry k and n. */
  lemma {:induction false} RoomAfter(ps: seq<Piece>, n: nat, k: nat)
    requires Packed(ps, n) && k < |ps|
    ensures ps[k].info.offset + Total(ps) - Total(ps[..k]) <= n
    decreases |ps| - k
  {
    assert ps[..k + 1][..k] == ps[..k];
    if k + 1 == |ps| {
      assert ps[..k + 1] == ps;
    } else {
      RoomAfter(ps, n, k + 1);
    }
  }

  /* ---- The offsets are forced exactly if no padding is needed ---- */

  ghost predicate SameShape(ps: seq<Piece>, qs: seq<Piece>) {
    && |ps| == |qs|
    && forall k :: 0 <= k < |ps| ==> qs[k].len == ps[k].len && qs[k].info.(offset := 0) == ps[k].info.(offset := 0)
  }

  lemma {:induction false} ShapeSums(ps: seq<Piece>, qs: seq<Piece>)
    requires SameShape(ps, qs)
    ensures SumTo(0, ps) == SumTo(0, qs) && Padding(ps) == Padding(qs)
    decreases |ps|
  {
    if ps != [] {
      var n := |ps| - 1;
      ShapeSums(ps[..n], qs[..n]);
      assert qs[n].info.(offset := 0) == ps[n].info.(offset := 0);
    }
  }

  lemma ShapeSlot(ps: seq<Piece>, qs: seq<Piece>, k: nat)
    requires SameShape(ps, qs) && k < |ps|
    ensures Slot(ps, k) == Slot(qs, k)
  {
    ShapeSums(ps[..k], qs[..k]);
    assert qs[k].info.(offset := 0) == ps[k].info.(offset := 0);
  }

  /** The layout without gaps. */
  function Gapless(ps: seq<Piece>): seq<Piece> {
    seq(|ps|, k requires 0 <= k < |ps| => ps[k].(info := ps[k].info.(offset := Slot(ps, k))))
  }

  lemma {:induction false} SumsGrow(ps: seq<Piece>, k: nat)
    requires k <= |ps|
    ensures SumTo(0, ps[..k]) <= SumTo(0, ps)
    decreases |ps|
  {
    if k == |ps| {
      assert ps[..k] == ps;
    } else {
      SumsGrow(ps[..|ps| - 1], k);
      assert ps[..|ps| - 1][..k] == ps[..k];
    }
  }

  lemma SlotEnd(ps: seq<Piece>, k: nat)
    requires k < |ps|
    ensures Slot(ps, k) + ps[k].len == SumTo(0, ps[..k + 1])
  {
    assert ps[..k + 1][..k] == ps[..k];
  }

  ghost predicate AllUnits(ps: seq<Piece>) {
    forall k :: 0 <= k < |ps| ==> Units(ps[k])
  }

  /** Moving entry k up by its own width, into the padding of the next one. */
  function Moved(ps: seq<Piece>, k: nat): seq<Piece>
    requires k < |ps|
  {
    var g := Gapless(ps);
    g[k := g[k].(info := g[k].info.(offset := g[k].info.offset + Width(g[k].info.kind)))]
  }

  lemma {:induction false} FirstPadded(ps: seq<Piece>) returns (k: nat)
    requires Padding(ps) > 0
    ensures 0 < k < |ps| && AlignDiff(ps[k].info.kind, SumTo(0, ps[..k])) > 0
  {
    hide AlignDiff;
    var n := |ps| - 1;
    if Padding(ps[..n]) > 0 {
      k := FirstPadded(ps[..n]);
      assert ps[..n][..k] == ps[..k];
    } else {
      k := n;
      if n == 0 {
        assert ps[..n] == [];
        NothingToAlign(ps[0].info.kind);
      }
    }
  }

  lemma NothingToAlign(kind: nat)
    ensures AlignDiff(kind, 0) == 0
  {
  }

  /** Padding after an entry is a multiple of that entry's own width. */
  lemma PaddingUnit(kind: nat, next: nat, start: nat, len: nat)
    requires start % Width(kind) == 0 && len % Width(kind) == 0 && AlignDiff(next, start + len) > 0
    ensures AlignDiff(next, start + len) >= Width(kind)
  {
    UnitPadding(Width(kind), Width(next), start, len);
  }

  lemma UnitPadding(w: nat, v: nat, start: nat, len: nat)
    requires IsWidth(w) && IsWidth(v) && start % w == 0 && len % w == 0 && (start + len) % v != 0
    ensures v - (start + len) % v >= w
  {
    if w == 2 {
      var t := start / 2 + len / 2;
      if v == 2 { TwosIn2(t); } else if v == 4 { TwosIn4(t); } else { TwosIn8(t); }
    } else if w == 4 {
      var t := start / 4 + len / 4;
      if v == 2 { TwosIn2(2 * t); } else if v == 4 { FoursIn4(t); } else { FoursIn8(t); }
    } else if w == 8 {
      var t := start / 8 + len / 8;
      if v == 2 { TwosIn2(4 * t); } else if v == 4 { FoursIn4(2 * t); } else { EightsIn8(t); }
    }
  }

  lemma TwosIn2(t: nat)
    ensures 2 * t % 2 == 0
  {
  }

  lemma TwosIn4(t: nat)
    ensures 2 * t % 4 <= 2
  {
    assert 2 * t == 4 * (t / 2) + 2 * (t % 2);
  }

  lemma TwosIn8(t: nat)
    ensures 2 * t % 8 <= 6
  {
    assert 2 * t == 8 * (t / 4) + 2 * (t % 4);
  }

  lemma FoursIn4(t: nat)
    ensures 4 * t % 4 == 0
  {
  }

  lemma FoursIn8(t: nat)
    ensures 4 * t % 8 <= 4
  {
    assert 4 * t == 8 * (t / 2) + 4 * (t % 2);
  }

  lemma EightsIn8(t: nat)
    ensures 8 * t % 8 == 0
  {
  }

  lemma MovedPacked(ps: seq<Piece>, k: nat)
    requires AllUnits(ps) && k + 1 < |ps| && AlignDiff(ps[k + 1].info.kind, SumTo(0, ps[..k + 1])) > 0
    ensures SameShape(ps, Moved(ps, k)) && Packed(Moved(ps, k), SumTo(0, ps)) && !Slotted(Moved(ps, k))
  {
    hide AlignDiff, SumTo;
    var n, qs := SumTo(0, ps), Moved(ps, k);
    var w := Width(ps[k].info.kind);
    assert Slot(ps, k) % w == 0;
    SlotEnd(ps, k);
    PaddingUnit(ps[k].info.kind, ps[k + 1].info.kind, Slot(ps, k), ps[k].len);
    forall i | 0 <= i < |qs| ensures PieceIn(qs[i], n) && (i > 0 ==> Last(qs[i - 1]) <= qs[i].info.offset) {
      assert Units(ps[i]);
      MovedAt(ps, k, i);
    }
    ShapeSlot(ps, qs, k);
  }

  lemma MovedAt(ps: seq<Piece>, k: nat, i: nat)
    requires k + 1 < |ps| && i < |ps| && Units(ps[i]) && Units(ps[k])
    requires Slot(ps, k) + ps[k].len + Width(ps[k].info.kind) <= Slot(ps, k + 1)
    ensures PieceIn(Moved(ps, k)[i], SumTo(0, ps))
    ensures i > 0 ==> Last(Moved(ps, k)[i - 1]) <= Moved(ps, k)[i].info.offset
  {
    hide AlignDiff, SumTo, Slot, Width, Moved;
    MovedIs(ps, k, i);
    SlotEnd(ps, i);
    SumsGrow(ps, i + 1);
    SlotEnd(ps, k + 1);
    SumsGrow(ps, k + 2);
    if i > 0 {
      MovedIs(ps, k, i - 1);
      SlotEnd(ps, i - 1);
      SlotStep(ps, i);
    }
    SlotAligned(ps, i);
  }

  lemma MovedIs(ps: seq<Piece>, k: nat, i: nat)
    requires k < |ps| && i < |ps|
    ensures var q, w := Moved(ps, k)[i], if i == k then Width(ps[k].info.kind) else 0;
            q.len == ps[i].len && q.info.kind == ps[i].info.kind && q.info.offset == Slot(ps, i) + w
    ensures |Moved(ps, k)| == |ps|
  {
    hide Slot, Width;
  }

  lemma SlotStep(ps: seq<Piece>, i: nat)
    requires i < |ps|
    ensures SumTo(0, ps[..i]) <= Slot(ps, i)
  {
  }

  lemma SlotAligned(ps: seq<Piece>, i: nat)
    requires i < |ps|
    ensures Slot(ps, i) % Width(ps[i].info.kind) == 0 && (Slot(ps, i) + Width(ps[i].info.kind)) % Width(ps[i].info.kind) == 0
  {
    hide AlignDiff, SumTo;
    StepAligned(Slot(ps, i), Width(ps[i].info.kind));
  }

  lemma StepAligned(n: nat, w: nat)
    requires IsWidth(w) && n % w == 0
    ensures (n + w) % w == 0
  {
  }

  /** For given types and lengths, every acceptable choice of offsets is the gapless one
      exactly if alignment needs no padding. */
  lemma ForcedOffsets(ps: seq<Piece>)
    requires AllUnits(ps)
    ensures (forall qs :: SameShape(ps, qs) && Packed(qs, SumTo(0, ps)) ==> Slotted(qs)) <==> Padding(ps) == 0
  {
    hide Packed, Slotted, SumTo, AlignDiff;
    if Padding(ps) == 0 {
      forall qs | SameShape(ps, qs) && Packed(qs, SumTo(0, ps)) ensures Slotted(qs) {
        ShapeSums(ps, qs);
        if qs == [] { NoSlots(); } else { PackedExactly(qs); }
      }
    } else {
      var k := FirstPadded(ps);
      MovedPacked(ps, k - 1);
    }
  }

  lemma NoSlots()
    ensures Slotted([])
  {
  }

  /* ---- Loaded blobs ---- */

  /** An accepted blob of exact size that loads: no entry starts before its slot, the data
      ends at the trailer, and the bytes that belong to no entry are as many as alignment
      needs; so if it needs none, every offset is the running sum before it. */
  lemma LoadedLayout(b: Bytes, regionTag: nat, tags: Tags, h: Blob)
    requires Accepted(b, regionTag, true, tags, h) && h.regionTag != 0 && Loads(b, h) && h.il > 1
    ensures var ps := PiecesOf(b, h.il, h.dl, 1, h.il);
            && AllUnits(ps) && Packed(ps, SumTo(0, ps))
            && (forall k: nat {:trigger Slot(ps, k)} :: k < |ps| ==> Slot(ps, k) <= ps[k].info.offset)
            && Last(ps[|ps| - 1]) == h.dl - INFO == SumTo(0, ps)
            && Gaps(ps) == Padding(ps)
            && (Padding(ps) == 0 ==> Slotted(ps))
  {
    hide Passes, VerifyRegion, Slot, SumTo, Padding, Gaps, Slotted, Packed;
    var ps := PiecesOf(b, h.il, h.dl, 1, h.il);
    LoadedPacked(b, regionTag, tags, h);
    forall k: nat | k < |ps| ensures Slot(ps, k) <= ps[k].info.offset { SlotsBelow(ps, SumTo(0, ps), k); }
    PackedExactly(ps);
  }

  lemma LoadedPacked(b: Bytes, regionTag: nat, tags: Tags, h: Blob)
    requires Accepted(b, regionTag, true, tags, h) && h.regionTag != 0 && Loads(b, h) && h.il > 1
    ensures var ps := PiecesOf(b, h.il, h.dl, 1, h.il); AllUnits(ps) && Packed(ps, SumTo(0, ps)) && h.dl == SumTo(0, ps) + INFO
  {
    hide Passes, VerifyRegion, SumTo, InfoAt, Len;
    AcceptedLayout(b, regionTag, true, tags, h);
    AcceptedDescribes(b, regionTag, true, tags, h, 1, h.il);
    var ps, at := PiecesOf(b, h.il, h.dl, 1, h.il), Start(b, 0);
    DescribedFit(b, DataStart(1), DataStart(h.il), DataStart(h.il) + h.dl, ps);
    assert at == SumTo(0, ps);
    forall k | 0 <= k < |ps| ensures PieceIn(ps[k], at) && (k > 0 ==> Last(ps[k - 1]) <= ps[k].info.offset) {
      assert Passes(b, h, tags, k + 1);
      PassesPiece(b, h, tags, k + 1);
      assert Placed(b, h, k + 1) && ClearOf(b, h, at, k + 1);
      assert Fits(ps[k], DataStart(h.il), |b|);
      if k > 0 {
        assert Passes(b, h, tags, k);
        PassesPiece(b, h, tags, k);
        assert InOrder(b, h, k, k + 1);
      }
    }
  }

  /* ---- A string moved into the padding of the number after it ---- */

  const REGION_INFO := Info(IMMUTABLE, BIN_TYPE, 8, INFO)
  const STRING_INFO := Info(1000, STRING_TYPE, 1, 1)
  const NUMBER_INFO := Info(1001, 4, 4, 1)
  const TRAILER_INFO := Info(IMMUTABLE, BIN_TYPE, -48, INFO)

  function ShiftedString(): (b: Bytes)
    ensures |b| == 80
  {
    Be32(3) + Be32(24) + InfoBytes(REGION_INFO) + InfoBytes(STRING_INFO) + InfoBytes(NUMBER_INFO)
    + [0, 97, 0, 0, 0, 0, 0, 7] + InfoBytes(TRAILER_INFO)
  }

  lemma ShiftedParts()
    ensures var b := ShiftedString();
            && U32(b, 0) == 3 && U32(b, 4) == 24
            && EntryAt(b, 0) == REGION_INFO && EntryAt(b, 1) == STRING_INFO && EntryAt(b, 2) == NUMBER_INFO
            && InfoAt(b, 64) == TRAILER_INFO && b[57] == 97 && b[58] == 0
  {
    hide U32, InfoAt, InfoBytes, Be32;
    var b := ShiftedString();
    assert b[0..4] == Be32(3)[0..4] && b[4..8] == Be32(24)[0..4];
    U32Same(b, 0, Be32(3), 0);
    U32Same(b, 4, Be32(24), 0);
    assert b[8..24] == InfoBytes(REGION_INFO);
    InfoOfBytes(b, 8, REGION_INFO);
    assert b[24..40] == InfoBytes(STRING_INFO);
    InfoOfBytes(b, 24, STRING_INFO);
    assert b[40..56] == InfoBytes(NUMBER_INFO);
    InfoOfBytes(b, 40, NUMBER_INFO);
    assert b[64..80] == InfoBytes(TRAILER_INFO);
    InfoOfBytes(b, 64, TRAILER_INFO);
  }

  lemma ShiftedLens()
    ensures Len(ShiftedString(), 3, 24, 1) == Some(2) && Len(ShiftedString(), 3, 24, 2) == Some(4)
  {
    hide ShiftedString, InfoAt, U32;
    ShiftedParts();
    assert StrLen(ShiftedString(), 58, 1, 80) == Some(1);
  }

  /** It is accepted at its exact size and it loads, but the string does not lie in its slot. */
  lemma HiddenGap(tags: Tags)
    requires tags.typeOf(1000) == 0 && tags.typeOf(1001) == 0
    ensures var b, h := ShiftedString(), Blob(3, 24, IMMUTABLE, 3, 24);
            && Accepted(b, IMMUTABLE, true, tags, h)
            && Loads(b, h)
            && !Slotted(PiecesOf(b, 3, 24, 1, 3))
  {
    hide ShiftedString, InfoAt, U32, DataLength, StrLen;
    ShiftedParts();
    ShiftedLens();
    var b, h := ShiftedString(), Blob(3, 24, IMMUTABLE, 3, 24);
    assert VerifyRegion(b, 3, 24, IMMUTABLE, true) == Found(IMMUTABLE, 3, 24);
    assert Intro(b, IMMUTABLE, true) == Some(h);
    assert Passes(b, h, tags, 1) && Passes(b, h, tags, 2);
    var ps := PiecesOf(b, 3, 24, 1, 3);
    assert ps[0] == Piece(STRING_INFO, 2) && ps[1] == Piece(NUMBER_INFO, 4);
    assert ps[..0] == [] && ps[..1][..0] == [];
    assert SumTo(0, ps[..1]) == 2 && SumTo(0, ps) == 8;
    assert Slot(ps, 0) == 0;
  }
}
