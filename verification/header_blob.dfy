/** Accepting a header blob: hdrblobInit and the checks it makes (lib/header.cc). */
module HeaderBlob {
  import opened Common
  import opened HeaderBytes

  const IMAGE := 61
  const SIGNATURES := 62
  const IMMUTABLE := 63
  const REGIONS := 64
  const I18NTABLE := 100

  const TAGS_MAX := 0xffff
  const DATA_MAX := 0x0fff_ffff
  const ARRAY_MAX := 0xf_ffff
  const HEADER_MAX := 0x1000_0000

  /** Expected tag types, and the tags of script interpreters. */
  datatype Tags = Tags(typeOf: nat -> nat, isProg: nat -> bool)

  /** struct hdrblob_s without its pointers: the blob itself is always a parameter. */
  datatype Blob = Blob(il: nat, dl: nat, regionTag: nat, ril: nat, rdl: nat)

  predicate IsRegionTag(tag: nat) { IMAGE <= tag < REGIONS }

  /** size_t holds a negative number as its complement. */
  function SizeT(x: int): int { if x < 0 then x + 0x1_0000_0000_0000_0000 else x }

  predicate TagTypeOk(tags: Tags, tag: nat, kind: nat) {
    var t := tags.typeOf(tag);
    t == kind || t == 0 || (t == 8 && kind == STRING_TYPE && tags.isProg(tag)) || (kind == STRING_TYPE && t == 9)
  }

  /* ---- strtaglen, dataLength ---- */

  function Plus(n: nat, r: Option<nat>): Option<nat> {
    if r.None? then None else Some(r.value + n)
  }

  lemma {:induction false} StrLenSkip(b: Bytes, p: nat, s: nat, c: nat, end: nat)
    requires p <= s <= end <= |b| && forall i :: p <= i < s ==> b[i] != 0
    ensures StrLen(b, p, c, end) == Plus(s - p, StrLen(b, s, c, end))
    decreases s - p
  {
    if p < s { StrLenSkip(b, p + 1, s, c, end); }
  }

  method MemChr(b: Bytes, p: nat, end: nat) returns (s: nat)
    requires p <= end <= |b|
    ensures p <= s <= end && (s < end ==> b[s] == 0) && forall i :: p <= i < s ==> b[i] != 0
  {
    s := p;
    while s < end && b[s] != 0
      invariant p <= s <= end && forall i :: p <= i < s ==> b[i] != 0
    {
      s := s + 1;
    }
  }

  /** The counter is unsigned: a count of 0 wraps around. */
  method StrTagLen(b: Bytes, str: nat, count: nat, end: nat) returns (r: Option<nat>)
    requires str <= end <= |b| && count < WORD
    ensures r == StrLen(b, str, count, end)
  {
    var start, c := str, count;
    while end > start
      invariant str <= start <= end && 0 <= c
      invariant StrLen(b, str, count, end) == Plus(start - str, StrLen(b, start, c, end))
    {
      var s := MemChr(b, start, end);
      StrLenSkip(b, start, s, c, end);
      if s == end { return None; }
      c := if c == 0 then WORD - 1 else c - 1;
      if c == 0 { return Some(s - str + 1); }
      start := s + 1;
    }
    return None;
  }

  method DataLen(kind: nat, b: Bytes, p: nat, count: nat, end: nat) returns (r: Option<nat>)
    requires TypeOk(kind) && p <= end <= |b| && count < WORD
    ensures r == DataLength(kind, b, p, count, end)
  {
    if kind == STRING_TYPE {
      if count != 1 { return None; }
      r := StrTagLen(b, p, 1, end);
    } else if IsString(kind) {
      r := StrTagLen(b, p, count, end);
    } else {
      var length := Width(kind) * count % WORD;
      r := if end - p < length then None else Some(length);
    }
  }

  /* ---- The parts of a blob ---- */

  function DataStart(il: nat): nat { 8 + INFO * il }

  predicate Sized(b: Bytes, il: nat, dl: nat) { |b| == DataStart(il) + dl }

  function EntryAt(b: Bytes, i: nat): (r: Info)
    requires DataStart(i + 1) <= |b|
    ensures r.tag < WORD && r.kind < WORD && r.count < WORD && -0x8000_0000 <= r.offset < 0x8000_0000
  {
    InfoAt(b, DataStart(i))
  }

  /** Bytes of entry i, if they lie in the data area. */
  function Len(b: Bytes, il: nat, dl: nat, i: nat): (r: Option<nat>)
    requires Sized(b, il, dl) && i < il
    ensures r.Some? ==> 0 <= EntryAt(b, i).offset && EntryAt(b, i).offset + r.value <= dl
  {
    var e := EntryAt(b, i);
    if !TypeOk(e.kind) || e.offset < 0 || e.offset > dl then None
    else DataLength(e.kind, b, DataStart(il) + e.offset, e.count, DataStart(il) + dl)
  }

  function Start(b: Bytes, i: nat): int
    requires DataStart(i + 1) <= |b|
  {
    EntryAt(b, i).offset
  }

  function End(b: Bytes, il: nat, dl: nat, i: nat): int
    requires Sized(b, il, dl) && i < il
  {
    Start(b, i) + if Len(b, il, dl, i).Some? then Len(b, il, dl, i).value else 0
  }

  /* ---- hdrblobVerifyLengths, hdrblobVerifyRegion ---- */

  predicate LengthsOk(regionTag: nat, il: nat, dl: nat) {
    if regionTag == SIGNATURES then il <= 32 && dl <= 64 * 1024 * 1024 else il <= TAGS_MAX && dl <= DATA_MAX
  }

  datatype Region = NotFound | Fail | Found(tag: nat, ril: nat, rdl: nat)

  /** The region announced by the first entry and confirmed by its trailer.  The
      offset is checked after an unsigned 64-bit addition. */
  function VerifyRegion(b: Bytes, il: nat, dl: nat, regionTag: nat, exact: bool): (r: Region)
    requires Sized(b, il, dl) && dl <= DATA_MAX
    ensures r.Found? ==> il > 0 && r.tag == EntryAt(b, 0).tag
  {
    if il < 1 then Fail else
    var e := EntryAt(b, 0);
    var tag := if regionTag == 0 && IsRegionTag(e.tag) then e.tag else regionTag;
    if e.tag != tag then NotFound
    else if !(e.kind == BIN_TYPE && e.count == INFO) then Fail
    else if SizeT(e.offset + INFO) > dl then Fail
    else
      var t := InfoAt(b, DataStart(il) + e.offset);
      var rdl := e.offset + INFO;
      var back := if t.offset == -0x8000_0000 then t.offset else -t.offset;
      var ttag := if tag == SIGNATURES && t.tag == IMAGE then SIGNATURES else t.tag;
      if !(ttag == tag && t.kind == BIN_TYPE && t.count == INFO) then Fail
      else
        var ril := SizeT(back) / INFO % WORD;
        if back % INFO != 0 || ril > il || rdl > dl then Fail
        else if exact && !(il == ril && dl == rdl) then Fail
        else Found(tag, ril, rdl)
  }

  /* ---- hdrblobVerifyInfo ---- */

  function First(h: Blob): nat { if h.regionTag != 0 then 1 else 0 }

  /** What is asked of one entry. */
  predicate EntryOk(b: Bytes, h: Blob, tags: Tags, i: nat)
    requires Sized(b, h.il, h.dl) && i < h.il
  {
    var e := EntryAt(b, i);
    && e.tag >= I18NTABLE
    && TypeOk(e.kind)
    && 1 <= e.count <= h.dl
    && e.offset % Width(e.kind) == 0
    && 0 <= e.offset <= h.dl
    && (e.kind == BIN_TYPE || e.count <= ARRAY_MAX)
    && (h.regionTag == IMMUTABLE || h.regionTag == IMAGE ==> TagTypeOk(tags, e.tag, e.kind))
    && Len(b, h.il, h.dl, i).Some? && Len(b, h.il, h.dl, i).value > 0
  }

  /** The test against the region trailer, a subtraction in size_t. */
  predicate TrailerTest(b: Bytes, h: Blob, i: nat)
    requires Sized(b, h.il, h.dl) && i < h.il
  {
    h.regionTag != 0 ==> !(End(b, h.il, h.dl, i) > SizeT(h.rdl - INFO) && Start(b, i) < h.rdl)
  }

  predicate Passes(b: Bytes, h: Blob, tags: Tags, i: nat)
    requires Sized(b, h.il, h.dl) && First(h) <= i < h.il
  {
    && EntryOk(b, h, tags, i)
    && (i > First(h) ==> End(b, h.il, h.dl, i - 1) <= Start(b, i))
    && TrailerTest(b, h, i)
  }

  predicate InfoOk(b: Bytes, h: Blob, tags: Tags)
    requires Sized(b, h.il, h.dl)
  {
    forall i {:trigger Passes(b, h, tags, i)} :: First(h) <= i < h.il ==> Passes(b, h, tags, i)
  }

  /** One turn of the loop: prev is where the data of the entry before ends. */
  method CheckEntry(b: Bytes, h: Blob, tags: Tags, i: nat, prev: nat) returns (ok: bool, end: nat)
    requires Sized(b, h.il, h.dl) && First(h) <= i < h.il && h.dl <= DATA_MAX
    requires prev <= h.dl && prev == if i == First(h) then 0 else End(b, h.il, h.dl, i - 1)
    ensures ok <==> Passes(b, h, tags, i)
    ensures ok ==> end == End(b, h.il, h.dl, i) <= h.dl
  {
    hide InfoAt, DataLength;
    ok, end := false, 0;
    var info := EntryAt(b, i);
    var ds := DataStart(h.il);
    if prev > info.offset % WORD { return; }
    if info.tag < I18NTABLE { return; }
    if !TypeOk(info.kind) { return; }
    if info.count < 1 || info.count > h.dl { return; }
    if info.offset % Width(info.kind) != 0 { return; }
    if info.offset < 0 || info.offset > h.dl { return; }
    if info.kind != BIN_TYPE && info.count > ARRAY_MAX { return; }
    if (h.regionTag == IMMUTABLE || h.regionTag == IMAGE) && !TagTypeOk(tags, info.tag, info.kind) { return; }
    var len := DataLen(info.kind, b, ds + info.offset, info.count, ds + h.dl);
    if len.None? { return; }
    end := info.offset + len.value;
    if end > h.dl || len.value == 0 { return; }
    if h.regionTag != 0 {
      if end > SizeT(h.rdl - INFO) && info.offset < h.rdl { return; }
    }
    ok := true;
  }

  /** 0, or one more than the number of the first entry that does not pass. */
  method HdrblobVerifyInfo(b: Bytes, h: Blob, tags: Tags) returns (bad: nat)
    requires Sized(b, h.il, h.dl) && First(h) <= h.il && h.dl <= DATA_MAX
    ensures bad == 0 <==> InfoOk(b, h, tags)
    ensures bad > 0 ==> First(h) + bad <= h.il && !Passes(b, h, tags, First(h) + bad - 1)
    ensures bad > 0 ==> forall i {:trigger Passes(b, h, tags, i)} :: First(h) <= i < First(h) + bad - 1 ==> Passes(b, h, tags, i)
  {
    hide End, Passes;
    var pe := First(h);
    var il, end, i := h.il - pe, 0, 0;
    while i < il
      invariant 0 <= i <= il
      invariant forall k {:trigger Passes(b, h, tags, k)} :: pe <= k < pe + i ==> Passes(b, h, tags, k)
      invariant 0 <= end <= h.dl && end == if i == 0 then 0 else End(b, h.il, h.dl, pe + i - 1)
    {
      var ok;
      ok, end := CheckEntry(b, h, tags, pe + i, end);
      if !ok { return i + 1; }
      i := i + 1;
    }
    return 0;
  }

  /* ---- hdrblobInit ---- */

  /** The lengths and the region of a blob, before its entries are looked at. */
  function Intro(b: Bytes, regionTag: nat, exact: bool): (r: Option<Blob>)
    ensures r.Some? ==> Sized(b, r.value.il, r.value.dl) && First(r.value) <= r.value.il && r.value.dl <= DATA_MAX
  {
    if |b| < 8 then None else
    var il, dl := U32(b, 0), U32(b, 4);
    if !LengthsOk(regionTag, il, dl) then None
    else if DataStart(il) + dl >= HEADER_MAX || DataStart(il) + dl != |b| then None
    else match VerifyRegion(b, il, dl, regionTag, exact)
      case Fail => None
      case NotFound => Some(Blob(il, dl, 0, 0, 0))
      case Found(tag, ril, rdl) => Some(Blob(il, dl, tag, ril, rdl))
  }

  ghost predicate Accepted(b: Bytes, regionTag: nat, exact: bool, tags: Tags, h: Blob) {
    Intro(b, regionTag, exact) == Some(h) && InfoOk(b, h, tags)
  }

  method HdrblobInit(b: Bytes, regionTag: nat, exact: bool, tags: Tags) returns (r: Option<Blob>)
    ensures r.Some? ==> Accepted(b, regionTag, exact, tags, r.value)
    ensures r.None? ==> forall h :: !Accepted(b, regionTag, exact, tags, h)
  {
    hide VerifyRegion, Passes;
    r := Intro(b, regionTag, exact);
    if r.Some? {
      var bad := HdrblobVerifyInfo(b, r.value, tags);
      if bad != 0 { r := None; }
    }
  }

  /* ---- What acceptance guarantees ---- */

  /** Entry i lies in the data area, is not empty and is aligned. */
  ghost predicate Placed(b: Bytes, h: Blob, i: nat)
    requires Sized(b, h.il, h.dl) && i < h.il
  {
    0 <= Start(b, i) < End(b, h.il, h.dl, i) <= h.dl && Start(b, i) % Width(EntryAt(b, i).kind) == 0
  }

  ghost predicate InOrder(b: Bytes, h: Blob, i: nat, j: nat)
    requires Sized(b, h.il, h.dl) && i < h.il && j < h.il
  {
    End(b, h.il, h.dl, i) <= Start(b, j)
  }

  ghost predicate Layout(b: Bytes, h: Blob)
    requires Sized(b, h.il, h.dl)
  {
    && (forall i: nat {:trigger Placed(b, h, i)} :: First(h) <= i < h.il ==> Placed(b, h, i))
    && (forall i: nat, j: nat {:trigger InOrder(b, h, i, j)} :: First(h) <= i < j < h.il ==> InOrder(b, h, i, j))
  }

  ghost predicate ClearOf(b: Bytes, h: Blob, at: int, i: nat)
    requires Sized(b, h.il, h.dl) && i < h.il
  {
    End(b, h.il, h.dl, i) <= at || at + INFO <= Start(b, i)
  }

  /** The region trailer lies in the data area and no entry touches it. */
  ghost predicate TrailerApart(b: Bytes, h: Blob)
    requires Sized(b, h.il, h.dl) && 0 < h.il
  {
    var at := Start(b, 0);
    && 0 <= at && at + INFO <= h.dl
    && forall i: nat {:trigger ClearOf(b, h, at, i)} :: 1 <= i < h.il ==> ClearOf(b, h, at, i)
  }

  /** Every accepted blob has its entries in bounds, aligned, not empty and pairwise
      disjoint.  They are clear of the region trailer exactly if the region entry's
      offset is not negative: the range check lets -16 to -1 pass. */
  lemma AcceptedLayout(b: Bytes, regionTag: nat, exact: bool, tags: Tags, h: Blob)
    requires Accepted(b, regionTag, exact, tags, h)
    ensures Layout(b, h)
    ensures h.regionTag != 0 ==> (TrailerApart(b, h) <==> Start(b, 0) >= 0)
    ensures h.regionTag != 0 ==> h.rdl == Start(b, 0) + INFO <= h.dl && h.ril <= h.il
    ensures h.regionTag != 0 && exact ==> h.ril == h.il && h.rdl == h.dl
  {
    hide Passes, VerifyRegion;
    forall i: nat | First(h) <= i < h.il ensures Placed(b, h, i) { PassesPlaced(b, h, tags, i); }
    forall i: nat, j: nat | First(h) <= i < j < h.il ensures InOrder(b, h, i, j) { PassesOrder(b, h, tags, i, j); }
    if h.regionTag != 0 {
      IntroRegion(b, regionTag, exact, h);
      if Start(b, 0) >= 0 {
        forall i: nat | 1 <= i < h.il ensures ClearOf(b, h, Start(b, 0), i) { PassesClear(b, h, tags, i); }
      }
    }
  }

  lemma IntroRegion(b: Bytes, regionTag: nat, exact: bool, h: Blob)
    requires Intro(b, regionTag, exact) == Some(h) && h.regionTag != 0
    ensures h.rdl == Start(b, 0) + INFO <= h.dl && h.ril <= h.il
    ensures exact ==> h.ril == h.il && h.rdl == h.dl
    ensures EntryAt(b, 0).kind == BIN_TYPE && EntryAt(b, 0).count == INFO && EntryAt(b, 0).tag == h.regionTag
  {
    hide InfoAt;
  }

  lemma PassesPlaced(b: Bytes, h: Blob, tags: Tags, i: nat)
    requires Sized(b, h.il, h.dl) && First(h) <= i < h.il && Passes(b, h, tags, i)
    ensures Placed(b, h, i)
  {
    hide InfoAt, DataLength;
  }

  lemma {:induction false} PassesOrder(b: Bytes, h: Blob, tags: Tags, i: nat, j: nat)
    requires Sized(b, h.il, h.dl) && First(h) <= i < j < h.il && InfoOk(b, h, tags)
    ensures InOrder(b, h, i, j)
    decreases j
  {
    hide InfoAt, DataLength;
    assert Passes(b, h, tags, j);
    if i < j - 1 {
      PassesOrder(b, h, tags, i, j - 1);
      assert Passes(b, h, tags, j - 1);
      PassesPlaced(b, h, tags, j - 1);
    }
  }

  lemma PassesClear(b: Bytes, h: Blob, tags: Tags, i: nat)
    requires Sized(b, h.il, h.dl) && 1 <= i < h.il && h.regionTag != 0 && Passes(b, h, tags, i)
    requires h.rdl == Start(b, 0) + INFO && Start(b, 0) >= 0
    ensures ClearOf(b, h, Start(b, 0), i)
  {
    hide InfoAt, DataLength;
  }

  /** One region entry and no data: the entry is its own trailer. */
  function SelfTrailer(): (b: Bytes)
    ensures |b| == 24
  {
    Be32(1) + Be32(0) + InfoBytes(Info(IMMUTABLE, BIN_TYPE, -16, INFO))
  }

  lemma NegativeRegionOffset(tags: Tags)
    ensures Accepted(SelfTrailer(), IMMUTABLE, true, tags, Blob(1, 0, IMMUTABLE, 1, 0))
    ensures !TrailerApart(SelfTrailer(), Blob(1, 0, IMMUTABLE, 1, 0))
  {
    hide SelfTrailer, U32, InfoAt, InfoBytes, Be32;
    SelfTrailerParts();
  }

  lemma SelfTrailerParts()
    ensures var b := SelfTrailer(); U32(b, 0) == 1 && U32(b, 4) == 0
    ensures InfoAt(SelfTrailer(), 8) == Info(IMMUTABLE, BIN_TYPE, -16, INFO)
  {
    hide U32, InfoAt, InfoBytes, Be32;
    var b, i := SelfTrailer(), Info(IMMUTABLE, BIN_TYPE, -16, INFO);
    assert b[8..24] == InfoBytes(i);
    InfoOfBytes(b, 8, i);
    assert b[0..4] == Be32(1)[0..4] && b[4..8] == Be32(0)[0..4];
    U32Same(b, 0, Be32(1), 0);
    U32Same(b, 4, Be32(0), 0);
  }
}
