/** What hdrblobInit() promises about a blob it accepts, in numbers (lib/header.cc:76-130,
    201-226, 301-353, 1857-1979). */
module HeaderAccept {
  import opened Common
  import opened HeaderBytes
  import opened HeaderBlob

  /** The type an entry may have under its tag: the registered one, anything if there is none; a
      string also for i18n strings (9), and for the string arrays (8) of script interpreters. */
  predicate RightType(tags: Tags, e: Info) {
    || tags.typeOf(e.tag) == e.kind
    || tags.typeOf(e.tag) == 0
    || (e.kind == 6 && tags.typeOf(e.tag) == 9)
    || (e.kind == 6 && tags.typeOf(e.tag) == 8 && tags.isProg(e.tag))
  }

  /** In headers with an image (61) or immutable (63) region every entry has the right type. */
  lemma AcceptedTypes(b: Bytes, regionTag: nat, exact: bool, tags: Tags, h: Blob, i: nat)
    requires Accepted(b, regionTag, exact, tags, h) && (h.regionTag == 61 || h.regionTag == 63) && 1 <= i < h.il
    ensures 24 + 16 * i <= |b| && RightType(tags, InfoAt(b, 8 + 16 * i))
  {
    hide InfoAt, Len, VerifyRegion, End;
    assert Passes(b, h, tags, i);
  }

  /** Knowing nothing of any tag. */
  function AnyTags(): Tags { Tags(_ => 0, _ => false) }

  /** What is known of tags comes in there only: for these headers a blob is accepted exactly if it
      is without knowing any tag, and all types are right. */
  lemma TypesExactly(b: Bytes, regionTag: nat, exact: bool, tags: Tags, h: Blob)
    requires h.regionTag == 61 || h.regionTag == 63
    ensures Accepted(b, regionTag, exact, tags, h) <==>
              Accepted(b, regionTag, exact, AnyTags(), h)
              && forall i {:trigger InfoAt(b, 8 + 16 * i)} :: 1 <= i < h.il && 24 + 16 * i <= |b| ==> RightType(tags, InfoAt(b, 8 + 16 * i))
  {
    hide InfoAt, Len, VerifyRegion, End, Intro;
    var any := AnyTags();
    if Intro(b, regionTag, exact) == Some(h) {
      IntroSized(b, regionTag, exact, h);
      forall i | 1 <= i < h.il ensures Passes(b, h, tags, i) <==> Passes(b, h, any, i) && RightType(tags, InfoAt(b, 8 + 16 * i)) {
        TypeOnly(b, h, tags, i);
      }
      hide Passes;
      if Accepted(b, regionTag, exact, tags, h) {
        forall i | 1 <= i < h.il ensures Passes(b, h, any, i) { assert Passes(b, h, tags, i); }
        forall i | 1 <= i < h.il && 24 + 16 * i <= |b| ensures RightType(tags, InfoAt(b, 8 + 16 * i)) { assert Passes(b, h, tags, i); }
      }
      if Accepted(b, regionTag, exact, any, h) && forall i {:trigger InfoAt(b, 8 + 16 * i)} :: 1 <= i < h.il && 24 + 16 * i <= |b| ==> RightType(tags, InfoAt(b, 8 + 16 * i)) {
        forall i | 1 <= i < h.il ensures Passes(b, h, tags, i) { assert Passes(b, h, any, i); }
      }
    }
  }

  lemma IntroSized(b: Bytes, regionTag: nat, exact: bool, h: Blob)
    requires Intro(b, regionTag, exact) == Some(h)
    ensures Sized(b, h.il, h.dl) && First(h) <= h.il && h.dl <= DATA_MAX
  {
  }

  lemma TypeOnly(b: Bytes, h: Blob, tags: Tags, i: nat)
    requires Sized(b, h.il, h.dl) && (h.regionTag == 61 || h.regionTag == 63) && 1 <= i < h.il
    ensures Passes(b, h, tags, i) <==> Passes(b, h, AnyTags(), i) && RightType(tags, InfoAt(b, 8 + 16 * i))
  {
    hide InfoAt, Len, End;
  }

  /** Signature headers and headers without region are not checked for types. */
  lemma UntypedElsewhere(b: Bytes, regionTag: nat, exact: bool, tags: Tags, other: Tags, h: Blob)
    requires Accepted(b, regionTag, exact, tags, h) && h.regionTag != 61 && h.regionTag != 63
    ensures Accepted(b, regionTag, exact, other, h)
  {
    hide InfoAt, Len, VerifyRegion, End, Intro;
    IntroSized(b, regionTag, exact, h);
    forall i | First(h) <= i < h.il ensures Passes(b, h, other, i) { assert Passes(b, h, tags, i); }
  }

  /** The numbers of one entry: a tag above the region tags, one of nine types, at least one and
      not too many elements, an offset in the data. */
  lemma AcceptedEntry(b: Bytes, regionTag: nat, exact: bool, tags: Tags, h: Blob, i: nat)
    requires Accepted(b, regionTag, exact, tags, h) && i < h.il && (h.regionTag == 0 || i >= 1)
    ensures 24 + 16 * i <= |b|
    ensures var e := InfoAt(b, 8 + 16 * i);
            && 100 <= e.tag && 1 <= e.kind <= 9 && 1 <= e.count <= h.dl && (e.kind != 7 ==> e.count <= 0xf_ffff) && 0 <= e.offset < h.dl
            && (e.kind == 3 ==> e.offset % 2 == 0) && (e.kind == 4 ==> e.offset % 4 == 0) && (e.kind == 5 ==> e.offset % 8 == 0)
  {
    hide InfoAt, VerifyRegion, DataLength, Intro;
    IntroSized(b, regionTag, exact, h);
    assert Passes(b, h, tags, i);
  }

  /** Limits, and the sizes that the first eight bytes announce. */
  lemma AcceptedSizes(b: Bytes, regionTag: nat, exact: bool, tags: Tags, h: Blob)
    requires Accepted(b, regionTag, exact, tags, h)
    ensures 8 <= |b| == 8 + 16 * h.il + h.dl < 0x1000_0000 && h.il == U32(b, 0) && h.dl == U32(b, 4)
    ensures if regionTag == 62 then h.il <= 32 && h.dl <= 0x400_0000 else h.il <= 0xffff && h.dl <= 0x0fff_ffff
  {
    hide InfoAt, VerifyRegion, U32, InfoOk;
  }

  /** The region: its entry and its trailer are 16 bytes of binary data under one tag, but for old
      signatures, whose trailer may say 61; the trailer points back over all entries of the region. */
  lemma AcceptedTrailer(b: Bytes, regionTag: nat, exact: bool, tags: Tags, h: Blob)
    requires Accepted(b, regionTag, exact, tags, h) && h.regionTag != 0
    ensures 24 <= |b| && -16 <= InfoAt(b, 8).offset && 8 + 16 * h.il + InfoAt(b, 8).offset + 16 <= |b|
    ensures var e := InfoAt(b, 8);
            var t := InfoAt(b, 8 + 16 * h.il + e.offset);
            && e.tag == h.regionTag && e.kind == 7 && e.count == 16
            && (t.tag == e.tag || (e.tag == 62 && t.tag == 61)) && t.kind == 7 && t.count == 16
            && t.offset == -16 * h.ril && h.rdl == e.offset + 16
            && (regionTag != 0 ==> e.tag == regionTag) && (regionTag == 0 ==> 61 <= e.tag <= 63)
  {
    hide InfoAt, InfoOk;
    assert Intro(b, regionTag, exact) == Some(h);
    assert VerifyRegion(b, h.il, h.dl, regionTag, exact) == Found(h.regionTag, h.ril, h.rdl) by {
      hide VerifyRegion;
      IntroFound(b, regionTag, exact, h);
    }
    var e := InfoAt(b, 8);
    assert EntryAt(b, 0) == e;
    var t := InfoAt(b, 8 + 16 * h.il + e.offset);
    BackFrom(t.offset, h.il, h.ril);
  }

  lemma IntroFound(b: Bytes, regionTag: nat, exact: bool, h: Blob)
    requires Intro(b, regionTag, exact) == Some(h) && h.regionTag != 0
    ensures VerifyRegion(b, h.il, h.dl, regionTag, exact) == Found(h.regionTag, h.ril, h.rdl)
  {
    hide VerifyRegion, U32;
  }

  /** An offset that is not negative does not pass as a number of entries. */
  lemma BackFrom(off: int, il: nat, ril: nat)
    requires -0x8000_0000 <= off < 0x8000_0000 && il <= 0xffff && ril <= il
    requires var back := if off == -0x8000_0000 then off else -off; back % 16 == 0 && ril == SizeT(back) / 16 % WORD
    ensures off == -16 * ril
  {
    var back := if off == -0x8000_0000 then off else -off;
    var k := back / 16;
    assert back == 16 * k;
    if back < 0 { BackNegative(k); } else { BackPositive(k); }
  }

  lemma BackNegative(k: int)
    requires -0x800_0000 <= k < 0
    ensures (0x1_0000_0000_0000_0000 + 16 * k) / 16 % WORD == WORD + k
  {
    var n := 0x1000_0000_0000_0000 + k;
    assert (0x1_0000_0000_0000_0000 + 16 * k) / 16 == n;
    assert n == WORD * 0xfff_ffff + (WORD + k);
  }

  lemma BackPositive(k: nat)
    requires k <= 0x800_0000
    ensures 16 * k / 16 % WORD == k
  {
  }
}
