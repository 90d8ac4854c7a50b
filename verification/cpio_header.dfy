/** The headers in an archive, byte by byte as the "New ASCII Format" section of cpio(5) has them
    (lib/cpio.cc:169-281). */
module CpioHeader {
  import opened Common
  import opened CpioFormat
  import opened CpioStream

  /** Numbers that eight hexadecimal digits hold. */
  predicate Fits(st: Stat, path: Bytes) {
    && st.ino < 0x1_0000_0000 && st.mode < 0x1_0000_0000 && st.uid < 0x1_0000_0000 && st.gid < 0x1_0000_0000
    && st.nlink < 0x1_0000_0000 && st.mtime < 0x1_0000_0000 && st.size < 0x1_0000_0000 && st.devMajor < 0x1_0000_0000
    && st.devMinor < 0x1_0000_0000 && st.rdevMajor < 0x1_0000_0000 && st.rdevMinor < 0x1_0000_0000 && |path| < 0xffff_ffff
  }

  /** A header at p: the magic "070701", then thirteen numbers of eight digits, then the name. */
  ghost predicate HeaderIs(s: Bytes, p: nat, path: Bytes, st: Stat) {
    && p + 110 + |path| + 1 <= |s|
    && s[p] == '0' as int && s[p + 1] == '7' as int && s[p + 2] == '0' as int
    && s[p + 3] == '7' as int && s[p + 4] == '0' as int && s[p + 5] == '1' as int
    && Number(s[p + 6..p + 14]) == Some(st.ino)
    && Number(s[p + 14..p + 22]) == Some(st.mode)
    && Number(s[p + 22..p + 30]) == Some(st.uid)
    && Number(s[p + 30..p + 38]) == Some(st.gid)
    && Number(s[p + 38..p + 46]) == Some(st.nlink)
    && Number(s[p + 46..p + 54]) == Some(st.mtime)
    && Number(s[p + 54..p + 62]) == Some(st.size)
    && Number(s[p + 62..p + 70]) == Some(st.devMajor)
    && Number(s[p + 70..p + 78]) == Some(st.devMinor)
    && Number(s[p + 78..p + 86]) == Some(st.rdevMajor)
    && Number(s[p + 86..p + 94]) == Some(st.rdevMinor)
    && Number(s[p + 94..p + 102]) == Some(|path| + 1)
    && Number(s[p + 102..p + 110]) == Some(0)
    && s[p + 110..p + 110 + |path|] == path && s[p + 110 + |path|] == 0
  }

  /** Field k of the fields of a header. */
  lemma FieldSlices(st: Stat, n: nat)
    ensures var h := HeaderFields(st, n);
            && h[0..8] == Field(st.ino) && h[8..16] == Field(st.mode) && h[16..24] == Field(st.uid) && h[24..32] == Field(st.gid)
            && h[32..40] == Field(st.nlink) && h[40..48] == Field(st.mtime) && h[48..56] == Field(st.size)
            && h[56..64] == Field(st.devMajor) && h[64..72] == Field(st.devMinor) && h[72..80] == Field(st.rdevMajor)
            && h[80..88] == Field(st.rdevMinor) && h[88..96] == Field(n) && h[96..104] == Field(0)
  {
    hide Field;
  }

  lemma SlotNumber(s: Bytes, p: nat, h: Bytes, k: nat, v: nat)
    requires p + 104 <= |s| && s[p..p + 104] == h && k <= 96 && h[k..k + 8] == Field(v) && v < 0x1_0000_0000
    ensures Number(s[p + k..p + k + 8]) == Some(v)
  {
    hide Field, Number;
    SubSlice(s, p, p + 104, k, k + 8);
    FieldNumber(v);
  }

  lemma HeaderNumbers(s: Bytes, p: nat, path: Bytes, st: Stat)
    requires p + 110 + |path| + 1 <= |s| && Fits(st, path)
    requires s[p..p + 6] == NEWC && s[p + 6..p + 110] == HeaderFields(st, |path| + 1) && s[p + 110..p + 111 + |path|] == path + [0]
    ensures HeaderIs(s, p, path, st)
  {
    hide Field, Number, HeaderFields;
    var n := |path| + 1;
    var h := HeaderFields(st, n);
    FieldSlices(st, n);
    SlotNumber(s, p + 6, h, 0, st.ino);
    SlotNumber(s, p + 6, h, 8, st.mode);
    SlotNumber(s, p + 6, h, 16, st.uid);
    SlotNumber(s, p + 6, h, 24, st.gid);
    SlotNumber(s, p + 6, h, 32, st.nlink);
    SlotNumber(s, p + 6, h, 40, st.mtime);
    SlotNumber(s, p + 6, h, 48, st.size);
    SlotNumber(s, p + 6, h, 56, st.devMajor);
    SlotNumber(s, p + 6, h, 64, st.devMinor);
    SlotNumber(s, p + 6, h, 72, st.rdevMajor);
    SlotNumber(s, p + 6, h, 80, st.rdevMinor);
    SlotNumber(s, p + 6, h, 88, n);
    SlotNumber(s, p + 6, h, 96, 0);
    Magic(s, p);
    NameBytes(s, p + 110, path);
  }

  lemma Magic(s: Bytes, p: nat)
    requires p + 6 <= |s| && s[p..p + 6] == NEWC
    ensures s[p] == '0' as int && s[p + 1] == '7' as int && s[p + 2] == '0' as int
    ensures s[p + 3] == '7' as int && s[p + 4] == '0' as int && s[p + 5] == '1' as int
  {
    var m := s[p..p + 6];
    assert m[0] == s[p] && m[1] == s[p + 1] && m[2] == s[p + 2] && m[3] == s[p + 3] && m[4] == s[p + 4] && m[5] == s[p + 5];
  }

  lemma NameBytes(s: Bytes, p: nat, path: Bytes)
    requires p + |path| + 1 <= |s| && s[p..p + |path| + 1] == path + [0]
    ensures s[p..p + |path|] == path && s[p + |path|] == 0
  {
    var x := s[p..p + |path| + 1];
    SubSlice(s, p, p + |path| + 1, 0, |path|);
    assert x[..|path|] == path && x[|path|] == s[p + |path|];
  }

  function Chars(s: string): (r: Bytes)
    requires forall k :: 0 <= k < |s| ==> s[k] < 128 as char
    ensures |r| == |s|
  {
    seq(|s|, k requires 0 <= k < |s| => s[k] as int)
  }

  lemma TrailerName()
    ensures Chars("TRAILER!!!") == TRAILER
  {
  }

  /** Every member of a closed archive has its header, and so has the trailer. */
  lemma MemberHeader(ms: seq<Member>, j: nat)
    requires j <= |ms| && (j < |ms| ==> Fits(ms[j].st, ms[j].path))
    ensures j < |ms| ==> HeaderIs(Closed(ms), HeaderAt(ms[..j]), ms[j].path, ms[j].st)
    ensures j == |ms| ==> HeaderIs(Closed(ms), HeaderAt(ms), Chars("TRAILER!!!"), Stat(0, 0, 0, 0, 1, 0, 0, 0, 0, 0, 0))
  {
    hide Image, Opened, HeaderFields, HeaderIs, HeaderAt, Chars;
    TrailerName();
    ClosedPrefix(ms, j);
    if j == |ms| { assert ms[..j] == ms; }
    var path, st := NextPath(ms, j), NextStat(ms, j);
    RecordParts(Closed(ms), ms[..j], path, st);
    HeaderNumbers(Closed(ms), HeaderAt(ms[..j]), path, st);
  }
}
