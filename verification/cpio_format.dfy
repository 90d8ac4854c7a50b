/** The "New ASCII Format" of cpio(5) as lib/cpio.cc writes it, on bytes. */
module CpioFormat {
  import opened Common


  const FILESIZE_MAX := 0xffff_ffff
  const NAMESIZE_MAX := 4096
  const FIELD: nat := 8
  const HDR: nat := 104

  const NEWC: Bytes := [48, 55, 48, 55, 48, 49]
  const CRC: Bytes := [48, 55, 48, 55, 48, 50]
  const STRIPPED: Bytes := [48, 55, 48, 55, 48, 88]
  const TRAILER: Bytes := [84, 82, 65, 73, 76, 69, 82, 33, 33, 33]

  /* ---- Numbers ---- */

  function Digit(d: nat): byte
    requires d < 16
  {
    if d < 10 then 48 + d else 87 + d
  }

  /** Value of a hexadecimal digit, or 16. */
  function DigitValue(c: byte): (r: nat)
    ensures r <= 16
  {
    if 48 <= c <= 57 then c - 48 else if 97 <= c <= 102 then c - 87 else if 65 <= c <= 70 then c - 55 else 16
  }

  /** The n lowest hexadecimal digits of v. */
  function Hex(v: nat, n: nat): (r: Bytes)
    ensures |r| == n
  {
    if n == 0 then [] else Hex(v / 16, n - 1) + [Digit(v % 16)]
  }

  /** Digits needed for v, at least 8. */
  function Digits(v: nat): (n: nat)
    ensures n >= FIELD
  {
    if v < 0x1_0000_0000 then FIELD else 1 + Digits(v / 16)
  }

  /** "%8.8lx", cut after 8 characters. */
  function Field(v: nat): (r: Bytes)
    ensures |r| == FIELD
  {
    Hex(v, Digits(v))[..FIELD]
  }

  predicate IsSpace(c: byte) { c == 32 || 9 <= c <= 13 }

  /** End of the blanks at p. */
  function SpaceEnd(s: Bytes, p: nat): (r: nat)
    requires p <= |s|
    ensures p <= r <= |s|
    decreases |s| - p
  {
    if p < |s| && IsSpace(s[p]) then SpaceEnd(s, p + 1) else p
  }

  function DigitEnd(s: Bytes, p: nat): (r: nat)
    requires p <= |s|
    ensures p <= r <= |s|
    decreases |s| - p
  {
    if p < |s| && DigitValue(s[p]) < 16 then DigitEnd(s, p + 1) else p
  }

  function Value(s: Bytes): nat {
    if s == [] then 0 else 16 * Value(s[..|s| - 1]) + DigitValue(s[|s| - 1])
  }

  const ULONG := 0x1_0000_0000_0000_0000

  /** strntoul in base 16 on a field: blanks, a sign and a 0x prefix may precede the
      digits, and a NUL may end them. */
  function Number(s: Bytes): Option<nat> {
    var p := SpaceEnd(s, 0);
    var neg := p < |s| && s[p] == 45;
    var q := if p < |s| && (s[p] == 45 || s[p] == 43) then p + 1 else p;
    var r := if q + 2 < |s| && s[q] == 48 && (s[q + 1] == 120 || s[q + 1] == 88) && DigitValue(s[q + 2]) < 16 then q + 2 else q;
    var e := DigitEnd(s, r);
    var end := if e == r then 0 else e;
    if end < |s| && s[end] != 0 then None
    else
      var v := Value(s[r..e]);
      Some(if neg then (ULONG - v % ULONG) % ULONG else v % ULONG)
  }

  lemma {:induction false} HexValue(v: nat, n: nat)
    requires v < Pow16(n)
    ensures Value(Hex(v, n)) == v && forall k :: 0 <= k < n ==> DigitValue(Hex(v, n)[k]) < 16
    decreases n
  {
    if n > 0 {
      HexValue(v / 16, n - 1);
      assert Hex(v, n)[..n - 1] == Hex(v / 16, n - 1);
    }
  }

  function Pow16(n: nat): nat { if n == 0 then 1 else 16 * Pow16(n - 1) }

  lemma {:induction false} AllDigits(s: Bytes, p: nat)
    requires p <= |s| && forall k :: p <= k < |s| ==> DigitValue(s[k]) < 16
    ensures DigitEnd(s, p) == |s|
    decreases |s| - p
  {
    if p < |s| { AllDigits(s, p + 1); }
  }

  /** A field reads back as the number it was written from, if 32 bits hold it. */
  lemma FieldNumber(v: nat)
    requires v < 0x1_0000_0000
    ensures Number(Field(v)) == Some(v)
  {
    hide Number, Value, DigitValue;
    HexValue(v, 8) by { assert Pow16(8) == 0x1_0000_0000; }
    assert Field(v) == Hex(v, 8);
    DigitsNumber(Field(v));
  }

  lemma DigitsNumber(s: Bytes)
    requires |s| == FIELD && (forall k :: 0 <= k < FIELD ==> DigitValue(s[k]) < 16) && Value(s) < ULONG
    ensures Number(s) == Some(Value(s))
  {
    hide Value;
    AllDigits(s, 0);
    assert DigitValue(s[0]) < 16 && DigitValue(s[1]) < 16;
    assert SpaceEnd(s, 0) == 0;
    assert s[0..8] == s;
  }

  /* ---- Records ---- */

  /** struct stat, as far as it goes into an archive. */
  datatype Stat = Stat(ino: nat, mode: nat, uid: nat, gid: nat, nlink: nat, mtime: nat, size: nat,
                       devMajor: nat, devMinor: nat, rdevMajor: nat, rdevMinor: nat)

  /** A file in an archive: what was announced and the content behind it. */
  datatype Member = Member(path: Bytes, st: Stat, content: Bytes)

  function HeaderFields(st: Stat, namesize: nat): (r: Bytes)
    ensures |r| == HDR
  {
    Field(st.ino) + Field(st.mode) + Field(st.uid) + Field(st.gid) + Field(st.nlink) + Field(st.mtime) + Field(st.size)
    + Field(st.devMajor) + Field(st.devMinor) + Field(st.rdevMajor) + Field(st.rdevMinor) + Field(namesize) + Field(0)
  }

  /** Position of the size and of the length of the name among the fields. */
  const SIZE_AT: nat := 48
  const NAME_AT: nat := 88

  lemma FieldsAt(st: Stat, namesize: nat)
    ensures var h := HeaderFields(st, namesize);
            h[SIZE_AT..SIZE_AT + FIELD] == Field(st.size) && h[NAME_AT..NAME_AT + FIELD] == Field(namesize)
  {
    hide Field;
  }

  function PadLen(n: nat): (r: nat)
    ensures r < 4 && (n + r) % 4 == 0
  {
    (4 - n % 4) % 4
  }

  /** Magic, fields and name with its terminator. */
  function Record(path: Bytes, st: Stat): (r: Bytes)
    ensures |r| == 110 + |path| + 1
  {
    NEWC + HeaderFields(st, |path| + 1) + path + [0]
  }

  const NO_STAT := Stat(0, 0, 0, 0, 1, 0, 0, 0, 0, 0, 0)

  /** The archive so far: each record 4-aligned, its content 4-aligned behind it. */
  function Image(ms: seq<Member>): (r: Bytes)
    decreases |ms|, 0
  {
    if ms == [] then []
    else
      var m := ms[|ms| - 1];
      Opened(ms[..|ms| - 1], m.path, m.st) + m.content
  }

  /** The archive when the header of a file has just been written. */
  function Opened(ms: seq<Member>, path: Bytes, st: Stat): (r: Bytes)
    decreases |ms|, 1
  {
    var a := Image(ms);
    var b := a + Zeros(PadLen(|a|)) + Record(path, st);
    b + Zeros(PadLen(|b|))
  }

  /** The archive with its trailer. */
  function Closed(ms: seq<Member>): Bytes {
    Opened(ms, TRAILER, NO_STAT)
  }

  /** Where the header of a file written after ms starts. */
  function HeaderAt(ms: seq<Member>): (r: nat)
    ensures r % 4 == 0
  {
    |Image(ms)| + PadLen(|Image(ms)|)
  }

  predicate Complete(ms: seq<Member>) {
    forall k :: 0 <= k < |ms| ==> |ms[k].content| == ms[k].st.size
  }

  /** Names that can be read back: short, without terminator, and not the trailer's. */
  predicate NameOk(path: Bytes) {
    |path| < NAMESIZE_MAX && path != TRAILER && forall k :: 0 <= k < |path| ==> path[k] != 0
  }

  predicate Readable(ms: seq<Member>) {
    Complete(ms) && forall k :: 0 <= k < |ms| ==> NameOk(ms[k].path) && ms[k].st.size < FILESIZE_MAX
  }

  /* ---- Prefixes ---- */

  lemma OpenedStep(ms: seq<Member>, m: Member)
    ensures Image(ms + [m]) == Opened(ms, m.path, m.st) + m.content
  {
    assert (ms + [m])[..|ms|] == ms;
  }

  lemma OpenedPrefix(ms: seq<Member>, path: Bytes, st: Stat)
    ensures Image(ms) <= Opened(ms, path, st)
  {
    hide Record, Zeros, Image;
  }

  lemma PrefixChain(a: Bytes, b: Bytes, c: Bytes)
    requires a <= b <= c
    ensures a <= c
  {
  }

  lemma {:induction false} ImagePrefix(ms: seq<Member>, k: nat)
    requires k <= |ms|
    ensures Image(ms[..k]) <= Image(ms)
    decreases |ms|
  {
    if k == |ms| {
      assert ms[..k] == ms;
    } else {
      var n := |ms| - 1;
      ImagePrefix(ms[..n], k);
      assert ms[..n][..k] == ms[..k];
      ImageStep(ms);
      PrefixChain(Image(ms[..k]), Image(ms[..n]), Image(ms));
    }
  }

  lemma ImageStep(ms: seq<Member>)
    requires ms != []
    ensures Image(ms[..|ms| - 1]) <= Image(ms)
  {
    hide Opened;
    var m := ms[|ms| - 1];
    OpenedPrefix(ms[..|ms| - 1], m.path, m.st);
  }

  /** The closed archive starts with the first k files and the header of the next. */
  lemma ClosedPrefix(ms: seq<Member>, k: nat)
    requires k <= |ms|
    ensures Image(ms[..k]) <= Closed(ms)
    ensures k < |ms| ==> Opened(ms[..k], ms[k].path, ms[k].st) + ms[k].content <= Closed(ms)
  {
    hide Opened, Image;
    ImagePrefix(ms, k);
    OpenedPrefix(ms, TRAILER, NO_STAT);
    PrefixChain(Image(ms[..k]), Image(ms), Closed(ms));
    if k < |ms| {
      ImagePrefix(ms, k + 1);
      assert ms[..k + 1] == ms[..k] + [ms[k]];
      OpenedStep(ms[..k], ms[k]);
      PrefixChain(Image(ms[..k + 1]), Image(ms), Closed(ms));
    }
  }
}
