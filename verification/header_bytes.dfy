/** Bytes, index entries and data lengths of a header blob (lib/header.cc).

    Numbers on disk are big endian.  The host is little endian: swapping a number
    between disk and host order reverses its bytes. */
module HeaderBytes {
  import opened Common


  const WORD := 0x1_0000_0000

  function Join(a: int, b: int, c: int, d: int): int {
    a * 0x100_0000 + b * 0x1_0000 + c * 0x100 + d
  }

  /** The 32-bit number at p. */
  function U32(b: Bytes, p: nat): (r: nat)
    requires p + 4 <= |b|
    ensures r < WORD
  {
    Join(b[p], b[p + 1], b[p + 2], b[p + 3])
  }

  /** A number as four bytes; only its low 32 bits are kept. */
  function Be32(x: int): (r: Bytes)
    ensures |r| == 4 && U32(r, 0) == x % WORD
  {
    var y := x % WORD;
    Be32Split(y);
    [y / 0x100_0000, y / 0x1_0000 % 256, y / 0x100 % 256, y % 256]
  }

  lemma Be32Split(y: nat)
    requires y < WORD
    ensures y / 0x100_0000 < 256
    ensures Join(y / 0x100_0000, y / 0x1_0000 % 256, y / 0x100 % 256, y % 256) == y
  {
    var x, z := y / 0x100, y / 0x1_0000;
    assert x / 0x100 == z && z / 0x100 == y / 0x100_0000 by { QuotientTwice(y); }
    assert y == x * 0x100 + y % 0x100 && x == z * 0x100 + x % 0x100 && z == z / 0x100 * 0x100 + z % 0x100;
  }

  lemma QuotientTwice(y: nat)
    ensures y / 0x100 / 0x100 == y / 0x1_0000 && y / 0x1_0000 / 0x100 == y / 0x100_0000
  {
  }

  /** Numbers survive being written and read back, and bytes being read and written back. */
  lemma Be32OfU32(b: Bytes, p: nat)
    requires p + 4 <= |b|
    ensures Be32(U32(b, p)) == b[p..p + 4]
  {
    hide Join;
    SplitJoin(b[p], b[p + 1], b[p + 2], b[p + 3]);
  }

  lemma SplitJoin(a: int, b: int, c: int, d: int)
    requires 0 <= a < 256 && 0 <= b < 256 && 0 <= c < 256 && 0 <= d < 256
    ensures var y := Join(a, b, c, d); 0 <= y < WORD && y / 0x100_0000 == a && y / 0x1_0000 % 256 == b && y / 0x100 % 256 == c && y % 256 == d
  {
    var y := Join(a, b, c, d);
    var h: int, k: int := a * 0x100 + b, a * 0x1_0000 + b * 0x100 + c;
    assert y / 0x100_0000 == a;
    assert y / 0x1_0000 == h by { assert y == h * 0x1_0000 + (c * 0x100 + d); }
    assert y / 0x100 == k by { assert y == k * 0x100 + d; }
  }

  /** Two's complement. */
  function Signed(x: nat): (r: int)
    requires x < WORD
    ensures -0x8000_0000 <= r < 0x8000_0000 && r % WORD == x
  {
    if x < 0x8000_0000 then x else x - WORD
  }

  /** struct entryInfo_s, in host order. */
  datatype Info = Info(tag: nat, kind: nat, offset: int, count: nat)

  const INFO: nat := 16

  function InfoAt(b: Bytes, p: nat): (r: Info)
    requires p + INFO <= |b|
    ensures r.tag < WORD && r.kind < WORD && r.count < WORD && -0x8000_0000 <= r.offset < 0x8000_0000
  {
    Info(U32(b, p), U32(b, p + 4), Signed(U32(b, p + 8)), U32(b, p + 12))
  }

  function InfoBytes(i: Info): (r: Bytes)
    ensures |r| == INFO
  {
    Be32(i.tag) + Be32(i.kind) + Be32(i.offset) + Be32(i.count)
  }

  lemma U32Same(b: Bytes, p: nat, c: Bytes, q: nat)
    requires p + 4 <= |b| && q + 4 <= |c| && b[p..p + 4] == c[q..q + 4]
    ensures U32(b, p) == U32(c, q)
  {
    var x, y := b[p..p + 4], c[q..q + 4];
    assert x[0] == y[0] && x[1] == y[1] && x[2] == y[2] && x[3] == y[3];
  }

  lemma InfoAtSame(b: Bytes, p: nat, c: Bytes, q: nat)
    requires p + INFO <= |b| && q + INFO <= |c| && b[p..p + INFO] == c[q..q + INFO]
    ensures InfoAt(b, p) == InfoAt(c, q)
  {
    hide U32;
    WordSame(b, p, c, q, 0);
    WordSame(b, p, c, q, 4);
    WordSame(b, p, c, q, 8);
    WordSame(b, p, c, q, 12);
  }

  lemma WordSame(b: Bytes, p: nat, c: Bytes, q: nat, k: nat)
    requires p + INFO <= |b| && q + INFO <= |c| && b[p..p + INFO] == c[q..q + INFO] && k + 4 <= INFO
    ensures U32(b, p + k) == U32(c, q + k)
  {
    hide U32;
    SubSlice(b, p, p + INFO, k, k + 4);
    SubSlice(c, q, q + INFO, k, k + 4);
    U32Same(b, p + k, c, q + k);
  }

  lemma SliceAt(b: Bytes, p: nat, c: Bytes, q: nat, n: nat, x: nat)
    requires p + n <= |b| && q + n <= |c| && b[p..p + n] == c[q..q + n] && x < n
    ensures b[p + x] == c[q + x]
  {
    assert b[p + x] == b[p..p + n][x] && c[q + x] == c[q..q + n][x];
  }

  /** The index entry at p is what its 16 bytes say. */
  lemma InfoOfBytes(b: Bytes, p: nat, i: Info)
    requires p + INFO <= |b| && b[p..p + INFO] == InfoBytes(i)
    requires i.tag < WORD && i.kind < WORD && i.count < WORD && -0x8000_0000 <= i.offset < 0x8000_0000
    ensures InfoAt(b, p) == i
  {
    hide Be32, U32;
    var r := InfoBytes(i);
    InfoAtSame(b, p, r, 0);
    assert r[0..4] == Be32(i.tag)[0..4] && r[4..8] == Be32(i.kind)[0..4]
        && r[8..12] == Be32(i.offset)[0..4] && r[12..16] == Be32(i.count)[0..4];
    U32Same(r, 0, Be32(i.tag), 0);
    U32Same(r, 4, Be32(i.kind), 0);
    U32Same(r, 8, Be32(i.offset), 0);
    U32Same(r, 12, Be32(i.count), 0);
  }

  lemma BytesOfInfo(b: Bytes, p: nat)
    requires p + INFO <= |b|
    ensures InfoBytes(InfoAt(b, p)) == b[p..p + INFO]
  {
    hide Be32, U32;
    Be32OfU32(b, p);
    Be32OfU32(b, p + 4);
    Be32Low(Signed(U32(b, p + 8)), U32(b, p + 8));
    Be32OfU32(b, p + 8);
    Be32OfU32(b, p + 12);
    assert b[p..p + INFO] == b[p..p + 4] + b[p + 4..p + 8] + b[p + 8..p + 12] + b[p + 12..p + 16];
  }

  lemma Be32Low(x: int, y: int)
    requires x % WORD == y % WORD
    ensures Be32(x) == Be32(y)
  {
  }

  /* Tag data types: 1 char, 2 int8, 3 int16, 4 int32, 5 int64, 6 string, 7 bin,
     8 string array, 9 i18n string. */

  const MIN_TYPE := 1
  const MAX_TYPE := 9
  const STRING_TYPE := 6
  const BIN_TYPE := 7

  predicate TypeOk(kind: int) { MIN_TYPE <= kind <= MAX_TYPE }

  predicate IsString(kind: nat) { kind == STRING_TYPE || kind == 8 || kind == 9 }

  /** Bytes per element, 1 for strings: the unit that is swapped, and its alignment. */
  function Width(kind: nat): (r: nat)
    ensures r == 1 || r == 2 || r == 4 || r == 8
  {
    if kind == 3 then 2 else if kind == 4 then 4 else if kind == 5 then 8 else 1
  }

  /** The padding that brings n to the alignment of a type (alignDiff). */
  function AlignDiff(kind: nat, n: nat): (r: nat)
    ensures r < Width(kind) && (n + r) % Width(kind) == 0
  {
    var size := Width(kind);
    var diff := size - n % size;
    AlignOk(size, n);
    if size > 1 && diff != size then diff else 0
  }

  lemma AlignOk(w: nat, n: nat)
    requires w == 1 || w == 2 || w == 4 || w == 8
    ensures 0 < w - n % w <= w && (n + (w - n % w)) % w == 0 && (n % w == 0 || w - n % w < w)
  {
    if w == 2 { Align2(n); } else if w == 4 { Align4(n); } else if w == 8 { Align8(n); }
  }

  lemma Align2(n: nat)
    ensures (n + (2 - n % 2)) % 2 == 0
  {
    assert n + (2 - n % 2) == 2 * (n / 2 + 1);
  }

  lemma Align4(n: nat)
    ensures (n + (4 - n % 4)) % 4 == 0
  {
    assert n + (4 - n % 4) == 4 * (n / 4 + 1);
  }

  lemma Align8(n: nat)
    ensures (n + (8 - n % 8)) % 8 == 0
  {
    assert n + (8 - n % 8) == 8 * (n / 8 + 1);
  }

  /** It is the least such padding. */
  lemma AlignLeast(kind: nat, n: nat, m: nat)
    requires n <= m && m % Width(kind) == 0
    ensures n + AlignDiff(kind, n) <= m
  {
    var w := Width(kind);
    if n % w != 0 {
      if w == 2 { Least2(n, m); } else if w == 4 { Least4(n, m); } else if w == 8 { Least8(n, m); }
    }
  }

  lemma Least2(n: nat, m: nat)
    requires n <= m && m % 2 == 0 && n % 2 != 0
    ensures n + (2 - n % 2) <= m
  {
  }

  lemma Least4(n: nat, m: nat)
    requires n <= m && m % 4 == 0 && n % 4 != 0
    ensures n + (4 - n % 4) <= m
  {
    assert n / 4 < m / 4;
  }

  lemma Least8(n: nat, m: nat)
    requires n <= m && m % 8 == 0 && n % 8 != 0
    ensures n + (8 - n % 8) <= m
  {
    assert n / 8 < m / 8;
  }

  /** Only the position modulo 8 matters. */
  lemma AlignShift(kind: nat, n: nat, k: nat)
    ensures AlignDiff(kind, n + 8 * k) == AlignDiff(kind, n)
  {
    Shift2(n, k);
    Shift4(n, k);
    Shift8(n, k);
  }

  lemma Shift2(n: nat, k: nat)
    ensures (n + 8 * k) % 2 == n % 2
  {
  }

  lemma Shift4(n: nat, k: nat)
    ensures (n + 8 * k) % 4 == n % 4
  {
  }

  lemma Shift8(n: nat, k: nat)
    ensures (n + 8 * k) % 8 == n % 8
  {
  }

  /** Byte length of c strings from p, their terminators included, all before end. */
  function StrLen(b: Bytes, p: nat, c: nat, end: nat): (r: Option<nat>)
    requires end <= |b|
    ensures r.Some? ==> 0 < r.value && p + r.value <= end
    decreases end - p
  {
    if p >= end then None
    else if b[p] != 0 then Longer(StrLen(b, p + 1, c, end))
    else if c == 1 then Some(1)
    else Longer(StrLen(b, p + 1, if c == 0 then WORD - 1 else c - 1, end))
  }

  function Longer(r: Option<nat>): Option<nat> {
    if r.None? then None else Some(r.value + 1)
  }

  /** Number of terminators in b[p..q]. */
  function Nuls(b: Bytes, p: nat, q: nat): nat
    requires p <= q <= |b|
    decreases q - p
  {
    if p == q then 0 else (if b[p] == 0 then 1 else 0) + Nuls(b, p + 1, q)
  }

  /** Any stretch that ends with its c-th terminator is the one found, and nothing else is. */
  lemma {:induction false} StrLenExact(b: Bytes, p: nat, c: nat, end: nat, n: nat)
    requires end <= |b| < WORD && 0 < c < WORD && p <= end
    ensures StrLen(b, p, c, end) == Some(n) <==> 0 < n && p + n <= end && b[p + n - 1] == 0 && Nuls(b, p, p + n) == c
    decreases end - p
  {
    if p < end && n > 0 {
      if p + n <= end { NulsEnd(b, p + 1, p + n); }
      if b[p] != 0 {
        StrLenExact(b, p + 1, c, end, n - 1);
      } else if c > 1 {
        StrLenExact(b, p + 1, c - 1, end, n - 1);
      }
    }
  }

  lemma {:induction false} NulsEnd(b: Bytes, p: nat, q: nat)
    requires p <= q <= |b|
    ensures p < q && b[q - 1] == 0 ==> Nuls(b, p, q) > 0
    decreases q - p
  {
    if p + 1 < q { NulsEnd(b, p + 1, q); }
  }

  /** Byte length of count elements of a type at p, if they end before end (dataLength). */
  function DataLength(kind: nat, b: Bytes, p: nat, count: nat, end: nat): (r: Option<nat>)
    requires TypeOk(kind) && p <= end <= |b|
    ensures r.Some? ==> p + r.value <= end
    ensures r.Some? && !IsString(kind) ==> r.value == Width(kind) * count % WORD
  {
    if kind == STRING_TYPE then
      if count != 1 then None else StrLen(b, p, 1, end)
    else if IsString(kind) then
      StrLen(b, p, count, end)
    else
      var length := Width(kind) * count % WORD;
      if end - p < length then None else Some(length)
  }

  /** A length depends on the bytes it covers only. */
  lemma DataLengthSame(kind: nat, b: Bytes, p: nat, count: nat, end: nat, c: Bytes, q: nat, last: nat)
    requires TypeOk(kind) && p <= end <= |b| && q <= last <= |c|
    requires DataLength(kind, b, p, count, end).Some?
    requires var n := DataLength(kind, b, p, count, end).value; q + n <= last && b[p..p + n] == c[q..q + n]
    ensures DataLength(kind, c, q, count, last) == DataLength(kind, b, p, count, end)
  {
    if IsString(kind) {
      StrLenSame(b, p, count, end, c, q, last);
    }
  }

  lemma {:induction false} StrLenSame(b: Bytes, p: nat, c: nat, end: nat, d: Bytes, q: nat, last: nat)
    requires p <= end <= |b| && q <= last <= |d| && StrLen(b, p, c, end).Some?
    requires var n := StrLen(b, p, c, end).value; q + n <= last && b[p..p + n] == d[q..q + n]
    ensures StrLen(d, q, c, last) == StrLen(b, p, c, end)
    decreases end - p
  {
    var n := StrLen(b, p, c, end).value;
    assert b[p] == b[p..p + n][0] == d[q..q + n][0] == d[q];
    if b[p] != 0 || c != 1 {
      var c' := if b[p] != 0 then c else if c == 0 then WORD - 1 else c - 1;
      assert b[p + 1..p + n] == b[p..p + n][1..] && d[q + 1..q + n] == d[q..q + n][1..];
      StrLenSame(b, p + 1, c', end, d, q + 1, last);
    }
  }
}
