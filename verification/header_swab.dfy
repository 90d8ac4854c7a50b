/** Byte order of the data of an index (regionSwab, lib/header.cc). */
module HeaderSwab {
  import opened Common
  import opened HeaderBytes
  import opened HeaderBlob

  /* ---- One entry ---- */

  /** Where byte j of an array of w-byte numbers comes from. */
  function Mirror(j: nat, w: nat): (r: int)
    requires w > 0
  {
    j - j % w + (w - 1 - j % w)
  }

  predicate IsWidth(w: nat) { w == 1 || w == 2 || w == 4 || w == 8 }

  lemma MirrorOk(j: nat, w: nat, len: nat)
    requires IsWidth(w) && len % w == 0 && j < len
    ensures 0 <= Mirror(j, w) < len && Mirror(Mirror(j, w), w) == j
    ensures w == 1 ==> Mirror(j, w) == j
  {
    if w == 2 { Mirror2(j, len); } else if w == 4 { Mirror4(j, len); } else if w == 8 { Mirror8(j, len); }
  }

  lemma Mirror2(j: nat, len: nat)
    requires len % 2 == 0 && j < len
    ensures 0 <= Mirror(j, 2) < len && Mirror(Mirror(j, 2), 2) == j
  {
    assert Mirror(j, 2) % 2 == 1 - j % 2;
  }

  lemma Mirror4(j: nat, len: nat)
    requires len % 4 == 0 && j < len
    ensures 0 <= Mirror(j, 4) < len && Mirror(Mirror(j, 4), 4) == j
  {
    assert Mirror(j, 4) % 4 == 3 - j % 4;
  }

  lemma Mirror8(j: nat, len: nat)
    requires len % 8 == 0 && j < len
    ensures 0 <= Mirror(j, 8) < len && Mirror(Mirror(j, 8), 8) == j
  {
    assert Mirror(j, 8) % 8 == 7 - j % 8;
  }

  /** The w-byte numbers in b[at..at + len] swapped. */
  function SwabAt(b: Bytes, at: nat, len: nat, w: nat): (r: Bytes)
    requires at + len <= |b| && IsWidth(w) && len % w == 0
    ensures |r| == |b|
    ensures forall k :: 0 <= k < |b| && !(at <= k < at + len) ==> r[k] == b[k]
  {
    seq(|b|, k requires 0 <= k < |b| =>
      if at <= k < at + len then MirrorOk(k - at, w, len); b[at + Mirror(k - at, w)] else b[k])
  }

  lemma SwabAtIn(b: Bytes, at: nat, len: nat, w: nat, x: nat)
    requires at + len <= |b| && IsWidth(w) && len % w == 0 && x < len
    ensures 0 <= Mirror(x, w) < len && SwabAt(b, at, len, w)[at + x] == b[at + Mirror(x, w)]
  {
    MirrorOk(x, w, len);
  }

  method ReverseGroup(buf: array<byte>, p: nat, w: nat)
    requires p + w <= buf.Length
    modifies buf
    ensures forall k :: p <= k < p + w ==> buf[k] == old(buf[2 * p + w - 1 - k])
    ensures forall k :: 0 <= k < buf.Length && !(p <= k < p + w) ==> buf[k] == old(buf[k])
  {
    var j := 0;
    while j < w / 2
      invariant 0 <= j <= w / 2
      invariant forall k :: p <= k < p + w && (k < p + j || k >= p + w - j) ==> buf[k] == old(buf[2 * p + w - 1 - k])
      invariant forall k :: p + j <= k < p + w - j ==> buf[k] == old(buf[k])
      invariant forall k :: 0 <= k < buf.Length && !(p <= k < p + w) ==> buf[k] == old(buf[k])
    {
      buf[p + j], buf[p + w - 1 - j] := buf[p + w - 1 - j], buf[p + j];
      j := j + 1;
    }
  }

  lemma SwabNone(b: Bytes, at: nat, len: nat, w: nat)
    requires at + len <= |b| && IsWidth(w) && len % w == 0 && (w == 1 || len == 0)
    ensures SwabAt(b, at, len, w) == b
  {
    var r := SwabAt(b, at, len, w);
    forall k | 0 <= k < |b| ensures r[k] == b[k] {
      if at <= k < at + len { SwabAtIn(b, at, len, w, k - at); }
    }
  }

  lemma GroupMirror(n: nat, w: nat, k: nat)
    requires IsWidth(w) && n % w == 0 && n <= k < n + w
    ensures Mirror(k, w) == 2 * n + w - 1 - k
  {
    assert k % w == k - n;
  }

  lemma NextGroup(n: nat, w: nat, len: nat)
    requires IsWidth(w) && n % w == 0 && len % w == 0 && n < len
    ensures n + w <= len && (n + w) % w == 0
  {
  }

  /** Reversing the next number extends the swapped part by it. */
  lemma SwabGrow(b: Bytes, at: nat, n: nat, w: nat, c: Bytes)
    requires IsWidth(w) && n % w == 0 && (n + w) % w == 0 && at + n + w <= |b| == |c|
    requires var s := SwabAt(b, at, n, w);
             && (forall k :: at + n <= k < at + n + w ==> c[k] == s[2 * (at + n) + w - 1 - k])
             && (forall k :: 0 <= k < |b| && !(at + n <= k < at + n + w) ==> c[k] == s[k])
    ensures c == SwabAt(b, at, n + w, w)
  {
    hide Mirror, SwabAt;
    var s, r := SwabAt(b, at, n, w), SwabAt(b, at, n + w, w);
    forall k | 0 <= k < |b| ensures c[k] == r[k] {
      if at <= k < at + n + w {
        SwabAtIn(b, at, n + w, w, k - at);
        if k < at + n {
          SwabAtIn(b, at, n, w, k - at);
        } else {
          GroupMirror(n, w, k - at);
        }
      }
    }
  }

  /** The conversion loops: one number at a time. */
  method SwabData(buf: array<byte>, at: nat, len: nat, w: nat)
    requires at + len <= buf.Length && IsWidth(w) && len % w == 0
    modifies buf
    ensures buf[..] == SwabAt(old(buf[..]), at, len, w)
  {
    hide SwabAt, Mirror;
    if w == 1 {
      SwabNone(buf[..], at, len, w);
      return;
    }
    var n := 0;
    SwabNone(buf[..], at, 0, w);
    while n < len
      invariant 0 <= n <= len && n % w == 0
      invariant buf[..] == SwabAt(old(buf[..]), at, n, w)
    {
      NextGroup(n, w, len);
      ReverseGroup(buf, at + n, w);
      SwabGrow(old(buf[..]), at, n, w, buf[..]);
      n := n + w;
    }
  }

  /* ---- The entries of an index ---- */

  /** Where the data of an index entry is: nowhere, in the blob the header owns, or
      in memory of its own. */
  datatype Data = Null | InBlob(at: nat) | Own(bytes: Bytes)

  /** struct indexEntry_s. */
  datatype Entry = Entry(tag: nat, kind: nat, offset: int, count: nat, data: Data, length: nat, rdlen: nat)

  /** The blob with its first entries swapped, the bytes they need, and their index entries. */
  datatype Load = Load(bytes: Bytes, dl: nat, entries: seq<Entry>)

  predicate SwabOk(e: Info, ds: nat, end: nat) {
    && TypeOk(e.kind)
    && e.count <= DATA_MAX
    && 0 <= e.offset <= DATA_MAX
    && e.offset % Width(e.kind) == 0
    && ds + e.offset < end
  }

  lemma WholeUnits(kind: nat, b: Bytes, p: nat, count: nat, end: nat)
    requires TypeOk(kind) && p <= end <= |b| && count <= DATA_MAX && DataLength(kind, b, p, count, end).Some?
    ensures DataLength(kind, b, p, count, end).value % Width(kind) == 0
    ensures !IsString(kind) ==> DataLength(kind, b, p, count, end).value == Width(kind) * count
  {
    hide StrLen;
    SmallUnits(Width(kind), count);
  }

  lemma SmallUnits(w: nat, count: nat)
    requires IsWidth(w) && count <= DATA_MAX
    ensures w * count % WORD == w * count && w * count % w == 0
  {
    if w == 1 { } else if w == 2 { } else if w == 4 { } else { }
  }

  function SwabNext(l: Load, e: Info, ds: nat, end: nat, rid: int): (r: Option<Load>)
    requires ds <= end <= |l.bytes|
    ensures r.Some? ==> |r.value.bytes| == |l.bytes| && |r.value.entries| == |l.entries| + 1
    ensures r.Some? ==> forall k :: 0 <= k < ds ==> r.value.bytes[k] == l.bytes[k]
  {
    if !SwabOk(e, ds, end) then None else
    var at := ds + e.offset;
    var len := DataLength(e.kind, l.bytes, at, e.count, end);
    if len.None? || len.value > DATA_MAX then None else
    WholeUnits(e.kind, l.bytes, at, e.count, end);
    Some(Load(SwabAt(l.bytes, at, len.value, Width(e.kind)),
              l.dl + AlignDiff(e.kind, l.dl) + len.value,
              l.entries + [Entry(e.tag, e.kind, rid, e.count, InBlob(at), len.value, 0)]))
  }

  /** The first n entries of the index at pe. */
  function SwabAll(b: Bytes, pe: nat, ds: nat, end: nat, rid: int, dl: nat, n: nat): (r: Option<Load>)
    requires pe + INFO * n <= ds <= end <= |b|
    ensures r.Some? ==> |r.value.bytes| == |b| && |r.value.entries| == n
    ensures r.Some? ==> forall k :: 0 <= k < ds ==> r.value.bytes[k] == b[k]
  {
    if n == 0 then Some(Load(b, dl, []))
    else
      var l := SwabAll(b, pe, ds, end, rid, dl, n - 1);
      if l.None? then None else SwabNext(l.value, InfoAt(b, pe + INFO * (n - 1)), ds, end, rid)
  }

  lemma {:induction false} SwabAllFails(b: Bytes, pe: nat, ds: nat, end: nat, rid: int, dl: nat, n: nat, m: nat)
    requires pe + INFO * m <= ds <= end <= |b| && n <= m && SwabAll(b, pe, ds, end, rid, dl, n).None?
    ensures SwabAll(b, pe, ds, end, rid, dl, m).None?
    decreases m
  {
    hide SwabNext, InfoAt;
    if n < m { SwabAllFails(b, pe, ds, end, rid, dl, n, m - 1); }
  }

  /** One turn of the loop. */
  method SwabEntry(buf: array<byte>, info: Info, ds: nat, end: nat, rid: int, dl: nat, ghost listed: seq<Entry>)
    returns (r: Option<Entry>, sum: nat)
    requires ds <= end <= buf.Length && info.count < WORD
    modifies buf
    ensures var l := SwabNext(Load(old(buf[..]), dl, listed), info, ds, end, rid);
            if r.None? then l.None? else l == Some(Load(buf[..], sum, listed + [r.value]))
  {
    hide DataLength, SwabAt, AlignDiff;
    sum := dl;
    if !SwabOk(info, ds, end) { return None, sum; }
    var len := SwabLen(buf, info, ds, end);
    if len.None? || len.value > DATA_MAX { return None, sum; }
    r := Some(Entry(info.tag, info.kind, rid, info.count, InBlob(ds + info.offset), len.value, 0));
    sum := dl + AlignDiff(info.kind, dl) + len.value;
    SwabData(buf, ds + info.offset, len.value, Width(info.kind));
  }

  /** Swap the data of il entries in place; with load, also list them as entries of
      the region rid.  The start of the data follows the index. */
  method RegionSwab(buf: array<byte>, load: bool, il: nat, dl: nat, pe: nat, ds: nat, end: nat, regionid: int)
    returns (nbytes: Option<nat>, entries: seq<Entry>)
    requires pe + INFO * il <= ds <= end <= buf.Length
    modifies buf
    ensures nbytes.Some? <==> (if load then regionid < 0 else regionid == 0)
                              && SwabAll(old(buf[..]), pe, ds, end, regionid, dl, il).Some?
    ensures nbytes.Some? ==> SwabAll(old(buf[..]), pe, ds, end, regionid, dl, il) == Some(Load(buf[..], nbytes.value, entries))
  {
    hide InfoAt, SwabNext;
    entries := [];
    if (load && regionid >= 0) || (!load && regionid != 0) {
      return None, entries;
    }
    var sum: nat, i := dl, 0;
    ghost var b0 := buf[..];
    while i < il
      invariant 0 <= i <= il
      invariant SwabAll(b0, pe, ds, end, regionid, dl, i) == Some(Load(buf[..], sum, entries))
    {
      IndexKept(b0, buf[..], ds, pe + INFO * i);
      var info := InfoAt(buf[..], pe + INFO * i);
      var e;
      e, sum := SwabEntry(buf, info, ds, end, regionid, sum, entries);
      if e.None? {
        SwabAllFails(b0, pe, ds, end, regionid, dl, i + 1, il);
        return None, entries;
      }
      entries := entries + [e.value];
      i := i + 1;
    }
    return Some(sum), entries;
  }

  method SwabLen(buf: array<byte>, info: Info, ds: nat, end: nat) returns (len: Option<nat>)
    requires ds <= end <= buf.Length && SwabOk(info, ds, end)
    ensures len == DataLength(info.kind, buf[..], ds + info.offset, info.count, end)
    ensures len.Some? ==> len.value % Width(info.kind) == 0
  {
    hide DataLength;
    len := DataLen(info.kind, buf[..], ds + info.offset, info.count, end);
    if len.Some? { WholeUnits(info.kind, buf[..], ds + info.offset, info.count, end); }
  }

  lemma IndexKept(b: Bytes, c: Bytes, ds: nat, p: nat)
    requires |b| == |c| && p + INFO <= ds <= |b| && forall k :: 0 <= k < ds ==> b[k] == c[k]
    ensures InfoAt(b, p) == InfoAt(c, p)
  {
    assert b[p..p + INFO] == c[p..p + INFO];
    InfoAtSame(b, p, c, p);
  }
}
