/** Entries put into a header, as headerExport writes them (doExport, lib/header.cc). */
module HeaderDrips {
  import opened Common
  import opened HeaderBytes
  import opened HeaderBlob
  import opened HeaderSwab
  import opened HeaderPieces
  import opened HeaderStore

  /** An entry with data of its own: a drip. */
  ghost predicate IsDrip(e: Entry) {
    && e.offset == 0 && !IsRegionTag(e.tag) && e.tag < TAG_END
    && e.data.Own? && |e.data.bytes| == e.length > 0
    && DataShape(e)
  }

  /** Type, count and length agree, as far as numbers go. */
  predicate DataShape(e: Entry) {
    TypeOk(e.kind) && e.count < WORD && e.length % Width(e.kind) == 0 && (Width(e.kind) > 1 ==> e.length == Width(e.kind) * e.count)
  }

  ghost predicate AllDrips(es: seq<Entry>) {
    forall k :: 0 <= k < |es| ==> IsDrip(es[k])
  }

  /** Drips one after the other from position at of the data area. */
  ghost function Laid(at: nat, es: seq<Entry>): (ps: seq<Piece>)
    ensures |ps| == |es|
  {
    if es == [] then []
    else
      var init, e := Laid(at, es[..|es| - 1]), es[|es| - 1];
      init + [LaidNext(SumTo(at, init), e)]
  }

  function LaidNext(s: nat, e: Entry): Piece {
    Piece(Info(e.tag, e.kind, s + AlignDiff(e.kind, s), e.count), e.length)
  }

  ghost function IndexBytes(ps: seq<Piece>): (r: Bytes)
    ensures |r| == INFO * |ps|
  {
    if ps == [] then [] else IndexBytes(ps[..|ps| - 1]) + InfoBytes(ps[|ps| - 1].info)
  }

  /** The data of a drip in disk order. */
  ghost function DiskBytes(e: Entry): (r: Bytes)
    requires IsDrip(e)
    ensures |r| == e.length
  {
    SwabAt(e.data.bytes, 0, e.length, Width(e.kind))
  }

  ghost function DripBytes(at: nat, es: seq<Entry>): (r: Bytes)
    requires AllDrips(es)
    ensures |r| == SumTo(at, Laid(at, es)) - at
  {
    if es == [] then []
    else
      var init, e := es[..|es| - 1], es[|es| - 1];
      var s := SumTo(at, Laid(at, init));
      SumLaid(at, es);
      DripBytes(at, init) + Zeros(AlignDiff(e.kind, s)) + DiskBytes(e)
  }

  lemma SumLaid(at: nat, es: seq<Entry>)
    requires es != []
    ensures var s, e := SumTo(at, Laid(at, es[..|es| - 1])), es[|es| - 1];
            SumTo(at, Laid(at, es)) == s + AlignDiff(e.kind, s) + e.length
  {
    hide AlignDiff;
    var ps := Laid(at, es);
    assert ps[..|ps| - 1] == Laid(at, es[..|es| - 1]);
  }

  lemma {:induction false} SumUp(at: nat, ps: seq<Piece>, k: nat)
    requires k <= |ps|
    ensures at <= SumTo(at, ps[..k]) <= SumTo(at, ps)
    decreases |ps|
  {
    if k == |ps| {
      assert ps[..k] == ps;
      if k > 0 { SumUp(at, ps[..k - 1], 0); }
    } else {
      SumUp(at, ps[..|ps| - 1], k);
      assert ps[..|ps| - 1][..k] == ps[..k];
    }
  }

  lemma {:induction false} LaidPrefix(at: nat, es: seq<Entry>, k: nat)
    requires k <= |es|
    ensures Laid(at, es[..k]) == Laid(at, es)[..k]
    decreases |es|
  {
    if k == |es| {
      assert es[..k] == es;
    } else {
      LaidPrefix(at, es[..|es| - 1], k);
      assert es[..|es| - 1][..k] == es[..k];
    }
  }

  /* ---- Writing ---- */

  /** memcpy into the blob under construction. */
  method Write(buf: array<byte>, at: nat, src: Bytes)
    requires at + |src| <= buf.Length
    modifies buf
    ensures buf[at..at + |src|] == src
    ensures forall k :: 0 <= k < buf.Length && !(at <= k < at + |src|) ==> buf[k] == old(buf[k])
  {
    var i := 0;
    while i < |src|
      invariant 0 <= i <= |src|
      invariant forall k :: at <= k < at + i ==> buf[k] == src[k - at]
      invariant forall k :: 0 <= k < buf.Length && !(at <= k < at + |src|) ==> buf[k] == old(buf[k])
    {
      buf[at + i] := src[i];
      i := i + 1;
    }
  }

  /** Copy the data of a drip with endian conversions. */
  method WriteDrip(buf: array<byte>, at: nat, e: Entry)
    requires IsDrip(e) && at + e.length <= buf.Length
    modifies buf
    ensures buf[at..at + e.length] == DiskBytes(e)
    ensures forall k :: 0 <= k < buf.Length && !(at <= k < at + e.length) ==> buf[k] == old(buf[k])
  {
    Write(buf, at, e.data.bytes);
    ghost var c := buf[..];
    SwabData(buf, at, e.length, Width(e.kind));
    SwabMoved(c, at, e.data.bytes, e.length, Width(e.kind));
  }

  lemma SwabMoved(c: Bytes, at: nat, b: Bytes, len: nat, w: nat)
    requires IsWidth(w) && len % w == 0 && |b| == len && at + len <= |c| && c[at..at + len] == b
    ensures SwabAt(c, at, len, w)[at..at + len] == SwabAt(b, 0, len, w)
  {
    hide Mirror, SwabAt;
    var l, r := SwabAt(c, at, len, w)[at..at + len], SwabAt(b, 0, len, w);
    forall x | 0 <= x < len ensures l[x] == r[x] {
      SwabAtIn(c, at, len, w, x);
      SwabAtIn(b, 0, len, w, x);
      assert l[x] == SwabAt(c, at, len, w)[at + x];
      SliceAt(c, at, b, 0, len, Mirror(x, w));
    }
  }

  /** One drip: its index entry at pe, padding and data at te. */
  method ExportDrip(buf: array<byte>, e: Entry, pe: nat, ds: nat, te: nat) returns (next: nat)
    requires IsDrip(e) && pe + INFO <= ds <= te && te + AlignDiff(e.kind, te - ds) + e.length <= buf.Length
    modifies buf
    ensures next == te + AlignDiff(e.kind, te - ds) + e.length
    ensures buf[pe..pe + INFO] == InfoBytes(LaidNext(te - ds, e).info)
    ensures buf[te..next] == Zeros(AlignDiff(e.kind, te - ds)) + DiskBytes(e)
    ensures forall k :: 0 <= k < buf.Length && !(pe <= k < pe + INFO) && !(te <= k < next) ==> buf[k] == old(buf[k])
  {
    hide AlignDiff, IsDrip, DiskBytes, InfoBytes;
    var diff := AlignDiff(e.kind, te - ds);
    var zeros := Zeros(diff);
    Write(buf, te, zeros);
    var info := Info(e.tag, e.kind, te + diff - ds, e.count);
    Write(buf, pe, InfoBytes(info));
    WriteDrip(buf, te + diff, e);
    next := te + diff + e.length;
    assert buf[te..next] == buf[te..te + diff] + buf[te + diff..next];
    assert buf[te..te + diff] == zeros;
  }

  /** All drips, after what is already written up to pe and te. */
  method ExportDrips(buf: array<byte>, es: seq<Entry>, pe: nat, ds: nat, te: nat)
    requires AllDrips(es) && pe + INFO * |es| == ds <= te && ds + SumTo(te - ds, Laid(te - ds, es)) == buf.Length
    modifies buf
    ensures te <= buf.Length
    ensures buf[pe..ds] == IndexBytes(Laid(te - ds, es)) && buf[te..] == DripBytes(te - ds, es)
    ensures forall k :: 0 <= k < buf.Length && (k < pe || ds <= k < te) ==> buf[k] == old(buf[k])
  {
    hide IsDrip, SumTo, Laid, DripBytes, IndexBytes, AlignDiff, InfoBytes, Zeros, DiskBytes, AllDrips, Written;
    var i, p, t := 0, pe, te;
    ghost var at := te - ds;
    SumUp(at, Laid(at, es), 0);
    StartWritten(buf[..], pe, ds, te, es);
    while i < |es|
      invariant 0 <= i <= |es| && p == pe + INFO * i
      invariant t == ds + SumTo(at, Laid(at, es[..i])) && te <= t <= buf.Length
      invariant Written(buf[..], pe, ds, te, es[..i])
      invariant forall k :: 0 <= k < buf.Length && (k < pe || ds <= k < te) ==> buf[k] == old(buf[k])
    {
      DripStep(at, es, i);
      ghost var c := buf[..];
      if es[i].length > 0 {
        var next := ExportDrip(buf, es[i], p, ds, t);
        WrittenStep(c, buf[..], pe, ds, te, es, i);
        p, t := p + INFO, next;
      }
      i := i + 1;
    }
    assert es[..i] == es;
    AllWritten(buf[..], pe, ds, te, es);
  }

  /** The drips fs stand in the blob under construction. */
  ghost predicate Written(c: Bytes, pe: nat, ds: nat, te: nat, fs: seq<Entry>)
    requires ds <= te
  {
    var at := te - ds;
    var p, t := pe + INFO * |fs|, ds + SumTo(at, Laid(at, fs));
    && AllDrips(fs) && p <= ds && te <= t <= |c|
    && c[pe..p] == IndexBytes(Laid(at, fs)) && c[te..t] == DripBytes(at, fs)
  }

  lemma StartWritten(c: Bytes, pe: nat, ds: nat, te: nat, es: seq<Entry>)
    requires pe <= ds <= te <= |c|
    ensures Written(c, pe, ds, te, es[..0]) && SumTo(te - ds, Laid(te - ds, es[..0])) == te - ds
  {
    NoDrips(te - ds);
  }

  lemma AllWritten(c: Bytes, pe: nat, ds: nat, te: nat, es: seq<Entry>)
    requires ds <= te && Written(c, pe, ds, te, es) && AllDrips(es)
    requires pe + INFO * |es| == ds && ds + SumTo(te - ds, Laid(te - ds, es)) == |c|
    ensures te <= |c| && c[pe..ds] == IndexBytes(Laid(te - ds, es)) && c[te..] == DripBytes(te - ds, es)
  {
    hide SumTo, Laid, IndexBytes, DripBytes;
  }

  lemma WrittenStep(c: Bytes, d: Bytes, pe: nat, ds: nat, te: nat, es: seq<Entry>, i: nat)
    requires ds <= te && AllDrips(es) && i < |es| && pe + INFO * |es| == ds && |c| == |d|
    requires Written(c, pe, ds, te, es[..i])
    requires var at, e := te - ds, es[i];
             var s := SumTo(at, Laid(at, es[..i]));
             var p, t, next := pe + INFO * i, ds + s, ds + s + AlignDiff(e.kind, s) + e.length;
             && IsDrip(e) && te <= t && next <= |c|
             && d[p..p + INFO] == InfoBytes(LaidNext(s, e).info)
             && d[t..next] == Zeros(AlignDiff(e.kind, s)) + DiskBytes(e)
             && forall k :: 0 <= k < |c| && !(p <= k < p + INFO) && !(t <= k < next) ==> d[k] == c[k]
    ensures Written(d, pe, ds, te, es[..i + 1])
  {
    hide AlignDiff, InfoBytes, Zeros, DiskBytes, IndexBytes, SumTo, Laid, DripBytes, IsDrip;
    var at := te - ds;
    var p, t := pe + INFO * i, ds + SumTo(at, Laid(at, es[..i]));
    DripStep(at, es, i);
    Extend(c, d, pe, p, p + INFO);
    Extend(c, d, te, t, ds + SumTo(at, Laid(at, es[..i + 1])));
  }

  lemma Extend(c: Bytes, d: Bytes, lo: nat, mid: nat, hi: nat)
    requires lo <= mid <= hi <= |d| == |c| && forall k :: lo <= k < mid ==> d[k] == c[k]
    ensures d[lo..hi] == c[lo..mid] + d[mid..hi]
  {
  }

  lemma NoDrips(at: nat)
    ensures AllDrips([]) && Laid(at, []) == [] && SumTo(at, Laid(at, [])) == at && IndexBytes(Laid(at, [])) == [] && DripBytes(at, []) == []
  {
  }

  lemma DripStep(at: nat, es: seq<Entry>, i: nat)
    requires AllDrips(es) && i < |es|
    ensures AllDrips(es[..i]) && AllDrips(es[..i + 1]) && IsDrip(es[i]) && es[i].length > 0
    ensures var s, e := SumTo(at, Laid(at, es[..i])), es[i];
            && at <= s
            && SumTo(at, Laid(at, es[..i + 1])) == s + AlignDiff(e.kind, s) + e.length <= SumTo(at, Laid(at, es))
            && IndexBytes(Laid(at, es[..i + 1])) == IndexBytes(Laid(at, es[..i])) + InfoBytes(LaidNext(s, e).info)
            && DripBytes(at, es[..i + 1]) == DripBytes(at, es[..i]) + (Zeros(AlignDiff(e.kind, s)) + DiskBytes(e))
  {
    hide AlignDiff, InfoBytes, Zeros, DiskBytes, IndexBytes, SumTo, Laid, DripBytes, IsDrip;
    assert IsDrip(es[i]);
    assert es[i].length > 0 by { DripLength(es[i]); }
    assert es[..i + 1][..i] == es[..i];
    SumLaid(at, es[..i + 1]);
    LaidPrefix(at, es, i + 1);
    SumUp(at, Laid(at, es), i + 1);
    SumUp(at, Laid(at, es[..i]), 0);
    NextIndex(at, es[..i + 1]);
    NextBytes(at, es[..i + 1]);
  }

  lemma DripLength(e: Entry)
    requires IsDrip(e)
    ensures e.length > 0
  {
  }

  lemma NextIndex(at: nat, es: seq<Entry>)
    requires es != []
    ensures var init, e := Laid(at, es[..|es| - 1]), es[|es| - 1];
            IndexBytes(Laid(at, es)) == IndexBytes(init) + InfoBytes(LaidNext(SumTo(at, init), e).info)
  {
    hide AlignDiff, InfoBytes, SumTo;
    var ps := Laid(at, es);
    assert ps[..|ps| - 1] == Laid(at, es[..|es| - 1]);
  }

  lemma NextBytes(at: nat, es: seq<Entry>)
    requires es != [] && AllDrips(es) && AllDrips(es[..|es| - 1])
    ensures var init, e := es[..|es| - 1], es[|es| - 1];
            var s := SumTo(at, Laid(at, init));
            DripBytes(at, es) == DripBytes(at, init) + (Zeros(AlignDiff(e.kind, s)) + DiskBytes(e))
  {
    hide AlignDiff, Zeros, DiskBytes, SumTo, Laid, IsDrip;
    assert IsDrip(es[|es| - 1]);
  }
}
