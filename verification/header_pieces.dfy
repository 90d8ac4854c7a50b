/** Swapping the data of disjoint entries, and swapping it back. */
module HeaderPieces {
  import opened Common
  import opened HeaderBytes
  import opened HeaderBlob
  import opened HeaderSwab

  /** An index entry and the length of its data. */
  datatype Piece = Piece(info: Info, len: nat)

  function Last(p: Piece): int { p.info.offset + p.len }

  predicate Fits(p: Piece, ds: nat, size: nat) {
    0 <= p.info.offset && ds + Last(p) <= size && p.len % Width(p.info.kind) == 0
  }

  predicate AllFit(ps: seq<Piece>, ds: nat, size: nat) {
    forall k :: 0 <= k < |ps| ==> Fits(ps[k], ds, size)
  }

  predicate Apart(p: Piece, q: Piece) {
    Last(p) <= q.info.offset || Last(q) <= p.info.offset
  }

  predicate AllApart(ps: seq<Piece>) {
    forall j, k :: 0 <= j < k < |ps| ==> Apart(ps[j], ps[k])
  }

  function Swabbed(b: Bytes, ds: nat, ps: seq<Piece>): (r: Bytes)
    requires AllFit(ps, ds, |b|)
    ensures |r| == |b|
  {
    if ps == [] then b
    else
      var p := ps[|ps| - 1];
      SwabAt(Swabbed(b, ds, ps[..|ps| - 1]), ds + p.info.offset, p.len, Width(p.info.kind))
  }

  predicate Inside(p: Piece, ds: nat, y: int) { ds + p.info.offset <= y < ds + Last(p) }

  lemma {:induction false} SwabbedOut(b: Bytes, ds: nat, ps: seq<Piece>, y: nat)
    requires AllFit(ps, ds, |b|) && y < |b| && forall k :: 0 <= k < |ps| ==> !Inside(ps[k], ds, y)
    ensures Swabbed(b, ds, ps)[y] == b[y]
  {
    hide SwabAt;
    if ps != [] {
      assert !Inside(ps[|ps| - 1], ds, y);
      SwabbedOut(b, ds, ps[..|ps| - 1], y);
    }
  }

  lemma {:induction false} SwabbedIn(b: Bytes, ds: nat, ps: seq<Piece>, j: nat, x: nat)
    requires AllFit(ps, ds, |b|) && AllApart(ps) && j < |ps| && x < ps[j].len
    ensures var p, w := ps[j], Width(ps[j].info.kind);
            && 0 <= Mirror(x, w) < p.len
            && Swabbed(b, ds, ps)[ds + p.info.offset + x] == b[ds + p.info.offset + Mirror(x, w)]
  {
    hide SwabAt, Mirror;
    var init, l := ps[..|ps| - 1], ps[|ps| - 1];
    var p, w := ps[j], Width(ps[j].info.kind);
    MirrorOk(x, w, p.len);
    if j == |ps| - 1 {
      SwabAtIn(Swabbed(b, ds, init), ds + p.info.offset, p.len, w, x);
      SwabbedOut(b, ds, init, ds + p.info.offset + Mirror(x, w));
    } else {
      assert Apart(p, l);
      SwabbedIn(b, ds, init, j, x);
    }
  }

  /** A stretch apart from all pieces is left alone. */
  lemma SwabbedSlice(b: Bytes, ds: nat, ps: seq<Piece>, q: Piece)
    requires AllFit(ps, ds, |b|) && Fits(q, ds, |b|) && forall k :: 0 <= k < |ps| ==> Apart(ps[k], q)
    ensures var at := ds + q.info.offset; Swabbed(b, ds, ps)[at..at + q.len] == b[at..at + q.len]
  {
    hide Swabbed;
    var at := ds + q.info.offset;
    forall y | at <= y < at + q.len ensures Swabbed(b, ds, ps)[y] == b[y] {
      assert forall k :: 0 <= k < |ps| ==> Apart(ps[k], q);
      SwabbedOut(b, ds, ps, y);
    }
  }

  /** Pieces whose data holds single bytes or strings keep their bytes. */
  lemma SwabbedNarrow(b: Bytes, ds: nat, ps: seq<Piece>, j: nat)
    requires AllFit(ps, ds, |b|) && AllApart(ps) && j < |ps| && Width(ps[j].info.kind) == 1
    ensures var at := ds + ps[j].info.offset; Swabbed(b, ds, ps)[at..at + ps[j].len] == b[at..at + ps[j].len]
  {
    hide Swabbed, AllApart, AllFit, Mirror;
    var p, at := ps[j], ds + ps[j].info.offset;
    assert Fits(p, ds, |b|) by { FitsAt(b, ds, ps, j); }
    forall y | at <= y < at + p.len ensures Swabbed(b, ds, ps)[y] == b[y] {
      SwabbedIn(b, ds, ps, j, y - at);
      MirrorOk(y - at, 1, p.len);
    }
  }

  lemma FitsAt(b: Bytes, ds: nat, ps: seq<Piece>, j: nat)
    requires AllFit(ps, ds, |b|) && j < |ps|
    ensures Fits(ps[j], ds, |b|)
  {
  }

  /** Swapping twice gives the data back, wherever it was moved in between, and
      whatever piece of single bytes comes along. */
  lemma SwabTwice(b: Bytes, ds: nat, c: Bytes, dc: nat, ps: seq<Piece>, q: Piece, n: nat)
    requires AllFit(ps, ds, |b|) && AllApart(ps) && AllFit([q] + ps, dc, |c|) && AllApart([q] + ps)
    requires Width(q.info.kind) == 1 && ds + n <= |b| && dc + n <= |c|
    requires forall k :: 0 <= k < |ps| ==> Last(ps[k]) <= n
    requires c[dc..dc + n] == Swabbed(b, ds, ps)[ds..ds + n]
    ensures Swabbed(c, dc, [q] + ps)[dc..dc + n] == b[ds..ds + n]
  {
    hide Swabbed, AllApart, AllFit;
    var l, r := Swabbed(c, dc, [q] + ps)[dc..dc + n], b[ds..ds + n];
    forall x | 0 <= x < n ensures l[x] == r[x] {
      SwabTwiceAt(b, ds, c, dc, ps, q, n, x);
      assert l[x] == Swabbed(c, dc, [q] + ps)[dc + x];
    }
    assert |l| == |r|;
  }

  lemma SwabTwiceAt(b: Bytes, ds: nat, c: Bytes, dc: nat, ps: seq<Piece>, q: Piece, n: nat, x: nat)
    requires AllFit(ps, ds, |b|) && AllApart(ps) && AllFit([q] + ps, dc, |c|) && AllApart([q] + ps)
    requires Width(q.info.kind) == 1 && x < n && ds + n <= |b| && dc + n <= |c|
    requires forall k :: 0 <= k < |ps| ==> Last(ps[k]) <= n
    requires c[dc..dc + n] == Swabbed(b, ds, ps)[ds..ds + n]
    ensures Swabbed(c, dc, [q] + ps)[dc + x] == b[ds + x]
  {
    hide Swabbed, AllApart, AllFit;
    if j :| 0 <= j < |ps| && Inside(ps[j], dc, dc + x) {
      SwabTwiceIn(b, ds, c, dc, ps, q, n, j, x - ps[j].info.offset);
    } else {
      SwabTwiceOut(b, ds, c, dc, ps, q, n, x);
    }
  }

  lemma SwabTwiceIn(b: Bytes, ds: nat, c: Bytes, dc: nat, ps: seq<Piece>, q: Piece, n: nat, j: nat, y: nat)
    requires AllFit(ps, ds, |b|) && AllApart(ps) && AllFit([q] + ps, dc, |c|) && AllApart([q] + ps)
    requires ds + n <= |b| && dc + n <= |c| && c[dc..dc + n] == Swabbed(b, ds, ps)[ds..ds + n]
    requires j < |ps| && y < ps[j].len && Last(ps[j]) <= n
    ensures var off := ps[j].info.offset; 0 <= off && Swabbed(c, dc, [q] + ps)[dc + off + y] == b[ds + off + y]
  {
    hide Swabbed, AllApart, AllFit, Mirror;
    var p, w := ps[j], Width(ps[j].info.kind);
    FitsAt(b, ds, ps, j);
    MirrorOk(y, w, p.len);
    assert ([q] + ps)[j + 1] == p;
    SwabbedIn(c, dc, [q] + ps, j + 1, y);
    SwabbedIn(b, ds, ps, j, Mirror(y, w));
    SliceAt(c, dc, Swabbed(b, ds, ps), ds, n, p.info.offset + Mirror(y, w));
  }

  lemma SwabTwiceOut(b: Bytes, ds: nat, c: Bytes, dc: nat, ps: seq<Piece>, q: Piece, n: nat, x: nat)
    requires AllFit(ps, ds, |b|) && AllFit([q] + ps, dc, |c|) && AllApart([q] + ps) && Width(q.info.kind) == 1
    requires ds + n <= |b| && dc + n <= |c| && c[dc..dc + n] == Swabbed(b, ds, ps)[ds..ds + n]
    requires x < n && forall k :: 0 <= k < |ps| ==> !Inside(ps[k], dc, dc + x)
    ensures Swabbed(c, dc, [q] + ps)[dc + x] == b[ds + x]
  {
    hide Swabbed, AllApart, AllFit, Mirror;
    assert forall k :: 0 <= k < |ps| ==> !Inside(ps[k], dc, dc + x) ==> !Inside(ps[k], ds, ds + x);
    SwabbedOut(b, ds, ps, ds + x);
    SliceAt(c, dc, Swabbed(b, ds, ps), ds, n, x);
    if Inside(q, dc, dc + x) {
      FitsAt(c, dc, [q] + ps, 0);
      SwabbedIn(c, dc, [q] + ps, 0, x - q.info.offset);
      MirrorOk(x - q.info.offset, 1, q.len);
    } else {
      SwabbedOut(c, dc, [q] + ps, dc + x);
    }
  }

  /* ---- regionSwab over disjoint pieces ---- */

  ghost predicate PieceOk(b: Bytes, ds: nat, end: nat, p: Piece)
    requires ds <= end <= |b|
  {
    && SwabOk(p.info, ds, end)
    && DataLength(p.info.kind, b, ds + p.info.offset, p.info.count, end) == Some(p.len)
    && p.len <= DATA_MAX
  }

  /** ps are the entries of the index at pe with their data lengths, all apart. */
  ghost predicate Describes(b: Bytes, pe: nat, ds: nat, end: nat, ps: seq<Piece>) {
    && pe + INFO * |ps| <= ds <= end <= |b|
    && (forall k :: 0 <= k < |ps| ==> ps[k].info == InfoAt(b, pe + INFO * k) && PieceOk(b, ds, end, ps[k]))
    && AllApart(ps)
  }

  /** The aligned running sum of the data lengths. */
  function SumTo(dl: nat, ps: seq<Piece>): nat {
    if ps == [] then dl
    else
      var s, p := SumTo(dl, ps[..|ps| - 1]), ps[|ps| - 1];
      s + AlignDiff(p.info.kind, s) + p.len
  }

  function Listed(ps: seq<Piece>, ds: nat, rid: int): seq<Entry>
    requires forall k :: 0 <= k < |ps| ==> ps[k].info.offset >= 0
  {
    seq(|ps|, k requires 0 <= k < |ps| =>
      var e := ps[k].info; Entry(e.tag, e.kind, rid, e.count, InBlob(ds + e.offset), ps[k].len, 0))
  }

  lemma DescribedFit(b: Bytes, pe: nat, ds: nat, end: nat, ps: seq<Piece>)
    requires Describes(b, pe, ds, end, ps)
    ensures AllFit(ps, ds, |b|) && AllApart(ps) && forall k :: 0 <= k < |ps| ==> ps[k].info.offset >= 0
    ensures forall k :: 0 <= k < |ps| ==> ds + Last(ps[k]) <= end
  {
    hide InfoAt, DataLength, AllApart;
    forall k | 0 <= k < |ps| ensures Fits(ps[k], ds, |b|) && ps[k].info.offset >= 0 && ds + Last(ps[k]) <= end {
      var p := ps[k];
      assert PieceOk(b, ds, end, p);
      WholeUnits(p.info.kind, b, ds + p.info.offset, p.info.count, end);
    }
  }

  /** It succeeds, swaps every piece, sums the lengths up and lists the entries. */
  lemma {:induction false} SwabAllPieces(b: Bytes, pe: nat, ds: nat, end: nat, rid: int, dl: nat, ps: seq<Piece>)
    requires Describes(b, pe, ds, end, ps)
    ensures AllFit(ps, ds, |b|) && forall k :: 0 <= k < |ps| ==> ps[k].info.offset >= 0
    ensures SwabAll(b, pe, ds, end, rid, dl, |ps|) == Some(Load(Swabbed(b, ds, ps), SumTo(dl, ps), Listed(ps, ds, rid)))
    decreases |ps|
  {
    hide InfoAt, SwabNext, AllFit, Swabbed, SumTo, Listed, Describes, PieceOk, Apart;
    DescribedFit(b, pe, ds, end, ps);
    if ps == [] {
      NoPieces(b, ds, rid, dl);
    } else {
      var n := |ps| - 1;
      DescribesInit(b, pe, ds, end, ps);
      SwabAllPieces(b, pe, ds, end, rid, dl, ps[..n]);
      NextPiece(b, ds, end, rid, dl, ps[..n], ps[n]);
      assert ps == ps[..n] + [ps[n]];
    }
  }

  lemma NoPieces(b: Bytes, ds: nat, rid: int, dl: nat)
    ensures Swabbed(b, ds, []) == b && SumTo(dl, []) == dl && Listed([], ds, rid) == []
  {
  }

  lemma DescribesInit(b: Bytes, pe: nat, ds: nat, end: nat, ps: seq<Piece>)
    requires Describes(b, pe, ds, end, ps) && ps != []
    ensures var n := |ps| - 1;
            && pe + INFO * |ps| <= ds <= end <= |b|
            && Describes(b, pe, ds, end, ps[..n])
            && ps[n].info == InfoAt(b, pe + INFO * n) && PieceOk(b, ds, end, ps[n])
            && forall k :: 0 <= k < n ==> Apart(ps[k], ps[n])
  {
    hide InfoAt, PieceOk, Apart;
    assert forall k :: 0 <= k < |ps| - 1 ==> ps[..|ps| - 1][k] == ps[k];
  }

  lemma NextPiece(b: Bytes, ds: nat, end: nat, rid: int, dl: nat, ps: seq<Piece>, q: Piece)
    requires ds <= end <= |b| && AllFit(ps, ds, |b|) && forall k :: 0 <= k < |ps| ==> Apart(ps[k], q)
    requires forall k :: 0 <= k < |ps| ==> ps[k].info.offset >= 0
    requires PieceOk(b, ds, end, q)
    ensures AllFit(ps + [q], ds, |b|)
    ensures SwabNext(Load(Swabbed(b, ds, ps), SumTo(dl, ps), Listed(ps, ds, rid)), q.info, ds, end, rid)
         == Some(Load(Swabbed(b, ds, ps + [q]), SumTo(dl, ps + [q]), Listed(ps + [q], ds, rid)))
  {
    hide DataLength, SwabAt, AlignDiff;
    var at, s := ds + q.info.offset, Swabbed(b, ds, ps);
    WholeUnits(q.info.kind, b, at, q.info.count, end);
    SwabbedSlice(b, ds, ps, q);
    DataLengthSame(q.info.kind, b, at, q.info.count, end, s, at, end);
    assert (ps + [q])[..|ps|] == ps;
    assert Listed(ps + [q], ds, rid) == Listed(ps, ds, rid) + [Entry(q.info.tag, q.info.kind, rid, q.info.count, InBlob(at), q.len, 0)];
  }
}
