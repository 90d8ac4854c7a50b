/** Writing a payload (iterWriteArchiveNextFile, iterWriteArchiveNext; lib/rpmfi.cc). */
module PayloadWrite {
  import opened Common
  import opened CpioFormat
  import opened CpioStream
  import opened PayloadLinks
  import opened PayloadOrder
  import opened PayloadHeaders

  datatype Next = Done | Failed(rc: Rc) | At(fx: nat)

  /* ---- Searching ---- */

  predicate IsSingle(files: seq<File>, i: nat)
    requires i < |files|
  {
    !files[i].isGhost && !Linked(files, i)
  }

  lemma {:induction false} SinglesSkip(files: seq<File>, lo: nat, hi: nat)
    requires lo <= hi <= |files| && forall i :: lo <= i < hi ==> !IsSingle(files, i)
    ensures Singles(files, hi) == Singles(files, lo)
    decreases hi
  {
    hide Linked;
    if lo < hi { SinglesSkip(files, lo, hi - 1); assert !IsSingle(files, hi - 1); }
  }

  lemma {:induction false} SetsSkip(files: seq<File>, lo: nat, hi: nat)
    requires lo <= hi <= |files| && forall i :: lo <= i < hi ==> !IsHead(files, i)
    ensures Sets(files, hi) == Sets(files, lo)
    decreases hi
  {
    if lo < hi { SetsSkip(files, lo, hi - 1); }
  }

  /** rpmfilesFNlink */
  function FNlink(files: seq<File>, nlinks: map<nat, seq<nat>>, i: nat): nat
    requires i < |files|
  {
    if i in nlinks then |nlinks[i]| else 1
  }

  lemma NlinkIs(files: seq<File>, nlinks: map<nat, seq<nat>>, i: nat)
    requires LinkTable(files, nlinks) && i < |files|
    ensures FNlink(files, nlinks, i) == LinkCount(files, i) && (FNlink(files, nlinks, i) > 1 <==> Linked(files, i))
    ensures Linked(files, i) ==> i in nlinks && nlinks[i] == Links(files, i)
  {
  }

  /** Search the next file outside of hardlink sets. */
  method NextSingle(files: seq<File>, nlinks: map<nat, seq<nat>>, from: nat) returns (r: nat)
    requires LinkTable(files, nlinks) && from <= |files|
    ensures from <= r <= |files| && Singles(files, r) == Singles(files, from) && (r < |files| ==> IsSingle(files, r))
  {
    hide LinkTable, Linked;
    r := from;
    while r < |files|
      invariant from <= r <= |files| && forall i :: from <= i < r ==> !IsSingle(files, i)
    {
      NlinkIs(files, nlinks, r);
      if !files[r].isGhost && FNlink(files, nlinks, r) < 2 { break; }
      r := r + 1;
    }
    SinglesSkip(files, from, r);
  }

  /** Search the next first file of a hardlink set. */
  method NextHead(files: seq<File>, nlinks: map<nat, seq<nat>>, from: nat) returns (r: nat)
    requires LinkTable(files, nlinks) && from <= |files|
    ensures from <= r <= |files| && Sets(files, r) == Sets(files, from) && (r < |files| ==> IsHead(files, r))
  {
    hide LinkTable, Links;
    r := from;
    while r < |files|
      invariant from <= r <= |files| && forall i :: from <= i < r ==> !IsHead(files, i)
    {
      NlinkIs(files, nlinks, r);
      if !files[r].isGhost && FNlink(files, nlinks, r) > 1 && nlinks[r][0] == r { break; }
      r := r + 1;
    }
    SetsSkip(files, from, r);
  }

  /** Search the first hardlinked file: it is the first of its set. */
  method FirstHead(files: seq<File>, nlinks: map<nat, seq<nat>>) returns (r: nat)
    requires LinkTable(files, nlinks)
    ensures r <= |files| && Sets(files, r) == [] && (r < |files| ==> IsHead(files, r))
  {
    hide LinkTable, Linked;
    r := 0;
    while r < |files|
      invariant 0 <= r <= |files| && forall i: nat :: i < r ==> !Linked(files, i)
    {
      NlinkIs(files, nlinks, r);
      NoGhost(files, r);
      if !files[r].isGhost && FNlink(files, nlinks, r) > 1 { break; }
      r := r + 1;
    }
    SetsSkip(files, 0, r);
    if r < |files| { HeadIsHead(files, r); assert IsHead(files, Links(files, r)[0]); }
  }

  lemma NoGhost(files: seq<File>, i: nat)
    requires i < |files|
    ensures Linked(files, i) ==> !files[i].isGhost
  {
  }

  /* ---- The writer ---- */

  class Rpmfi {
    const files: seq<File>
    const nlinks: map<nat, seq<nat>>
    const archive: Cpio
    var i: int

    constructor (fs: seq<File>, ls: map<nat, seq<nat>>, ar: Cpio)
      ensures files == fs && nlinks == ls && archive == ar && i == -1
    {
      files, nlinks, archive, i := fs, ls, ar, -1;
    }

    /** The files written so far, told by where the iterator stands. */
    ghost predicate Progress(done: seq<nat>)
      reads this`i
    {
      && LinkTable(files, nlinks) && -1 <= i < |files|
      && if i == -1 then done == []
         else if Linked(files, i) then IsHead(files, i) && done == Singles(files, |files|) + Sets(files, i + 1)
         else !files[i].isGhost && done == Singles(files, i + 1)
    }

    /** All content of the files written so far is written. */
    ghost predicate Ready(contents: seq<Bytes>, done: seq<nat>)
      reads archive
    {
      && |files| == |contents| && Indexes(files, done) && archive.writer
      && archive.offset == |archive.stream| == archive.fileend
      && archive.stream == Image(MembersOf(files, contents, done))
    }

    /** The headers of the files written so far, but not yet the content of the last. */
    ghost predicate Open(contents: seq<Bytes>, done: seq<nat>)
      reads archive
    {
      && |files| == |contents| && Indexes(files, done) && done != [] && archive.writer
      && var n := |done| - 1;
      && archive.offset == |archive.stream|
      && archive.fileend == archive.offset + ArchiveSize(files, done[n])
      && archive.stream == Image(MembersOf(files, contents, done[..n]) + [MemberOf(files, contents, done[n]).(content := [])])
    }

    /** Room for the whole archive, and no file too large for the format. */
    ghost predicate Enough(contents: seq<Bytes>)
      reads archive
    {
      && |files| == |contents| && Indexes(files, Order(files))
      && |Closed(MembersOf(files, contents, Order(files)))| <= |archive.stream| + archive.room
      && forall k: nat :: k < |files| ==> ArchiveSize(files, k) < FILESIZE_MAX
    }

    /** Find the next file: first all single ones, then the hardlink sets. */
    method FindNext(ghost done: seq<nat>) returns (r: nat)
      requires Progress(done)
      ensures r <= |files| && (r == |files| ==> done == Order(files))
      ensures r < |files| && !Linked(files, r) ==> i < r && done == Singles(files, r) && IsSingle(files, r) && !(i >= 0 && Linked(files, i))
      ensures r < |files| && Linked(files, r) ==> IsHead(files, r) && done == Singles(files, |files|) + Sets(files, r)
      ensures r < |files| && Linked(files, r) && i >= 0 && Linked(files, i) ==> i < r
    {
      hide LinkTable, Linked, Links;
      if i >= 0 { NlinkIs(files, nlinks, i); }
      if i >= 0 && FNlink(files, nlinks, i) > 1 {
        r := NextHead(files, nlinks, i + 1);
      } else {
        r := NextSingle(files, nlinks, i + 1);
        if r == |files| {
          r := FirstHead(files, nlinks);
        }
      }
    }

    /** One header, with the stat of the file as it is in archives. */
    method WriteHeader(k: nat, contents: seq<Bytes>, ghost done: seq<nat>) returns (rc: Rc)
      requires k < |files| && LinkTable(files, nlinks) && Ready(contents, done)
      modifies archive
      ensures rc == OK ==> Open(contents, done + [k]) && |archive.stream| + archive.room == old(|archive.stream| + archive.room)
      ensures old(Enough(contents)) && done + [k] <= Order(files) ==> rc == OK
    {
      hide LinkTable, Linked, Image, Links, Opened, MemberOf, Order;
      if Enough(contents) && done + [k] <= Order(files) { ArchivePrefix(files, contents, done, k, Order(files)); }
      NlinkIs(files, nlinks, k);
      var n := FNlink(files, nlinks, k);
      var st := Attributes(files[k]).(nlink := n, size := if files[k].kind == Other then 0 else files[k].size);
      if n > 1 && nlinks[k][n - 1] != k { st := st.(size := 0); }
      rc := archive.HeaderWrite(PathOf(files[k]), st, MembersOf(files, contents, done));
      assert (done + [k])[..|done|] == done;
      StatIs(files, contents, k, st);
    }

    /** The headers of a hardlink set: all but the last announce no content. */
    method WriteSet(links: seq<nat>, contents: seq<Bytes>, ghost done: seq<nat>) returns (rc: Rc)
      requires LinkTable(files, nlinks) && PayloadOk(files, contents) && Ready(contents, done)
      requires |links| > 1 && forall j :: 0 <= j < |links| ==> links[j] < |files| && !files[links[j]].isGhost
      requires forall j :: 0 <= j < |links| - 1 ==> ArchiveSize(files, links[j]) == 0
      modifies archive
      ensures rc == OK ==> Open(contents, done + links) && |archive.stream| + archive.room == old(|archive.stream| + archive.room)
      ensures old(Enough(contents)) && done + links <= Order(files) ==> rc == OK
    {
      hide LinkTable, Ready, Open, ArchiveSize, PayloadOk, Order, Closed;
      ghost var total := |archive.stream| + archive.room;
      var j := 0;
      assert done + links[..0] == done;
      while j < |links| - 1
        invariant 0 <= j < |links| && Ready(contents, done + links[..j]) && |archive.stream| + archive.room == total
      {
        assert done + links <= Order(files) ==> done + links[..j] + [links[j]] <= Order(files);
        rc := WriteHeader(links[j], contents, done + links[..j]);
        if rc != OK { return; }
        assert done + links[..j] + [links[j]] == done + links[..j + 1];
        OpenEmpty(contents, done + links[..j + 1]);
        j := j + 1;
      }
      assert done + links[..j] + [links[j]] == done + links;
      rc := WriteHeader(links[j], contents, done + links[..j]);
    }

    /** A file without content is complete with its header. */
    lemma OpenEmpty(contents: seq<Bytes>, done: seq<nat>)
      requires PayloadOk(files, contents) && Open(contents, done)
      requires var x := done[|done| - 1]; !files[x].isGhost && ArchiveSize(files, x) == 0
      ensures Ready(contents, done)
    {
      hide Image, StatOf, ArchiveSize, ContentOf, PayloadOk;
      var n := |done| - 1;
      ContentSize(files, contents, done[n]);
      assert MembersOf(files, contents, done) == MembersOf(files, contents, done[..n]) + [MemberOf(files, contents, done[n])];
      assert MemberOf(files, contents, done[n]).content == [];
    }

    /** Where the iterator stands, counted down. */
    ghost function Rank(): int
      reads this`i
    {
      if 0 <= i < |files| && Linked(files, i) then |files| - i else 2 * |files| - i
    }

    /** iterWriteArchiveNextFile: the header of the next file, or those of the next hardlink set. */
    method NextFile(contents: seq<Bytes>, ghost done: seq<nat>) returns (next: Next, ghost unit: seq<nat>)
      requires Progress(done) && PayloadOk(files, contents) && Ready(contents, done)
      modifies this`i, archive
      ensures next == Done ==> done == Order(files) && Ready(contents, done)
      ensures next.At? ==> i == next.fx && Progress(done + unit) && Open(contents, done + unit) && unit != []
      ensures next.At? ==> next.fx < |files| && (Linked(files, next.fx) ==> IsHead(files, next.fx))
      ensures next.At? ==> unit == (if Linked(files, next.fx) then Links(files, next.fx) else [next.fx]) && !files[next.fx].isGhost
      ensures next.At? ==> 0 <= Rank() < old(Rank()) && done + unit <= Order(files)
      ensures !next.Failed? ==> |archive.stream| + archive.room == old(|archive.stream| + archive.room)
      ensures next.Failed? ==> next.rc != OK && !old(Enough(contents))
    {
      hide LinkTable, Linked, Ready, Open, PayloadOk, Order, IsHead, IsSingle, Enough;
      unit := [];
      var r := FindNext(done);
      i := -1;
      if r == |files| { return Done, unit; }
      NlinkIs(files, nlinks, r);
      NextUnit(files, r);
      OrderPrefix(files, r + 1);
      var rc;
      if FNlink(files, nlinks, r) > 1 {
        unit := Links(files, r);
        SetFacts(files, r);
        rc := WriteSet(nlinks[r], contents, done);
      } else {
        unit := [r];
        rc := WriteHeader(r, contents, done);
      }
      i := r;
      next := if rc != OK then Failed(rc) else At(r);
    }

    /** The content of the file whose header was written last. */
    method WriteContent(buf: Bytes, contents: seq<Bytes>, ghost done: seq<nat>) returns (ok: bool)
      requires Open(contents, done) && PayloadOk(files, contents) && !files[done[|done| - 1]].isGhost
      requires buf == ContentOf(files, contents, done[|done| - 1])
      modifies archive
      ensures ok ==> Ready(contents, done) && |archive.stream| + archive.room == old(|archive.stream| + archive.room)
      ensures old(Enough(contents)) && done <= Order(files) ==> ok
    {
      hide Image, StatOf, ArchiveSize, ContentOf, PayloadOk, Order, Closed;
      ghost var n := |done| - 1;
      ghost var ms, m := MembersOf(files, contents, done[..n]), MemberOf(files, contents, done[n]);
      ContentSize(files, contents, done[n]);
      if Enough(contents) && done <= Order(files) {
        assert done[..n] + [done[n]] == done;
        ArchivePrefix(files, contents, done[..n], done[n], Order(files));
        OpenedStep(ms, m.(content := []));
      }
      var written := archive.Write(buf, ms, m.(content := []));
      ok := written == |buf|;
      assert ok ==> [] + buf[..written] == buf;
      assert MembersOf(files, contents, done) == ms + [m];
      if ok { Grown(ms, m); }
    }

    /** iterWriteArchiveNext: go on to the next file that needs content. */
    method ArchiveNext(contents: seq<Bytes>, ghost done: seq<nat>) returns (next: Next, ghost now: seq<nat>)
      requires Progress(done) && PayloadOk(files, contents) && Ready(contents, done)
      modifies this`i, archive
      ensures next == Done ==> now == Order(files) && Ready(contents, now)
      ensures next.At? ==> Progress(now) && Open(contents, now) && 0 <= Rank() < old(Rank()) && next.fx < |files| && now <= Order(files)
      ensures !next.Failed? ==> |archive.stream| + archive.room == old(|archive.stream| + archive.room)
      ensures next.Failed? ==> next.rc != OK && !old(Enough(contents))
      ensures next.At? ==> var x := now[|now| - 1]; !files[x].isGhost && ContentOf(files, contents, x) == contents[next.fx]
    {
      hide Progress, Ready, Open, PayloadOk, Order, Linked, Links, ContentOf, ArchiveSize, Rank, IsHead, Closed;
      now := done;
      ghost var total := |archive.stream| + archive.room;
      while true
        invariant Progress(now) && Ready(contents, now) && Rank() <= old(Rank()) && |archive.stream| + archive.room == total
        decreases Rank()
      {
        ghost var unit;
        next, unit := NextFile(contents, now);
        if !next.At? { return; }
        now := now + unit;
        var f := files[next.fx];
        UnitLast(files, contents, next.fx);
        assert now[|now| - 1] == unit[|unit| - 1];
        if f.kind == Symlink {
          var ok := WriteContent(f.target, contents, now);
          if !ok { return Failed(WriteFailed), now; }
        } else if f.kind == Regular && f.size > 0 {
          return;
        } else {
          OpenEmpty(contents, now);
        }
      }
    }
  }

  lemma Grown(ms: seq<Member>, m: Member)
    ensures |Image(ms + [m])| == |Image(ms + [m.(content := [])])| + |m.content|
  {
    hide Image, Opened;
    OpenedStep(ms, m);
    OpenedStep(ms, m.(content := []));
  }

  /** The last file of what is written for file fx: it alone carries content. */
  lemma UnitLast(files: seq<File>, contents: seq<Bytes>, fx: nat)
    requires PayloadOk(files, contents) && fx < |files| && !files[fx].isGhost && (Linked(files, fx) ==> IsHead(files, fx))
    ensures var unit := if Linked(files, fx) then Links(files, fx) else [fx];
            && unit != []
            && var x := unit[|unit| - 1];
            && x < |files| && !files[x].isGhost
            && (files[fx].kind == Symlink ==> ContentOf(files, contents, x) == files[fx].target)
            && (files[fx].kind == Regular ==> ContentOf(files, contents, x) == contents[fx])
            && (files[fx].kind == Other || files[fx].size == 0 ==> files[fx].kind != Symlink ==> ArchiveSize(files, x) == 0)
  {
    if Linked(files, fx) {
      var links := Links(files, fx);
      var x := links[|links| - 1];
      assert x in links;
      LinkOf(files, fx, x);
      GroupHas(files, NodeOf(files[fx]), |files|, x);
    }
  }

  /** Write all files of a package and close the archive. */
  method WritePayload(files: seq<File>, contents: seq<Bytes>, room: nat) returns (rc: Rc, stream: Bytes)
    requires PayloadOk(files, contents)
    ensures Indexes(files, Order(files))
    ensures rc == OK ==> stream == Closed(MembersOf(files, contents, Order(files)))
    ensures rc == OK && |files| < 0x1_0000_0000 ==> HeadersTell(stream, files, contents)
    ensures |Closed(MembersOf(files, contents, Order(files)))| <= room && (forall k: nat :: k < |files| ==> ArchiveSize(files, k) < FILESIZE_MAX)
            ==> rc == OK
  {
    hide Order, LinkTable, ContentOf, Image, Opened, ArchiveSize, HeadersTell;
    stream := [];
    OrderIn(files);
    var nlinks := BuildNLink(files);
    var archive := new Cpio.Writer(room);
    var fi := new Rpmfi(files, nlinks, archive);
    ghost var done: seq<nat> := [];
    Empty(files, contents);
    while true
      invariant fi.files == files && fi.nlinks == nlinks && fi.archive == archive
      invariant fi.Progress(done) && fi.Ready(contents, done) && |archive.stream| + archive.room == room
      decreases fi.Rank()
    {
      var next;
      next, done := fi.ArchiveNext(contents, done);
      if next.Failed? { return next.rc, stream; }
      if next == Done { break; }
      var ok := fi.WriteContent(contents[next.fx], contents, done);
      if !ok { return WriteFailed, stream; }
    }
    rc := archive.Close(MembersOf(files, contents, done));
    stream := archive.stream;
    if |files| < 0x1_0000_0000 { AllHeaders(files, contents); }
  }

  lemma Empty(files: seq<File>, contents: seq<Bytes>)
    requires |files| == |contents|
    ensures Image(MembersOf(files, contents, [])) == []
  {
  }

  lemma OrderIn(files: seq<File>)
    ensures Indexes(files, Order(files))
  {
    hide Order;
    OrderHas(files);
    assert forall k :: 0 <= k < |Order(files)| ==> Order(files)[k] in Order(files);
  }

  lemma StatIs(files: seq<File>, contents: seq<Bytes>, k: nat, st: Stat)
    requires k < |files| == |contents|
    requires st == Attributes(files[k]).(nlink := LinkCount(files, k), size := ArchiveSize(files, k))
    ensures MemberOf(files, contents, k).(content := []) == Member(PathOf(files[k]), st, [])
  {
  }

  lemma SetFacts(files: seq<File>, h: nat)
    requires h < |files| && Linked(files, h)
    ensures var links := Links(files, h);
            && |links| > 1 && (forall j :: 0 <= j < |links| ==> links[j] < |files| && !files[links[j]].isGhost)
            && forall j :: 0 <= j < |links| - 1 ==> ArchiveSize(files, links[j]) == 0
  {
    hide Linked;
    var links := Links(files, h);
    assert |links| > 1 by { LinkedSize(files, h); }
    forall j | 0 <= j < |links| ensures links[j] < |files| && !files[links[j]].isGhost && (j < |links| - 1 ==> ArchiveSize(files, links[j]) == 0) {
      assert links[j] in links;
      LinkOf(files, h, links[j]);
      NoGhost(files, links[j]);
      GroupUp(files, NodeOf(files[h]), |files|);
    }
  }

  lemma LinkedSize(files: seq<File>, h: nat)
    requires h < |files| && Linked(files, h)
    ensures |Links(files, h)| > 1
  {
  }

  /** Taking the next file or set moves the iterator on. */
  lemma NextUnit(files: seq<File>, r: nat)
    requires r < |files|
    ensures !Linked(files, r) && IsSingle(files, r) ==> Singles(files, r) + [r] == Singles(files, r + 1) && !files[r].isGhost
    ensures Linked(files, r) && IsHead(files, r) ==>
              (Singles(files, |files|) + Sets(files, r)) + Links(files, r) == Singles(files, |files|) + Sets(files, r + 1) && !files[r].isGhost
  {
    NoGhost(files, r);
    hide Linked;
  }
}
