/** Reading and writing cpio archives (lib/cpio.cc). */
module CpioStream {
  import opened Common
  import opened CpioFormat

  datatype Rc = OK | WriteFailed | ReadFailed | FileSize | BadMagic | BadHeader | IterEnd

  /** What a header names: a path, or in stripped archives the number of a file. */
  datatype Head = NoHead | Path(path: Bytes) | Index(fx: int)

  const BUFFER: nat := 8 * 8192

  /** The bytes before the first NUL. */
  function CString(s: Bytes): (r: Bytes)
    ensures |r| <= |s|
  {
    if s == [] || s[0] == 0 then [] else [s[0]] + CString(s[1..])
  }

  lemma {:induction false} CStringOf(path: Bytes)
    requires forall k :: 0 <= k < |path| ==> path[k] != 0
    ensures CString(path + [0]) == path
    decreases |path|
  {
    if path != [] {
      CStringOf(path[1..]);
      assert (path + [0])[1..] == path[1..] + [0];
    }
  }

  function Int32(v: nat): int {
    var x := v % 0x1_0000_0000;
    if x < 0x8000_0000 then x else x - 0x1_0000_0000
  }

  /** The parts of a record at the start of the next header. */
  lemma RecordParts(s: Bytes, ms: seq<Member>, path: Bytes, st: Stat)
    requires Opened(ms, path, st) <= s
    ensures var p, n := HeaderAt(ms), |path| + 1;
            var e := p + 110 + n;
            && e + PadLen(e) == |Opened(ms, path, st)| <= |s|
            && s[p..p + 6] == NEWC && s[p + 6..p + 110] == HeaderFields(st, n) && s[p + 110..e] == path + [0]
  {
    hide Image, HeaderFields;
    var a := Image(ms);
    var z, r := Zeros(PadLen(|a|)), Record(path, st);
    var o := Opened(ms, path, st);
    var p, e := |a| + |z|, |a| + |z| + |r|;
    assert o == (a + z) + r + Zeros(PadLen(e));
    assert o[p..e] == r;
    RecordSlices(path, st);
    SlicePrefix(o, s, p, e);
    SubSlice(s, p, e, 0, 6);
    SubSlice(s, p, e, 6, 110);
    SubSlice(s, p, e, 110, |r|);
  }

  lemma RecordSlices(path: Bytes, st: Stat)
    ensures var r := Record(path, st);
            r[0..6] == NEWC && r[6..110] == HeaderFields(st, |path| + 1) && r[110..|r|] == path + [0]
  {
    hide HeaderFields;
  }

  lemma SlicePrefix(o: Bytes, s: Bytes, p: nat, e: nat)
    requires o <= s && p <= e <= |o|
    ensures s[p..e] == o[p..e]
  {
  }

  /** Where the padding behind a header ends whose fields start at p. */
  function FieldsEnd(p: nat, path: Bytes): nat {
    var e := p + HDR + |path| + 1;
    e + PadLen(e)
  }

  /** A readable header stands at p, its magic already read. */
  ghost predicate Written(s: Bytes, p: nat, path: Bytes, st: Stat) {
    && FieldsEnd(p, path) <= |s| && |path| < NAMESIZE_MAX && st.size < FILESIZE_MAX
    && (forall k :: 0 <= k < |path| ==> path[k] != 0)
    && s[p..p + HDR] == HeaderFields(st, |path| + 1)
    && s[p + HDR..p + HDR + |path| + 1] == path + [0]
  }

  lemma WrittenFields(s: Bytes, p: nat, path: Bytes, st: Stat)
    requires Written(s, p, path, st)
    ensures var h := s[p..p + HDR];
            && Number(h[SIZE_AT..SIZE_AT + FIELD]) == Some(st.size)
            && Number(h[NAME_AT..NAME_AT + FIELD]) == Some(|path| + 1) && Int32(|path| + 1) == |path| + 1
    ensures CString(s[p + HDR..p + HDR + |path| + 1]) == path
  {
    hide HeaderFields, Number, Field;
    FieldsAt(st, |path| + 1);
    FieldNumber(st.size);
    FieldNumber(|path| + 1);
    CStringOf(path);
  }

  lemma NotStripped(magic: Bytes)
    ensures magic == NEWC ==> magic != STRIPPED
  {
    assert NEWC[5] != STRIPPED[5];
  }

  ghost function NextPath(ms: seq<Member>, j: nat): Bytes { if j < |ms| then ms[j].path else TRAILER }

  ghost function NextStat(ms: seq<Member>, j: nat): Stat { if j < |ms| then ms[j].st else NO_STAT }

  /** Behind the first j files of a closed archive stands the next header, or the trailer. */
  lemma NextHeader(ms: seq<Member>, j: nat)
    requires Readable(ms) && j <= |ms|
    ensures var s, p := Closed(ms), HeaderAt(ms[..j]);
            && |Image(ms[..j])| <= p && p + 6 <= |s| && s[p..p + 6] == NEWC
            && Written(s, p + 6, NextPath(ms, j), NextStat(ms, j))
            && FieldsEnd(p + 6, NextPath(ms, j)) == |Opened(ms[..j], NextPath(ms, j), NextStat(ms, j))|
    ensures j < |ms| ==>
      && NextPath(ms, j) == ms[j].path != TRAILER && NextStat(ms, j) == ms[j].st
      && |Image(ms[..j + 1])| == |Opened(ms[..j], ms[j].path, ms[j].st)| + ms[j].st.size <= |Closed(ms)|
    ensures j == |ms| ==> NextPath(ms, j) == TRAILER
  {
    hide Image, Opened, HeaderFields;
    ClosedPrefix(ms, j);
    if j < |ms| {
      assert NameOk(ms[j].path);
      assert ms[..j + 1] == ms[..j] + [ms[j]];
      OpenedStep(ms[..j], ms[j]);
    } else {
      assert ms[..j] == ms;
    }
    RecordParts(Closed(ms), ms[..j], NextPath(ms, j), NextStat(ms, j));
  }

  lemma StartEmpty(ms: seq<Member>, j: nat)
    requires j <= |ms|
    ensures j == 0 ==> Image(ms[..j]) == []
  {
  }

  class Cpio {
    const writer: bool
    var stream: Bytes
    var room: nat
    var offset: nat
    var fileend: nat

    /** A writer starts an empty archive on a device with some room. */
    constructor Writer(size: nat)
      ensures writer && stream == [] && room == size && offset == 0 && fileend == 0
    {
      writer, stream, room, offset, fileend := true, [], size, 0, 0;
    }

    constructor Reader(data: Bytes)
      ensures !writer && stream == data && offset == 0 && fileend == 0
    {
      writer, stream, room, offset, fileend := false, data, 0, 0, 0;
    }

    /* ---- Writing ---- */

    /** Fwrite: as much as there is room for. */
    method Fwrite(buf: Bytes) returns (written: nat)
      modifies this`stream, this`room
      ensures written == (if |buf| <= old(room) then |buf| else old(room)) && room == old(room) - written
      ensures stream == old(stream) + buf[..written]
    {
      written := if |buf| <= room then |buf| else room;
      stream := stream + buf[..written];
      room := room - written;
    }

    /** Write and account for it. */
    method Put(buf: Bytes) returns (ok: bool)
      modifies this`stream, this`room, this`offset
      ensures ok <==> |buf| <= old(room)
      ensures ok ==> stream == old(stream) + buf && offset == old(offset) + |buf| && room == old(room) - |buf|
    {
      var written := Fwrite(buf);
      offset := offset + written;
      ok := written == |buf|;
    }

    method WritePad() returns (rc: Rc)
      modifies this`stream, this`room, this`offset
      ensures rc == OK || rc == WriteFailed
      ensures rc == OK <==> PadLen(old(offset)) <= old(room)
      ensures rc == OK ==> stream == old(stream) + Zeros(PadLen(old(offset))) && offset == old(offset) + PadLen(old(offset))
      ensures rc == OK ==> room == old(room) - PadLen(old(offset))
    {
      var left := PadLen(offset);
      if left == 0 { return OK; }
      var written := Fwrite(Zeros(left));
      if written != left { return WriteFailed; }
      offset := offset + written;
      return OK;
    }

    /** Padding, a record and padding again. */
    method WriteRecord(path: Bytes, st: Stat, ghost ms: seq<Member>) returns (rc: Rc)
      requires offset == |stream| && stream == Image(ms)
      modifies this`stream, this`room, this`offset
      ensures rc == OK || rc == WriteFailed
      ensures rc == OK <==> |Opened(ms, path, st)| <= old(|stream| + room)
      ensures rc == OK ==> stream == Opened(ms, path, st) && offset == |stream| && |stream| + room == old(|stream| + room)
    {
      hide Image, HeaderFields, Zeros;
      rc := WritePad();
      if rc != OK { return; }
      ghost var a := stream;
      var ok := Put(NEWC);
      if !ok { return WriteFailed; }
      ok := Put(HeaderFields(st, |path| + 1));
      if !ok { return WriteFailed; }
      ok := Put(path + [0]);
      if !ok { return WriteFailed; }
      assert stream == a + Record(path, st);
      rc := WritePad();
    }

    /** The header of a new file; the one before must be complete. */
    method HeaderWrite(path: Bytes, st: Stat, ghost ms: seq<Member>) returns (rc: Rc)
      requires offset == |stream| && stream == Image(ms)
      modifies this`stream, this`room, this`offset, this`fileend
      ensures rc == OK <==> writer && old(fileend == offset) && st.size < FILESIZE_MAX && |Opened(ms, path, st)| <= old(|stream| + room)
      ensures rc == FileSize <==> writer && old(fileend == offset) && st.size >= FILESIZE_MAX
      ensures rc == OK ==> stream == Opened(ms, path, st) == Image(ms + [Member(path, st, [])])
      ensures rc == OK ==> offset == |stream| && fileend == offset + st.size && |stream| + room == old(|stream| + room)
    {
      hide Image, Opened;
      if !writer { return WriteFailed; }
      if fileend != offset { return WriteFailed; }
      if st.size >= FILESIZE_MAX { return FileSize; }
      rc := WriteRecord(path, st, ms);
      OpenedStep(ms, Member(path, st, []));
      if rc == OK { fileend := offset + st.size; }
    }

    /** Content, never beyond the announced size. */
    method Write(buf: Bytes, ghost ms: seq<Member>, ghost m: Member) returns (written: int)
      requires offset == |stream| <= fileend && stream == Image(ms + [m])
      modifies this`stream, this`room, this`offset
      ensures !writer ==> written < 0 && stream == old(stream) && offset == old(offset)
      ensures writer ==> 0 <= written <= |buf| && offset == |stream| <= fileend && |stream| + room == old(|stream| + room)
      ensures writer ==> (written == |buf| <==> |buf| <= old(fileend - offset) && |buf| <= old(room))
      ensures writer ==> stream == Image(ms + [m.(content := m.content + buf[..written])])
    {
      hide Image, Opened;
      if !writer { return -1; }
      var left := fileend - offset;
      var size := if |buf| > left then left else |buf|;
      written := Fwrite(buf[..size]);
      offset := offset + written;
      OpenedStep(ms, m);
      OpenedStep(ms, m.(content := m.content + buf[..written]));
      assert buf[..size][..written] == buf[..written];
    }

    /** Close: a writer adds the trailer. */
    method Close(ghost ms: seq<Member>) returns (rc: Rc)
      requires writer ==> offset == |stream| && stream == Image(ms)
      modifies this`stream, this`room, this`offset
      ensures writer ==> (rc == OK <==> old(fileend == offset) && |Closed(ms)| <= old(|stream| + room))
      ensures writer && rc == OK ==> stream == Closed(ms)
      ensures !writer ==> rc == OK && stream == old(stream)
    {
      rc := OK;
      if writer {
        if fileend != offset { return WriteFailed; }
        rc := WriteRecord(TRAILER, NO_STAT, ms);
      }
    }

    /* ---- Reading ---- */

    /** Fread: as much as there is. */
    method Fread(size: nat) returns (buf: Bytes)
      requires offset <= |stream|
      ensures |buf| == if size <= |stream| - offset then size else |stream| - offset
      ensures buf == stream[offset..offset + |buf|]
    {
      var n := if size <= |stream| - offset then size else |stream| - offset;
      buf := stream[offset..offset + n];
    }

    /** Read and account for it. */
    method Get(size: nat) returns (buf: Bytes)
      requires offset <= |stream|
      modifies this`offset
      ensures offset == old(offset) + |buf| <= |stream| && buf == stream[old(offset)..offset]
      ensures |buf| == if size <= |stream| - old(offset) then size else |stream| - old(offset)
    {
      buf := Fread(size);
      offset := offset + |buf|;
    }

    method ReadPad() returns (rc: Rc)
      requires offset <= |stream|
      modifies this`offset
      ensures offset <= |stream| && (rc == OK || rc == ReadFailed)
      ensures rc == OK <==> old(offset) + PadLen(old(offset)) <= |stream|
      ensures rc == OK ==> offset == old(offset) + PadLen(old(offset))
    {
      var left := PadLen(offset);
      var buf := Get(left);
      rc := if |buf| != left then ReadFailed else OK;
    }

    /** Content of the current file, up to its announced end. */
    method Read(size: nat) returns (buf: Bytes)
      requires !writer && offset <= |stream| && offset <= fileend
      modifies this`offset
      ensures offset == old(offset) + |buf| <= |stream| && offset <= fileend && buf == stream[old(offset)..offset]
      ensures |buf| <= size && (fileend <= |stream| ==> |buf| == if size <= fileend - old(offset) then size else fileend - old(offset))
    {
      var left := fileend - offset;
      var n := if size > left then left else size;
      buf := Get(n);
    }

    /** The rest of the content of the current file is skipped in pieces. */
    method SkipContent() returns (rc: Rc)
      requires !writer && offset <= |stream| && offset <= fileend
      modifies this`offset
      ensures offset <= |stream| && (rc == OK || rc == ReadFailed) && (rc == OK ==> offset == fileend)
      ensures fileend <= |stream| ==> rc == OK
    {
      while fileend != offset
        invariant offset <= |stream| && offset <= fileend
        decreases fileend - offset
      {
        var left := fileend - offset;
        var n := if left > BUFFER then BUFFER else left;
        var buf := Read(n);
        if |buf| != n { return ReadFailed; }
      }
      return OK;
    }

    /** Between two headers of an archive: j files announced, k bytes of the last one read. */
    ghost predicate At(ms: seq<Member>, j: nat, k: nat)
      reads this
    {
      && !writer && stream == Closed(ms) && Readable(ms) && j <= |ms|
      && if j == 0 then offset == 0 == fileend == k
         else
           && k <= ms[j - 1].st.size
           && offset == |Opened(ms[..j - 1], ms[j - 1].path, ms[j - 1].st)| + k
           && fileend == |Image(ms[..j])|
    }

    /** A stripped header: the number of a file. */
    method StrippedRead() returns (rc: Rc, head: Head)
      requires offset <= |stream|
      modifies this`offset
      ensures offset <= |stream| && !head.Path?
    {
      head := NoHead;
      var hdr := Get(FIELD);
      if |hdr| != FIELD { return BadHeader, head; }
      var fx := Number(hdr);
      if fx.None? { return BadHeader, head; }
      head := Index(Int32(fx.value));
      rc := ReadPad();
      if rc == OK && head.fx == -1 { rc := IterEnd; }
    }

    /** The fields and the name of a newc header. */
    method NewcRead(ghost path: Bytes, ghost st: Stat) returns (rc: Rc, head: Head)
      requires offset <= |stream|
      modifies this`offset, this`fileend
      ensures offset <= |stream| && (rc == OK ==> offset <= fileend && head.Path?)
      ensures Written(stream, old(offset), path, st) ==>
                && offset == FieldsEnd(old(offset), path) && fileend == offset + st.size
                && rc == (if path == TRAILER then IterEnd else OK)
                && (rc == OK ==> head == Path(path))
    {
      hide HeaderFields, Number, Field;
      head := NoHead;
      ghost var ok, p := Written(stream, offset, path, st), offset;
      if ok { WrittenFields(stream, offset, path, st); }
      var hdr := Get(HDR);
      if |hdr| != HDR { return BadHeader, head; }
      var fsize := Number(hdr[SIZE_AT..SIZE_AT + FIELD]);
      if fsize.None? { return BadHeader, head; }
      var num := Number(hdr[NAME_AT..NAME_AT + FIELD]);
      if num.None? { return BadHeader, head; }
      var nameSize := Int32(num.value);
      if nameSize <= 0 || nameSize > NAMESIZE_MAX { return BadHeader, head; }
      var name := Get(nameSize);
      if |name| != nameSize { return BadHeader, head; }
      assert ok ==> name == path + [0];
      rc := ReadPad();
      fileend := offset + fsize.value;
      if rc == OK && CString(name) == TRAILER { rc := IterEnd; }
      if rc == OK { head := Path(CString(name)); }
    }

    /** Move to the next header and read its magic. */
    method SeekHeader(ghost ms: seq<Member>, ghost j: nat, ghost k: nat) returns (rc: Rc, magic: Bytes)
      requires !writer && offset <= |stream| && offset <= fileend
      modifies this`offset
      ensures offset <= |stream| && |magic| <= 6
      ensures old(At(ms, j, k)) ==> rc == OK && magic == NEWC && offset == HeaderAt(ms[..j]) + 6
    {
      hide Opened, Written;
      magic := [];
      ghost var at := At(ms, j, k);
      if at {
        NextHeader(ms, j);
        assert fileend == |Image(ms[..j])| by { StartEmpty(ms, j); }
      }
      hide Image;
      rc := SkipContent();
      if rc != OK { return; }
      rc := ReadPad();
      if rc != OK { return; }
      magic := Get(6);
    }

    /** The next header: whatever was read of the file before is passed over. */
    method HeaderRead(ghost ms: seq<Member>, ghost j: nat, ghost k: nat) returns (rc: Rc, head: Head)
      requires !writer ==> offset <= |stream| && offset <= fileend
      modifies this`offset, this`fileend
      ensures old(At(ms, j, k)) && j < |ms| ==> rc == OK && head == Path(ms[j].path) && At(ms, j + 1, 0)
      ensures old(At(ms, j, k)) && j == |ms| ==> rc == IterEnd
      ensures writer ==> rc == ReadFailed
      ensures !writer ==> offset <= |stream| && (rc == OK && head.Path? ==> offset <= fileend)
    {
      hide Image, Opened, Written, NextPath, NextStat, HeaderAt, FieldsEnd, Readable;
      head := NoHead;
      if writer { return ReadFailed, head; }
      ghost var at := At(ms, j, k);
      ghost var path, st := [], NO_STAT;
      if at {
        NextHeader(ms, j);
        path, st := NextPath(ms, j), NextStat(ms, j);
      }
      var magic;
      rc, magic := SeekHeader(ms, j, k);
      if rc != OK { return; }
      if |magic| != 6 { return BadMagic, head; }
      NotStripped(magic);
      if magic == STRIPPED {
        rc, head := StrippedRead();
        return;
      }
      if magic != CRC && magic != NEWC { return BadMagic, head; }
      rc, head := NewcRead(path, st);
    }

    /** rpmcpioSetExpectedFileSize: where the content of the current file ends. */
    method SetExpectedFileSize(fsize: nat)
      modifies this`fileend
      ensures fileend == offset + fsize
    {
      fileend := offset + fsize;
    }
  }
}
