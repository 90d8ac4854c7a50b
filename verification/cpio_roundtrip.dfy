/** Archives that are written and closed read back file by file (lib/cpio.cc). */
module CpioRoundTrip {
  import opened Common
  import opened CpioFormat
  import opened CpioStream

  /** The content of the file announced last, wherever reading has come to. */
  lemma ContentAt(ms: seq<Member>, j: nat, k: nat, n: nat)
    requires Readable(ms) && 0 < j <= |ms| && k + n <= ms[j - 1].st.size
    ensures var m, o := ms[j - 1], |Opened(ms[..j - 1], ms[j - 1].path, ms[j - 1].st)|;
            && |m.content| == m.st.size && o + m.st.size == |Image(ms[..j])| <= |Closed(ms)|
            && Closed(ms)[o + k..o + k + n] == m.content[k..k + n]
  {
    hide Opened, Image, NameOk;
    var m := ms[j - 1];
    var o := Opened(ms[..j - 1], m.path, m.st);
    ClosedPrefix(ms, j - 1);
    assert ms[..j] == ms[..j - 1] + [m];
    OpenedStep(ms[..j - 1], m);
    Tail(o, m.content, Closed(ms), k, n);
  }

  lemma Tail(o: Bytes, c: Bytes, s: Bytes, k: nat, n: nat)
    requires o + c <= s && k + n <= |c|
    ensures s[|o| + k..|o| + k + n] == c[k..k + n]
  {
    var l, r := s[|o| + k..|o| + k + n], c[k..k + n];
    forall i | 0 <= i < n ensures l[i] == r[i] { assert l[i] == s[|o| + k + i] == (o + c)[|o| + k + i]; }
    assert |l| == |r|;
  }

  /** Some of the content of the current file. */
  method ReadSome(r: Cpio, size: nat, ghost ms: seq<Member>, ghost j: nat, ghost k: nat) returns (buf: Bytes)
    requires r.At(ms, j, k) && j > 0
    modifies r`offset
    ensures var m := ms[j - 1];
            && k <= |m.content| == m.st.size && |buf| == (if size <= m.st.size - k then size else m.st.size - k)
            && buf == m.content[k..k + |buf|]
            && r.At(ms, j, k + |buf|)
  {
    hide Opened, Image, NameOk;
    ghost var m := ms[j - 1];
    ContentAt(ms, j, k, 0);
    buf := r.Read(size);
    ContentAt(ms, j, k, |buf|);
  }

  function Least(a: nat, b: nat): nat { if a <= b then a else b }

  /** Write some files and close the archive. */
  method WriteArchive(w: Cpio, files: seq<Member>) returns (rc: Rc)
    requires w.writer && w.stream == [] && w.offset == 0 && w.fileend == 0 && Complete(files)
    modifies w`stream, w`room, w`offset, w`fileend
    ensures rc == OK <==> SizesOk(files) && |Closed(files)| <= old(w.room)
    ensures rc == OK ==> w.stream == Closed(files)
  {
    hide Image, Opened;
    NoFiles(files);
    var i := 0;
    while i < |files|
      invariant 0 <= i <= |files| && w.offset == |w.stream| == w.fileend && w.stream == Image(files[..i])
      invariant |w.stream| + w.room == old(w.room) && forall k :: 0 <= k < i ==> files[k].st.size < FILESIZE_MAX
    {
      var m := files[i];
      Lengths(files, i);
      rc := w.HeaderWrite(m.path, m.st, files[..i]);
      if rc != OK { return; }
      var written := w.Write(m.content, files[..i], Member(m.path, m.st, []));
      if written != |m.content| { return WriteFailed; }
      assert [] + m.content[..written] == m.content;
      assert files[..i + 1] == files[..i] + [m];
      OneMore(files[..i], m);
      i := i + 1;
    }
    assert files[..i] == files;
    rc := w.Close(files);
  }

  predicate SizesOk(files: seq<Member>) {
    forall k :: 0 <= k < |files| ==> files[k].st.size < FILESIZE_MAX
  }

  /** The closed archive is longer than all that is written on the way. */
  lemma Lengths(files: seq<Member>, i: nat)
    requires i < |files|
    ensures |Opened(files[..i], files[i].path, files[i].st)| + |files[i].content| <= |Closed(files)|
  {
    hide Image, Opened;
    ClosedPrefix(files, i);
  }

  lemma NoFiles(files: seq<Member>)
    ensures Image(files[..0]) == []
  {
  }

  lemma OneMore(ms: seq<Member>, m: Member)
    ensures |Image(ms + [m])| == |Opened(ms, m.path, m.st)| + |m.content|
  {
    hide Opened, Image;
    OpenedStep(ms, m);
  }

  /** Read an archive to its end, taking only so many bytes of each file. */
  method ReadArchive(r: Cpio, takes: seq<nat>, ghost files: seq<Member>) returns (rc: Rc, got: seq<(Bytes, Bytes)>)
    requires r.At(files, 0, 0) && |takes| >= |files|
    modifies r`offset, r`fileend
    ensures rc == IterEnd && |got| == |files| && Readable(files)
    ensures forall j :: 0 <= j < |got| ==>
              got[j].0 == files[j].path && got[j].1 == files[j].content[..Least(takes[j], files[j].st.size)]
  {
    hide Image, Opened, NameOk;
    got := [];
    ghost var k: nat := 0;
    while true
      invariant |got| <= |files| && r.At(files, |got|, k)
      invariant forall j :: 0 <= j < |got| ==>
                  got[j].0 == files[j].path && got[j].1 == files[j].content[..Least(takes[j], files[j].st.size)]
      decreases |files| - |got|
    {
      Bounds(files, |got|, k);
      var head;
      rc, head := r.HeaderRead(files, |got|, k);
      if rc != OK { return; }
      var buf := ReadSome(r, takes[|got|], files, |got| + 1, 0);
      k := |buf|;
      got := got + [(head.path, buf)];
    }
  }

  lemma Bounds(ms: seq<Member>, j: nat, k: nat)
    requires Readable(ms) && j <= |ms| && (j > 0 ==> k <= ms[j - 1].st.size)
    ensures j > 0 ==> |Opened(ms[..j - 1], ms[j - 1].path, ms[j - 1].st)| + ms[j - 1].st.size == |Image(ms[..j])| <= |Closed(ms)|
  {
    hide Image, Opened, NameOk;
    if j > 0 { ContentAt(ms, j, 0, 0); }
  }

  /** Every readable sequence of files that is written and closed without an error comes
      back in order and then ends, however little of each content is read. */
  method RoundTrip(files: seq<Member>, room: nat, takes: seq<nat>) returns (rc: Rc, end: Rc, got: seq<(Bytes, Bytes)>)
    requires Complete(files) && (forall k :: 0 <= k < |files| ==> NameOk(files[k].path)) && |takes| >= |files|
    ensures rc == OK <==> SizesOk(files) && |Closed(files)| <= room
    ensures rc == OK ==> end == IterEnd && |got| == |files|
    ensures rc == OK ==> forall j :: 0 <= j < |files| ==>
              got[j].0 == files[j].path && got[j].1 == files[j].content[..Least(takes[j], files[j].st.size)]
  {
    hide Image, Opened, NameOk;
    end, got := OK, [];
    var w := new Cpio.Writer(room);
    rc := WriteArchive(w, files);
    if rc != OK { return; }
    var r := new Cpio.Reader(w.stream);
    end, got := ReadArchive(r, takes, files);
  }

  /** Headers and contents start at multiples of 4. */
  lemma HeadersAligned(files: seq<Member>, j: nat)
    requires j <= |files|
    ensures HeaderAt(files[..j]) % 4 == 0 && |Opened(files[..j], NextPath(files, j), NextStat(files, j))| % 4 == 0
  {
    hide Image, Record;
  }
}
