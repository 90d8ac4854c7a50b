/** Reading a payload back (iterReadArchiveNext, lib/rpmfi.cc). */
module PayloadRead {
  import opened Common
  import opened CpioFormat
  import opened CpioStream
  import opened CpioRoundTrip
  import opened PayloadLinks
  import opened PayloadOrder
  import opened PayloadWrite
  import opened PayloadFind

  datatype Outcome = Entry(fx: nat) | End | MissingFile | UnmappedFile | Skip | Error(rc: Rc)

  class ArchiveReader {
    const files: seq<File>
    const nlinks: map<nat, seq<nat>>
    const archive: Cpio
    var found: set<nat>

    constructor (fs: seq<File>, ls: map<nat, seq<nat>>, ar: Cpio)
      ensures files == fs && nlinks == ls && archive == ar && found == {}
    {
      files, nlinks, archive, found := fs, ls, ar, {};
    }

    /** j files of the payload have been announced, k bytes of the last one read. */
    ghost predicate Reading(contents: seq<Bytes>, j: nat, k: nat)
      reads this`found, archive
    {
      && LinkTable(files, nlinks) && PayloadOk(files, contents) && Indexes(files, Order(files)) && j <= |Order(files)|
      && NamesOk(files)
      && archive.At(MembersOf(files, contents, Order(files)), j, k)
      && found == set x | x in Order(files)[..j]
    }

    /** All files but ghosts have been found. */
    method AllFound() returns (all: bool)
      ensures all <==> forall x: nat :: x < |files| && !files[x].isGhost ==> x in found
    {
      var i := 0;
      while i < |files|
        invariant 0 <= i <= |files| && forall x: nat :: x < i && !files[x].isGhost ==> x in found
      {
        if i !in found && !files[i].isGhost { return false; }
        i := i + 1;
      }
      return true;
    }

    /** The content that is expected for a file that was announced. */
    method Expect(fx: nat, ghost contents: seq<Bytes>, ghost j: nat) returns (ok: bool, ghost k: nat)
      requires fx < |files| && !archive.writer && archive.offset <= |archive.stream| && archive.offset <= archive.fileend && LinkTable(files, nlinks)
      modifies archive`offset, archive`fileend
      ensures ok ==> archive.offset <= |archive.stream| && archive.offset <= archive.fileend
      ensures AtHeader(files, contents, Order(files), old(archive.stream), old(archive.offset), old(archive.fileend), j) && Order(files)[j] == fx ==>
                && ok && k == Passed(files, fx) <= ArchiveSize(files, fx) && archive.offset == old(archive.offset) + k && archive.fileend == old(archive.fileend)
    {
      hide LinkTable, Linked, Links, Order, Image, Opened;
      k := 0;
      ok := true;
      var fsize := 0;
      ghost var at := AtHeader(files, contents, Order(files), archive.stream, archive.offset, archive.fileend, j) && Order(files)[j] == fx;
      if at { HeaderFacts(files, contents, j); }
      NlinkIs(files, nlinks, fx);
      if files[fx].kind == Regular {
        var numlinks := FNlink(files, nlinks, fx);
        if !(numlinks > 1 && nlinks[fx][numlinks - 1] != fx) { fsize := files[fx].size; }
      } else if files[fx].kind == Symlink {
        if files[fx].size != |files[fx].target| { return false, k; }
        var buf := archive.Read(files[fx].size);
        if |buf| != files[fx].size { return false, k; }
        k := |buf|;
      }
      archive.SetExpectedFileSize(fsize);
    }

    /** iterReadArchiveNext for archives with names; headers of stripped archives are not followed. */
    method ReadNext(ghost contents: seq<Bytes>, ghost j: nat, ghost k: nat) returns (out: Outcome, ghost k': nat)
      requires LinkTable(files, nlinks) && (!archive.writer ==> archive.offset <= |archive.stream| && archive.offset <= archive.fileend)
      modifies this`found, archive`offset, archive`fileend
      ensures old(Reading(contents, j, k)) && j < |Order(files)| ==>
                out == Entry(Order(files)[j]) && k' == Passed(files, out.fx) && Reading(contents, j + 1, k')
      ensures old(Reading(contents, j, k)) && j == |Order(files)| ==> out == End
      ensures out.Entry? ==> out.fx < |files| && !files[out.fx].isGhost
      ensures out.Entry? ==> !archive.writer && archive.offset <= |archive.stream| && archive.offset <= archive.fileend
    {
      hide LinkTable, Order, Image, Opened, PayloadOk, Readable, MemberOf, ArchiveSize, NamesOk, RelName, Strip, PathOf;
      k' := 0;
      ghost var reading, ms := Reading(contents, j, k), [];
      if reading {
        SameLength(files, contents);
        ms := MembersOf(files, contents, Order(files));
        InPayload(files, contents, j);
      }
      var rc, head := archive.HeaderRead(ms, j, k);
      if rc == IterEnd {
        var all := AllFound();
        return (if all then End else MissingFile), k';
      }
      if rc != OK { return Error(rc), k'; }
      if !head.Path? { return Error(BadHeader), k'; }
      var fx := FindFN(files, head.path);
      if reading && j < |Order(files)| { WrittenFound(files, Order(files)[j], fx); }
      if !(0 <= fx < |files|) { return UnmappedFile, k'; }
      if files[fx].isGhost { return Skip, k'; }
      var ok;
      ok, k' := Expect(fx, contents, j);
      if !ok { return Error(ReadFailed), k'; }
      found := found + {fx};
      out := Entry(fx);
    }
  }

  /** Content that the iterator reads itself: the target of a symlink. */
  function Passed(files: seq<File>, x: nat): nat
    requires x < |files|
  {
    if files[x].kind == Symlink then files[x].size else 0
  }

  /** What is handed out of the content of a file of which so many bytes are asked for. */
  function Taken(files: seq<File>, contents: seq<Bytes>, x: nat, take: nat): Bytes
    requires x < |files| == |contents|
  {
    var c := ContentOf(files, contents, x);
    if files[x].kind == Symlink then [] else c[..Least(take, |c|)]
  }

  /** What is known about the next file of a payload that is being read. */
  lemma InPayload(files: seq<File>, contents: seq<Bytes>, j: nat)
    requires PayloadOk(files, contents) && Indexes(files, Order(files)) && j <= |Order(files)|
    ensures var order, ms := Order(files), MembersOf(files, contents, Order(files));
            && (j < |order| ==> !files[order[j]].isGhost && ms[j].path == PathOf(files[order[j]])
                                && ms[j].st.size == ArchiveSize(files, order[j]))
            && (j < |order| ==> order[..j + 1] == order[..j] + [order[j]])
            && (j == |order| ==> forall x: nat :: x < |files| && !files[x].isGhost ==> x in order[..j])
  {
    hide Order, PayloadOk;
    OrderHas(files);
    if j < |Order(files)| { assert Order(files)[j] in Order(files); } else { assert Order(files)[..j] == Order(files); }
  }

  /** Right behind the header of file j of the payload. */
  ghost predicate AtHeader(files: seq<File>, contents: seq<Bytes>, order: seq<nat>, stream: Bytes, offset: nat, fileend: nat, j: nat) {
    && PayloadOk(files, contents) && Indexes(files, order) && j < |order|
    && var ms := MembersOf(files, contents, order);
    && Readable(ms) && stream == Closed(ms)
    && offset == |Opened(ms[..j], ms[j].path, ms[j].st)| && fileend == |Image(ms[..j + 1])|
  }

  lemma HeaderFacts(files: seq<File>, contents: seq<Bytes>, j: nat)
    requires PayloadOk(files, contents) && Indexes(files, Order(files)) && j < |Order(files)|
    requires Readable(MembersOf(files, contents, Order(files)))
    ensures var x, ms := Order(files)[j], MembersOf(files, contents, Order(files));
            && !files[x].isGhost && ms[j].st.size == ArchiveSize(files, x)
            && |Image(ms[..j + 1])| == |Opened(ms[..j], ms[j].path, ms[j].st)| + ArchiveSize(files, x) <= |Closed(ms)|
            && (files[x].kind == Symlink ==> ArchiveSize(files, x) == files[x].size == |files[x].target|)
            && (files[x].kind == Regular ==> ArchiveSize(files, x) == if Linked(files, x) && Links(files, x)[|Links(files, x)| - 1] != x then 0 else files[x].size)
            && (files[x].kind == Other ==> ArchiveSize(files, x) == 0)
  {
    hide Order, Image, Opened, NameOk;
    var ms, x := MembersOf(files, contents, Order(files)), Order(files)[j];
    OrderHas(files);
    assert x in Order(files);
    ContentAt(ms, j + 1, 0, 0);
  }

  /** Read a payload to its end, taking only so many bytes of each file. */
  method ReadPayload(reader: ArchiveReader, takes: seq<nat>, ghost contents: seq<Bytes>)
    returns (out: Outcome, got: seq<nat>, data: seq<Bytes>)
    requires reader.Reading(contents, 0, 0) && |takes| >= |Order(reader.files)|
    modifies reader`found, reader.archive`offset, reader.archive`fileend
    ensures out == End && got == Order(reader.files) && |data| == |got| && |reader.files| == |contents| && Indexes(reader.files, got)
    ensures forall j :: 0 <= j < |got| ==> data[j] == Taken(reader.files, contents, got[j], takes[j])
  {
    hide LinkTable, Order, Image, Opened, PayloadOk, MemberOf, NameOk, Taken, NamesOk;
    got, data := [], [];
    ghost var k: nat := 0;
    ghost var order := Order(reader.files);
    SameLength(reader.files, contents);
    while true
      invariant |got| <= |order| && got == order[..|got|] && reader.Reading(contents, |got|, k)
      invariant |data| == |got| && |reader.files| == |contents| && Indexes(reader.files, got)
      invariant forall j :: 0 <= j < |got| ==> data[j] == Taken(reader.files, contents, got[j], takes[j])
      decreases |order| - |got|
    {
      ghost var ms := MembersOf(reader.files, contents, order);
      Bounds(ms, |got|, k);
      out, k := reader.ReadNext(contents, |got|, k);
      if !out.Entry? { return; }
      var buf := ReadSome(reader.archive, takes[|got|], ms, |got| + 1, k);
      TakenIs(reader.files, contents, out.fx, takes[|got|], buf);
      k := k + |buf|;
      data := data + [buf];
      got := got + [out.fx];
    }
  }

  lemma TakenIs(files: seq<File>, contents: seq<Bytes>, x: nat, take: nat, buf: Bytes)
    requires PayloadOk(files, contents) && x < |files| == |contents| && !files[x].isGhost
    requires var m, k := MemberOf(files, contents, x), Passed(files, x);
             && k <= |m.content| == m.st.size && |buf| == (if take <= m.st.size - k then take else m.st.size - k)
             && buf == m.content[k..k + |buf|]
    ensures buf == Taken(files, contents, x, take)
  {
    ContentSize(files, contents, x);
  }

  /** Whatever is written as the payload of a package reads back in the same order, complete
      and without an error, however little of each content is read. */
  method RoundTrip(files: seq<File>, contents: seq<Bytes>, room: nat, takes: seq<nat>)
    returns (rc: Rc, out: Outcome, got: seq<nat>, data: seq<Bytes>)
    requires PayloadOk(files, contents) && NamesOk(files) && |takes| >= |Order(files)|
    requires forall k: nat :: k < |files| ==> ArchiveSize(files, k) < FILESIZE_MAX
    ensures Indexes(files, Order(files)) && |files| == |contents|
    ensures |Closed(MembersOf(files, contents, Order(files)))| <= room ==> rc == OK
    ensures rc == OK ==> out == End && got == Order(files) && |data| == |got|
    ensures rc == OK ==> forall j :: 0 <= j < |got| ==> data[j] == Taken(files, contents, got[j], takes[j])
    ensures rc == OK ==> forall x: nat :: multiset(got)[x] == if x < |files| && !files[x].isGhost then 1 else 0
  {
    hide Order, Image, Opened, LinkTable, ContentOf, ArchiveSize, PayloadOk;
    out, got, data := Skip, [], [];
    SameLength(files, contents);
    var stream;
    rc, stream := WritePayload(files, contents, room);
    if rc != OK { return; }
    PayloadReadable(files, contents);
    var nlinks := BuildNLink(files);
    var archive := new Cpio.Reader(stream);
    var reader := new ArchiveReader(files, nlinks, archive);
    out, got, data := ReadPayload(reader, takes, contents);
    forall x: nat ensures multiset(Order(files))[x] == if x < |files| && !files[x].isGhost then 1 else 0 { OrderOnce(files, x); }
  }

  lemma PayloadReadable(files: seq<File>, contents: seq<Bytes>)
    requires PayloadOk(files, contents) && NamesOk(files) && Indexes(files, Order(files))
    requires forall k: nat :: k < |files| ==> ArchiveSize(files, k) < FILESIZE_MAX
    ensures Readable(MembersOf(files, contents, Order(files)))
  {
    hide Order, PayloadOk, ContentOf, ArchiveSize, NameOk;
    SameLength(files, contents);
    var order, ms := Order(files), MembersOf(files, contents, Order(files));
    OrderHas(files);
    forall k | 0 <= k < |ms| ensures |ms[k].content| == ms[k].st.size < FILESIZE_MAX && NameOk(ms[k].path) {
      assert order[k] in order;
      ContentSize(files, contents, order[k]);
    }
  }
}
