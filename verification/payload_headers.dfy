/** What the headers of a payload say about the files of a package (lib/rpmfi.cc:798-840, 1947-1960). */
module PayloadHeaders {
  import opened Common
  import opened CpioFormat
  import opened CpioHeader
  import opened PayloadLinks
  import opened PayloadOrder

  /** The numbers of a file fit into a header. */
  predicate FileFits(f: File) {
    && Fits(f.attrs, PathOf(f)) && f.ino < 0x1_0000_0000 && f.size < 0x1_0000_0000
  }

  /** At p stands the header of file x: mode, owner and time as they are, as many links as
      there are files with its node, and a size for the last of them only. */
  ghost predicate FileHeader(s: Bytes, p: nat, files: seq<File>, x: nat)
    requires x < |files|
  {
    var f, links := files[x], Links(files, x);
    && p + 110 + |PathOf(f)| + 1 <= |s|
    && Number(s[p + 14..p + 22]) == Some(f.attrs.mode)
    && Number(s[p + 22..p + 30]) == Some(f.attrs.uid)
    && Number(s[p + 30..p + 38]) == Some(f.attrs.gid)
    && Number(s[p + 38..p + 46]) == Some(if Linked(files, x) then |links| else 1)
    && Number(s[p + 46..p + 54]) == Some(f.attrs.mtime)
    && Number(s[p + 54..p + 62]) == Some(if f.kind == Other || (Linked(files, x) && links[|links| - 1] != x) then 0 else f.size)
    && (f.ino > 0 ==> Number(s[p + 6..p + 14]) == Some(f.ino))
    && s[p + 110..p + 110 + |PathOf(f)|] == PathOf(f)
    // absolute names are written as ./name unless the package has them without prefix
    && (f.dn != [] && f.dn[0] == '/' as int && !f.plain ==> s[p + 110] == '.' as int && PathOf(f)[1..] == f.dn + f.bn)
    && (f.dn == [] || f.dn[0] != '/' as int || f.plain ==> PathOf(f) == f.dn + f.bn)
  }

  lemma PayloadHeader(files: seq<File>, contents: seq<Bytes>, j: nat)
    requires |files| == |contents| < 0x1_0000_0000 && Indexes(files, Order(files)) && j < |Order(files)|
    requires FileFits(files[Order(files)[j]])
    ensures var ms := MembersOf(files, contents, Order(files));
            FileHeader(Closed(ms), HeaderAt(ms[..j]), files, Order(files)[j])
  {
    hide Image, Opened, HeaderFields, HeaderAt, Order, Number;
    var order, x := Order(files), Order(files)[j];
    var ms := MembersOf(files, contents, order);
    LinksFew(files, x);
    MemberHeader(ms, j);
  }

  /** There are no more links than files. */
  lemma LinksFew(files: seq<File>, x: nat)
    requires x < |files|
    ensures |Links(files, x)| <= |files|
  {
    GroupFew(files, NodeOf(files[x]), |files|);
  }

  lemma {:induction false} GroupFew(files: seq<File>, d: Node, n: nat)
    requires n <= |files|
    ensures |Group(files, d, n)| <= n
    decreases n
  {
    if n > 0 { GroupFew(files, d, n - 1); }
  }

  /** Every file of a payload has its header. */
  ghost predicate HeadersTell(s: Bytes, files: seq<File>, contents: seq<Bytes>)
    requires |files| == |contents| && Indexes(files, Order(files))
  {
    var order := Order(files);
    forall j :: 0 <= j < |order| && FileFits(files[order[j]]) ==>
      FileHeader(s, HeaderAt(MembersOf(files, contents, order)[..j]), files, order[j])
  }

  lemma AllHeaders(files: seq<File>, contents: seq<Bytes>)
    requires |files| == |contents| < 0x1_0000_0000 && Indexes(files, Order(files))
    ensures HeadersTell(Closed(MembersOf(files, contents, Order(files))), files, contents)
  {
    hide Image, Opened, HeaderAt, Order, FileHeader, FileFits;
    forall j | 0 <= j < |Order(files)| && FileFits(files[Order(files)[j]])
      ensures var ms := MembersOf(files, contents, Order(files));
              FileHeader(Closed(ms), HeaderAt(ms[..j]), files, Order(files)[j])
    {
      PayloadHeader(files, contents, j);
    }
  }
}
