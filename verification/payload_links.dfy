/** Hardlink sets of the files of a package (rpmfilesBuildNLink, lib/rpmfi.cc). */
module PayloadLinks {
  import opened Common
  import opened CpioFormat

  datatype Kind = Regular | Symlink | Other

  /** A file of a package: its directory and base name, and whether it was packaged without
      payload prefix.  Its other attributes go into the archive untouched. */
  datatype File = File(dn: Bytes, bn: Bytes, plain: bool, kind: Kind, isGhost: bool, size: nat, dev: int, ino: int, target: Bytes, attrs: Stat)

  /** rpmfilesStat(): inode and attributes; the device is not set. */
  function Attributes(f: File): Stat {
    f.attrs.(ino := if f.ino > 0 then f.ino else 0, devMajor := 0, devMinor := 0)
  }

  /** The name of a file in the archive (rpmfiArchiveWriteHeader). */
  function PathOf(f: File): Bytes {
    (if f.dn != [] && f.dn[0] == SLASH && !f.plain then [DOT] else []) + f.dn + f.bn
  }

  const SLASH: byte := 0x2f
  const DOT: byte := 0x2e

  type Node = (int, int)

  function NodeOf(f: File): Node { (f.dev, f.ino) }

  /** Regular files that are in the payload and have an inode can be hardlinks. */
  predicate Linkable(f: File) { f.kind == Regular && !f.isGhost && f.ino > 0 }

  /** Those of the first n files that are links to the node d. */
  function Group(files: seq<File>, d: Node, n: nat): (r: seq<nat>)
    requires n <= |files|
    ensures forall k :: 0 <= k < |r| ==> r[k] < n
  {
    if n == 0 then []
    else if Linkable(files[n - 1]) && NodeOf(files[n - 1]) == d then Group(files, d, n - 1) + [n - 1]
    else Group(files, d, n - 1)
  }

  /** All links to the node of file i. */
  function Links(files: seq<File>, i: nat): seq<nat>
    requires i < |files|
  {
    Group(files, NodeOf(files[i]), |files|)
  }

  predicate Linked(files: seq<File>, i: nat)
    requires i < |files|
  {
    Linkable(files[i]) && |Links(files, i)| > 1
  }

  lemma {:induction false} GroupHas(files: seq<File>, d: Node, n: nat, i: nat)
    requires n <= |files|
    ensures i in Group(files, d, n) <==> i < n && Linkable(files[i]) && NodeOf(files[i]) == d
    decreases n
  {
    if n > 0 { GroupHas(files, d, n - 1, i); }
  }

  /** The links of a file: all regular files of the payload on its device with its inode number, if
      that is not 0. */
  lemma LinksAre(files: seq<File>, i: nat, k: nat)
    requires i < |files|
    ensures k in Links(files, i) <==>
            && k < |files| && files[k].kind == Regular && !files[k].isGhost
            && files[k].dev == files[i].dev && files[k].ino == files[i].ino > 0
  {
    GroupHas(files, NodeOf(files[i]), |files|, k);
  }

  lemma {:induction false} GroupUp(files: seq<File>, d: Node, n: nat)
    requires n <= |files|
    ensures forall j, k :: 0 <= j < k < |Group(files, d, n)| ==> Group(files, d, n)[j] < Group(files, d, n)[k]
    decreases n
  {
    if n > 0 {
      GroupUp(files, d, n - 1);
      var r := Group(files, d, n - 1);
      assert forall k :: 0 <= k < |r| ==> r[k] < n - 1;
    }
  }

  /* ---- Collecting file indexes by device and inode ---- */

  ghost predicate CollectedAt(files: seq<File>, table: map<Node, seq<nat>>, n: nat, d: Node)
    requires n <= |files|
  {
    if Group(files, d, n) == [] then d !in table else d in table && table[d] == Group(files, d, n)
  }

  ghost predicate Collected(files: seq<File>, table: map<Node, seq<nat>>, n: nat)
    requires n <= |files|
  {
    forall d :: CollectedAt(files, table, n, d)
  }

  ghost predicate Twice(files: seq<File>, n: nat, d: Node)
    requires n <= |files|
  {
    |Group(files, d, n)| > 1
  }

  /** Some node has two links among the first n files. */
  ghost predicate HasLinks(files: seq<File>, n: nat)
    requires n <= |files|
  {
    exists d :: Twice(files, n, d)
  }

  method Collect(files: seq<File>) returns (table: map<Node, seq<nat>>, havelinks: bool)
    ensures Collected(files, table, |files|) && (havelinks <==> HasLinks(files, |files|))
  {
    hide Collected, HasLinks, Linkable;
    table, havelinks := map[], false;
    NoneYet(files);
    var i := 0;
    while i < |files|
      invariant 0 <= i <= |files| && Collected(files, table, i) && (havelinks <==> HasLinks(files, i))
    {
      var d := NodeOf(files[i]);
      CollectStep(files, table, i);
      if Linkable(files[i]) {
        var links := if d in table then table[d] + [i] else [i];
        table := table[d := links];
        if |links| > 1 { havelinks := true; }
      }
      i := i + 1;
    }
  }

  lemma NoneYet(files: seq<File>)
    ensures Collected(files, map[], 0) && !HasLinks(files, 0)
  {
  }

  lemma CollectStep(files: seq<File>, table: map<Node, seq<nat>>, i: nat)
    requires i < |files| && Collected(files, table, i)
    ensures var d := NodeOf(files[i]);
            var links := if d in table then table[d] + [i] else [i];
            if Linkable(files[i]) then
              Collected(files, table[d := links], i + 1) && (HasLinks(files, i + 1) <==> HasLinks(files, i) || |links| > 1)
            else Collected(files, table, i + 1) && (HasLinks(files, i + 1) <==> HasLinks(files, i))
  {
    var e := NodeOf(files[i]);
    var links := if e in table then table[e] + [i] else [i];
    var table' := if Linkable(files[i]) then table[e := links] else table;
    assert CollectedAt(files, table, i, e);
    var n := i + 1;
    forall d: Node ensures CollectedAt(files, table', n, d) { assert CollectedAt(files, table, i, d); }
    forall d: Node
      ensures Twice(files, i + 1, d) <==> if Linkable(files[i]) && d == e then |links| > 1 else Twice(files, i, d)
      ensures Twice(files, i, d) ==> Twice(files, i + 1, d)
    {
      assert CollectedAt(files, table, i, d);
    }
    assert Collected(files, table', n);
    assert HasLinks(files, i) ==> HasLinks(files, i + 1) by {
      if HasLinks(files, i) {
        var d :| Twice(files, i, d);
        assert Twice(files, i + 1, d);
      }
    }
    assert HasLinks(files, i + 1) ==> HasLinks(files, i) || (Linkable(files[i]) && |links| > 1) by {
      if HasLinks(files, i + 1) {
        var d :| Twice(files, i + 1, d);
        assert Twice(files, i, d) || (Linkable(files[i]) && d == e);
      }
    }
    assert Linkable(files[i]) && |links| > 1 ==> Twice(files, i + 1, e);
  }

  /* ---- Transferring the sets to a hash by file index ---- */

  ghost predicate Entered(files: seq<File>, nlinks: map<nat, seq<nat>>) {
    forall i: nat :: i in nlinks ==> i < |files| && Linked(files, i) && nlinks[i] == Links(files, i)
  }

  /** What the hash of hardlinks must hold. */
  ghost predicate LinkTable(files: seq<File>, nlinks: map<nat, seq<nat>>) {
    Entered(files, nlinks) && forall i: nat :: i < |files| && Linked(files, i) ==> i in nlinks
  }

  /** rpmfilesBuildNLink */
  method BuildNLink(files: seq<File>) returns (nlinks: map<nat, seq<nat>>)
    ensures LinkTable(files, nlinks)
  {
    hide Linkable, NodeOf, Collected, Linked, Links;
    nlinks := map[];
    var table, havelinks := Collect(files);
    if !havelinks { NothingLinked(files); return; }
    var i := 0;
    while i < |files|
      invariant 0 <= i <= |files| && Entered(files, nlinks)
      invariant forall k: nat :: k < i && Linked(files, k) ==> k in nlinks
    {
      var f := files[i];
      NodeLinked(files, table, i);
      if f.kind == Regular && !f.isGhost && NodeOf(f) in table {
        var links := table[NodeOf(f)];
        if |links| > 1 {
          nlinks := AddAll(files, i, nlinks, links);
        }
      }
      i := i + 1;
    }
  }

  lemma NothingLinked(files: seq<File>)
    requires !HasLinks(files, |files|)
    ensures forall i: nat :: i < |files| ==> !Linked(files, i)
  {
    forall i: nat | i < |files| ensures !Linked(files, i) { assert !Twice(files, |files|, NodeOf(files[i])); }
  }

  /** A regular file whose node is in the table is linkable: other nodes are not collected. */
  lemma NodeLinked(files: seq<File>, table: map<Node, seq<nat>>, i: nat)
    requires i < |files| && Collected(files, table, |files|)
    ensures var f := files[i];
            if f.kind == Regular && !f.isGhost && NodeOf(f) in table then
              && table[NodeOf(f)] == Links(files, i) && (Linked(files, i) <==> |table[NodeOf(f)]| > 1)
              && i in Links(files, i)
            else !Linked(files, i)
  {
    var f := files[i];
    assert CollectedAt(files, table, |files|, NodeOf(f));
    var g := Group(files, NodeOf(f), |files|);
    GroupHas(files, NodeOf(f), |files|, i);
    if g != [] { GroupHas(files, NodeOf(f), |files|, g[0]); assert g[0] in g; }
  }

  method AddAll(files: seq<File>, i: nat, nlinks: map<nat, seq<nat>>, links: seq<nat>) returns (r: map<nat, seq<nat>>)
    requires i < |files| && Linked(files, i) && links == Links(files, i) && Entered(files, nlinks)
    ensures Entered(files, r) && (forall k: nat :: k in nlinks || k in links ==> k in r)
  {
    hide Linkable, NodeOf, Linked, Links;
    r := nlinks;
    var j := 0;
    while j < |links|
      invariant 0 <= j <= |links| && Entered(files, r)
      invariant forall k: nat :: k in nlinks || k in links[..j] ==> k in r
    {
      assert links[j] in links;
      LinkOf(files, i, links[j]);
      if links[j] !in r { r := r[links[j] := links]; }
      j := j + 1;
    }
    assert links[..j] == links;
  }

  /** All links of a set have the same set. */
  lemma LinkOf(files: seq<File>, i: nat, k: nat)
    requires i < |files| && Linked(files, i) && k in Links(files, i)
    ensures k < |files| && Linked(files, k) && Links(files, k) == Links(files, i)
  {
    GroupHas(files, NodeOf(files[i]), |files|, k);
  }
}
