/** The files of a payload in the order they are written (lib/rpmfi.cc). */
module PayloadOrder {
  import opened Common
  import opened CpioFormat
  import opened PayloadLinks

  /** Files outside of hardlink sets among the first n, in index order. */
  function Singles(files: seq<File>, n: nat): seq<nat>
    requires n <= |files|
  {
    if n == 0 then []
    else if !files[n - 1].isGhost && !Linked(files, n - 1) then Singles(files, n - 1) + [n - 1]
    else Singles(files, n - 1)
  }

  /** The first file of a hardlink set. */
  predicate IsHead(files: seq<File>, i: nat)
    requires i < |files|
  {
    Linked(files, i) && Links(files, i)[0] == i
  }

  /** The hardlink sets whose first file is among the first n, one after the other. */
  function Sets(files: seq<File>, n: nat): seq<nat>
    requires n <= |files|
  {
    if n == 0 then []
    else if IsHead(files, n - 1) then Sets(files, n - 1) + Links(files, n - 1)
    else Sets(files, n - 1)
  }

  function Order(files: seq<File>): seq<nat> { Singles(files, |files|) + Sets(files, |files|) }

  /* ---- Every file but ghosts, once ---- */

  /** How often x occurs. */
  ghost function Times(a: seq<nat>, x: nat): nat { multiset(a)[x] }

  lemma {:induction false} SinglesCount(files: seq<File>, n: nat, x: nat)
    requires n <= |files|
    ensures Times(Singles(files, n), x) == if x < n && !files[x].isGhost && !Linked(files, x) then 1 else 0
    decreases n
  {
    hide Linked, Times;
    if n == 0 { CountNone(x); } else {
      SinglesCount(files, n - 1, x);
      CountOne(Singles(files, n - 1), n - 1, x);
    }
  }

  lemma {:induction false} GroupCount(files: seq<File>, d: Node, n: nat, x: nat)
    requires n <= |files|
    ensures Times(Group(files, d, n), x) == if x < n && Linkable(files[x]) && NodeOf(files[x]) == d then 1 else 0
    decreases n
  {
    hide Linkable, NodeOf, Times;
    if n == 0 { CountNone(x); } else {
      GroupCount(files, d, n - 1, x);
      CountOne(Group(files, d, n - 1), n - 1, x);
    }
  }

  lemma CountNone(x: nat)
    ensures Times([], x) == 0
  {
  }

  lemma CountOne(a: seq<nat>, y: nat, x: nat)
    ensures Times(a + [y], x) == Times(a, x) + if x == y then 1 else 0
  {
  }

  lemma CountAppend(a: seq<nat>, b: seq<nat>, x: nat)
    ensures multiset(a + b)[x] == multiset(a)[x] + multiset(b)[x]
  {
  }

  /** The set of a head holds exactly the files with that head. */
  lemma HeadsSet(files: seq<File>, h: nat, x: nat)
    requires h < |files| && IsHead(files, h)
    ensures multiset(Links(files, h))[x] == if x < |files| && Linked(files, x) && Links(files, x)[0] == h then 1 else 0
  {
    GroupCount(files, NodeOf(files[h]), |files|, x);
    if x < |files| && Linked(files, x) && Links(files, x)[0] == h {
      GroupHas(files, NodeOf(files[x]), |files|, h);
    }
  }

  lemma {:induction false} SetsCount(files: seq<File>, n: nat, x: nat)
    requires n <= |files|
    ensures multiset(Sets(files, n))[x] == if x < |files| && Linked(files, x) && Links(files, x)[0] < n then 1 else 0
    decreases n
  {
    hide Linked, Links, IsHead;
    if x < |files| && Linked(files, x) { HeadIsHead(files, x); }
    if n > 0 {
      SetsCount(files, n - 1, x);
      if IsHead(files, n - 1) {
        HeadsSet(files, n - 1, x);
        CountAppend(Sets(files, n - 1), Links(files, n - 1), x);
      }
    }
  }

  lemma HeadIsHead(files: seq<File>, x: nat)
    requires x < |files| && Linked(files, x)
    ensures |Links(files, x)| > 1 && 0 <= Links(files, x)[0] <= x && IsHead(files, Links(files, x)[0])
  {
    var h := Links(files, x)[0];
    GroupHas(files, NodeOf(files[x]), |files|, h);
    GroupHas(files, NodeOf(files[x]), |files|, x);
    var k :| 0 <= k < |Links(files, x)| && Links(files, x)[k] == x;
    GroupUp(files, NodeOf(files[x]), |files|);
  }

  /** The payload holds every file that is not a ghost, once. */
  lemma OrderOnce(files: seq<File>, x: nat)
    ensures multiset(Order(files))[x] == if x < |files| && !files[x].isGhost then 1 else 0
  {
    SinglesCount(files, |files|, x);
    SetsCount(files, |files|, x);
    if x < |files| && Linked(files, x) { HeadIsHead(files, x); }
  }

  lemma OrderHas(files: seq<File>)
    ensures forall x: nat :: x in Order(files) <==> x < |files| && !files[x].isGhost
  {
    hide Order;
    forall x: nat ensures x in Order(files) <==> x < |files| && !files[x].isGhost {
      OrderOnce(files, x);
      assert x in multiset(Order(files)) <==> x in Order(files);
    }
  }

  /* ---- What is written for each file ---- */

  function LinkCount(files: seq<File>, i: nat): nat
    requires i < |files|
  {
    if Linked(files, i) then |Links(files, i)| else 1
  }

  predicate IsLast(files: seq<File>, i: nat)
    requires i < |files|
  {
    Linked(files, i) ==> Links(files, i)[|Links(files, i)| - 1] == i
  }

  /** In archives, hardlinked files are empty except for the last one. */
  function ArchiveSize(files: seq<File>, i: nat): nat
    requires i < |files|
  {
    if files[i].kind == Other || !IsLast(files, i) then 0 else files[i].size
  }

  function StatOf(files: seq<File>, i: nat): Stat
    requires i < |files|
  {
    Attributes(files[i]).(nlink := LinkCount(files, i), size := ArchiveSize(files, i))
  }

  /** The content goes with the first file of a set when written, but behind the last header. */
  function ContentOf(files: seq<File>, contents: seq<Bytes>, i: nat): Bytes
    requires i < |files| == |contents|
  {
    match files[i].kind
    case Symlink => files[i].target
    case Other => []
    case Regular =>
      if !Linked(files, i) then contents[i]
      else if IsLast(files, i) && Links(files, i)[0] < |contents| then contents[Links(files, i)[0]]
      else []
  }

  function MemberOf(files: seq<File>, contents: seq<Bytes>, i: nat): Member
    requires i < |files| == |contents|
  {
    Member(PathOf(files[i]), StatOf(files, i), ContentOf(files, contents, i))
  }

  ghost predicate Indexes(files: seq<File>, done: seq<nat>) {
    forall k :: 0 <= k < |done| ==> done[k] < |files|
  }

  ghost function MembersOf(files: seq<File>, contents: seq<Bytes>, done: seq<nat>): (ms: seq<Member>)
    requires |files| == |contents| && Indexes(files, done)
    ensures |ms| == |done|
  {
    seq(|done|, k requires 0 <= k < |done| => MemberOf(files, contents, done[k]))
  }

  /** Sizes are right, and the same for all links to a node. */
  ghost predicate PayloadOk(files: seq<File>, contents: seq<Bytes>) {
    && |files| == |contents|
    && (forall i :: 0 <= i < |files| && files[i].kind == Regular && !files[i].isGhost ==> |contents[i]| == files[i].size)
    && (forall i :: 0 <= i < |files| && files[i].kind == Symlink ==> |files[i].target| == files[i].size)
    && (forall i, j :: 0 <= i < |files| && 0 <= j < |files| && Linkable(files[i]) && Linkable(files[j]) && NodeOf(files[i]) == NodeOf(files[j])
          ==> files[i].size == files[j].size)
  }

  lemma SameLength(files: seq<File>, contents: seq<Bytes>)
    requires PayloadOk(files, contents)
    ensures |files| == |contents|
  {
  }

  lemma ContentSize(files: seq<File>, contents: seq<Bytes>, i: nat)
    requires PayloadOk(files, contents) && i < |files| && !files[i].isGhost
    ensures |ContentOf(files, contents, i)| == ArchiveSize(files, i)
  {
    if Linked(files, i) {
      var h := Links(files, i)[0];
      GroupHas(files, NodeOf(files[i]), |files|, h);
    }
  }

  /* ---- Prefixes ---- */

  lemma {:induction false} SinglesPrefix(files: seq<File>, n: nat, m: nat)
    requires n <= m <= |files|
    ensures Singles(files, n) <= Singles(files, m)
    decreases m
  {
    hide Linked;
    if n < m { SinglesPrefix(files, n, m - 1); }
  }

  lemma {:induction false} SetsPrefix(files: seq<File>, n: nat, m: nat)
    requires n <= m <= |files|
    ensures Sets(files, n) <= Sets(files, m)
    decreases m
  {
    hide Linked, Links;
    if n < m { SetsPrefix(files, n, m - 1); }
  }

  lemma OrderPrefix(files: seq<File>, n: nat)
    requires n <= |files|
    ensures Singles(files, n) <= Order(files) && Singles(files, |files|) + Sets(files, n) <= Order(files)
  {
    SinglesPrefix(files, n, |files|);
    SetsPrefix(files, n, |files|);
  }

  /** What is written up to some file is no longer than the whole archive. */
  lemma ArchivePrefix(files: seq<File>, contents: seq<Bytes>, done: seq<nat>, k: nat, all: seq<nat>)
    requires |files| == |contents| && Indexes(files, all) && done + [k] <= all
    ensures Indexes(files, done) && k < |files|
    ensures var m := MemberOf(files, contents, k);
            |Opened(MembersOf(files, contents, done), m.path, m.st)| + |m.content| <= |Closed(MembersOf(files, contents, all))|
  {
    hide MemberOf, Opened, Image;
    var ms, n := MembersOf(files, contents, all), |done|;
    assert all[n] == k && forall i :: 0 <= i < n ==> all[i] == done[i];
    assert ms[..n] == MembersOf(files, contents, done) && ms[n] == MemberOf(files, contents, k);
    ClosedPrefix(ms, n);
  }
}
