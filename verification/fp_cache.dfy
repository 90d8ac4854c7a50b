/** Fingerprints of file names and their directory cache (lib/fprint.cc). */
module FpCache {
  import opened Common

  /** Device and inode of a path, on a file system that does not change. */
  type StatFn = string -> Option<(int, int)>

  /** An existing directory. */
  datatype Dir = Dir(path: string, dev: int, ino: int)

  /** A file name: the longest existing directory, the rest of the path, the base name. */
  datatype Print = Print(entry: Dir, subDir: Option<string>, base: string)

  /** A canonical directory starts and ends with a slash. */
  predicate Canonical(cdn: string) { |cdn| >= 1 && cdn[0] == '/' && cdn[|cdn| - 1] == '/' }

  /** cdn[..n] is cdn or one of its ancestors. */
  predicate Boundary(cdn: string, n: nat) { 1 <= n <= |cdn| && (n == 1 || cdn[n - 1] == '/') }

  function SubDir(cdn: string, n: nat): Option<string>
    requires 1 <= n <= |cdn|
  {
    if n == |cdn| then None else Some(cdn[n - 1..])
  }

  /** m is the longest prefix of cdn up to n that exists. */
  ghost predicate Longest(stat: StatFn, cdn: string, n: nat, m: nat) {
    && Boundary(cdn, m) && m <= n && stat(cdn[..m]).Some?
    && forall k :: m < k <= n && Boundary(cdn, k) ==> stat(cdn[..k]).None?
  }

  function PrintAt(stat: StatFn, cdn: string, m: nat, base: string): Print
    requires 1 <= m <= |cdn| && stat(cdn[..m]).Some?
  {
    var sb := stat(cdn[..m]).value;
    Print(Dir(cdn[..m], sb.0, sb.1), SubDir(cdn, m), base)
  }

  /** The fingerprint of a name depends on the file system only. */
  ghost predicate IsPrint(stat: StatFn, cdn: string, base: string, fp: Print) {
    exists m: nat {:trigger Longest(stat, cdn, |cdn|, m)} :: Longest(stat, cdn, |cdn|, m) && fp == PrintAt(stat, cdn, m, base)
  }

  /** There is one fingerprint only, and it puts the directory together again. */
  lemma PrintUnique(stat: StatFn, cdn: string, base: string, a: Print, b: Print)
    requires IsPrint(stat, cdn, base, a) && IsPrint(stat, cdn, base, b) && Canonical(cdn)
    ensures a == b
    ensures a.entry.path + (if a.subDir.None? then "" else a.subDir.value[1..]) == cdn
    ensures a.subDir.Some? ==> a.subDir.value[0] == '/'
  {
    var m: nat :| Longest(stat, cdn, |cdn|, m) && a == PrintAt(stat, cdn, m, base);
    var n: nat :| Longest(stat, cdn, |cdn|, n) && b == PrintAt(stat, cdn, n, base);
    assert m == n;
    if m < |cdn| { assert cdn[m - 1..][1..] == cdn[m..]; }
  }

  /** The fingerprint found without a cache. */
  function LongestLen(stat: StatFn, cdn: string, n: nat): (m: nat)
    requires n <= |cdn|
    ensures m <= n
  {
    if n == 0 || (Boundary(cdn, n) && stat(cdn[..n]).Some?) then n else LongestLen(stat, cdn, n - 1)
  }

  function PrintOf(stat: StatFn, cdn: string, base: string): Print
    requires Canonical(cdn) && stat("/").Some?
  {
    LongestFound(stat, cdn, |cdn|);
    PrintAt(stat, cdn, LongestLen(stat, cdn, |cdn|), base)
  }

  lemma {:induction false} LongestFound(stat: StatFn, cdn: string, n: nat)
    requires 1 <= n <= |cdn| && Canonical(cdn) && stat("/").Some?
    ensures Longest(stat, cdn, n, LongestLen(stat, cdn, n))
    decreases n
  {
    assert cdn[..1] == "/";
    if !(Boundary(cdn, n) && stat(cdn[..n]).Some?) { LongestFound(stat, cdn, n - 1); }
  }

  /** A cached lookup gives the same. */
  lemma PrintIs(stat: StatFn, cdn: string, base: string, fp: Print)
    requires Canonical(cdn) && stat("/").Some? && IsPrint(stat, cdn, base, fp)
    ensures fp == PrintOf(stat, cdn, base)
  {
    LongestFound(stat, cdn, |cdn|);
    assert IsPrint(stat, cdn, base, PrintOf(stat, cdn, base));
    PrintUnique(stat, cdn, base, fp, PrintOf(stat, cdn, base));
  }

  class Cache {
    const stat: StatFn
    var ht: map<string, Dir>

    constructor (st: StatFn)
      ensures stat == st && ht == map[] && Valid()
    {
      stat, ht := st, map[];
    }

    /** What is cached is what stat would say. */
    ghost predicate Valid()
      reads this
    {
      forall d :: d in ht ==> stat(d) == Some((ht[d].dev, ht[d].ino)) && ht[d].path == d
    }

    /** doLookupId: from the directory itself upwards, the cache before the file system. */
    method DoLookup(cdn: string, base: string) returns (fp: Print)
      requires Valid() && Canonical(cdn) && stat("/").Some?
      modifies this`ht
      ensures Valid() && ht == old(ht)[fp.entry.path := fp.entry]
      ensures IsPrint(stat, cdn, base, fp)
    {
      var fpLen: nat := |cdn|;
      assert cdn[..1] == "/";
      while true
        invariant Boundary(cdn, fpLen) && Valid() && ht == old(ht)
        invariant forall k :: fpLen < k <= |cdn| && Boundary(cdn, k) ==> stat(cdn[..k]).None?
        decreases fpLen
      {
        var dir := cdn[..fpLen];
        if dir !in ht {
          var sb := stat(dir);
          if sb.Some? { ht := ht[dir := Dir(dir, sb.value.0, sb.value.1)]; }
        }
        if dir in ht {
          fp := Print(ht[dir], SubDir(cdn, fpLen), base);
          assert Longest(stat, cdn, |cdn|, fpLen);
          return;
        }
        fpLen := Parent(cdn, fpLen);
      }
    }

    /** fpLookupList: files in the same directory as the one before share its lookup. */
    method LookupList(dirs: seq<string>, bases: seq<string>, indexes: seq<nat>) returns (fps: seq<Print>)
      requires Valid() && stat("/").Some? && |bases| == |indexes|
      requires (forall i :: 0 <= i < |dirs| ==> Canonical(dirs[i])) && forall i :: 0 <= i < |indexes| ==> indexes[i] < |dirs|
      modifies this`ht
      ensures Valid() && |fps| == |bases|
      ensures forall i :: 0 <= i < |fps| ==> IsPrint(stat, dirs[indexes[i]], bases[i], fps[i])
    {
      hide IsPrint;
      fps := [];
      var i := 0;
      while i < |bases|
        invariant 0 <= i <= |bases| && |fps| == i && Valid()
        invariant forall k :: 0 <= k < i ==> IsPrint(stat, dirs[indexes[k]], bases[k], fps[k])
      {
        var fp;
        if i > 0 && indexes[i - 1] == indexes[i] {
          fp := Print(fps[i - 1].entry, fps[i - 1].subDir, bases[i]);
          OtherBase(stat, dirs[indexes[i]], bases[i - 1], bases[i], fps[i - 1]);
        } else {
          fp := DoLookup(dirs[indexes[i]], bases[i]);
        }
        fps := fps + [fp];
        i := i + 1;
      }
    }
  }

  lemma OtherBase(stat: StatFn, cdn: string, base: string, base': string, fp: Print)
    requires IsPrint(stat, cdn, base, fp)
    ensures IsPrint(stat, cdn, base', fp.(base := base'))
  {
    var m: nat :| Longest(stat, cdn, |cdn|, m) && fp == PrintAt(stat, cdn, m, base);
  }

  /** The next shorter ancestor. */
  method Parent(cdn: string, n: nat) returns (m: nat)
    requires Boundary(cdn, n) && n > 1
    ensures m < n && Boundary(cdn, m) && forall k :: m < k < n ==> !Boundary(cdn, k)
  {
    m := n - 1;
    while m > 1 && cdn[m - 1] != '/'
      invariant 1 <= m < n && forall k :: m < k < n ==> !Boundary(cdn, k)
    {
      m := m - 1;
    }
  }

  /** FP_EQUAL: directories are the same if they are the same inode, whatever their path. */
  predicate Equal(a: Print, b: Print) {
    a.entry.dev == b.entry.dev && a.entry.ino == b.entry.ino && a.base == b.base && a.subDir == b.subDir
  }
}
