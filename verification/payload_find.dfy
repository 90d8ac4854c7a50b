/** Finding a file of a package by its name in the archive (rpmfnFindFN, lib/rpmfi.cc:389-440). */
module PayloadFind {
  import opened Common
  import opened CpioFormat
  import opened CpioStream
  import opened PayloadLinks

  /** strcmp(3) on strings without terminators. */
  function StrCmp(a: Bytes, b: Bytes): int {
    if a == [] && b == [] then 0
    else if a == [] then -1
    else if b == [] then 1
    else if a[0] != b[0] then a[0] - b[0]
    else StrCmp(a[1..], b[1..])
  }

  /** strncmp(3) over the length of a. */
  function StrNCmp(a: Bytes, b: Bytes): int {
    if a == [] then 0
    else if b == [] then 1
    else if a[0] != b[0] then a[0] - b[0]
    else StrNCmp(a[1..], b[1..])
  }

  lemma {:induction false} StrCmpEqual(a: Bytes, b: Bytes)
    ensures StrCmp(a, b) == 0 <==> a == b
    decreases |a|
  {
    if a != [] && b != [] && a[0] == b[0] {
      StrCmpEqual(a[1..], b[1..]);
      assert a == [a[0]] + a[1..] && b == [b[0]] + b[1..];
    }
  }

  lemma {:induction false} StrNCmpPrefix(a: Bytes, b: Bytes)
    ensures StrNCmp(a, b) == 0 <==> a <= b
    decreases |a|
  {
    if a != [] && b != [] && a[0] == b[0] {
      StrNCmpPrefix(a[1..], b[1..]);
      assert a == [a[0]] + a[1..] && b == [b[0]] + b[1..];
    }
  }

  /** The directory without its leading slash, and the base name. */
  function RelDir(f: File): Bytes { if f.dn != [] && f.dn[0] == SLASH then f.dn[1..] else f.dn }

  function RelName(f: File): Bytes { RelDir(f) + f.bn }

  /** Payload prefix and leading slash go. */
  function Strip(fn: Bytes): Bytes {
    var s := if |fn| >= 2 && fn[0] == DOT && fn[1] == SLASH then fn[2..] else fn;
    if s != [] && s[0] == SLASH then s[1..] else s
  }

  /** cmpPoolFn(): zero if and only if the file has this name. */
  function CmpFn(f: File, fn: Bytes): (c: int)
    ensures c == 0 <==> RelName(f) == fn
  {
    var d := RelDir(f);
    var c := StrNCmp(d, fn);
    StrNCmpPrefix(d, fn);
    if c != 0 then c
    else
      StrCmpEqual(f.bn, fn[|d|..]);
      assert fn == d + fn[|d|..];
      StrCmp(f.bn, fn[|d|..])
  }

  /** rpmfnFindFN(): a file with the name if there is one, wherever the binary search ends. */
  method FindFN(files: seq<File>, name: Bytes) returns (r: int)
    ensures -1 <= r < |files| && (r >= 0 ==> RelName(files[r]) == Strip(name))
    ensures r == -1 ==> forall i :: 0 <= i < |files| ==> RelName(files[i]) != Strip(name)
  {
    var fn := Strip(name);
    var lo, hi := 0, |files|;
    while hi > lo
      invariant 0 <= lo <= hi <= |files|
    {
      var mid := (hi + lo) / 2;
      var cmp := CmpFn(files[mid], fn);
      if cmp < 0 { lo := mid + 1; } else if cmp > 0 { hi := mid; } else { return mid; }
    }
    var i := 0;
    while i < |files|
      invariant 0 <= i <= |files| && forall k :: 0 <= k < i ==> RelName(files[k]) != fn
    {
      if CmpFn(files[i], fn) == 0 { return i; }
      i := i + 1;
    }
    return -1;
  }

  /** Directories are absolute or empty and base names have no slash, as in the file lists of
      binary and source packages; names are different and fit into an archive. */
  ghost predicate NamesOk(files: seq<File>) {
    && (forall i :: 0 <= i < |files| ==> ShapeOk(files[i]))
    && (forall i, j :: 0 <= i < j < |files| ==> RelName(files[i]) != RelName(files[j]))
    && (forall i :: 0 <= i < |files| && !files[i].isGhost ==> NameOk(PathOf(files[i])))
  }

  predicate ShapeOk(f: File) {
    (f.dn == [] || (f.dn[0] == SLASH && (|f.dn| > 1 ==> f.dn[1] != SLASH))) && SLASH !in f.bn
  }

  /** With or without prefix the written name is stripped to the relative one. */
  lemma StripPath(f: File)
    requires ShapeOk(f)
    ensures Strip(PathOf(f)) == RelName(f)
  {
    hide Strip;
    if f.dn == [] {
      assert PathOf(f) == f.bn == RelName(f);
      StripBase(f.bn);
    } else {
      var r := RelName(f);
      assert f.dn == [SLASH] + f.dn[1..];
      assert r == f.dn[1..] + f.bn && f.dn + f.bn == [SLASH] + r;
      assert r == [] || r[0] != SLASH by {
        if |f.dn| > 1 { assert r[0] == f.dn[1]; } else { assert r == f.bn; }
      }
      StripSlash(r);
      assert f.plain ==> PathOf(f) == [SLASH] + r;
      assert !f.plain ==> PathOf(f) == [DOT] + ([SLASH] + r);
    }
  }

  lemma StripBase(b: Bytes)
    requires SLASH !in b
    ensures Strip(b) == b
  {
    if |b| >= 2 { assert b[1] in b; }
  }

  lemma StripSlash(r: Bytes)
    requires r == [] || r[0] != SLASH
    ensures Strip([SLASH] + r) == r && Strip([DOT] + ([SLASH] + r)) == r
  {
    var p := [DOT] + ([SLASH] + r);
    assert p[0] == DOT && p[1] == SLASH && p[2..] == r;
    var q := [SLASH] + r;
    assert q[1..] == r;
  }

  /** The name that is written is found again, at its file. */
  lemma WrittenFound(files: seq<File>, i: nat, r: int)
    requires NamesOk(files) && i < |files|
    requires -1 <= r < |files| && (r >= 0 ==> RelName(files[r]) == Strip(PathOf(files[i])))
    requires r == -1 ==> forall k :: 0 <= k < |files| ==> RelName(files[k]) != Strip(PathOf(files[i]))
    ensures r == i
  {
    StripPath(files[i]);
  }
}
