/** The names an installation writes, and what a run of commits makes of them (lib/fsm.cc).
    Names are strings, and suffixes are appended to them: the name a file is saved under
    can be the name of another packaged file. */
module FsmNames {
  import opened Common

  datatype Kind = Regular | Directory | Symlink | Special

  datatype Action = Create | Backup | Saved | AltName | Touch | Skip | Unknown

  /** A packaged file and what is to be done with it. */
  datatype Item = Item(path: string, kind: Kind, isGhost: bool, linked: bool, hasContent: bool, action: Action)

  /** The file system: which inode a name stands for. */
  type Names = map<string, nat>

  predicate Creating(a: Action) { a == Create || a == Backup || a == Saved || a == AltName }

  /** Files that are created through a temporary name. */
  predicate Tempered(it: Item) { !it.isGhost && Creating(it.action) && it.kind != Directory }

  predicate Acting(it: Item) { !it.isGhost && it.action != Skip }

  /** What is in the way is kept under another name. */
  predicate Saves(a: Action) { a == Saved || a == Backup }

  function Suffix(a: Action): string {
    match a
    case Saved => ".rpmsave"
    case Backup => ".rpmorig"
    case AltName => ".rpmnew"
    case _ => ""
  }

  /** The path with what the action appends to it. */
  function Aside(it: Item): string { it.path + Suffix(it.action) }

  function TempName(it: Item, tid: string): string { it.path + tid }

  /** Where a file goes in the end. */
  function Dest(it: Item): string { if it.action == AltName then Aside(it) else it.path }

  predicate HexDigit(c: char) { '0' <= c <= '9' || 'a' <= c <= 'f' }

  /** The suffix of temporary names: ";%08x". */
  predicate TidOk(tid: string) { |tid| == 9 && tid[0] == ';' && forall k :: 1 <= k < 9 ==> HexDigit(tid[k]) }

  ghost predicate Distinct(items: seq<Item>) {
    forall i, j :: 0 <= i < j < |items| ==> items[i].path != items[j].path
  }

  /** No temporary name is in use or packaged, and inodes in use are old. */
  ghost predicate Fresh(items: seq<Item>, tid: string, n0: Names, next0: nat) {
    && TidOk(tid) && Distinct(items)
    && (forall i {:trigger Tempered(items[i])} :: 0 <= i < |items| && Tempered(items[i]) ==>
          TempName(items[i], tid) !in n0 && forall j :: 0 <= j < |items| ==> items[j].path != TempName(items[i], tid))
    && forall p :: p in n0 ==> n0[p] < next0
  }

  /** Two states of the file system agree on a name. */
  predicate SameAt(a: Names, b: Names, p: string) {
    (p in a <==> p in b) && (p in a ==> a[p] == b[p])
  }

  /** rename(2): does nothing if both are links to the same inode. */
  function Renamed(m: Names, from: string, to: string): Names
    requires from in m
  {
    if to in m && m[to] == m[from] then m else (m - {from})[to := m[from]]
  }

  /* ---- Suffixed names ---- */

  /** A temporary name is no other suffixed name, and belongs to one file. */
  lemma TempApart(a: string, b: string, tid: string, s: Action)
    requires TidOk(tid)
    ensures Suffix(s) != "" ==> a + tid != b + Suffix(s)
    ensures a + tid != b + "-RPMDELETE"
    ensures a + tid == b + tid ==> a == b
  {
    var t, x, y := a + tid, b + Suffix(s), b + "-RPMDELETE";
    assert t[|t| - 1] == tid[8] && t[|t| - 8] == tid[1];
    if s == Saved { assert x[|x| - 8] == '.'; }
    if s == Backup { assert x[|x| - 1] == 'g'; }
    if s == AltName { assert x[|x| - 1] == 'w'; }
    assert y[|y| - 1] == 'E';
    assert (a + tid)[..|a|] == a && (b + tid)[..|b|] == b;
  }

  /** Suffixed names are the same for the same suffix and path only. */
  lemma SuffixApart(a: string, b: string, s: Action, t: Action)
    requires Suffix(s) != "" && Suffix(t) != "" && a + Suffix(s) == b + Suffix(t)
    ensures s == t && a == b
  {
    var x, y := a + Suffix(s), b + Suffix(t);
    assert x[|x| - 1] == Suffix(s)[|Suffix(s)| - 1] && y[|y| - 1] == Suffix(t)[|Suffix(t)| - 1];
    assert x[..|a|] == a && y[..|b|] == b;
  }

  /* ---- Commits ---- */

  predicate CanBackup(n: Names, it: Item) { Saves(it.action) ==> it.path in n }

  /** fsmBackup() */
  function BackedUp(n: Names, it: Item): Names
    requires CanBackup(n, it)
  {
    if Saves(it.action) then Renamed(n, it.path, Aside(it)) else n
  }

  predicate CanCommit(n: Names, it: Item, tid: string) {
    Tempered(it) ==> CanBackup(n, it) && TempName(it, tid) in BackedUp(n, it)
  }

  /** fsmBackup() and fsmCommit() */
  function Commit(n: Names, it: Item, tid: string): Names
    requires CanCommit(n, it, tid)
  {
    if Tempered(it) then Renamed(BackedUp(n, it), TempName(it, tid), Dest(it)) else n
  }

  /** The names after the first k files have been committed, if all calls succeed. */
  function CommitRun(items: seq<Item>, tid: string, u: Names, k: nat): Option<Names>
    requires k <= |items|
  {
    if k == 0 then Some(u)
    else
      var m := CommitRun(items, tid, u, k - 1);
      if m.Some? && CanCommit(m.value, items[k - 1], tid) then Some(Commit(m.value, items[k - 1], tid)) else None
  }

  /** The names a commit can change. */
  predicate CommitWrites(it: Item, tid: string, p: string) {
    Tempered(it) && (p == TempName(it, tid) || p == Dest(it) || (Saves(it.action) && p == Aside(it)))
  }

  lemma BackupFrame(n: Names, it: Item, p: string)
    requires CanBackup(n, it) && (Saves(it.action) ==> p != it.path && p != Aside(it))
    ensures SameAt(n, BackedUp(n, it), p)
  {
  }

  lemma CommitFrame(n: Names, it: Item, tid: string, p: string)
    requires CanCommit(n, it, tid) && !CommitWrites(it, tid, p)
    ensures SameAt(n, Commit(n, it, tid), p)
  {
  }

  lemma {:induction false} RunFrame(items: seq<Item>, tid: string, u: Names, i: nat, k: nat, p: string)
    requires i <= k <= |items| && CommitRun(items, tid, u, k).Some?
    requires forall j :: i <= j < k ==> !CommitWrites(items[j], tid, p)
    ensures CommitRun(items, tid, u, i).Some?
    ensures SameAt(CommitRun(items, tid, u, i).value, CommitRun(items, tid, u, k).value, p)
    decreases k
  {
    hide CommitWrites, CanCommit, Commit;
    if i < k {
      RunFrame(items, tid, u, i, k - 1, p);
      CommitFrame(CommitRun(items, tid, u, k - 1).value, items[k - 1], tid, p);
    }
  }

  /** A run that came to k came by i. */
  lemma {:induction false} RunStep(items: seq<Item>, tid: string, u: Names, i: nat, k: nat)
    requires i < k <= |items| && CommitRun(items, tid, u, k).Some?
    ensures var m := CommitRun(items, tid, u, i);
            m.Some? && CanCommit(m.value, items[i], tid)
            && CommitRun(items, tid, u, i + 1) == Some(Commit(m.value, items[i], tid))
    decreases k
  {
    hide CanCommit, Commit;
    if i < k - 1 { RunStep(items, tid, u, i, k - 1); }
  }

  /** Nobody else commits to a temporary name. */
  lemma TempOwn(items: seq<Item>, tid: string, n0: Names, next0: nat, i: nat, j: nat)
    requires Fresh(items, tid, n0, next0) && i < |items| && j < |items| && i != j && Tempered(items[i])
    ensures !CommitWrites(items[j], tid, TempName(items[i], tid))
  {
    TempApart(items[i].path, items[j].path, tid, items[j].action);
    assert items[j].path != TempName(items[i], tid);
    assert items[i].path != items[j].path;
  }

  /** The unpacked file waits under its temporary name for its commit. */
  lemma TempWaits(items: seq<Item>, tid: string, n0: Names, next0: nat, u: Names, i: nat, k: nat)
    requires Fresh(items, tid, n0, next0) && i < k <= |items| && Tempered(items[i]) && CommitRun(items, tid, u, k).Some?
    ensures CommitRun(items, tid, u, i).Some?
    ensures var m, t := CommitRun(items, tid, u, i).value, TempName(items[i], tid); t in m && t in u && m[t] == u[t]
  {
    var t := TempName(items[i], tid);
    RunStep(items, tid, u, i, k);
    var m := CommitRun(items, tid, u, i).value;
    forall j | 0 <= j < i ensures !CommitWrites(items[j], tid, t) { TempOwn(items, tid, n0, next0, i, j); }
    RunFrame(items, tid, u, 0, i, t);
    TempApart(items[i].path, items[i].path, tid, items[i].action);
    assert t in m by { if Saves(items[i].action) { assert t in BackedUp(m, items[i]); } }
  }
}
