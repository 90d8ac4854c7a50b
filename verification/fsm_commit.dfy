/** When a successful installation leaves every file in place, and what a failed one
    leaves (lib/fsm.cc:709-802, 1063-1105). */
module FsmCommit {
  import opened Common
  import opened FsmNames

  /* ---- What unpacking may do ---- */

  /** The names that unpacking a file can change: its temporary name, or for directories and
      touched files their own names. */
  predicate UnpackWrites(it: Item, tid: string, p: string) {
    && Acting(it)
    && if Tempered(it) then p == TempName(it, tid)
       else p == it.path || p == it.path + "-RPMDELETE" || (Saves(it.action) && p == Aside(it))
  }

  ghost predicate Scratch(items: seq<Item>, tid: string, p: string) {
    exists k {:trigger items[k]} :: 0 <= k < |items| && UnpackWrites(items[k], tid, p)
  }

  ghost predicate IsTemp(items: seq<Item>, tid: string, p: string) {
    exists k {:trigger items[k]} :: 0 <= k < |items| && Tempered(items[k]) && p == TempName(items[k], tid)
  }

  /** The new file of an item, if it is there, has an inode that only temporary names share. */
  ghost predicate NewUnder(items: seq<Item>, tid: string, next0: nat, u: Names, t: string) {
    t in u ==> u[t] >= next0 && forall p :: p in u && u[p] == u[t] ==> IsTemp(items, tid, p)
  }

  /** Only scratch names have changed, and new files are under temporary names only. */
  ghost predicate Unpacked(items: seq<Item>, tid: string, n0: Names, next0: nat, u: Names) {
    && (forall p :: !Scratch(items, tid, p) ==> SameAt(n0, u, p))
    && forall i {:trigger Tempered(items[i])} :: 0 <= i < |items| && Tempered(items[i]) ==>
         NewUnder(items, tid, next0, u, TempName(items[i], tid))
  }

  /* ---- Conditions on the names of a package ---- */

  /** One file is set aside under, or goes to, the name of another. */
  ghost predicate Clash(items: seq<Item>, i: nat, j: nat) {
    && i < |items| && j < |items| && i != j && Tempered(items[i]) && Tempered(items[j])
    && Suffix(items[i].action) != "" && items[j].path == Aside(items[i])
  }

  /** Both names were links to one file: saving it there changes nothing. */
  predicate Linked(n0: Names, a: string, b: string) { a in n0 && b in n0 && n0[a] == n0[b] }

  /** No clashes, but for a file saved under a name that it has already and that is left alone. */
  ghost predicate Settled(items: seq<Item>, n0: Names) {
    forall i: nat, j: nat :: Clash(items, i, j) ==>
      Saves(items[i].action) && items[j].action == AltName && Linked(n0, items[i].path, items[j].path)
  }

  /** Directories are not moved, and files in their way not deleted, over the name of a file. */
  ghost predicate Quiet(items: seq<Item>) {
    forall i, j :: 0 <= i < |items| && 0 <= j < |items| && i != j && Acting(items[i]) && !Tempered(items[i]) && Tempered(items[j]) ==>
      items[j].path != items[i].path + "-RPMDELETE" && (Saves(items[i].action) ==> items[j].path != Aside(items[i]))
  }

  /** No packaged name is another one with the suffix that its action appends. */
  ghost predicate Clear(items: seq<Item>) {
    && Quiet(items)
    && forall i, j :: 0 <= i < |items| && 0 <= j < |items| && i != j && Tempered(items[i]) && Acting(items[j]) ==>
         Suffix(items[i].action) == "" || items[j].path != Aside(items[i])
  }

  lemma ClearSettled(items: seq<Item>, n0: Names)
    requires Clear(items)
    ensures Settled(items, n0)
  {
  }

  /* ---- In place ---- */

  /** The unpacked file is at its destination, what it replaced is where it is kept, and what
      it was not to replace is still there. */
  ghost predicate Placed(it: Item, tid: string, n0: Names, next0: nat, u: Names, n: Names) {
    var t := TempName(it, tid);
    && t !in n
    && t in u && u[t] >= next0 && Dest(it) in n && n[Dest(it)] == u[t]
    && (Saves(it.action) ==> it.path in n0 && Aside(it) in n && n[Aside(it)] == n0[it.path])
    && (it.action == AltName ==> SameAt(n0, n, it.path))
  }

  ghost predicate AllPlaced(items: seq<Item>, tid: string, n0: Names, next0: nat, u: Names, n: Names) {
    forall i {:trigger Tempered(items[i])} :: 0 <= i < |items| && Tempered(items[i]) ==> Placed(items[i], tid, n0, next0, u, n)
  }

  /** Unpacking left the final name of a file alone. */
  lemma Undisturbed(items: seq<Item>, tid: string, n0: Names, next0: nat, u: Names, i: nat)
    requires Fresh(items, tid, n0, next0) && Unpacked(items, tid, n0, next0, u) && Quiet(items)
    requires i < |items| && Tempered(items[i])
    ensures SameAt(n0, u, items[i].path)
  {
    var p := items[i].path;
    forall k | 0 <= k < |items| ensures !UnpackWrites(items[k], tid, p) {
      assert k != i ==> items[k].path != p;
      assert Tempered(items[k]) ==> p != TempName(items[k], tid);
    }
  }

  /** A destination is no temporary name. */
  lemma DestNotTemp(items: seq<Item>, tid: string, n0: Names, next0: nat, i: nat)
    requires Fresh(items, tid, n0, next0) && i < |items| && Tempered(items[i])
    ensures !IsTemp(items, tid, Dest(items[i]))
  {
    forall k | 0 <= k < |items| && Tempered(items[k]) ensures Dest(items[i]) != TempName(items[k], tid) {
      TempApart(items[k].path, items[i].path, tid, items[i].action);
      assert items[i].path != TempName(items[k], tid);
    }
  }

  /** In a settled package nobody else writes what a file needs. */
  lemma SettledWrites(items: seq<Item>, tid: string, n0: Names, next0: nat, i: nat, k: nat)
    requires Fresh(items, tid, n0, next0) && Settled(items, n0)
    requires i < |items| && k < |items| && i != k && Tempered(items[i])
    ensures items[i].action != AltName ==> !CommitWrites(items[k], tid, items[i].path)
    ensures Suffix(items[i].action) != "" ==> !CommitWrites(items[k], tid, Aside(items[i]))
  {
    if Tempered(items[k]) {
      assert items[k].path != items[i].path && items[i].path != TempName(items[k], tid);
      TempApart(items[k].path, items[i].path, tid, items[i].action);
      assert items[i].path == Aside(items[k]) && Suffix(items[k].action) != "" ==> Clash(items, k, i);
      assert items[k].path == Aside(items[i]) && Suffix(items[i].action) != "" ==> Clash(items, i, k);
      if Suffix(items[i].action) != "" && Suffix(items[k].action) != "" && Aside(items[k]) == Aside(items[i]) {
        SuffixApart(items[k].path, items[i].path, items[k].action, items[i].action);
      }
    }
  }

  predicate Holds(n: Names, p: string, inode: nat) { p in n && n[p] == inode }

  /** One commit. */
  lemma CommitPlaces(it: Item, tid: string, n0: Names, u: Names, m: Names)
    requires Tempered(it) && TidOk(tid) && CanCommit(m, it, tid)
    requires var t := TempName(it, tid); t in u && t in m && m[t] == u[t] && (Dest(it) in m ==> m[Dest(it)] != m[t])
    requires Saves(it.action) ==> SameAt(n0, m, it.path)
    ensures var r, t := Commit(m, it, tid), TempName(it, tid);
            && t !in r && Dest(it) in r && r[Dest(it)] == u[t]
            && (Saves(it.action) ==> it.path in n0 && Aside(it) in r && r[Aside(it)] == n0[it.path])
    // the names written out
    ensures var r, x := Commit(m, it, tid), u[TempName(it, tid)];
            match it.action
            case Saved => Holds(r, it.path, x) && Holds(r, it.path + ".rpmsave", n0[it.path])
            case Backup => Holds(r, it.path, x) && Holds(r, it.path + ".rpmorig", n0[it.path])
            case AltName => Holds(r, it.path + ".rpmnew", x)
            case _ => Holds(r, it.path, x)
  {
    TempApart(it.path, it.path, tid, it.action);
    var t, b := TempName(it, tid), BackedUp(m, it);
    assert t != it.path by { assert |t| == |it.path| + 9; }
    assert Saves(it.action) ==> Aside(it) != it.path by { assert |Aside(it)| == |it.path| + |Suffix(it.action)|; }
    assert SameAt(m, b, t);
    assert Dest(it) in b ==> b[Dest(it)] != b[t];
  }

  /** What AltName leaves alone stays, even where a link to it is saved. */
  lemma {:induction false} AltKept(items: seq<Item>, tid: string, n0: Names, next0: nat, u: Names, j: nat, k: nat)
    requires Fresh(items, tid, n0, next0) && Unpacked(items, tid, n0, next0, u) && Settled(items, n0) && Quiet(items)
    requires j < |items| && Tempered(items[j]) && items[j].action == AltName
    requires k <= |items| && CommitRun(items, tid, u, k).Some?
    ensures SameAt(n0, CommitRun(items, tid, u, k).value, items[j].path)
    decreases k
  {
    hide Fresh, Unpacked, Settled, Quiet, CommitRun, Commit, CanCommit, CommitWrites, Suffix;
    var p := items[j].path;
    if k == 0 {
      RunNone(items, tid, u);
      Undisturbed(items, tid, n0, next0, u, j);
    } else {
      RunStep(items, tid, u, k - 1, k);
      AltKept(items, tid, n0, next0, u, j, k - 1);
      var it, m := items[k - 1], CommitRun(items, tid, u, k - 1).value;
      if !CommitWrites(it, tid, p) {
        CommitFrame(m, it, tid, p);
      } else {
        AltWriter(items, tid, n0, next0, j, k - 1);
        FinalKept(items, tid, n0, next0, u, k - 1, k - 1);
        FreshBasics(items, tid, n0, next0);
        BackupNothing(it, tid, n0, m, p);
      }
    }
  }

  lemma RunNone(items: seq<Item>, tid: string, u: Names)
    ensures CommitRun(items, tid, u, 0) == Some(u)
  {
  }

  lemma FreshBasics(items: seq<Item>, tid: string, n0: Names, next0: nat)
    requires Fresh(items, tid, n0, next0)
    ensures TidOk(tid) && forall p :: p in n0 ==> n0[p] < next0
  {
  }

  lemma AltWriter(items: seq<Item>, tid: string, n0: Names, next0: nat, j: nat, k: nat)
    requires Fresh(items, tid, n0, next0) && Settled(items, n0)
    requires j < |items| && Tempered(items[j]) && items[j].action == AltName
    requires k < |items| && CommitWrites(items[k], tid, items[j].path)
    ensures k != j && Clash(items, k, j) && Saves(items[k].action) && Linked(n0, items[k].path, items[j].path)
  {
    assert items[j].path != TempName(items[k], tid);
    assert |Aside(items[j])| > |items[j].path|;
    assert k != j && items[k].path != items[j].path;
  }

  lemma BackupNothing(it: Item, tid: string, n0: Names, m: Names, p: string)
    requires Tempered(it) && TidOk(tid) && CanCommit(m, it, tid) && Saves(it.action) && p == Aside(it)
    requires SameAt(n0, m, it.path) && SameAt(n0, m, p) && Linked(n0, it.path, p)
    ensures SameAt(n0, Commit(m, it, tid), p)
  {
    assert BackedUp(m, it) == m;
    TempApart(it.path, it.path, tid, it.action);
    assert |p| > |it.path|;
  }

  /** The final name of a file that will be replaced, up to its commit. */
  lemma FinalKept(items: seq<Item>, tid: string, n0: Names, next0: nat, u: Names, i: nat, k: nat)
    requires Fresh(items, tid, n0, next0) && Unpacked(items, tid, n0, next0, u) && Settled(items, n0) && Quiet(items)
    requires i < |items| && Tempered(items[i]) && items[i].action != AltName
    requires k <= i && CommitRun(items, tid, u, k).Some?
    ensures SameAt(n0, CommitRun(items, tid, u, k).value, items[i].path)
  {
    Undisturbed(items, tid, n0, next0, u, i);
    forall j | 0 <= j < k ensures !CommitWrites(items[j], tid, items[i].path) { SettledWrites(items, tid, n0, next0, i, j); }
    RunFrame(items, tid, u, 0, k, items[i].path);
  }

  /** Before its commit nothing new has come to the destination of a file. */
  lemma DestFree(items: seq<Item>, tid: string, n0: Names, next0: nat, u: Names, i: nat, k: nat)
    requires Fresh(items, tid, n0, next0) && Unpacked(items, tid, n0, next0, u) && Settled(items, n0)
    requires i < k <= |items| && Tempered(items[i]) && CommitRun(items, tid, u, k).Some?
    ensures CommitRun(items, tid, u, i).Some?
    ensures var m, t, d := CommitRun(items, tid, u, i).value, TempName(items[i], tid), Dest(items[i]);
            t in m && (d in m ==> m[d] != m[t])
  {
    var t, d := TempName(items[i], tid), Dest(items[i]);
    TempWaits(items, tid, n0, next0, u, i, k);
    DestNotTemp(items, tid, n0, next0, i);
    forall j | 0 <= j < i ensures !CommitWrites(items[j], tid, d) { SettledWrites(items, tid, n0, next0, i, j); }
    RunFrame(items, tid, u, 0, i, d);
    assert NewUnder(items, tid, next0, u, t);
  }

  /** In a settled package a committed file is in place and stays there. */
  lemma PlacedAt(items: seq<Item>, tid: string, n0: Names, next0: nat, u: Names, i: nat, k: nat)
    requires Fresh(items, tid, n0, next0) && Unpacked(items, tid, n0, next0, u) && Settled(items, n0) && Quiet(items)
    requires i < k <= |items| && Tempered(items[i]) && CommitRun(items, tid, u, k).Some?
    ensures Placed(items[i], tid, n0, next0, u, CommitRun(items, tid, u, k).value)
  {
    var it, t := items[i], TempName(items[i], tid);
    RunStep(items, tid, u, i, k);
    TempWaits(items, tid, n0, next0, u, i, k);
    DestFree(items, tid, n0, next0, u, i, k);
    assert NewUnder(items, tid, next0, u, t);
    if Saves(it.action) { FinalKept(items, tid, n0, next0, u, i, i); }
    if it.action == AltName { AltKept(items, tid, n0, next0, u, i, k); }
    var m := CommitRun(items, tid, u, i).value;
    CommitPlaces(it, tid, n0, u, m);
    hide Fresh, Unpacked, Settled, Quiet, Commit, CommitRun, NewUnder;
    forall j | i + 1 <= j < k ensures !CommitWrites(items[j], tid, t) && !CommitWrites(items[j], tid, Dest(it))
                                      && (Saves(it.action) ==> !CommitWrites(items[j], tid, Aside(it)))
    {
      TempOwn(items, tid, n0, next0, i, j);
      SettledWrites(items, tid, n0, next0, i, j);
    }
    hide CommitWrites;
    RunFrame(items, tid, u, i + 1, k, t);
    RunFrame(items, tid, u, i + 1, k, Dest(it));
    if Saves(it.action) { RunFrame(items, tid, u, i + 1, k, Aside(it)); }
  }

  /* ---- Only then ---- */

  /** Two files come to the same name with the same inode: the later rename does nothing. */
  lemma LaterStays(items: seq<Item>, tid: string, n0: Names, next0: nat, u: Names, a: nat, b: nat, p: string)
    requires Fresh(items, tid, n0, next0) && a < b < |items| && Tempered(items[a]) && Tempered(items[b])
    requires CommitRun(items, tid, u, |items|).Some? && Dest(items[a]) == p == Dest(items[b]) && !Saves(items[b].action)
    requires var s, t := TempName(items[a], tid), TempName(items[b], tid); s in u && t in u && u[s] == u[t]
    requires forall k :: a < k < b ==> !CommitWrites(items[k], tid, p)
    ensures TempName(items[b], tid) in CommitRun(items, tid, u, |items|).value
  {
    hide Fresh, CommitRun, CommitWrites;
    var n := |items|;
    var t := TempName(items[b], tid);
    Arrived(items, tid, n0, next0, u, a, n);
    RunStep(items, tid, u, b, n);
    RunFrame(items, tid, u, a + 1, b, p);
    TempWaits(items, tid, n0, next0, u, b, n);
    var m := CommitRun(items, tid, u, b).value;
    assert Commit(m, items[b], tid) == m;
    forall k | b + 1 <= k < n ensures !CommitWrites(items[k], tid, t) { TempOwn(items, tid, n0, next0, b, k); }
    RunFrame(items, tid, u, b + 1, n, t);
  }

  /** Right after its commit the unpacked file is at its destination. */
  lemma Arrived(items: seq<Item>, tid: string, n0: Names, next0: nat, u: Names, i: nat, k: nat)
    requires Fresh(items, tid, n0, next0) && i < k <= |items| && Tempered(items[i]) && CommitRun(items, tid, u, k).Some?
    ensures CommitRun(items, tid, u, i + 1).Some?
    ensures var r, t := CommitRun(items, tid, u, i + 1).value, TempName(items[i], tid);
            t in u && Dest(items[i]) in r && r[Dest(items[i])] == u[t]
  {
    RunStep(items, tid, u, i, k);
    TempWaits(items, tid, n0, next0, u, i, k);
    TempApart(items[i].path, items[i].path, tid, items[i].action);
    var m, t := CommitRun(items, tid, u, i).value, TempName(items[i], tid);
    assert t != items[i].path by { assert |t| == |items[i].path| + 9; }
    assert SameAt(m, BackedUp(m, items[i]), t);
  }

  /** What was in the way of a file when it was committed is what was saved. */
  lemma SavedWhat(items: seq<Item>, tid: string, n0: Names, next0: nat, u: Names, j: nat)
    requires Fresh(items, tid, n0, next0) && j < |items| && Tempered(items[j]) && Saves(items[j].action)
    requires CommitRun(items, tid, u, |items|).Some?
    requires forall k :: j < k < |items| ==> !CommitWrites(items[k], tid, Aside(items[j]))
    ensures CommitRun(items, tid, u, j).Some?
    ensures var m, n := CommitRun(items, tid, u, j).value, CommitRun(items, tid, u, |items|).value;
            items[j].path in m && Aside(items[j]) in n && n[Aside(items[j])] == m[items[j].path]
  {
    var it := items[j];
    RunStep(items, tid, u, j, |items|);
    TempApart(it.path, it.path, tid, it.action);
    assert |Aside(it)| > |it.path|;
    var m := CommitRun(items, tid, u, j).value;
    assert BackedUp(m, it)[Aside(it)] == m[it.path];
    RunFrame(items, tid, u, j + 1, |items|, Aside(it));
  }

  /** Only one file is set aside to a given name, so only it and the file of that name write there. */
  lemma ClashWriters(items: seq<Item>, tid: string, n0: Names, next0: nat, i: nat, j: nat, k: nat)
    requires Fresh(items, tid, n0, next0) && Clash(items, i, j) && k < |items| && k != i && k != j
    ensures !CommitWrites(items[k], tid, items[j].path)
  {
    if Tempered(items[k]) {
      assert items[j].path != TempName(items[k], tid) && items[k].path != items[j].path && items[k].path != items[i].path;
      if Suffix(items[k].action) != "" && Aside(items[k]) == Aside(items[i]) {
        SuffixApart(items[k].path, items[i].path, items[k].action, items[i].action);
      }
    }
  }

  /** A new file on a name that another new file is to have: one of the two is not in place. */
  lemma NewClash(items: seq<Item>, tid: string, n0: Names, next0: nat, u: Names, i: nat, j: nat)
    requires Fresh(items, tid, n0, next0) && CommitRun(items, tid, u, |items|).Some?
    requires Clash(items, i, j) && items[i].action == AltName && items[j].action != AltName
    ensures !AllPlaced(items, tid, n0, next0, u, CommitRun(items, tid, u, |items|).value)
  {
    var n, p := CommitRun(items, tid, u, |items|).value, items[j].path;
    forall k | 0 <= k < |items| && k != i && k != j ensures !CommitWrites(items[k], tid, p) {
      ClashWriters(items, tid, n0, next0, i, j, k);
    }
    if i < j && Saves(items[j].action) {
      NewSaved(items, tid, n0, next0, u, i, j);
    } else if Placed(items[i], tid, n0, next0, u, n) && Placed(items[j], tid, n0, next0, u, n) {
      if j < i { LaterStays(items, tid, n0, next0, u, j, i, p); } else { LaterStays(items, tid, n0, next0, u, i, j, p); }
    }
  }

  /** The file of that name saves the new file instead of the old one. */
  lemma NewSaved(items: seq<Item>, tid: string, n0: Names, next0: nat, u: Names, i: nat, j: nat)
    requires Fresh(items, tid, n0, next0) && CommitRun(items, tid, u, |items|).Some?
    requires Clash(items, i, j) && i < j && items[i].action == AltName && Saves(items[j].action)
    ensures !AllPlaced(items, tid, n0, next0, u, CommitRun(items, tid, u, |items|).value)
  {
    hide Fresh, CommitRun, CommitWrites, Suffix;
    FreshBasics(items, tid, n0, next0);
    var n, p := CommitRun(items, tid, u, |items|).value, items[j].path;
    if k :| j < k < |items| && CommitWrites(items[k], tid, Aside(items[j])) {
      SavedOver(items, tid, n0, next0, u, n, j, k);
      return;
    }
    SavedWhat(items, tid, n0, next0, u, j);
    Arrived(items, tid, n0, next0, u, i, |items|);
    forall k | i + 1 <= k < j ensures !CommitWrites(items[k], tid, p) { ClashWriters(items, tid, n0, next0, i, j, k); }
    RunFrame(items, tid, u, i + 1, j, p);
  }

  /** A saved file and a new one cannot both be in place under one name. */
  lemma SavedOver(items: seq<Item>, tid: string, n0: Names, next0: nat, u: Names, n: Names, j: nat, k: nat)
    requires Fresh(items, tid, n0, next0) && j < |items| && k < |items| && j != k
    requires Tempered(items[j]) && Saves(items[j].action) && CommitWrites(items[k], tid, Aside(items[j]))
    ensures Tempered(items[k])
    ensures !Placed(items[j], tid, n0, next0, u, n) || !Placed(items[k], tid, n0, next0, u, n)
  {
    TempApart(items[k].path, items[j].path, tid, items[j].action);
    assert items[k].path != items[j].path;
    if Suffix(items[k].action) != "" && Aside(items[k]) == Aside(items[j]) {
      SuffixApart(items[k].path, items[j].path, items[k].action, items[j].action);
    }
  }

  lemma PlacedSettled(items: seq<Item>, tid: string, n0: Names, next0: nat, u: Names, i: nat, j: nat)
    requires Fresh(items, tid, n0, next0) && CommitRun(items, tid, u, |items|).Some? && Clash(items, i, j)
    requires AllPlaced(items, tid, n0, next0, u, CommitRun(items, tid, u, |items|).value)
    ensures Saves(items[i].action) && items[j].action == AltName && Linked(n0, items[i].path, items[j].path)
  {
    var n := CommitRun(items, tid, u, |items|).value;
    assert Placed(items[i], tid, n0, next0, u, n) && Placed(items[j], tid, n0, next0, u, n);
    if items[i].action == AltName && items[j].action != AltName { NewClash(items, tid, n0, next0, u, i, j); }
  }

  /** A run of commits leaves everything in place if and only if the package is settled. */
  lemma PlacedExactly(items: seq<Item>, tid: string, n0: Names, next0: nat, u: Names)
    requires Fresh(items, tid, n0, next0) && Unpacked(items, tid, n0, next0, u) && CommitRun(items, tid, u, |items|).Some?
    ensures var n := CommitRun(items, tid, u, |items|).value;
            && (AllPlaced(items, tid, n0, next0, u, n) ==> Settled(items, n0))
            && (Settled(items, n0) && Quiet(items) ==> AllPlaced(items, tid, n0, next0, u, n))
  {
    hide Fresh, Unpacked, Quiet, CommitRun, Placed, Linked;
    var n := CommitRun(items, tid, u, |items|).value;
    if AllPlaced(items, tid, n0, next0, u, n) {
      forall i: nat, j: nat | Clash(items, i, j)
        ensures Saves(items[i].action) && items[j].action == AltName && Linked(n0, items[i].path, items[j].path)
      {
        PlacedSettled(items, tid, n0, next0, u, i, j);
      }
    }
    if Settled(items, n0) && Quiet(items) {
      forall i | 0 <= i < |items| && Tempered(items[i]) ensures Placed(items[i], tid, n0, next0, u, n) {
        PlacedAt(items, tid, n0, next0, u, i, |items|);
      }
    }
  }

  /* ---- Names that clash ---- */

  const TID := ";0123abcd"

  /** "foo" saves what was there as "foo.rpmsave", where the packaged "foo.rpmsave" goes next:
      every commit succeeds, and the saved file is gone. */
  lemma SavedFileLost()
    ensures var items := [Item("foo", Regular, false, false, true, Saved), Item("foo.rpmsave", Regular, false, false, true, Create)];
            var n0, u: Names := map["foo" := 1], map["foo" := 1, "foo" + TID := 2, "foo.rpmsave" + TID := 3];
            && Fresh(items, TID, n0, 2) && Unpacked(items, TID, n0, 2, u) && Quiet(items) && !Settled(items, n0)
            && CommitRun(items, TID, u, 2) == Some(map["foo" := 2, "foo.rpmsave" := 3])
  {
    var foo, save := "foo", "foo.rpmsave";
    var items := [Item(foo, Regular, false, false, true, Saved), Item(save, Regular, false, false, true, Create)];
    var n0, u: Names := map[foo := 1], map[foo := 1, foo + TID := 2, save + TID := 3];
    assert foo + ".rpmsave" == save;
    TwoNames(foo, save);
    assert Clash(items, 0, 1);
    hide CommitRun, Fresh, Unpacked;
    TwoUnpacked(items, n0, u, foo, save);
    TwoCommits(items, u, foo, save);
  }

  /** "foo" goes to "foo.rpmnew", and the packaged "foo.rpmnew" replaces it. */
  lemma CommittedFileReplaced()
    ensures var items := [Item("foo", Regular, false, false, true, AltName), Item("foo.rpmnew", Regular, false, false, true, Create)];
            var n0, u: Names := map["foo" := 1], map["foo" := 1, "foo" + TID := 2, "foo.rpmnew" + TID := 3];
            && Fresh(items, TID, n0, 2) && Unpacked(items, TID, n0, 2, u) && Quiet(items) && !Settled(items, n0)
            && CommitRun(items, TID, u, 2) == Some(map["foo" := 1, "foo.rpmnew" := 3])
  {
    var foo, new_ := "foo", "foo.rpmnew";
    var items := [Item(foo, Regular, false, false, true, AltName), Item(new_, Regular, false, false, true, Create)];
    var n0, u: Names := map[foo := 1], map[foo := 1, foo + TID := 2, new_ + TID := 3];
    assert foo + ".rpmnew" == new_;
    TwoNames(foo, new_);
    assert Clash(items, 0, 1);
    hide CommitRun, Fresh, Unpacked;
    TwoUnpacked(items, n0, u, foo, new_);
    TwoCommits(items, u, foo, new_);
  }

  /** a goes aside to b, or to b itself; then b is committed. */
  lemma TwoCommits(items: seq<Item>, u: Names, a: string, b: string)
    requires |items| == 2 && Tempered(items[0]) && Tempered(items[1]) && items[0].path == a && items[1].path == b
    requires (items[0].action == Saved || items[0].action == AltName) && Aside(items[0]) == b && items[1].action == Create
    requires a != b && a + TID != b && b + TID != a && a + TID != b + TID && a + TID != a && b + TID != b
    requires u == map[a := 1, a + TID := 2, b + TID := 3]
    ensures CommitRun(items, TID, u, 2) == Some(if items[0].action == Saved then map[a := 2, b := 3] else map[a := 1, b := 3])
  {
    hide Aside, Suffix;
    assert TempName(items[0], TID) == a + TID && TempName(items[1], TID) == b + TID;
    var v: Names := if items[0].action == Saved then map[b := 1, a := 2, b + TID := 3] else map[a := 1, b := 2, b + TID := 3];
    if items[0].action == Saved { assert BackedUp(u, items[0]) == map[b := 1, a + TID := 2, b + TID := 3]; }
    assert Commit(u, items[0], TID) == v;
    assert CommitRun(items, TID, u, 0) == Some(u);
    assert CommitRun(items, TID, u, 1) == Some(v);
    assert BackedUp(v, items[1]) == v;
    assert Commit(v, items[1], TID) == if items[0].action == Saved then map[a := 2, b := 3] else map[a := 1, b := 3];
  }

  lemma TwoNames(a: string, b: string)
    requires |a| < |b| < |a| + 9 && '.' in b
    ensures TidOk(TID) && a != b && a + TID != b && b + TID != a && a + TID != b + TID && a + TID != a && b + TID != b
  {
  }

  /** Both files are unpacked. */
  lemma TwoUnpacked(items: seq<Item>, n0: Names, u: Names, a: string, b: string)
    requires |items| == 2 && Tempered(items[0]) && Tempered(items[1]) && items[0].path == a && items[1].path == b
    requires TidOk(TID) && a != b && a + TID != b && b + TID != a && a + TID != b + TID && a + TID != a && b + TID != b
    requires n0 == map[a := 1] && u == map[a := 1, a + TID := 2, b + TID := 3]
    ensures Fresh(items, TID, n0, 2) && Unpacked(items, TID, n0, 2, u)
  {
    assert UnpackWrites(items[0], TID, a + TID) && UnpackWrites(items[1], TID, b + TID);
  }

  /* ---- Failures ---- */

  /** Names of files from c on that cleaning up may remove. */
  ghost predicate Removable(items: seq<Item>, tid: string, c: nat, p: string) {
    exists k {:trigger items[k]} :: c <= k < |items| && Acting(items[k]) && p == if Tempered(items[k]) then TempName(items[k], tid) else items[k].path
  }

  /** Nothing but such names is gone. */
  ghost predicate Rolled(items: seq<Item>, tid: string, c: nat, b: Names, n: Names) {
    forall p :: SameAt(b, n, p) || (p !in n && Removable(items, tid, c, p))
  }

  /** The commit of a file failed, before its backup or after it. */
  ghost predicate Stopped(items: seq<Item>, tid: string, u: Names, at: nat, b: Names) {
    && at < |items| && CommitRun(items, tid, u, at).Some?
    && var m := CommitRun(items, tid, u, at).value;
    (b == m || (Tempered(items[at]) && CanBackup(m, items[at]) && b == BackedUp(m, items[at])))
  }

  /** What was there is still there, or under the name it is kept under. */
  ghost predicate NotLost(it: Item, n0: Names, n: Names) {
    || SameAt(n0, n, it.path)
    || (Saves(it.action) && it.path in n0 && Aside(it) in n && n[Aside(it)] == n0[it.path])
  }

  lemma RemovableScratch(items: seq<Item>, tid: string, c: nat, p: string)
    requires Removable(items, tid, c, p)
    ensures Scratch(items, tid, p)
  {
  }

  /** Cleaning up keeps away from final names and, in a clear package, from suffixed ones. */
  lemma NotRemovable(items: seq<Item>, tid: string, n0: Names, next0: nat, c: nat, i: nat)
    requires Fresh(items, tid, n0, next0) && i < |items| && Tempered(items[i])
    ensures !Removable(items, tid, c, items[i].path)
    ensures Clear(items) && Suffix(items[i].action) != "" ==> !Removable(items, tid, c, Aside(items[i]))
  {
    forall k | 0 <= k < |items| && Acting(items[k])
      ensures items[i].path != if Tempered(items[k]) then TempName(items[k], tid) else items[k].path
      ensures Clear(items) && Suffix(items[i].action) != "" ==>
                Aside(items[i]) != if Tempered(items[k]) then TempName(items[k], tid) else items[k].path
    {
      TempApart(items[k].path, items[i].path, tid, items[i].action);
      assert k != i ==> items[k].path != items[i].path;
      assert Tempered(items[k]) ==> items[i].path != TempName(items[k], tid);
    }
  }

  /** Names that no file writes are never changed. */
  lemma FrameKept(items: seq<Item>, tid: string, n0: Names, next0: nat, u: Names, at: nat, b: Names, n: Names, p: string)
    requires Unpacked(items, tid, n0, next0, u) && Stopped(items, tid, u, at, b) && Rolled(items, tid, at, b, n)
    requires !Scratch(items, tid, p) && forall k :: 0 <= k <= at ==> !CommitWrites(items[k], tid, p)
    ensures SameAt(n0, n, p)
  {
    RunFrame(items, tid, u, 0, at, p);
    var m := CommitRun(items, tid, u, at).value;
    if b != m { BackupFrame(m, items[at], p); }
    if Removable(items, tid, at, p) { RemovableScratch(items, tid, at, p); }
  }

  /** Committed files stay in place. */
  lemma DoneStays(items: seq<Item>, tid: string, n0: Names, next0: nat, u: Names, at: nat, b: Names, n: Names, i: nat)
    requires Fresh(items, tid, n0, next0) && Unpacked(items, tid, n0, next0, u) && Clear(items)
    requires Stopped(items, tid, u, at, b) && Rolled(items, tid, at, b, n) && i < at && Tempered(items[i])
    ensures Placed(items[i], tid, n0, next0, u, n)
  {
    ClearSettled(items, n0);
    PlacedAt(items, tid, n0, next0, u, i, at);
    NotRemovable(items, tid, n0, next0, at, i);
    var it, m := items[i], CommitRun(items, tid, u, at).value;
    if b != m {
      SettledWrites(items, tid, n0, next0, i, at);
      TempOwn(items, tid, n0, next0, i, at);
      assert items[at].path != it.path && (Suffix(it.action) != "" ==> items[at].path != Aside(it));
      BackupFrame(m, items[at], TempName(it, tid));
      BackupFrame(m, items[at], Dest(it));
      if Saves(it.action) { BackupFrame(m, items[at], Aside(it)); }
      assert Aside(items[at]) != it.path;
      BackupFrame(m, items[at], it.path);
    }
    hide Fresh, Unpacked, Clear, Settled, CommitRun, Stopped, BackedUp;
    assert Rolled(items, tid, at, b, n);
    assert TempName(it, tid) !in n && SameAt(b, n, Dest(it)) && SameAt(b, n, it.path);
    if Saves(it.action) { assert SameAt(b, n, Aside(it)); }
  }

  /** In a clear package no commit but its own touches the final name of a file. */
  lemma ClearWrites(items: seq<Item>, tid: string, n0: Names, next0: nat, i: nat, k: nat)
    requires Fresh(items, tid, n0, next0) && Clear(items) && i < |items| && k < |items| && i != k && Tempered(items[i])
    ensures !CommitWrites(items[k], tid, items[i].path)
  {
    assert items[k].path != items[i].path;
    assert Tempered(items[k]) ==> items[i].path != TempName(items[k], tid);
  }

  /** The file whose commit failed loses nothing, and files behind it are untouched. */
  lemma RestKept(items: seq<Item>, tid: string, n0: Names, next0: nat, u: Names, at: nat, b: Names, n: Names, i: nat)
    requires Fresh(items, tid, n0, next0) && Unpacked(items, tid, n0, next0, u) && Clear(items)
    requires Stopped(items, tid, u, at, b) && Rolled(items, tid, at, b, n) && at <= i < |items| && Tempered(items[i])
    ensures i > at ==> SameAt(n0, n, items[i].path)
    ensures NotLost(items[i], n0, n)
  {
    var it, m := items[i], CommitRun(items, tid, u, at).value;
    Undisturbed(items, tid, n0, next0, u, i);
    forall k | 0 <= k < |items| && k != i ensures !CommitWrites(items[k], tid, it.path) { ClearWrites(items, tid, n0, next0, i, k); }
    RunFrame(items, tid, u, 0, at, it.path);
    NotRemovable(items, tid, n0, next0, at, i);
    if b != m && i > at { BackupFrame(m, items[at], it.path); }
    hide Fresh, Unpacked, Clear, CommitRun;
    assert SameAt(b, n, it.path);
    if Suffix(it.action) != "" { assert SameAt(b, n, Aside(it)); }
  }
}
