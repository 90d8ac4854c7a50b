/** Installing the files of a package (rpmPackageFilesInstall, lib/fsm.cc): unpack to
    temporary names, commit, and clean up on failure.  Every call to the file system may
    fail at any time. */
module FsmInstall {
  import opened Common
  import opened FsmNames
  import opened FsmCommit
  import opened FsmLinks

  datatype Stage = Committed | Pre | Unpack

  /** struct filedata_s */
  datatype FileData = FileData(stage: Stage, action: Action, suffixed: bool, fpath: string)

  function ActionOf(it: Item): Action { if it.isGhost then Skip else it.action }

  /* ---- The file system ---- */

  /** broke says whether some call failed that had no reason to. */
  class Disk {
    var names: Names
    var next: nat
    ghost var broke: bool

    /** Inodes in use are below the next free one. */
    ghost predicate Valid()
      reads this
    {
      forall p :: p in names ==> names[p] < next
    }

    /** Calls that may fail but do not change names: opening directories, hooks, unpacking, metadata. */
    method Try() returns (ok: bool)
      modifies this`broke
      ensures (old(broke) ==> broke) && (!ok ==> broke)
    {
      ok := *;
      if !ok { broke := true; }
    }

    /** A new file, directory, symlink or special file: never over an existing name. */
    method Make(p: string) returns (ok: bool)
      requires Valid()
      modifies this
      ensures Valid() && old(next) <= next && (old(broke) ==> broke)
      ensures ok ==> p !in old(names) && names == old(names)[p := old(next)] && next == old(next) + 1
      ensures !ok ==> names == old(names) && (p in old(names) || broke)
    {
      ok := Try();
      if p in names { ok := false; }
      if ok {
        names := names[p := next];
        next := next + 1;
      }
    }

    method Link(from: string, to: string) returns (ok: bool)
      requires Valid()
      modifies this`names, this`broke
      ensures Valid() && (old(broke) ==> broke)
      ensures ok ==> from in old(names) && to !in old(names) && names == old(names)[to := old(names)[from]]
      ensures !ok ==> names == old(names) && (from !in old(names) || to in old(names) || broke)
    {
      ok := Try();
      if from !in names || to in names { ok := false; }
      if ok { names := names[to := names[from]]; }
    }

    method Rename(from: string, to: string) returns (ok: bool)
      requires Valid()
      modifies this`names, this`broke
      ensures Valid() && (old(broke) ==> broke)
      ensures ok ==> from in old(names) && names == Renamed(old(names), from, to)
      ensures !ok ==> names == old(names) && (from !in old(names) || broke)
    {
      ok := Try();
      if from !in names { ok := false; }
      if ok { names := Renamed(names, from, to); }
    }

    /** unlink(2) or rmdir(2): a missing name is no loss. */
    method Remove(p: string) returns (gone: bool)
      requires Valid()
      modifies this`names, this`broke
      ensures Valid() && (old(broke) ==> broke) && (gone <==> p !in names) && (!gone ==> broke)
      ensures names == if gone then old(names) - {p} else old(names)
    {
      var ok := Try();
      if ok { names := names - {p}; }
      gone := p !in names;
    }
  }

  /** Something about the file system that is not modelled. */
  method Look() returns (yes: bool)
  {
    yes := *;
  }

  /* ---- Unpacking keeps what it must ---- */

  /** The names of a file that is not created through a temporary name are no temporary names. */
  lemma OwnNotTemp(items: seq<Item>, tid: string, n0: Names, next0: nat, fx: nat, p: string)
    requires Fresh(items, tid, n0, next0) && fx < |items| && !Tempered(items[fx]) && UnpackWrites(items[fx], tid, p)
    ensures !IsTemp(items, tid, p)
  {
    forall k | 0 <= k < |items| && Tempered(items[k]) ensures p != TempName(items[k], tid) {
      TempApart(items[k].path, items[fx].path, tid, items[fx].action);
      assert items[fx].path != TempName(items[k], tid);
    }
  }

  lemma StartUnpacked(items: seq<Item>, tid: string, n0: Names, next0: nat)
    requires Fresh(items, tid, n0, next0)
    ensures Unpacked(items, tid, n0, next0, n0)
  {
  }

  lemma RemoveUnpacked(items: seq<Item>, tid: string, n0: Names, next0: nat, n: Names, fx: nat, p: string)
    requires Unpacked(items, tid, n0, next0, n) && fx < |items| && UnpackWrites(items[fx], tid, p)
    ensures Unpacked(items, tid, n0, next0, n - {p})
  {
    assert Scratch(items, tid, p);
    forall i | 0 <= i < |items| && Tempered(items[i]) ensures NewUnder(items, tid, next0, n - {p}, TempName(items[i], tid)) {
      assert NewUnder(items, tid, next0, n, TempName(items[i], tid));
    }
  }

  lemma MakeUnpacked(items: seq<Item>, tid: string, n0: Names, next0: nat, n: Names, next: nat, fx: nat, p: string)
    requires Fresh(items, tid, n0, next0) && Unpacked(items, tid, n0, next0, n)
    requires next >= next0 && (forall q :: q in n ==> n[q] < next)
    requires fx < |items| && UnpackWrites(items[fx], tid, p)
    ensures Unpacked(items, tid, n0, next0, n[p := next])
  {
    assert Scratch(items, tid, p);
    if !Tempered(items[fx]) { OwnNotTemp(items, tid, n0, next0, fx, p); }
    hide Fresh;
    forall i | 0 <= i < |items| && Tempered(items[i]) ensures NewUnder(items, tid, next0, n[p := next], TempName(items[i], tid)) {
      var t := TempName(items[i], tid);
      assert NewUnder(items, tid, next0, n, t) && IsTemp(items, tid, t);
    }
  }

  lemma LinkUnpacked(items: seq<Item>, tid: string, n0: Names, next0: nat, n: Names, a: nat, b: nat)
    requires Unpacked(items, tid, n0, next0, n) && a < |items| && b < |items| && Tempered(items[a]) && Tempered(items[b])
    requires TempName(items[a], tid) in n
    ensures Unpacked(items, tid, n0, next0, n[TempName(items[b], tid) := n[TempName(items[a], tid)]])
  {
    var s, t := TempName(items[a], tid), TempName(items[b], tid);
    assert UnpackWrites(items[b], tid, t) && Scratch(items, tid, t) && IsTemp(items, tid, t);
    assert NewUnder(items, tid, next0, n, s);
    forall i | 0 <= i < |items| && Tempered(items[i]) ensures NewUnder(items, tid, next0, n[t := n[s]], TempName(items[i], tid)) {
      assert NewUnder(items, tid, next0, n, TempName(items[i], tid));
    }
  }

  lemma RenameUnpacked(items: seq<Item>, tid: string, n0: Names, next0: nat, n: Names, fx: nat, p: string, q: string)
    requires Fresh(items, tid, n0, next0) && Unpacked(items, tid, n0, next0, n) && p in n
    requires fx < |items| && !Tempered(items[fx]) && UnpackWrites(items[fx], tid, p) && UnpackWrites(items[fx], tid, q)
    ensures Unpacked(items, tid, n0, next0, Renamed(n, p, q))
  {
    assert Scratch(items, tid, p) && Scratch(items, tid, q);
    OwnNotTemp(items, tid, n0, next0, fx, p);
    OwnNotTemp(items, tid, n0, next0, fx, q);
    hide Fresh;
    forall i | 0 <= i < |items| && Tempered(items[i]) ensures NewUnder(items, tid, next0, Renamed(n, p, q), TempName(items[i], tid)) {
      assert NewUnder(items, tid, next0, n, TempName(items[i], tid)) && IsTemp(items, tid, TempName(items[i], tid));
    }
  }

  /* ---- State data ---- */

  /** A file that is not committed is under the name it was unpacked to. */
  predicate Open(it: Item, tid: string, fd: FileData) {
    && fd.stage != Committed && (fd.suffixed <==> Tempered(it))
    && fd.fpath == (if Tempered(it) then TempName(it, tid) else it.path)
    && (fd.action == ActionOf(it) || (ActionOf(it) == Touch && fd.action == Create))
  }

  predicate Closed(it: Item, fd: FileData) {
    if Acting(it) then fd.stage == Committed else fd.action == Skip
  }

  /** The files before c are committed, the ones from c on are not. */
  ghost predicate Halted(items: seq<Item>, tid: string, data: seq<FileData>, c: nat) {
    && |data| == |items|
    && (forall i {:trigger data[i]} :: 0 <= i < |items| && i < c ==> Closed(items[i], data[i]))
    && forall i {:trigger data[i]} :: c <= i < |items| ==> Open(items[i], tid, data[i])
  }

  function Collected(its: seq<Item>, tid: string): seq<FileData> {
    seq(|its|, i requires 0 <= i < |its| =>
      var a := ActionOf(its[i]);
      var suffixed := Creating(a) && its[i].kind != Directory;
      FileData(Pre, a, suffixed, its[i].path + if suffixed then tid else ""))
  }

  lemma CollectedOpen(its: seq<Item>, tid: string)
    ensures Halted(its, tid, Collected(its, tid), 0)
  {
    forall i | 0 <= i < |its| ensures Open(its[i], tid, Collected(its, tid)[i]) { assert its[i].path + "" == its[i].path; }
  }

  /* ---- The installation ---- */

  class Installer {
    const items: seq<Item>
    const tid: string
    const disk: Disk
    var data: seq<FileData>
    var firstlink: int

    /** Collect state data for the whole operation. */
    constructor (its: seq<Item>, id: string, d: Disk)
      ensures items == its && tid == id && disk == d && firstlink == -1 && data == Collected(its, id)
    {
      items, tid, disk, firstlink := its, id, d, -1;
      var fd := [];
      var i := 0;
      while i < |its|
        invariant 0 <= i <= |its| && fd == Collected(its[..i], id)
      {
        var a := ActionOf(its[i]);
        var suffixed := Creating(a) && its[i].kind != Directory;
        fd := fd + [FileData(Pre, a, suffixed, its[i].path + if suffixed then id else "")];
        assert its[..i + 1] == its[..i] + [its[i]];
        i := i + 1;
      }
      assert its[..i] == its;
      data := fd;
    }

    /** Nothing has been committed. */
    ghost predicate Unpacking(n0: Names, next0: nat)
      reads this, disk
    {
      && Fresh(items, tid, n0, next0) && disk.Valid() && disk.next >= next0
      && Halted(items, tid, data, 0) && Unpacked(items, tid, n0, next0, disk.names)
      && -1 <= firstlink < |items| && (firstlink >= 0 ==> Tempered(items[firstlink]) && items[firstlink].kind == Regular)
    }

    /** Create a regular file, or link it to the first one of its set; unpack its content. */
    method Mkfile(fx: nat, hasContent: bool, ghost n0: Names, ghost next0: nat, ghost st: LinkState) returns (ok: bool)
      requires Unpacking(n0, next0) && fx < |items| && Tempered(items[fx]) && items[fx].kind == Regular
      requires Linkage(items, tid, disk.names, st) && firstlink == st.first
      modifies this`firstlink, disk
      ensures Unpacking(n0, next0) && data == old(data) && (old(disk.broke) ==> disk.broke)
      ensures ok ==> Linkage(items, tid, disk.names, FileStep(items, st, fx, hasContent)) && firstlink == FileStep(items, st, fx, hasContent).first
      ensures !ok ==> disk.broke || (TempName(items[fx], tid) in old(disk.names) && st.first != fx)
    {
      hide Fresh, Unpacked, Linkage;
      ok := true;
      ghost var n, next := disk.names, disk.next;
      if firstlink == -1 {
        ok := disk.Make(data[fx].fpath);
        if ok {
          MakeUnpacked(items, tid, n0, next0, n, next, fx, data[fx].fpath);
          LinkNew(items, tid, n0, next0, n, st, fx, next);
        }
        if items[fx].linked { firstlink := fx; }
      } else if firstlink != fx {
        FirstThere(items, tid, n, st);
        ok := disk.Link(data[firstlink].fpath, data[fx].fpath);
        if ok {
          LinkUnpacked(items, tid, n0, next0, n, firstlink, fx);
          LinkMore(items, tid, n0, next0, n, st, fx);
        }
      }
      if hasContent {
        if ok { ok := disk.Try(); }
        firstlink := -1;
      }
      if ok { LinkFirst(items, tid, disk.names, st, fx, hasContent); }
    }

    /** A file with a temporary name is assumed not to exist. */
    method Suffixed(fp: nat, fx: nat, ghost n0: Names, ghost next0: nat, ghost st: LinkState) returns (ok: bool)
      requires Unpacking(n0, next0) && fx < |items| && fp < |items| && Tempered(items[fp])
      requires Linkage(items, tid, disk.names, st) && firstlink == st.first
      modifies this`firstlink, disk
      ensures Unpacking(n0, next0) && data == old(data) && (old(disk.broke) ==> disk.broke)
      ensures ok ==> Linkage(items, tid, disk.names, MadeStep(items, st, fp, fx)) && firstlink == MadeStep(items, st, fp, fx).first
      ensures !ok ==> disk.broke || (TempName(items[fp], tid) in old(disk.names) && st.first != fp)
    {
      hide Fresh, Unpacked, Linkage;
      if items[fp].kind == Regular {
        ok := Mkfile(fp, items[fx].hasContent, n0, next0, st);
      } else {
        ghost var n, next := disk.names, disk.next;
        ok := disk.Make(data[fp].fpath);
        if ok {
          MakeUnpacked(items, tid, n0, next0, n, next, fp, data[fp].fpath);
          LinkNew(items, tid, n0, next0, n, st, fp, next);
        }
      }
    }

    /** fsmVerify(): what is there is right and stays, or it goes. */
    method MakeRoom(fp: nat, ghost n0: Names, ghost next0: nat) returns (ok: bool, room: bool)
      requires Unpacking(n0, next0) && fp < |items| && !Tempered(items[fp]) && Acting(items[fp])
      modifies disk`names, disk`broke
      ensures Unpacking(n0, next0) && (old(disk.broke) ==> disk.broke)
      ensures forall p :: IsTemp(items, tid, p) ==> SameAt(old(disk.names), disk.names, p)
      ensures items[fp].kind != Regular ==> (!ok ==> disk.broke) && (ok && room ==> items[fp].path !in disk.names)
      ensures ok && !room ==> items[fp].path in disk.names
    {
      hide Fresh, Unpacked, IsTemp;
      var path := items[fp].path;
      room := true;
      ok := disk.Try();
      if !ok || path !in disk.names { return; }
      var right := Look();
      if right { return true, false; }
      ghost var n := disk.names;
      OwnNotTemp(items, tid, n0, next0, fp, path);
      OwnNotTemp(items, tid, n0, next0, fp, path + "-RPMDELETE");
      if items[fp].kind == Regular {
        ok := disk.Rename(path, path + "-RPMDELETE");
        if ok {
          RenameUnpacked(items, tid, n0, next0, n, fp, path, path + "-RPMDELETE");
          n := disk.names;
          var gone := disk.Remove(path + "-RPMDELETE");
          RemoveUnpacked(items, tid, n0, next0, n, fp, path + "-RPMDELETE");
        }
      } else {
        ok := disk.Remove(path);
        RemoveUnpacked(items, tid, n0, next0, n, fp, path);
      }
    }

    /** Directories and touched files are handled at their final names; a touched file that
        vanished is created. */
    method Direct(fp: nat, ghost n0: Names, ghost next0: nat) returns (ok: bool)
      requires Unpacking(n0, next0) && fp < |items| && !Tempered(items[fp]) && Acting(items[fp])
      modifies this`data, disk
      ensures Unpacking(n0, next0) && (old(disk.broke) ==> disk.broke)
      ensures forall p :: IsTemp(items, tid, p) ==> SameAt(old(disk.names), disk.names, p)
      ensures |data| == |old(data)| && forall i :: 0 <= i < |data| && i != fp ==> data[i] == old(data)[i]
      ensures Plain(items[fp]) && old(data)[fp].action == ActionOf(items[fp]) && !ok ==> disk.broke
      ensures ok ==> items[fp].path in disk.names
    {
      hide Fresh, Unpacked, IsTemp;
      ghost var n := disk.names;
      var path := items[fp].path;
      OwnNotTemp(items, tid, n0, next0, fp, path);
      ok := BackupFile(fp);
      if ok && disk.names != n {
        RenameUnpacked(items, tid, n0, next0, n, fp, path, Aside(items[fp]));
        OwnNotTemp(items, tid, n0, next0, fp, Aside(items[fp]));
      }
      if !ok { return; }
      var room;
      if data[fp].action == Touch {
        room := path !in disk.names;
        if room { data := data[fp := data[fp].(action := Create)]; }
      } else {
        ok, room := MakeRoom(fp, n0, next0);
      }
      if ok && room {
        n := disk.names;
        ghost var next := disk.next;
        ok := disk.Make(path);
        if ok { MakeUnpacked(items, tid, n0, next0, n, next, fp, path); }
      }
    }

    /** Process one file of the payload. */
    method UnpackFile(fx: nat, ghost n0: Names, ghost next0: nat, ghost st: LinkState) returns (ok: bool)
      requires Unpacking(n0, next0) && fx < |items| && Linkage(items, tid, disk.names, st) && firstlink == st.first
      modifies this`firstlink, this`data, disk
      ensures Unpacking(n0, next0) && -1 <= st.first < |items| && (old(disk.broke) ==> disk.broke)
      ensures ok ==> Linkage(items, tid, disk.names, LinkStep(items, st, fx)) && firstlink == LinkStep(items, st, fx).first
      ensures |data| == |old(data)| && forall i :: 0 <= i < |data| && i != fx ==> data[i].action == old(data)[i].action
      ensures ok && Acting(items[fx]) && !Tempered(items[fx]) ==> items[fx].path in disk.names
      ensures !ok && !disk.broke ==> Acting(items[fx])
      ensures !ok && !disk.broke && Tempered(items[fx]) ==> TempName(items[fx], tid) in old(disk.names)
      ensures !ok && !disk.broke && !Tempered(items[fx]) ==> !Plain(items[fx]) || old(data)[fx].action != ActionOf(items[fx])
    {
      hide Fresh, Unpacked, Linkage, IsTemp, LinkStep, MadeStep, Plain;
      StepIs(items, st, fx);
      ok := true;
      ghost var n := disk.names;
      var fp: nat := fx;
      if data[fx].action == Skip && firstlink >= 0 && items[fx].hasContent { fp := firstlink; }
      if data[fp].action != Skip {
        ok := disk.Try();
        if ok {
          if data[fp].suffixed {
            ok := Suffixed(fp, fx, n0, next0, st);
          } else {
            ok := Direct(fp, n0, next0);
            LinkSame(items, tid, n, disk.names, st);
          }
        }
        if ok { ok := disk.Try(); }
      }
      data := data[fp := data[fp].(stage := Unpack)];
    }

    /** Process the payload; it may end early or with an error. If it succeeds, files are links to
        one another as the hardlink sets of the payload say. */
    method UnpackAll(order: seq<nat>, endOk: bool, ghost n0: Names, ghost next0: nat) returns (ok: bool)
      requires Unpacking(n0, next0) && (forall k :: 0 <= k < |order| ==> order[k] < |items|)
      requires Linkage(items, tid, disk.names, LinkState(-1, map[])) && firstlink == -1
      modifies this`firstlink, this`data, disk
      ensures Unpacking(n0, next0) && (ok ==> endOk) && (old(disk.broke) ==> disk.broke)
      ensures ok ==> Linkage(items, tid, disk.names, LinkRun(items, order, |order|))
      ensures Once(items, order) && AllPlain(items) && endOk && AsPlanned(items, old(data)) && !disk.broke ==> ok
    {
      hide Fresh, Unpacked, Linkage, Plain;
      ok := true;
      var k := 0;
      while ok && k < |order|
        invariant 0 <= k <= |order| && Unpacking(n0, next0) && (old(disk.broke) ==> disk.broke)
        invariant |data| == |old(data)| && forall i :: 0 <= i < |data| && i !in order[..k] ==> data[i].action == old(data)[i].action
        invariant ok ==> Linkage(items, tid, disk.names, LinkRun(items, order, k)) && firstlink == LinkRun(items, order, k).first
        invariant Once(items, order) && AllPlain(items) && AsPlanned(items, old(data)) && !disk.broke ==> ok
      {
        ghost var st, n, data1 := LinkRun(items, order, k), disk.names, data;
        ok := UnpackFile(order[k], n0, next0, st);
        assert order[..k + 1] == order[..k] + [order[k]];
        if Once(items, order) && Tempered(items[order[k]]) { NotBefore(items, tid, order, k, n); }
        OnceAt(items, order, k);
        k := k + 1;
      }
      ok := ok && endOk;
    }

    /** Rename a file that is in the way and is to be kept. */
    method BackupFile(fx: nat) returns (ok: bool)
      requires fx < |items| && |data| == |items| && disk.Valid() && Open(items[fx], tid, data[fx])
      modifies disk`names, disk`broke
      ensures disk.Valid() && (old(disk.broke) ==> disk.broke)
      ensures !ok ==> disk.broke || (Saves(items[fx].action) && items[fx].path !in old(disk.names))
      ensures ok ==> !items[fx].isGhost ==> CanBackup(old(disk.names), items[fx]) && disk.names == BackedUp(old(disk.names), items[fx])
      ensures !ok || items[fx].isGhost ==> disk.names == old(disk.names)
    {
      ok := true;
      if Saves(data[fx].action) {
        ok := disk.Rename(items[fx].path, items[fx].path + Suffix(data[fx].action));
      }
    }

    /** Move a file to its final name. */
    method CommitFile(fx: nat, ghost u: Names) returns (ok: bool)
      requires disk.Valid() && Halted(items, tid, data, fx) && fx < |items| && CommitRun(items, tid, u, fx) == Some(disk.names)
      modifies this`data, disk`names, disk`broke
      ensures disk.Valid() && (old(disk.broke) ==> disk.broke)
      ensures !ok ==> disk.broke || !CanCommit(old(disk.names), items[fx], tid)
      ensures ok ==> Halted(items, tid, data, fx + 1) && CommitRun(items, tid, u, fx + 1) == Some(disk.names)
      ensures !ok ==> Halted(items, tid, data, fx) && Stopped(items, tid, u, fx, disk.names)
    {
      ok := true;
      if data[fx].action != Skip {
        ok := disk.Try();
        if ok && data[fx].suffixed { ok := BackupFile(fx); }
        if ok && data[fx].suffixed {
          var dest := items[fx].path + if data[fx].action == AltName then ".rpmnew" else "";
          assert dest == Dest(items[fx]);
          ok := disk.Rename(data[fx].fpath, dest);
          if ok { data := data[fx := data[fx].(fpath := dest)]; }
        }
        if ok { data := data[fx := data[fx].(stage := Committed)]; }
      }
    }

    /** Commit files to their final destination, up to the first failure. */
    method CommitAll(ghost u: Names) returns (ok: bool, at: nat)
      requires disk.Valid() && Halted(items, tid, data, 0) && disk.names == u
      modifies this`data, disk`names, disk`broke
      ensures (old(disk.broke) ==> disk.broke) && (!ok ==> at < |items| && CommitRun(items, tid, u, at).Some?)
      ensures !ok ==> disk.broke || !CanCommit(CommitRun(items, tid, u, at).value, items[at], tid)
      ensures disk.Valid() && at <= |items| && Halted(items, tid, data, at)
      ensures ok ==> CommitRun(items, tid, u, |items|) == Some(disk.names)
      ensures !ok ==> Stopped(items, tid, u, at, disk.names)
    {
      hide Halted, Stopped, CanCommit;
      ok, at := true, 0;
      while at < |items|
        invariant 0 <= at <= |items| && disk.Valid() && (old(disk.broke) ==> disk.broke) && Halted(items, tid, data, at)
        invariant CommitRun(items, tid, u, at) == Some(disk.names)
      {
        ok := CommitFile(at, u);
        if !ok { return; }
        at := at + 1;
      }
    }

    /** Erase a file that was not committed. */
    method RollbackFile(fx: nat, ghost c: nat) returns (gone: bool)
      requires disk.Valid() && Halted(items, tid, data, c) && fx < |items|
      modifies disk`names, disk`broke
      ensures disk.Valid() && Rolled(items, tid, c, old(disk.names), disk.names) && (old(disk.broke) ==> disk.broke)
      ensures gone && c <= fx && Tempered(items[fx]) ==> TempName(items[fx], tid) !in disk.names
    {
      var ok := disk.Try();
      if !ok { return false; }
      gone := true;
      if data[fx].stage != Committed && data[fx].action != Skip && data[fx].action != Touch {
        gone := disk.Remove(data[fx].fpath);
        assert c <= fx && Removable(items, tid, c, data[fx].fpath);
      }
    }

    /** On failure, walk backwards and erase non-committed files. */
    method Rollback(ghost c: nat) returns (leftover: set<nat>)
      requires disk.Valid() && Halted(items, tid, data, c)
      modifies disk`names, disk`broke
      ensures disk.Valid() && Rolled(items, tid, c, old(disk.names), disk.names) && (old(disk.broke) ==> disk.broke)
      ensures forall i :: c <= i < |items| && Tempered(items[i]) && i !in leftover ==> TempName(items[i], tid) !in disk.names
    {
      hide Halted, Removable;
      leftover := {};
      var fx := |items|;
      while fx > 0
        invariant 0 <= fx <= |items| && disk.Valid() && Rolled(items, tid, c, old(disk.names), disk.names) && (old(disk.broke) ==> disk.broke)
        invariant forall i :: c <= i < |items| && fx <= i && Tempered(items[i]) && i !in leftover ==> TempName(items[i], tid) !in disk.names
      {
        fx := fx - 1;
        var gone := RollbackFile(fx, c);
        if !gone { leftover := leftover + {fx}; }
      }
    }

    /** rpmPackageFilesInstall over a payload that yields the files in some order: at is the
        file whose commit failed, leftover are the files whose clean-up failed, u are the
        names after unpacking. */
    method Install(order: seq<nat>, endOk: bool) returns (ok: bool, unpacked: bool, at: nat, leftover: set<nat>, ghost u: Names)
      requires data == Collected(items, tid) && firstlink == -1 && disk.Valid() && Fresh(items, tid, disk.names, disk.next)
      requires forall k :: 0 <= k < |order| ==> order[k] < |items|
      modifies this, disk
      ensures (ok ==> unpacked) && (!endOk ==> !unpacked)
      ensures Unpacked(items, tid, old(disk.names), old(disk.next), u)
      // success: everything is in place exactly if no names clash
      ensures ok ==> CommitRun(items, tid, u, |items|) == Some(disk.names)
      ensures ok && AllPlaced(items, tid, old(disk.names), old(disk.next), u, disk.names) ==> Settled(items, old(disk.names))
      ensures ok && Settled(items, old(disk.names)) && Quiet(items) ==> AllPlaced(items, tid, old(disk.names), old(disk.next), u, disk.names)
      ensures ok && Settled(items, old(disk.names)) && Quiet(items) ==> AllAsked(items, old(disk.names), old(disk.next), disk.names)
      // what was unpacked are the files of the payload, linked as its sets say, and so they are installed
      ensures unpacked ==> Linkage(items, tid, u, LinkRun(items, order, |order|))
      ensures ok && Settled(items, old(disk.names)) && Quiet(items) ==> LinkedAlike(items, LinkRun(items, order, |order|).lead, disk.names)
      // if no call fails and everything is there, it succeeds
      ensures Prepared(items, order, old(disk.names)) && endOk && !disk.broke ==> ok
      // failures clean up
      ensures !ok ==> forall i :: (unpacked ==> at <= i) && 0 <= i < |items| && Tempered(items[i]) && i !in leftover ==>
                TempName(items[i], tid) !in disk.names
      // unpacking failed
      ensures !unpacked ==> forall p :: !Scratch(items, tid, p) ==> SameAt(old(disk.names), disk.names, p)
      ensures !unpacked && Quiet(items) ==> forall i :: 0 <= i < |items| && Tempered(items[i]) ==> SameAt(old(disk.names), disk.names, items[i].path)
      // a commit failed
      ensures !ok && unpacked ==> at < |items|
      ensures !ok && unpacked ==> forall p :: !Scratch(items, tid, p) && (forall k :: 0 <= k <= at ==> !CommitWrites(items[k], tid, p)) ==>
                SameAt(old(disk.names), disk.names, p)
      ensures !ok && unpacked && Clear(items) ==> forall i :: 0 <= i < |items| && Tempered(items[i]) ==>
                && (i < at ==> Placed(items[i], tid, old(disk.names), old(disk.next), u, disk.names))
                && (i > at ==> SameAt(old(disk.names), disk.names, items[i].path))
                && (i == at ==> NotLost(items[i], old(disk.names), disk.names))
    {
      hide Fresh, Unpacked, Placed, NotLost, Settled, Quiet, Clear, Stopped, Rolled, CommitRun, AllPlaced, Scratch, CommitWrites, Halted, Linkage,
           LinkedAlike, Prepared, CanCommit, Once, AllPlain, AllAsked;
      ghost var n0, next0 := disk.names, disk.next;
      at, leftover := 0, {};
      StartUnpacked(items, tid, n0, next0);
      CollectedOpen(items, tid);
      LinkStart(items, tid, n0, next0);
      if Prepared(items, order, n0) { PreparedParts(items, order, n0); }
      unpacked := UnpackAll(order, endOk, n0, next0);
      u := disk.names;
      ok := unpacked;
      if !unpacked {
        leftover := Rollback(0);
        UnpackFailed(items, tid, n0, next0, u, disk.names);
        return;
      }
      ok, at := CommitAll(u);
      if ok {
        PlacedExactly(items, tid, n0, next0, u);
        if Settled(items, n0) && Quiet(items) {
          PlacedLinks(items, tid, n0, next0, u, disk.names, LinkRun(items, order, |order|));
          PlacedAsked(items, tid, n0, next0, u, disk.names);
        }
        return;
      }
      ghost var b := disk.names;
      if Prepared(items, order, n0) { PreparedCommits(items, tid, order, n0, next0, u, at); }
      leftover := Rollback(at);
      CommitFailed(items, tid, n0, next0, u, at, b, disk.names);
    }
  }

  /* ---- Links and progress ---- */

  /** What Suffixed() does to the links. */
  function MadeStep(items: seq<Item>, st: LinkState, fp: nat, fx: nat): LinkState
    requires fp < |items| && fx < |items|
  {
    if items[fp].kind == Regular then FileStep(items, st, fp, items[fx].hasContent) else st.(lead := st.lead[fp := fp])
  }

  lemma StepIs(items: seq<Item>, st: LinkState, fx: nat)
    requires fx < |items| && -1 <= st.first < |items| && (st.first >= 0 ==> items[st.first].kind == Regular)
    ensures LinkStep(items, st, fx) ==
            if !Acting(items[fx]) then (if st.first >= 0 && items[fx].hasContent then MadeStep(items, st, st.first, fx) else st)
            else if Tempered(items[fx]) then MadeStep(items, st, fx, fx) else st
  {
  }

  /** Which file is first does not change the links made. */
  lemma LinkFirst(items: seq<Item>, tid: string, n: Names, st: LinkState, fx: nat, hasContent: bool)
    requires fx < |items| && -1 <= st.first < |items|
    requires var lead := FileStep(items, st, fx, hasContent).lead; Linkage(items, tid, n, st.(lead := lead))
    ensures Linkage(items, tid, n, FileStep(items, st, fx, hasContent))
  {
    hide LinkTo;
  }

  /** Directories to be created, and files to be touched. */
  predicate Plain(it: Item) { (it.kind == Directory && it.action == Create) || it.action == Touch }

  ghost predicate AsPlanned(items: seq<Item>, data: seq<FileData>) {
    |data| == |items| && forall i {:trigger data[i]} :: 0 <= i < |items| ==> data[i].action == ActionOf(items[i])
  }

  ghost predicate AllPlain(items: seq<Item>) {
    forall i {:trigger Tempered(items[i])} :: 0 <= i < |items| && Acting(items[i]) && !Tempered(items[i]) ==> Plain(items[i])
  }

  /** No file comes twice. */
  ghost predicate Once(items: seq<Item>, order: seq<nat>) {
    forall i, j :: 0 <= i < j < |order| ==> order[i] != order[j]
  }

  lemma OnceAt(items: seq<Item>, order: seq<nat>, k: nat)
    requires k < |order|
    ensures Once(items, order) ==> order[k] !in order[..k]
  {
  }

  /** The temporary name of a file that has not come yet is free. */
  lemma NotBefore(items: seq<Item>, tid: string, order: seq<nat>, k: nat, n: Names)
    requires k < |order| && (forall i :: 0 <= i < |order| ==> order[i] < |items|) && Once(items, order)
    requires Linkage(items, tid, n, LinkRun(items, order, k)) && Tempered(items[order[k]])
    ensures TempName(items[order[k]], tid) !in n
  {
    LeadDomain(items, order, k, order[k]);
    assert Inode(items, tid, n, order[k]) < 0;
  }

  /** Everything an installation needs: every file with a temporary name comes once, other files
      are plain, no names clash, and what is to be saved is there. */
  ghost predicate Prepared(items: seq<Item>, order: seq<nat>, n0: Names) {
    && Once(items, order) && AllPlain(items) && Settled(items, n0) && Quiet(items)
    && (forall i {:trigger Tempered(items[i])} :: 0 <= i < |items| && Tempered(items[i]) ==>
          i in order && (Saves(items[i].action) ==> items[i].path in n0))
  }

  lemma PreparedParts(items: seq<Item>, order: seq<nat>, n0: Names)
    requires Prepared(items, order, n0)
    ensures Once(items, order) && AllPlain(items) && Settled(items, n0) && Quiet(items)
  {
    hide Once, AllPlain, Settled, Quiet;
  }

  lemma PreparedUnpacked(items: seq<Item>, tid: string, order: seq<nat>, n0: Names, u: Names, i: nat)
    requires Prepared(items, order, n0) && i < |items| && Tempered(items[i])
    requires (forall k :: 0 <= k < |order| ==> order[k] < |items|) && Linkage(items, tid, u, LinkRun(items, order, |order|))
    ensures TempName(items[i], tid) in u && (Saves(items[i].action) ==> items[i].path in n0)
  {
    hide Settled, Quiet, Once, AllPlain;
    assert order[..|order|] == order;
    LeadDomain(items, order, |order|, i);
    assert LinkTo(items, tid, u, LinkRun(items, order, |order|).lead, i);
  }

  /** Then every commit is possible. */
  lemma PreparedCommits(items: seq<Item>, tid: string, order: seq<nat>, n0: Names, next0: nat, u: Names, i: nat)
    requires Prepared(items, order, n0) && Fresh(items, tid, n0, next0) && Unpacked(items, tid, n0, next0, u)
    requires (forall k :: 0 <= k < |order| ==> order[k] < |items|) && Linkage(items, tid, u, LinkRun(items, order, |order|))
    requires i < |items| && CommitRun(items, tid, u, i).Some?
    ensures CanCommit(CommitRun(items, tid, u, i).value, items[i], tid)
  {
    hide Prepared, Linkage, Unpacked, Fresh, Once, AllPlain, Settled, Quiet, CommitRun, CommitWrites;
    if Tempered(items[i]) {
      var it, m, t := items[i], CommitRun(items, tid, u, i).value, TempName(items[i], tid);
      PreparedUnpacked(items, tid, order, n0, u, i);
      PreparedParts(items, order, n0);
      forall j | 0 <= j < i ensures !CommitWrites(items[j], tid, t) { TempOwn(items, tid, n0, next0, i, j); }
      RunNone(items, tid, u);
      RunFrame(items, tid, u, 0, i, t);
      if Saves(it.action) { FinalKept(items, tid, n0, next0, u, i, i); }
      FreshBasics(items, tid, n0, next0);
      TempApart(it.path, it.path, tid, it.action);
      assert t != it.path by { assert |t| == |it.path| + 9; }
    }
  }

  /** Installed files are links to one another exactly if they were unpacked so. */
  ghost predicate LinkedAlike(items: seq<Item>, lead: map<nat, nat>, n: Names) {
    forall x, y {:trigger lead[x], lead[y]} :: x in lead && y in lead ==>
      && x < |items| && y < |items| && Dest(items[x]) in n && Dest(items[y]) in n
      && (n[Dest(items[x])] == n[Dest(items[y])] <==> lead[x] == lead[y])
  }

  lemma PlacedLinks(items: seq<Item>, tid: string, n0: Names, next0: nat, u: Names, n: Names, st: LinkState)
    requires AllPlaced(items, tid, n0, next0, u, n) && Linkage(items, tid, u, st)
    ensures LinkedAlike(items, st.lead, n)
  {
    forall x, y | x in st.lead && y in st.lead
      ensures x < |items| && y < |items| && Dest(items[x]) in n && Dest(items[y]) in n
      ensures n[Dest(items[x])] == n[Dest(items[y])] <==> st.lead[x] == st.lead[y]
    {
      assert LinkTo(items, tid, u, st.lead, x) && LinkTo(items, tid, u, st.lead, y);
      assert Placed(items[x], tid, n0, next0, u, n) && Placed(items[y], tid, n0, next0, u, n);
      assert Inode(items, tid, u, x) == n[Dest(items[x])] && Inode(items, tid, u, y) == n[Dest(items[y])];
    }
  }

  /** Every file has been installed as its action asks: a new file at its path, or beside it if the
      old one is to stay, and the old one saved under the suffix of the action. */
  ghost predicate AllAsked(items: seq<Item>, n0: Names, next0: nat, n: Names) {
    forall i :: 0 <= i < |items| && !items[i].isGhost && items[i].kind != Directory ==>
      var p := items[i].path;
      match items[i].action
      case Create => p in n && n[p] >= next0
      case Saved => p in n && n[p] >= next0 && p in n0 && Holds(n, p + ".rpmsave", n0[p])
      case Backup => p in n && n[p] >= next0 && p in n0 && Holds(n, p + ".rpmorig", n0[p])
      case AltName => p + ".rpmnew" in n && n[p + ".rpmnew"] >= next0 && SameAt(n0, n, p)
      case _ => true
  }

  lemma PlacedAsked(items: seq<Item>, tid: string, n0: Names, next0: nat, u: Names, n: Names)
    requires AllPlaced(items, tid, n0, next0, u, n)
    ensures AllAsked(items, n0, next0, n)
  {
    forall i | 0 <= i < |items| && Tempered(items[i]) ensures Placed(items[i], tid, n0, next0, u, n) { }
  }

  lemma UnpackFailed(items: seq<Item>, tid: string, n0: Names, next0: nat, u: Names, n: Names)
    requires Fresh(items, tid, n0, next0) && Unpacked(items, tid, n0, next0, u) && Rolled(items, tid, 0, u, n)
    ensures forall p :: !Scratch(items, tid, p) ==> SameAt(n0, n, p)
    ensures Quiet(items) ==> forall i :: 0 <= i < |items| && Tempered(items[i]) ==> SameAt(n0, n, items[i].path)
  {
    hide Fresh, Quiet, Scratch, Removable;
    forall p | !Scratch(items, tid, p) ensures SameAt(n0, n, p) {
      if Removable(items, tid, 0, p) { RemovableScratch(items, tid, 0, p); }
    }
    if Quiet(items) {
      forall i | 0 <= i < |items| && Tempered(items[i]) ensures SameAt(n0, n, items[i].path) {
        Undisturbed(items, tid, n0, next0, u, i);
        NotRemovable(items, tid, n0, next0, 0, i);
      }
    }
  }

  lemma CommitFailed(items: seq<Item>, tid: string, n0: Names, next0: nat, u: Names, at: nat, b: Names, n: Names)
    requires Fresh(items, tid, n0, next0) && Unpacked(items, tid, n0, next0, u)
    requires Stopped(items, tid, u, at, b) && Rolled(items, tid, at, b, n)
    ensures at < |items|
    ensures forall p :: !Scratch(items, tid, p) && (forall k :: 0 <= k <= at ==> !CommitWrites(items[k], tid, p)) ==> SameAt(n0, n, p)
    ensures Clear(items) ==> forall i :: 0 <= i < |items| && Tempered(items[i]) ==>
              && (i < at ==> Placed(items[i], tid, n0, next0, u, n))
              && (i > at ==> SameAt(n0, n, items[i].path))
              && (i == at ==> NotLost(items[i], n0, n))
  {
    hide Fresh, Unpacked, Rolled, Clear, Placed, NotLost, Scratch, CommitWrites;
    forall p | !Scratch(items, tid, p) && (forall k :: 0 <= k <= at ==> !CommitWrites(items[k], tid, p)) ensures SameAt(n0, n, p) {
      FrameKept(items, tid, n0, next0, u, at, b, n, p);
    }
    if Clear(items) {
      forall i | 0 <= i < |items| && Tempered(items[i])
        ensures i < at ==> Placed(items[i], tid, n0, next0, u, n)
        ensures i > at ==> SameAt(n0, n, items[i].path)
        ensures i == at ==> NotLost(items[i], n0, n)
      {
        if i < at { DoneStays(items, tid, n0, next0, u, at, b, n, i); } else { RestKept(items, tid, n0, next0, u, at, b, n, i); }
      }
    }
  }
}
