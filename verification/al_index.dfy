/** Packages available to a transaction, found through indexes that are built when first
    needed (lib/rpmal.cc). */
module AlIndex {
  import opened Common
  import opened FpCache

  datatype Dep = Dep(name: string, color: bv32, flags: bv32, version: int)
  datatype FileName = FileName(dir: string, base: string, color: bv32, flags: bv32)

  /** A transaction element: its name, its own name-version-release, and whether it is a source package. */
  datatype Te = Te(id: nat, name: string, self: Dep, isSource: bool)

  /** struct availablePackage_s: deleted packages stay in the list without their element. */
  datatype Package = Package(p: Option<Te>, offers: seq<Dep>, obsoletes: seq<Dep>, files: seq<FileName>)

  datatype Tag = Require | Conflict | Obsolete

  /** A dependency that is looked up, and the element it belongs to, if any. */
  datatype Query = Query(dep: Dep, tag: Tag, owner: Option<nat>)

  datatype Kind = Provides | Obsoletes | Files

  /** What the index of one kind holds for one dependency or file of a package. */
  datatype Item = Item(key: string, ok: bool)
  datatype Slot = Slot(key: string, pkg: nat, ix: nat)

  const NODOCS: bv32 := 0x20
  const NOCONFIGS: bv32 := 0x4000_0000
  const SENSE_CONFIG: bv32 := 0x1000_0000
  const FILE_CONFIG: bv32 := 1
  const FILE_DOC: bv32 := 2

  /** Transaction settings, version comparison and the file system. */
  datatype Config = Config(tscolor: bv32, tsflags: bv32, overlap: (Dep, Dep) -> bool, stat: StatFn, canon: string -> string)

  predicate ColorOk(c: Config, color: bv32) { c.tscolor == 0 || color == 0 || c.tscolor & color != 0 }

  /** The test for configuration files among provides: a bitwise and of two different bits. */
  predicate SkipConfig(c: Config, flags: bv32) { (c.tsflags & NOCONFIGS) & (flags & SENSE_CONFIG) != 0 }

  predicate SkipFile(c: Config, flags: bv32) {
    (c.tsflags & NODOCS != 0 && flags & FILE_DOC != 0) || (c.tsflags & NOCONFIGS != 0 && flags & FILE_CONFIG != 0)
  }

  /** It never applies: config() provides are found even if configuration files are not installed. */
  lemma ConfigNotSkipped(c: Config, flags: bv32)
    ensures !SkipConfig(c, flags)
  {
    Disjoint(c.tsflags, flags);
  }

  lemma Disjoint(a: bv32, b: bv32)
    ensures (a & 0x4000_0000) & (b & 0x1000_0000) == 0
  {
  }

  function Count(kind: Kind, pkg: Package): nat {
    match kind
    case Provides => |pkg.offers|
    case Obsoletes => |pkg.obsoletes|
    case Files => |pkg.files|
  }

  /** What is indexed for entry ix of a package: colored entries only if the color fits,
      files only if they will be installed. */
  function ItemAt(c: Config, kind: Kind, pkg: Package, ix: nat): Item
    requires ix < Count(kind, pkg)
  {
    match kind
    case Provides => var d := pkg.offers[ix]; Item(d.name, ColorOk(c, d.color) && !SkipConfig(c, d.flags))
    case Obsoletes => var d := pkg.obsoletes[ix]; Item(d.name, ColorOk(c, d.color))
    case Files => var f := pkg.files[ix]; Item(f.base, ColorOk(c, f.color) && !SkipFile(c, f.flags))
  }

  function Slots(c: Config, kind: Kind, pkg: Package, num: nat, n: nat): seq<Slot>
    requires n <= Count(kind, pkg)
  {
    if n == 0 then []
    else
      var i := ItemAt(c, kind, pkg, n - 1);
      Slots(c, kind, pkg, num, n - 1) + if i.ok then [Slot(i.key, num, n - 1)] else []
  }

  ghost predicate HasEntry(slots: seq<Slot>, ix: nat) { exists k :: 0 <= k < |slots| && slots[k].ix == ix }

  /** An entry of a package is in its index exactly if it passes the filters. */
  lemma {:induction false} SlotsHave(c: Config, kind: Kind, pkg: Package, num: nat, n: nat, ix: nat)
    requires n <= Count(kind, pkg) && ix < n
    ensures HasEntry(Slots(c, kind, pkg, num, n), ix) <==> ItemAt(c, kind, pkg, ix).ok
    decreases n
  {
    hide ItemAt;
    var a, b := Slots(c, kind, pkg, num, n - 1), Slots(c, kind, pkg, num, n);
    SlotsBelow(c, kind, pkg, num, n - 1);
    if ix < n - 1 {
      SlotsHave(c, kind, pkg, num, n - 1, ix);
      SlotsMore(a, b, ix);
    } else if ItemAt(c, kind, pkg, ix).ok {
      assert b[|a|].ix == ix;
    }
  }

  lemma SlotsMore(a: seq<Slot>, b: seq<Slot>, ix: nat)
    requires |a| <= |b| && b[..|a|] == a && forall k :: |a| <= k < |b| ==> b[k].ix != ix
    ensures HasEntry(a, ix) <==> HasEntry(b, ix)
  {
    assert forall k :: 0 <= k < |a| ==> a[k] == b[k];
  }

  lemma {:induction false} SlotsBelow(c: Config, kind: Kind, pkg: Package, num: nat, n: nat)
    requires n <= Count(kind, pkg)
    ensures forall k :: 0 <= k < |Slots(c, kind, pkg, num, n)| ==> Slots(c, kind, pkg, num, n)[k].ix < n
    decreases n
  {
    hide ItemAt;
    if n > 0 { SlotsBelow(c, kind, pkg, num, n - 1); }
  }

  /** Entries of one colour only fit a transaction of that colour. */
  ghost predicate ColorsMeet(c: Config, color: bv32) { c.tscolor != 0 && color != 0 ==> c.tscolor & color != 0 }

  /** Which files are found: documentation (bit 1 of its flags) unless it is not installed (bit 5 of
      the transaction flags), configuration (bit 0) unless that is not (bit 30), all others always;
      and of coloured files those that have a colour in common with a coloured transaction. */
  lemma FilesFound(c: Config, pkg: Package, num: nat, ix: nat)
    requires ix < |pkg.files|
    ensures var f := pkg.files[ix];
            var isDoc, isConfig := f.flags & 0x2 == 0x2, f.flags & 0x1 == 0x1;
            var noDocs, noConfigs := c.tsflags & 0x20 == 0x20, c.tsflags & 0x4000_0000 == 0x4000_0000;
            HasEntry(Slots(c, Files, pkg, num, |pkg.files|), ix) <==>
              (isDoc ==> !noDocs) && (isConfig ==> !noConfigs) && ColorsMeet(c, f.color)
  {
    hide Slots, HasEntry, SkipFile, ColorOk, ColorsMeet;
    SlotsHave(c, Files, pkg, num, |pkg.files|, ix);
    SkippedFile(c, pkg.files[ix].flags);
    ColorsFit(c, pkg.files[ix].color);
  }

  lemma ColorsFit(c: Config, color: bv32)
    ensures ColorOk(c, color) <==> ColorsMeet(c, color)
  {
  }

  lemma SkippedFile(c: Config, flags: bv32)
    ensures SkipFile(c, flags) <==>
            (flags & 0x2 == 0x2 && c.tsflags & 0x20 == 0x20) || (flags & 0x1 == 0x1 && c.tsflags & 0x4000_0000 == 0x4000_0000)
  {
    OneBit(flags, c.tsflags);
  }

  lemma OneBit(x: bv32, y: bv32)
    ensures (x & 0x2 == 0x2 <==> x & 0x2 != 0) && (x & 0x1 == 0x1 <==> x & 0x1 != 0)
    ensures (y & 0x20 == 0x20 <==> y & 0x20 != 0) && (y & 0x4000_0000 == 0x4000_0000 <==> y & 0x4000_0000 != 0)
  {
  }

  /** Provides and obsoletes are filtered by colour only. */
  lemma NamesFound(c: Config, pkg: Package, num: nat, ix: nat)
    ensures ix < |pkg.offers| ==>
              (HasEntry(Slots(c, Provides, pkg, num, |pkg.offers|), ix) <==> ColorsMeet(c, pkg.offers[ix].color))
    ensures ix < |pkg.obsoletes| ==>
              (HasEntry(Slots(c, Obsoletes, pkg, num, |pkg.obsoletes|), ix) <==> ColorsMeet(c, pkg.obsoletes[ix].color))
  {
    hide Slots, HasEntry, SkipConfig, ColorOk, ColorsMeet;
    if ix < |pkg.offers| {
      SlotsHave(c, Provides, pkg, num, |pkg.offers|, ix);
      ConfigNotSkipped(c, pkg.offers[ix].flags);
      ColorsFit(c, pkg.offers[ix].color);
    }
    if ix < |pkg.obsoletes| {
      SlotsHave(c, Obsoletes, pkg, num, |pkg.obsoletes|, ix);
      ColorsFit(c, pkg.obsoletes[ix].color);
    }
  }

  /** The index of the first n packages. */
  function Index(c: Config, kind: Kind, list: seq<Package>, n: nat): seq<Slot>
    requires n <= |list|
  {
    if n == 0 then [] else Index(c, kind, list, n - 1) + Slots(c, kind, list[n - 1], n - 1, Count(kind, list[n - 1]))
  }

  /** Deleting packages or adding more does not change it. */
  lemma {:induction false} IndexSame(c: Config, kind: Kind, a: seq<Package>, b: seq<Package>, n: nat)
    requires n <= |a| && n <= |b|
    requires forall k :: 0 <= k < n ==> a[k].offers == b[k].offers && a[k].obsoletes == b[k].obsoletes && a[k].files == b[k].files
    ensures Index(c, kind, a, n) == Index(c, kind, b, n)
    decreases n
  {
    if n > 0 {
      IndexSame(c, kind, a, b, n - 1);
      SlotsSame(c, kind, a[n - 1], b[n - 1], n - 1, Count(kind, a[n - 1]));
    }
  }

  lemma {:induction false} SlotsSame(c: Config, kind: Kind, a: Package, b: Package, num: nat, n: nat)
    requires a.offers == b.offers && a.obsoletes == b.obsoletes && a.files == b.files && n <= Count(kind, a)
    ensures Slots(c, kind, a, num, n) == Slots(c, kind, b, num, n)
    decreases n
  {
    hide SkipConfig, SkipFile, ColorOk;
    if n > 0 { SlotsSame(c, kind, a, b, num, n - 1); }
  }

  /* ---- What a lookup should find: a scan of all live packages ---- */

  ghost predicate CanonOk(c: Config) { c.stat("/").Some? && forall d :: Canonical(c.canon(d)) }

  /** Two directories are the same, by name or by fingerprint. */
  ghost predicate SameSpot(c: Config, d: string, e: string, base: string)
    requires CanonOk(c)
  {
    d == e || Equal(PrintOf(c.stat, c.canon(d), base), PrintOf(c.stat, c.canon(e), base))
  }

  /** Conflicts and obsoletes do not apply to the package that has them. */
  predicate OwnQuery(te: Te, q: Query) { q.tag != Require && q.owner == Some(te.id) }

  function BaseStart(name: string, n: nat): (r: nat)
    requires n <= |name|
    ensures r <= n
  {
    if n == 0 || name[n - 1] == '/' then n else BaseStart(name, n - 1)
  }

  function DirOf(name: string): string { name[..BaseStart(name, |name|)] }
  function BaseOf(name: string): string { name[BaseStart(name, |name|)..] }

  function KeyOf(kind: Kind, q: Query): string { if kind == Files then BaseOf(q.dep.name) else q.dep.name }

  /** Whether entry ix of a live package answers the query. */
  ghost predicate Answers(c: Config, kind: Kind, pkg: Package, ix: nat, q: Query)
    requires ix < Count(kind, pkg) && pkg.p.Some? && CanonOk(c)
  {
    var te := pkg.p.value;
    match kind
    case Obsoletes => c.overlap(pkg.obsoletes[ix], q.dep)
    case Files => !OwnQuery(te, q) && SameSpot(c, DirOf(q.dep.name), pkg.files[ix].dir, BaseOf(q.dep.name))
    case Provides =>
      && !OwnQuery(te, q)
      && if q.tag == Obsolete then pkg.offers[ix].name == te.name && c.overlap(te.self, q.dep)
         else c.overlap(pkg.offers[ix], q.dep)
  }

  ghost function ScanPackage(c: Config, kind: Kind, pkg: Package, q: Query, n: nat): seq<Te>
    requires n <= Count(kind, pkg) && CanonOk(c)
  {
    if n == 0 then []
    else
      var i := ItemAt(c, kind, pkg, n - 1);
      ScanPackage(c, kind, pkg, q, n - 1)
      + if pkg.p.Some? && i.ok && i.key == KeyOf(kind, q) && Answers(c, kind, pkg, n - 1, q) then [pkg.p.value] else []
  }

  ghost function Scan(c: Config, kind: Kind, list: seq<Package>, q: Query, n: nat): seq<Te>
    requires n <= |list| && CanonOk(c)
  {
    if n == 0 then [] else Scan(c, kind, list, q, n - 1) + ScanPackage(c, kind, list[n - 1], q, Count(kind, list[n - 1]))
  }

  /** A scan finds an element exactly if an entry of its package answers. */
  ghost predicate FoundAt(c: Config, kind: Kind, pkg: Package, q: Query, te: Te, ix: nat)
    requires CanonOk(c)
  {
    && ix < Count(kind, pkg) && pkg.p == Some(te)
    && var i := ItemAt(c, kind, pkg, ix); i.ok && i.key == KeyOf(kind, q) && Answers(c, kind, pkg, ix, q)
  }

  lemma {:induction false} ScanPackageHas(c: Config, kind: Kind, pkg: Package, q: Query, n: nat, te: Te)
    requires n <= Count(kind, pkg) && CanonOk(c)
    ensures te in ScanPackage(c, kind, pkg, q, n) <==> exists ix :: 0 <= ix < n && FoundAt(c, kind, pkg, q, te, ix)
    decreases n
  {
    hide ItemAt, Answers, CanonOk;
    if n > 0 {
      ScanPackageHas(c, kind, pkg, q, n - 1, te);
      assert te in ScanPackage(c, kind, pkg, q, n) <==> te in ScanPackage(c, kind, pkg, q, n - 1) || FoundAt(c, kind, pkg, q, te, n - 1);
    }
  }

  ghost predicate FoundIn(c: Config, kind: Kind, pkg: Package, q: Query, te: Te)
    requires CanonOk(c)
  {
    exists ix :: 0 <= ix < Count(kind, pkg) && FoundAt(c, kind, pkg, q, te, ix)
  }

  lemma {:induction false} ScanHas(c: Config, kind: Kind, list: seq<Package>, q: Query, n: nat, te: Te)
    requires n <= |list| && CanonOk(c)
    ensures te in Scan(c, kind, list, q, n) <==> exists k :: 0 <= k < n && FoundIn(c, kind, list[k], q, te)
    decreases n
  {
    hide CanonOk, FoundAt;
    if n > 0 {
      ScanHas(c, kind, list, q, n - 1, te);
      ScanPackageHas(c, kind, list[n - 1], q, Count(kind, list[n - 1]), te);
    }
  }

  /** No package conflicts with itself or obsoletes itself. */
  lemma NotItself(c: Config, kind: Kind, list: seq<Package>, q: Query, te: Te)
    requires CanonOk(c) && kind != Obsoletes && q.tag != Require && te in Scan(c, kind, list, q, |list|)
    ensures q.owner != Some(te.id)
  {
    hide CanonOk, Scan, SameSpot, ItemAt;
    ScanHas(c, kind, list, q, |list|, te);
  }

  /** Obsoletes go by the names and versions of packages, not by what else they provide. */
  lemma ObsoletedByName(c: Config, list: seq<Package>, q: Query, te: Te)
    requires CanonOk(c) && q.tag == Obsolete
    ensures te in Scan(c, Provides, list, q, |list|) <==>
            && te.name == q.dep.name && c.overlap(te.self, q.dep) && q.owner != Some(te.id)
            && exists k, ix :: 0 <= k < |list| && list[k].p == Some(te) && OwnName(c, list[k], te, ix)
  {
    hide CanonOk, Scan, ColorOk, ColorsMeet, SkipConfig;
    ScanHas(c, Provides, list, q, |list|, te);
    forall k, ix | 0 <= k < |list| && 0 <= ix < |list[k].offers|
      ensures FoundAt(c, Provides, list[k], q, te, ix) <==>
              && te.name == q.dep.name && c.overlap(te.self, q.dep) && q.owner != Some(te.id)
              && list[k].p == Some(te) && OwnName(c, list[k], te, ix)
    {
      ColorsFit(c, list[k].offers[ix].color);
      ConfigNotSkipped(c, list[k].offers[ix].flags);
    }
  }

  ghost predicate OwnName(c: Config, pkg: Package, te: Te, ix: nat) {
    ix < |pkg.offers| && pkg.offers[ix].name == te.name && ColorsMeet(c, pkg.offers[ix].color)
  }

  /* ---- Walking the index finds the same ---- */

  ghost predicate SlotOk(kind: Kind, list: seq<Package>, s: Slot) {
    s.pkg < |list| && s.ix < Count(kind, list[s.pkg])
  }

  ghost predicate Found(c: Config, kind: Kind, list: seq<Package>, q: Query, s: Slot)
    requires SlotOk(kind, list, s) && CanonOk(c)
  {
    s.key == KeyOf(kind, q) && list[s.pkg].p.Some? && Answers(c, kind, list[s.pkg], s.ix, q)
  }

  ghost function Pick(c: Config, kind: Kind, list: seq<Package>, q: Query, h: seq<Slot>): seq<Te>
    requires CanonOk(c) && forall k :: 0 <= k < |h| ==> SlotOk(kind, list, h[k])
  {
    if h == [] then []
    else
      var s := h[|h| - 1];
      Pick(c, kind, list, q, h[..|h| - 1]) + if Found(c, kind, list, q, s) then [list[s.pkg].p.value] else []
  }

  lemma {:induction false} PickAppend(c: Config, kind: Kind, list: seq<Package>, q: Query, a: seq<Slot>, b: seq<Slot>)
    requires CanonOk(c) && (forall k :: 0 <= k < |a| ==> SlotOk(kind, list, a[k])) && forall k :: 0 <= k < |b| ==> SlotOk(kind, list, b[k])
    ensures Pick(c, kind, list, q, a + b) == Pick(c, kind, list, q, a) + Pick(c, kind, list, q, b)
    decreases |b|
  {
    hide Found, SlotOk;
    if b == [] {
      assert a + b == a;
    } else {
      var n := |b| - 1;
      PickAppend(c, kind, list, q, a, b[..n]);
      assert (a + b)[..|a + b| - 1] == a + b[..n];
    }
  }

  lemma {:induction false} PickSlots(c: Config, kind: Kind, list: seq<Package>, q: Query, num: nat, n: nat)
    requires CanonOk(c) && num < |list| && n <= Count(kind, list[num])
    ensures var h := Slots(c, kind, list[num], num, n);
            && (forall k :: 0 <= k < |h| ==> SlotOk(kind, list, h[k]))
            && Pick(c, kind, list, q, h) == ScanPackage(c, kind, list[num], q, n)
    decreases n
  {
    hide SkipConfig, SkipFile, ColorOk, Answers;
    if n > 0 {
      PickSlots(c, kind, list, q, num, n - 1);
      var i, h := ItemAt(c, kind, list[num], n - 1), Slots(c, kind, list[num], num, n - 1);
      if i.ok {
        var s := Slot(i.key, num, n - 1);
        assert Slots(c, kind, list[num], num, n) == h + [s] && (h + [s])[..|h|] == h;
      } else {
        assert Slots(c, kind, list[num], num, n) == h;
      }
    }
  }

  /** The index answers what the scan answers. */
  lemma {:induction false} PickIndex(c: Config, kind: Kind, list: seq<Package>, q: Query, n: nat)
    requires CanonOk(c) && n <= |list|
    ensures var h := Index(c, kind, list, n);
            && (forall k :: 0 <= k < |h| ==> SlotOk(kind, list, h[k]))
            && Pick(c, kind, list, q, h) == Scan(c, kind, list, q, n)
    decreases n
  {
    hide SlotOk, Slots, ScanPackage;
    if n > 0 {
      PickIndex(c, kind, list, q, n - 1);
      PickSlots(c, kind, list, q, n - 1, Count(kind, list[n - 1]));
      PickAppend(c, kind, list, q, Index(c, kind, list, n - 1), Slots(c, kind, list[n - 1], n - 1, Count(kind, list[n - 1])));
    }
  }

  lemma PickNone(c: Config, kind: Kind, list: seq<Package>, q: Query)
    requires CanonOk(c)
    ensures Pick(c, kind, list, q, []) == []
  {
  }

  lemma PickStep(c: Config, kind: Kind, list: seq<Package>, q: Query, h: seq<Slot>, i: nat)
    requires CanonOk(c) && i < |h| && forall k :: 0 <= k < |h| ==> SlotOk(kind, list, h[k])
    ensures SlotOk(kind, list, h[i])
    ensures Pick(c, kind, list, q, h[..i + 1]) == Pick(c, kind, list, q, h[..i]) + if Found(c, kind, list, q, h[i]) then [list[h[i].pkg].p.value] else []
  {
    hide Answers;
    assert h[..i + 1][..i] == h[..i];
  }

  /* ---- rpmal ---- */

  /** Every index that exists is the index of the whole list. */
  ghost predicate Indexed(c: Config, list: seq<Package>, hash: map<Kind, seq<Slot>>) {
    && (Provides in hash ==> hash[Provides] == Index(c, Provides, list, |list|))
    && (Obsoletes in hash ==> hash[Obsoletes] == Index(c, Obsoletes, list, |list|))
    && (Files in hash ==> hash[Files] == Index(c, Files, list, |list|))
  }

  lemma IndexedAt(c: Config, list: seq<Package>, hash: map<Kind, seq<Slot>>, kind: Kind)
    requires Indexed(c, list, hash) && kind in hash
    ensures hash[kind] == Index(c, kind, list, |list|)
  {
    match kind { case Provides => case Obsoletes => case Files => }
  }

  lemma IndexedNew(c: Config, list: seq<Package>, hash: map<Kind, seq<Slot>>, kind: Kind, h: seq<Slot>)
    requires Indexed(c, list, hash) && h == Index(c, kind, list, |list|)
    ensures Indexed(c, list, hash[kind := h])
  {
    hide Index;
  }

  lemma IndexedMore(c: Config, list: seq<Package>, pkg: Package, a: map<Kind, seq<Slot>>, b: map<Kind, seq<Slot>>)
    requires Indexed(c, list, a) && a.Keys == b.Keys
    requires forall kind :: kind in a ==> b[kind] == a[kind] + Slots(c, kind, pkg, |list|, Count(kind, pkg))
    ensures Indexed(c, list + [pkg], b)
  {
    hide Index, Slots;
    IndexGrows(c, Provides, list, pkg);
    IndexGrows(c, Obsoletes, list, pkg);
    IndexGrows(c, Files, list, pkg);
  }

  lemma IndexedDel(c: Config, list: seq<Package>, i: nat, hash: map<Kind, seq<Slot>>)
    requires Indexed(c, list, hash) && i < |list|
    ensures Indexed(c, list[i := list[i].(p := None)], hash)
  {
    hide Index;
    var after := list[i := list[i].(p := None)];
    IndexSame(c, Provides, list, after, |list|);
    IndexSame(c, Obsoletes, list, after, |list|);
    IndexSame(c, Files, list, after, |list|);
  }

  class Al {
    const config: Config
    var list: seq<Package>
    var hash: map<Kind, seq<Slot>>
    var fpc: Cache?

    constructor (c: Config)
      requires CanonOk(c)
      ensures Valid() && config == c && list == [] && hash == map[] && fpc == null
    {
      config, list, hash, fpc := c, [], map[], null;
    }

    ghost predicate Valid()
      reads this, fpc
    {
      && CanonOk(config)
      && Indexed(config, list, hash)
      && (fpc != null ==> fpc.Valid() && fpc.stat == config.stat)
    }

    /** rpmalAddProvides, rpmalAddObsoletes, rpmalAddFiles. */
    method AddItems(kind: Kind, pkg: Package, num: nat, h: seq<Slot>) returns (r: seq<Slot>)
      ensures r == h + Slots(config, kind, pkg, num, Count(kind, pkg))
    {
      r := h;
      var i := 0;
      while i < Count(kind, pkg)
        invariant 0 <= i <= Count(kind, pkg) && r == h + Slots(config, kind, pkg, num, i)
      {
        var item := ItemAt(config, kind, pkg, i);
        if item.ok { r := r + [Slot(item.key, num, i)]; }
        i := i + 1;
      }
    }

    /** rpmalMakeProvidesIndex and its likes. */
    method MakeIndex(kind: Kind) returns (h: seq<Slot>)
      ensures h == Index(config, kind, list, |list|)
    {
      h := [];
      var i := 0;
      while i < |list|
        invariant 0 <= i <= |list| && h == Index(config, kind, list, i)
      {
        h := AddItems(kind, list[i], i, h);
        i := i + 1;
      }
    }

    /** Extend an index that exists. */
    method Extend(kind: Kind, pkg: Package, num: nat)
      modifies this`hash
      ensures hash == if kind in old(hash) then old(hash)[kind := old(hash)[kind] + Slots(config, kind, pkg, num, Count(kind, pkg))] else old(hash)
    {
      if kind in hash {
        var h := AddItems(kind, pkg, num, hash[kind]);
        hash := hash[kind := h];
      }
    }

    /** rpmalAdd: source packages provide nothing; indexes that exist are extended. */
    method Add(p: Te, offers: seq<Dep>, obsoletes: seq<Dep>, files: seq<FileName>)
      requires Valid()
      modifies this`list, this`hash
      ensures Valid() && hash.Keys == old(hash.Keys)
      ensures p.isSource ==> list == old(list) && hash == old(hash)
      ensures !p.isSource ==> list == old(list) + [Package(Some(p), offers, obsoletes, files)]
    {
      hide Index, Slots, Indexed;
      if p.isSource { return; }
      var pkg, num := Package(Some(p), offers, obsoletes, files), |list|;
      list := list + [pkg];
      ghost var before := hash;
      Extend(Provides, pkg, num);
      Extend(Obsoletes, pkg, num);
      Extend(Files, pkg, num);
      IndexedMore(config, old(list), pkg, before, hash);
    }

    /** rpmalDel: the package only loses its element. */
    method Del(p: Te)
      requires Valid()
      modifies this`list
      ensures Valid() && |list| == |old(list)|
      ensures list == old(list) || exists k :: 0 <= k < |list| && old(list)[k].p == Some(p) && list == old(list)[k := old(list)[k].(p := None)]
      ensures (exists k :: 0 <= k < |old(list)| && old(list)[k].p == Some(p)) ==> list != old(list)
    {
      var i := 0;
      while i < |list|
        invariant 0 <= i <= |list| && list == old(list) && forall k :: 0 <= k < i ==> list[k].p != Some(p)
      {
        if list[i].p == Some(p) {
          list := list[i := list[i].(p := None)];
          IndexedDel(config, old(list), i, hash);
          return;
        }
        i := i + 1;
      }
    }

    /** Whether a file in directory e is one in directory d: the cache is made when names differ. */
    method SameDir(d: string, e: string, base: string) returns (same: bool)
      requires Valid()
      modifies this`fpc, fpc
      ensures Valid() && list == old(list) && hash == old(hash) && (fpc == old(fpc) || fresh(fpc))
      ensures same <==> SameSpot(config, d, e, base)
    {
      hide Indexed, PrintOf;
      if d == e { return true; }
      if fpc == null { fpc := new Cache(config.stat); }
      var a := fpc.DoLookup(config.canon(d), base);
      var b := fpc.DoLookup(config.canon(e), base);
      PrintIs(config.stat, config.canon(d), base, a);
      PrintIs(config.stat, config.canon(e), base, b);
      same := Equal(a, b);
    }

    method Check(kind: Kind, pkg: Package, ix: nat, q: Query) returns (yes: bool)
      requires Valid() && ix < Count(kind, pkg) && pkg.p.Some?
      modifies this`fpc, fpc
      ensures Valid() && list == old(list) && hash == old(hash) && (fpc == old(fpc) || fresh(fpc))
      ensures yes <==> Answers(config, kind, pkg, ix, q)
    {
      hide Indexed, SameSpot;
      var te := pkg.p.value;
      match kind
      case Obsoletes => yes := config.overlap(pkg.obsoletes[ix], q.dep);
      case Files =>
        yes := !OwnQuery(te, q);
        if yes { yes := SameDir(DirOf(q.dep.name), pkg.files[ix].dir, BaseOf(q.dep.name)); }
      case Provides =>
        if OwnQuery(te, q) { yes := false; }
        else if q.tag == Obsolete { yes := pkg.offers[ix].name == te.name && config.overlap(te.self, q.dep); }
        else { yes := config.overlap(pkg.offers[ix], q.dep); }
    }

    /** Walk the entries of an index with the right key. */
    method Walk(kind: Kind, q: Query, h: seq<Slot>) returns (ret: seq<Te>)
      requires Valid() && forall k :: 0 <= k < |h| ==> SlotOk(kind, list, h[k])
      modifies this`fpc, fpc
      ensures Valid() && list == old(list) && hash == old(hash) && (fpc == old(fpc) || fresh(fpc))
      ensures ret == Pick(config, kind, list, q, h)
    {
      hide Indexed, Answers, Pick;
      ret := [];
      PickNone(config, kind, list, q);
      var i := 0;
      while i < |h|
        invariant 0 <= i <= |h| && Valid() && list == old(list) && hash == old(hash) && (fpc == old(fpc) || fresh(fpc))
        invariant ret == Pick(config, kind, list, q, h[..i])
      {
        var s := h[i];
        PickStep(config, kind, list, q, h, i);
        if s.key == KeyOf(kind, q) && list[s.pkg].p.Some? {
          var yes := Check(kind, list[s.pkg], s.ix, q);
          if yes { ret := ret + [list[s.pkg].p.value]; }
        }
        i := i + 1;
      }
      assert h[..i] == h;
    }

    /** Look a key up, building the index first if it does not exist yet. */
    method Lookup(kind: Kind, q: Query) returns (ret: seq<Te>)
      requires Valid()
      modifies this`hash, this`fpc, fpc
      ensures Valid() && list == old(list) && (fpc == old(fpc) || fresh(fpc))
      ensures multiset(ret) == multiset(Scan(config, kind, list, q, |list|))
    {
      hide Index, Scan, Answers, Indexed, SlotOk, Pick;
      if kind !in hash {
        var made := MakeIndex(kind);
        IndexedNew(config, list, hash, kind, made);
        hash := hash[kind := made];
      }
      IndexedAt(config, list, hash, kind);
      PickIndex(config, kind, list, q, |list|);
      ret := Walk(kind, q, hash[kind]);
    }

    /** rpmalAllObsoletes */
    method AllObsoletes(q: Query) returns (ret: seq<Te>)
      requires Valid()
      modifies this`hash, this`fpc, fpc
      ensures Valid() && list == old(list)
      ensures multiset(ret) == if q.dep.name == "" then multiset{} else multiset(Scan(config, Obsoletes, list, q, |list|))
    {
      hide Indexed, Scan;
      if q.dep.name == "" { return []; }
      ret := Lookup(Obsoletes, q);
    }

    /** rpmalAllSatisfiesDepend: files come before provides. */
    method AllSatisfiesDepend(q: Query) returns (ret: seq<Te>)
      requires Valid()
      modifies this`hash, this`fpc, fpc
      ensures Valid() && list == old(list)
      ensures multiset(ret) == Satisfying(config, list, q)
    {
      hide Indexed, Scan;
      if q.dep.name == "" { return []; }
      if q.tag != Obsolete && q.dep.name[0] == '/' {
        ret := Lookup(Files, q);
        if ret != [] { assert ret[0] in multiset(ret); return; }
      }
      ret := Lookup(Provides, q);
    }
  }

  /** What satisfies a dependency, by a scan of the live packages. */
  ghost function Satisfying(c: Config, list: seq<Package>, q: Query): multiset<Te>
    requires CanonOk(c)
  {
    var files := multiset(Scan(c, Files, list, q, |list|));
    if q.dep.name == "" then multiset{}
    else if q.tag != Obsolete && q.dep.name[0] == '/' && files != multiset{} then files
    else multiset(Scan(c, Provides, list, q, |list|))
  }

  lemma IndexGrows(c: Config, kind: Kind, list: seq<Package>, pkg: Package)
    ensures Index(c, kind, list + [pkg], |list| + 1) == Index(c, kind, list, |list|) + Slots(c, kind, pkg, |list|, Count(kind, pkg))
  {
    hide Slots;
    IndexSame(c, kind, list, list + [pkg], |list|);
  }
}
