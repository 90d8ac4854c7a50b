/** The header in memory: its index, sorted on demand, and the operations that change
    it (headerPut, headerMod, headerDel; lib/header.cc). */
module HeaderStore {
  import opened Common
  import opened HeaderBytes
  import opened HeaderBlob
  import opened HeaderSwab

  /* ---- The index ---- */

  /** Tags are compared by a 32-bit difference. */
  function IndexCmp(a: Entry, b: Entry): int { Signed((a.tag - b.tag) % WORD) }

  function Address(d: Data): int { if d.InBlob? then d.at else 0 }

  /** By offset; within a region by address, added entries by tag. */
  function OffsetCmp(a: Entry, b: Entry): int {
    if a.offset != b.offset then a.offset - b.offset
    else if a.offset < 0 then Address(a.data) - Address(b.data)
    else Signed((a.tag - b.tag) % WORD)
  }

  /** Above this, differences of tags wrap around and do not order them. */
  const TAG_END := 0x8000_0000

  ghost predicate SmallTags(s: seq<Entry>) {
    forall e :: e in s ==> e.tag < TAG_END
  }

  lemma TagsConsistent(s: seq<Entry>)
    requires SmallTags(s)
    ensures Consistent(IndexCmp, s) && forall a, b :: a in s && b in s ==> IndexCmp(a, b) == a.tag - b.tag
  {
    forall a, b | a in s && b in s ensures IndexCmp(a, b) == a.tag - b.tag { SmallDiff(a.tag, b.tag); }
  }

  lemma SmallDiff(x: nat, y: nat)
    requires x < TAG_END && y < TAG_END
    ensures Signed((x - y) % WORD) == x - y
  {
  }

  ghost predicate ByTag(s: seq<Entry>) {
    forall i, j :: 0 <= i < j < |s| ==> s[i].tag <= s[j].tag
  }

  /** Data handed in by a caller: strings without their terminators, or raw memory. */
  datatype Value = Raw(bytes: Bytes) | Strings(items: seq<Bytes>)
  datatype Td = Td(tag: nat, kind: nat, count: nat, value: Value)

  /** What a caller must provide: as many strings, or as much memory, as the count says,
      with a length that 32 bits can hold. */
  predicate TdOk(td: Td) {
    && td.tag < TAG_END && td.count < WORD
    && if IsString(td.kind) then
         td.value.Strings? && td.count <= |td.value.items| && 1 <= |td.value.items|
         && forall i, k :: 0 <= i < |td.value.items| && 0 <= k < |td.value.items[i]| ==> td.value.items[i][k] != 0
       else td.value.Raw? && Width(td.kind) * td.count <= |td.value.bytes| < WORD
  }

  function Terminated(items: seq<Bytes>): (r: Bytes) {
    if items == [] then [] else Terminated(items[..|items| - 1]) + items[|items| - 1] + [0]
  }

  /** Every string stands behind those before it, with a terminator. */
  lemma {:induction false} StringAt(items: seq<Bytes>, k: nat)
    requires k < |items|
    ensures var r, p := Terminated(items), |Terminated(items[..k])|;
            && p + |items[k]| < |r| && r[p..p + |items[k]|] == items[k] && r[p + |items[k]|] == 0
            && |Terminated(items[..0])| == 0 && |Terminated(items[..k + 1])| == p + |items[k]| + 1
    decreases |items|
  {
    var n := |items| - 1;
    var init := items[..n];
    if k < n {
      StringAt(init, k);
      assert init[..k] == items[..k] && init[..k + 1] == items[..k + 1] && init[..0] == items[..0];
    } else {
      assert items[..k + 1] == items;
    }
  }

  /** The bytes of a value, as dataLength measures and copyData copies them. */
  function TdBytes(td: Td): Option<Bytes>
    requires TdOk(td)
  {
    if td.kind == STRING_TYPE then
      if td.count != 1 then None else Some(Terminated(td.value.items[..1]))
    else if IsString(td.kind) then Some(Terminated(td.value.items[..td.count]))
    else if !TypeOk(td.kind) then Some([])
    else Some(td.value.bytes[..Width(td.kind) * td.count])
  }

  /** The copy loop of copyData. */
  method CopyStrings(items: seq<Bytes>, count: nat) returns (r: Bytes)
    requires count <= |items|
    ensures r == Terminated(items[..count])
  {
    r := [];
    var i := 0;
    while i < count
      invariant 0 <= i <= count && r == Terminated(items[..i])
    {
      assert items[..i + 1][..i] == items[..i];
      r := r + items[i] + [0];
      i := i + 1;
    }
  }

  /** A copy of the value, if there is any data (grabData). */
  method GrabData(td: Td) returns (r: Option<Bytes>)
    requires TdOk(td)
    ensures r == if TdBytes(td) == Some([]) then None else TdBytes(td)
  {
    if IsString(td.kind) {
      if td.kind == STRING_TYPE && td.count != 1 { return None; }
      var b := CopyStrings(td.value.items, if td.kind == STRING_TYPE then 1 else td.count);
      r := Some(b);
    } else {
      r := TdBytes(td);
    }
    if r == Some([]) { r := None; }
  }

  /** The data of an entry is where it says. */
  predicate DataIn(e: Entry, size: nat) {
    match e.data
    case Null => e.length == 0
    case InBlob(at) => at + e.length <= size
    case Own(bytes) => |bytes| == e.length
  }

  ghost predicate EntriesIn(s: seq<Entry>, size: nat) {
    forall e :: e in s ==> e.tag < TAG_END && DataIn(e, size)
  }

  function DataOf(e: Entry, blob: Bytes): (r: Bytes)
    requires DataIn(e, |blob|)
    ensures |r| == e.length
  {
    match e.data
    case Null => []
    case InBlob(at) => blob[at..at + e.length]
    case Own(bytes) => bytes
  }

  /** An entry for a value put into the header. */
  function Drip(td: Td, bytes: Bytes): Entry {
    Entry(td.tag, td.kind, 0, td.count, Own(bytes), |bytes|, 0)
  }

  /** What intAddEntry accepts. */
  predicate Addable(td: Td)
    requires TdOk(td)
  {
    && 0 < td.count <= DATA_MAX
    && TypeOk(td.kind)
    && (td.kind == BIN_TYPE || td.count <= ARRAY_MAX)
    && TdBytes(td).Some? && TdBytes(td).value != []
  }

  /** There are entries with the tag, all of the type asked for. */
  ghost predicate AllOf(s: seq<Entry>, tag: nat, kind: nat) {
    && (exists e :: e in s && e.tag == tag)
    && forall e :: e in s && e.tag == tag ==> kind == 0 || e.kind == kind
  }

  lemma AllOfSame(s: seq<Entry>, t: seq<Entry>, tag: nat, kind: nat)
    requires multiset(s) == multiset(t)
    ensures AllOf(s, tag, kind) <==> AllOf(t, tag, kind)
  {
    SamePlace(s, t);
  }

  /** The entry rewritten by headerMod: a region entry leaves its region. */
  function Modified(e: Entry, td: Td, bytes: Bytes): Entry {
    e.(count := td.count, kind := td.kind, data := Own(bytes), length := |bytes|, offset := if e.offset < 0 then 0 else e.offset)
  }

  function Appended(e: Entry, td: Td, bytes: Bytes, blob: Bytes): Entry
    requires DataIn(e, |blob|)
  {
    e.(count := (e.count + td.count) % WORD, data := Own(DataOf(e, blob) + bytes), length := e.length + |bytes|,
       offset := if e.offset < 0 then 0 else e.offset)
  }

  class Header {
    var blob: array<byte>
    var index: seq<Entry>
    var legacy: bool
    var sorted: bool

    /** What the sorted flag says is true. */
    ghost predicate Valid()
      reads this
    {
      && (sorted ==> ByTag(index))
      && EntriesIn(index, blob.Length)
    }

    /** headerNew */
    constructor ()
      ensures Valid() && index == [] && !legacy && fresh(blob)
    {
      blob := new byte[0];
      index := [];
      legacy, sorted := false, false;
    }

    /** hdrblobImport: the header takes the blob over. */
    constructor Loaded(b: array<byte>, entries: seq<Entry>, isLegacy: bool)
      requires EntriesIn(entries, b.Length)
      ensures Valid() && blob == b && index == entries && legacy == isLegacy && !sorted
    {
      blob, index, legacy, sorted := b, entries, isLegacy, false;
    }

    method HeaderSort()
      requires Valid()
      modifies this`index, this`sorted
      ensures Valid() && sorted && multiset(index) == multiset(old(index))
    {
      if !sorted {
        ghost var was := index;
        index := QSort(IndexCmp, index);
        SortedByTag(was, index);
        sorted := true;
        SamePlace(was, index);
      }
    }

    /** Any entry with the tag, and with the type unless that is 0; entries of other
        types are only passed over backwards. */
    method FindEntry(tag: nat, kind: nat) returns (r: int)
      requires Valid() && tag < TAG_END
      modifies this`index, this`sorted
      ensures Valid() && sorted && multiset(index) == multiset(old(index))
      ensures -1 <= r < |index| && (r >= 0 ==> index[r].tag == tag && (kind == 0 || index[r].kind == kind))
      ensures kind == 0 && r == -1 ==> forall e :: e in index ==> e.tag != tag
      ensures AllOf(index, tag, kind) ==> r >= 0
    {
      HeaderSort();
      r := BSearch(index, tag);
      assert r >= 0 ==> index[r] in index;
      if r == -1 || kind == 0 { return; }
      while index[r].tag == tag && index[r].kind != kind && r > 0
        invariant 0 <= r < |index|
        invariant index[r].tag == tag || (r + 1 < |index| && index[r + 1].tag == tag && index[r + 1].kind != kind)
        decreases r
      {
        r := r - 1;
      }
      if !(index[r].tag == tag && index[r].kind == kind) { r := -1; }
    }

    /** The first of the entries with the tag of entry r. */
    method FirstOf(r: nat) returns (first: nat)
      requires r < |index|
      ensures first <= r && forall i :: first <= i <= r ==> index[i].tag == index[r].tag
      ensures first > 0 ==> index[first - 1].tag != index[r].tag
    {
      first := r;
      while first > 0 && index[first - 1].tag == index[r].tag
        invariant first <= r && forall i :: first <= i <= r ==> index[i].tag == index[r].tag
      {
        first := first - 1;
      }
    }

    /** headerDel: all entries with the tag go, and no other. */
    method HeaderDel(tag: nat) returns (rc: nat, ghost gone: seq<Entry>)
      requires Valid() && tag < TAG_END
      modifies this`index, this`sorted
      ensures Valid() && multiset(index) + multiset(gone) == multiset(old(index))
      ensures (forall e :: e in gone ==> e.tag == tag) && (rc == 0 <==> gone != [])
      ensures forall e :: e in index ==> e.tag != tag
    {
      hide ByTag, EntriesIn;
      rc, gone := 1, [];
      var entry := FindEntry(tag, 0);
      SamePlace(index, old(index));
      if entry == -1 { return; }
      ghost var all := index;
      var first := FirstOf(entry);
      var last := entry;
      while last < |index| && index[last].tag == tag
        invariant entry <= last <= |index|
        invariant forall i :: first <= i < last ==> index[i].tag == tag
      {
        last := last + 1;
      }
      gone := index[first..last];
      index := index[..first] + index[last..];
      DelParts(all, first, last, tag);
      DelOrder(all, first, last, tag);
      DelRest(all, first, last, blob.Length);
      rc := 0;
    }

    /** headerMod: the first entry with the tag takes the new value and leaves its region. */
    method HeaderMod(td: Td) returns (ok: bool, ghost was: Entry, ghost now: Entry)
      requires Valid() && TdOk(td)
      modifies this`index, this`sorted
      ensures Valid()
      ensures !ok ==> multiset(index) == multiset(old(index))
      ensures ok ==> was in old(index) && was.tag == td.tag && TypeOk(td.kind)
      ensures ok ==> TdBytes(td).Some? && TdBytes(td).value != [] && now == Modified(was, td, TdBytes(td).value)
      ensures ok ==> multiset(index) == multiset(old(index)) - multiset{was} + multiset{now}
      ensures AllOf(old(index), td.tag, td.kind) && TdBytes(td).Some? && TdBytes(td).value != [] ==> ok
    {
      ok := false;
      was := Drip(td, []);
      now := was;
      var entry := FindEntry(td.tag, td.kind);
      AllOfSame(index, old(index), td.tag, td.kind);
      if entry == -1 { return; }
      var data := GrabData(td);
      if data.None? { return; }
      var first := FirstOf(entry);
      was := index[first];
      now := Modified(was, td, data.value);
      SamePlace(index, old(index));
      Replace(index, first, now);
      index := index[first := Modified(index[first], td, data.value)];
      ok := true;
    }

    method IntAddEntry(td: Td) returns (ok: bool)
      requires Valid() && TdOk(td)
      modifies this`index, this`sorted
      ensures Valid() && (ok <==> Addable(td))
      ensures index == if ok then old(index) + [Drip(td, TdBytes(td).value)] else old(index)
    {
      ok := false;
      if td.count == 0 { return; }
      if !TypeOk(td.kind) { return; }
      if td.count > DATA_MAX { return; }
      if td.kind != BIN_TYPE && td.count > ARRAY_MAX { return; }
      var data := GrabData(td);
      if data.None? { return; }
      if |index| > 0 && td.tag < index[|index| - 1].tag { sorted := false; }
      var e := Entry(td.tag, td.kind, 0, td.count, Own(data.value), |data.value|, 0);
      index := index + [e];
      ok := true;
    }

    /** headerPut */
    method HeaderPut(td: Td, append: bool) returns (ok: bool, appended: bool, ghost was: Entry, ghost now: Entry)
      requires Valid() && TdOk(td)
      modifies this`index, this`sorted
      ensures Valid() && (appended ==> append)
      ensures !ok ==> multiset(index) == multiset(old(index))
      ensures ok && appended ==> was in old(index) && was.tag == td.tag && DataIn(was, blob.Length) && (td.kind == 0 || was.kind == td.kind)
      ensures ok && appended ==> TdBytes(td).Some? && now == Appended(was, td, TdBytes(td).value, blob[..])
      ensures ok && appended ==> multiset(index) == multiset(old(index)) - multiset{was} + multiset{now}
      ensures !appended ==> (ok <==> Addable(td))
      ensures ok && !appended ==> multiset(index) == multiset(old(index)) + multiset{Drip(td, TdBytes(td).value)}
      ensures AllOf(old(index), td.tag, td.kind) ==> appended == append && (append ==> (ok <==> td.kind != STRING_TYPE && td.kind != 9))
    {
      appended := false;
      was := Drip(td, []);
      now := was;
      var found := -1;
      if append { found := FindEntry(td.tag, td.kind); }
      AllOfSame(index, old(index), td.tag, td.kind);
      if found >= 0 {
        appended := true;
        SamePlace(index, old(index));
        ok, was, now := IntAppendEntry(td);
      } else {
        ok := IntAddEntry(td);
      }
    }

    method IntAppendEntry(td: Td) returns (ok: bool, ghost was: Entry, ghost now: Entry)
      requires Valid() && TdOk(td)
      modifies this`index, this`sorted
      ensures Valid()
      ensures !ok ==> multiset(index) == multiset(old(index))
      ensures ok ==> was in old(index) && was.tag == td.tag && DataIn(was, blob.Length) && (td.kind == 0 || was.kind == td.kind)
      ensures ok ==> TdBytes(td).Some? && now == Appended(was, td, TdBytes(td).value, blob[..])
      ensures ok ==> multiset(index) == multiset(old(index)) - multiset{was} + multiset{now}
      ensures ok ==> td.kind != STRING_TYPE && td.kind != 9
      ensures AllOf(old(index), td.tag, td.kind) && td.kind != STRING_TYPE && td.kind != 9 ==> ok
    {
      ok := false;
      was := Drip(td, []);
      now := was;
      if td.kind == STRING_TYPE || td.kind == 9 { return; }
      var entry := FindEntry(td.tag, td.kind);
      AllOfSame(index, old(index), td.tag, td.kind);
      if entry == -1 { return; }
      var bytes := TdBytes(td).value;
      SamePlace(index, old(index));
      assert index[entry] in index;
      was := index[entry];
      now := Appended(was, td, bytes, blob[..]);
      Replace(index, entry, now);
      index := index[entry := Appended(index[entry], td, bytes, blob[..])];
      ok := true;
    }
  }

  method BSearch(s: seq<Entry>, tag: nat) returns (r: int)
    requires tag < TAG_END && SmallTags(s) && ByTag(s)
    ensures -1 <= r < |s| && (r >= 0 ==> s[r].tag == tag)
    ensures r == -1 ==> forall e :: e in s ==> e.tag != tag
  {
    var l, u := 0, |s|;
    while l < u
      invariant 0 <= l <= u <= |s|
      invariant forall i :: 0 <= i < |s| && (i < l || i >= u) ==> s[i].tag != tag
    {
      var m := (l + u) / 2;
      assert s[m] in s;
      SmallDiff(tag, s[m].tag);
      var c := Signed((tag - s[m].tag) % WORD);
      if c < 0 { u := m; } else if c > 0 { l := m + 1; } else { return m; }
    }
    return -1;
  }

  lemma DelParts(s: seq<Entry>, first: nat, last: nat, tag: nat)
    requires first < last <= |s| && forall i :: first <= i < last ==> s[i].tag == tag
    ensures multiset(s[..first] + s[last..]) + multiset(s[first..last]) == multiset(s)
    ensures forall e :: e in s[first..last] ==> e.tag == tag
  {
    assert s == s[..first] + s[first..last] + s[last..];
  }

  lemma DelOrder(s: seq<Entry>, first: nat, last: nat, tag: nat)
    requires first < last <= |s| && s[first].tag == tag
    requires (first > 0 ==> s[first - 1].tag != tag) && (last < |s| ==> s[last].tag != tag)
    ensures ByTag(s) ==> ByTag(s[..first] + s[last..])
    ensures ByTag(s) ==> forall e :: e in s[..first] + s[last..] ==> e.tag != tag
  {
    if ByTag(s) {
      DelByTag(s, first, last);
      forall i | 0 <= i < first ensures s[i].tag != tag { assert s[i].tag <= s[first - 1].tag <= s[first].tag; }
      forall i | last <= i < |s| ensures s[i].tag != tag { assert s[first].tag <= s[last].tag <= s[i].tag; }
      forall e | e in s[..first] + s[last..] ensures e.tag != tag { assert e in s[..first] || e in s[last..]; }
    }
  }

  lemma DelByTag(s: seq<Entry>, first: nat, last: nat)
    requires first <= last <= |s| && ByTag(s)
    ensures ByTag(s[..first] + s[last..])
  {
    var r, n := s[..first] + s[last..], last - first;
    forall i, j | 0 <= i < j < |r| ensures r[i].tag <= r[j].tag {
      assert r[i] == s[if i < first then i else i + n] && r[j] == s[if j < first then j else j + n];
    }
  }

  lemma DelRest(s: seq<Entry>, first: nat, last: nat, size: nat)
    requires first < last <= |s|
    ensures EntriesIn(s, size) ==> EntriesIn(s[..first] + s[last..], size)
  {
    assert forall e :: e in s[..first] + s[last..] ==> e in s;
  }

  lemma SortedByTag(s: seq<Entry>, r: seq<Entry>)
    requires multiset(r) == multiset(s) && (Consistent(IndexCmp, s) ==> OrderedBy(IndexCmp, r))
    requires SmallTags(s)
    ensures ByTag(r)
  {
    hide Consistent, IndexCmp;
    SamePlace(r, s);
    TagsConsistent(s);
    forall i, j | 0 <= i < j < |r| ensures r[i].tag <= r[j].tag {
      assert r[i] in r && r[j] in r && IndexCmp(r[i], r[j]) <= 0;
    }
  }

  lemma Replace(s: seq<Entry>, i: nat, e: Entry)
    requires i < |s|
    ensures multiset(s[i := e]) == multiset(s) - multiset{s[i]} + multiset{e}
    ensures e.tag == s[i].tag && ByTag(s) ==> ByTag(s[i := e])
  {
  }
}
