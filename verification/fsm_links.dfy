/** Which unpacked files are links to one another (fsmMkfile, lib/fsm.cc:198-238, 940-1057). */
module FsmLinks {
  import opened Common
  import opened FsmNames
  import opened FsmCommit

  /** The first file of the hardlink set being unpacked, -1 if there is none, and for every
      unpacked file the one it is a link to. */
  datatype LinkState = LinkState(first: int, lead: map<nat, nat>)

  /** A regular file: new, or a link to the first of its set; content ends a set. */
  function FileStep(items: seq<Item>, st: LinkState, fx: nat, hasContent: bool): LinkState
    requires fx < |items|
  {
    LinkState(if hasContent then -1 else if st.first == -1 then (if items[fx].linked then fx else -1) else st.first,
              if st.first == fx then st.lead else st.lead[fx := if st.first >= 0 then st.first else fx])
  }

  /** One entry of the payload. If the entry with the content is skipped, the first file gets it. */
  function LinkStep(items: seq<Item>, st: LinkState, fx: nat): LinkState
    requires fx < |items| && -1 <= st.first < |items|
  {
    var it := items[fx];
    if !Acting(it) then (if st.first >= 0 && it.hasContent then FileStep(items, st, st.first, true) else st)
    else if !Tempered(it) then st
    else if it.kind == Regular then FileStep(items, st, fx, it.hasContent)
    else st.(lead := st.lead[fx := fx])
  }

  function LinkRun(items: seq<Item>, order: seq<nat>, k: nat): (st: LinkState)
    requires k <= |order| && forall i :: 0 <= i < |order| ==> order[i] < |items|
    ensures -1 <= st.first < |items|
  {
    if k == 0 then LinkState(-1, map[]) else LinkStep(items, LinkRun(items, order, k - 1), order[k - 1])
  }

  /** The inode under the temporary name of a file, -1 if there is none. */
  ghost function Inode(items: seq<Item>, tid: string, n: Names, x: nat): int {
    if x < |items| && TempName(items[x], tid) in n then n[TempName(items[x], tid)] else -1
  }

  ghost predicate LinkTo(items: seq<Item>, tid: string, n: Names, lead: map<nat, nat>, x: nat) {
    && x in lead && x < |items| && Tempered(items[x]) && lead[x] in lead && lead[lead[x]] == lead[x]
    && Inode(items, tid, n, x) == Inode(items, tid, n, lead[x]) >= 0
  }

  /** The temporary names are those of the files in lead, and two of them are links to one inode
      exactly if they have the same leader. */
  ghost predicate Linkage(items: seq<Item>, tid: string, n: Names, st: LinkState) {
    && (st.first >= 0 ==> st.first in st.lead && st.lead[st.first] == st.first)
    && (forall x {:trigger LinkTo(items, tid, n, st.lead, x)} :: x in st.lead ==> LinkTo(items, tid, n, st.lead, x))
    && (forall x, y {:trigger Inode(items, tid, n, x), Inode(items, tid, n, y)} ::
          x in st.lead && y in st.lead && Inode(items, tid, n, x) == Inode(items, tid, n, y) ==> st.lead[x] == st.lead[y])
    && (forall i {:trigger Tempered(items[i])} :: 0 <= i < |items| && Tempered(items[i]) && Inode(items, tid, n, i) >= 0 ==> i in st.lead)
  }

  lemma LinkStart(items: seq<Item>, tid: string, n0: Names, next0: nat)
    requires Fresh(items, tid, n0, next0)
    ensures Linkage(items, tid, n0, LinkState(-1, map[]))
  {
  }

  lemma TempDiffers(items: seq<Item>, tid: string, n0: Names, next0: nat, i: nat, j: nat)
    requires Fresh(items, tid, n0, next0) && i < |items| && j < |items| && i != j
    ensures TempName(items[i], tid) != TempName(items[j], tid)
  {
    TempApart(items[i].path, items[j].path, tid, Create);
    assert items[i].path != items[j].path;
  }

  lemma InodePut(items: seq<Item>, tid: string, n0: Names, next0: nat, n: Names, x: nat, v: nat, y: nat)
    requires Fresh(items, tid, n0, next0) && x < |items| && y < |items|
    ensures Inode(items, tid, n[TempName(items[x], tid) := v], y) == if y == x then v else Inode(items, tid, n, y)
  {
    if y != x { TempDiffers(items, tid, n0, next0, x, y); }
  }

  lemma NotYet(items: seq<Item>, tid: string, n: Names, st: LinkState, x: nat)
    requires Linkage(items, tid, n, st) && x < |items| && TempName(items[x], tid) !in n
    ensures x !in st.lead
  {
    assert Inode(items, tid, n, x) == -1;
    assert x in st.lead ==> LinkTo(items, tid, n, st.lead, x);
  }

  lemma InodeBelow(items: seq<Item>, tid: string, n: Names, ino: nat, x: nat)
    requires forall p :: p in n ==> n[p] < ino
    ensures Inode(items, tid, n, x) < ino
  {
  }

  /** A new file leads itself. */
  lemma LinkNew(items: seq<Item>, tid: string, n0: Names, next0: nat, n: Names, st: LinkState, x: nat, ino: nat)
    requires Fresh(items, tid, n0, next0) && Linkage(items, tid, n, st) && x < |items| && Tempered(items[x])
    requires TempName(items[x], tid) !in n && forall p :: p in n ==> n[p] < ino
    ensures Linkage(items, tid, n[TempName(items[x], tid) := ino], st.(lead := st.lead[x := x]))
  {
    hide Fresh, Inode;
    NotYet(items, tid, n, st, x);
    var n', lead := n[TempName(items[x], tid) := ino], st.lead[x := x];
    forall y | 0 <= y < |items| ensures Inode(items, tid, n', y) == if y == x then ino else Inode(items, tid, n, y) {
      InodePut(items, tid, n0, next0, n, x, ino, y);
    }
    forall y: nat ensures Inode(items, tid, n, y) < ino { InodeBelow(items, tid, n, ino, y); }
    hide TempName;
    forall y | y in lead ensures LinkTo(items, tid, n', lead, y) {
      if y != x {
        assert LinkTo(items, tid, n, st.lead, y);
        assert LinkTo(items, tid, n, st.lead, st.lead[y]);
      }
    }
    forall y, z | y in lead && z in lead && Inode(items, tid, n', y) == Inode(items, tid, n', z) ensures lead[y] == lead[z] {
      assert LinkTo(items, tid, n', lead, y) && LinkTo(items, tid, n', lead, z);
    }
  }

  /** A link to the first of the set follows it. */
  lemma LinkMore(items: seq<Item>, tid: string, n0: Names, next0: nat, n: Names, st: LinkState, x: nat)
    requires Fresh(items, tid, n0, next0) && Linkage(items, tid, n, st) && x < |items| && Tempered(items[x])
    requires 0 <= st.first < |items| && TempName(items[x], tid) !in n
    ensures TempName(items[st.first], tid) in n
    ensures Linkage(items, tid, n[TempName(items[x], tid) := n[TempName(items[st.first], tid)]], st.(lead := st.lead[x := st.first]))
  {
    var f := st.first;
    FirstThere(items, tid, n, st);
    hide Fresh, Inode;
    NotYet(items, tid, n, st, x);
    var ino := n[TempName(items[f], tid)];
    var n', lead := n[TempName(items[x], tid) := ino], st.lead[x := f];
    forall y | 0 <= y < |items| ensures Inode(items, tid, n', y) == if y == x then ino else Inode(items, tid, n, y) {
      InodePut(items, tid, n0, next0, n, x, ino, y);
    }
    hide TempName;
    forall y | y in lead ensures LinkTo(items, tid, n', lead, y) {
      if y != x {
        assert LinkTo(items, tid, n, st.lead, y);
        assert LinkTo(items, tid, n, st.lead, st.lead[y]);
      }
    }
    forall y, z | y in lead && z in lead && Inode(items, tid, n', y) == Inode(items, tid, n', z) ensures lead[y] == lead[z] {
      assert LinkTo(items, tid, n', lead, y) && LinkTo(items, tid, n', lead, z);
      var y', z' := if y == x then f else y, if z == x then f else z;
      assert Inode(items, tid, n, y') == Inode(items, tid, n, z');
    }
  }

  lemma FirstThere(items: seq<Item>, tid: string, n: Names, st: LinkState)
    requires Linkage(items, tid, n, st) && 0 <= st.first < |items|
    ensures TempName(items[st.first], tid) in n && Inode(items, tid, n, st.first) == n[TempName(items[st.first], tid)]
    ensures LinkTo(items, tid, n, st.lead, st.first)
  {
    assert LinkTo(items, tid, n, st.lead, st.first);
  }

  /** Other names do not matter. */
  lemma LinkSame(items: seq<Item>, tid: string, n: Names, n': Names, st: LinkState)
    requires Linkage(items, tid, n, st) && forall p :: IsTemp(items, tid, p) ==> SameAt(n, n', p)
    ensures Linkage(items, tid, n', st)
  {
    forall x: nat | x < |items| && Tempered(items[x]) ensures Inode(items, tid, n, x) == Inode(items, tid, n', x) {
      assert IsTemp(items, tid, TempName(items[x], tid));
    }
    hide Inode, IsTemp;
    forall x | x in st.lead ensures LinkTo(items, tid, n', st.lead, x) {
      assert LinkTo(items, tid, n, st.lead, x) && LinkTo(items, tid, n, st.lead, st.lead[x]);
    }
    forall x, y | x in st.lead && y in st.lead && Inode(items, tid, n', x) == Inode(items, tid, n', y) ensures st.lead[x] == st.lead[y] {
      assert LinkTo(items, tid, n, st.lead, x) && LinkTo(items, tid, n, st.lead, y);
      assert Inode(items, tid, n, x) == Inode(items, tid, n, y);
    }
  }

  /* ---- What that means for hardlink sets ---- */

  /** Exactly the files with temporary names that the payload has brought. */
  lemma {:induction false} LeadDomain(items: seq<Item>, order: seq<nat>, k: nat, x: nat)
    requires k <= |order| && (forall i :: 0 <= i < |order| ==> order[i] < |items|) && x < |items|
    ensures x in LinkRun(items, order, k).lead <==> Tempered(items[x]) && x in order[..k]
    ensures var st := LinkRun(items, order, k); st.first >= 0 ==> st.first in st.lead
    decreases k
  {
    if k > 0 {
      LeadDomain(items, order, k - 1, x);
      assert order[..k] == order[..k - 1] + [order[k - 1]];
      FirstLeads(items, order, k - 1);
      FirstLeads(items, order, k);
    }
  }

  lemma {:induction false} FirstLeads(items: seq<Item>, order: seq<nat>, k: nat)
    requires k <= |order| && forall i :: 0 <= i < |order| ==> order[i] < |items|
    ensures var st := LinkRun(items, order, k); st.first >= 0 ==> st.first in st.lead && st.lead[st.first] == st.first
    decreases k
  {
    if k > 0 { FirstLeads(items, order, k - 1); }
  }

  /** Regular files with temporary names, or entries that are skipped. */
  predicate SetMember(it: Item) { !Acting(it) || (Tempered(it) && it.kind == Regular) }

  /** The entries of a hardlink set follow each other; only the last one brings the content. */
  ghost predicate SetAt(items: seq<Item>, order: seq<nat>, a: nat, b: nat) {
    && a <= b < |order| && (forall i :: 0 <= i < |order| ==> order[i] < |items|)
    && Acting(items[order[a]]) && items[order[a]].linked
    && (forall i {:trigger order[i]} :: a <= i <= b ==> SetMember(items[order[i]]))
    && (forall i {:trigger order[i]} :: a <= i < b ==> !items[order[i]].hasContent)
    && (forall i, j :: a <= i < j <= b ==> order[i] != order[j])
  }

  /** Within a set that starts at a, every file is a link to the first one. */
  lemma {:induction false} SetLeads(items: seq<Item>, order: seq<nat>, a: nat, b: nat, k: nat)
    requires SetAt(items, order, a, b) && LinkRun(items, order, a).first == -1 && a < k <= b + 1
    ensures var st := LinkRun(items, order, k);
            && (forall i {:trigger order[i]} :: a <= i < k && Acting(items[order[i]]) ==> order[i] in st.lead && st.lead[order[i]] == order[a])
            && (k <= b ==> st.first == order[a])
            && (k == b + 1 && items[order[b]].hasContent ==> st.first == -1)
    decreases k
  {
    if k > a + 1 {
      SetLeads(items, order, a, b, k - 1);
      assert order[k - 1] != order[a];
    }
    assert SetMember(items[order[k - 1]]);
  }

  /** Later entries leave the leaders of a set alone. */
  lemma {:induction false} LeadStays(items: seq<Item>, order: seq<nat>, k: nat, m: nat, x: nat)
    requires k <= m <= |order| && (forall i :: 0 <= i < |order| ==> order[i] < |items|) && x in LinkRun(items, order, k).lead
    requires forall i :: k <= i < m ==> order[i] != x
    ensures x in LinkRun(items, order, m).lead && LinkRun(items, order, m).lead[x] == LinkRun(items, order, k).lead[x]
    decreases m
  {
    if k < m {
      LeadStays(items, order, k, m - 1, x);
      FirstLeads(items, order, m - 1);
    }
  }

  /** A file that is not linked, or no regular file, is a link to nothing but itself. */
  lemma SingleLeads(items: seq<Item>, order: seq<nat>, k: nat)
    requires k < |order| && (forall i :: 0 <= i < |order| ==> order[i] < |items|) && Tempered(items[order[k]])
    requires LinkRun(items, order, k).first == -1 || items[order[k]].kind != Regular
    ensures var st := LinkRun(items, order, k + 1); order[k] in st.lead && st.lead[order[k]] == order[k]
    ensures !items[order[k]].linked || items[order[k]].kind != Regular ==> LinkRun(items, order, k + 1).first == LinkRun(items, order, k).first
  {
  }

  /** Only regular files that are marked as hardlinks have others linked to them. */
  lemma {:induction false} LeadersLinked(items: seq<Item>, order: seq<nat>, k: nat, y: nat)
    requires k <= |order| && (forall i :: 0 <= i < |order| ==> order[i] < |items|)
    ensures var st := LinkRun(items, order, k);
            && (st.first >= 0 ==> items[st.first].linked && items[st.first].kind == Regular)
            && (y in st.lead && st.lead[y] != y ==> st.lead[y] < |items| && items[st.lead[y]].linked && items[st.lead[y]].kind == Regular)
    decreases k
  {
    if k > 0 { LeadersLinked(items, order, k - 1, y); }
  }

  /** After the whole payload all files of a hardlink set have the inode of its first file. */
  lemma SetShares(items: seq<Item>, tid: string, order: seq<nat>, u: Names, a: nat, b: nat, i: nat)
    requires SetAt(items, order, a, b) && LinkRun(items, order, a).first == -1 && a <= i <= b && Acting(items[order[i]])
    requires (forall j, k :: 0 <= j < k < |order| ==> order[j] != order[k]) && Linkage(items, tid, u, LinkRun(items, order, |order|))
    ensures Inode(items, tid, u, order[i]) == Inode(items, tid, u, order[a]) >= 0
  {
    hide LinkRun, Inode;
    SetLeads(items, order, a, b, b + 1);
    LeadStays(items, order, b + 1, |order|, order[i]);
    assert LinkTo(items, tid, u, LinkRun(items, order, |order|).lead, order[i]);
  }

  /** And a file that is no hardlink has an inode nobody shares. */
  lemma Alone(items: seq<Item>, tid: string, order: seq<nat>, u: Names, k: nat, y: nat)
    requires k < |order| && (forall i :: 0 <= i < |order| ==> order[i] < |items|) && Tempered(items[order[k]])
    requires items[order[k]].kind != Regular || (!items[order[k]].linked && LinkRun(items, order, k).first == -1)
    requires (forall i, j :: 0 <= i < j < |order| ==> order[i] != order[j]) && Linkage(items, tid, u, LinkRun(items, order, |order|))
    requires y < |items| && y != order[k] && Tempered(items[y])
    ensures 0 <= Inode(items, tid, u, order[k]) != Inode(items, tid, u, y)
  {
    var x, st := order[k], LinkRun(items, order, |order|);
    SingleLeads(items, order, k);
    LeadStays(items, order, k + 1, |order|, x);
    LeadersLinked(items, order, |order|, y);
    hide LinkRun;
    assert LinkTo(items, tid, u, st.lead, x);
  }
}
