/** Shared by all components: optional values, bytes, slices and qsort. */
module Common {

  datatype Option<T> = None | Some(value: T)

  type byte = x: int | 0 <= x < 256
  type Bytes = seq<byte>

  function Zeros(n: nat): (r: Bytes)
    ensures |r| == n
  {
    seq(n, _ => 0)
  }

  /** A slice of a slice. */
  lemma SubSlice<T>(s: seq<T>, a: nat, b: nat, i: nat, j: nat)
    requires a <= b <= |s| && i <= j <= b - a
    ensures s[a..b][i..j] == s[a + i..a + j]
  {
    var x, y := s[a + i..a + j], s[a..b][i..j];
    assert |x| == |y|;
    forall k | 0 <= k < |x| ensures x[k] == y[k] {
      assert y[k] == s[a..b][i + k] == s[a + (i + k)];
    }
  }

  lemma SamePlace<T>(s: seq<T>, t: seq<T>)
    requires multiset(s) == multiset(t)
    ensures |s| == |t| && forall e :: e in s <==> e in t
  {
    assert |s| == |multiset(s)| && |t| == |multiset(t)|;
    forall e ensures e in s <==> e in t { assert e in multiset(s) <==> e in multiset(t); }
  }

  /* ---- qsort ---- */

  type Cmp<!T> = (T, T) -> int

  /** Whether the comparison is an order on what is sorted; qsort promises nothing otherwise. */
  ghost predicate Consistent<T>(cmp: Cmp<T>, s: seq<T>) {
    && (forall a, b :: a in s && b in s ==> cmp(a, b) <= 0 || cmp(b, a) <= 0)
    && (forall a, b, c :: a in s && b in s && c in s && cmp(a, b) <= 0 && cmp(b, c) <= 0 ==> cmp(a, c) <= 0)
  }

  ghost predicate OrderedBy<T>(cmp: Cmp<T>, s: seq<T>) {
    forall i, j :: 0 <= i < j < |s| ==> cmp(s[i], s[j]) <= 0
  }

  method Place<T>(cmp: Cmp<T>, s: seq<T>, x: T, ghost all: seq<T>) returns (r: seq<T>)
    requires x in all && forall e :: e in s ==> e in all
    ensures multiset(r) == multiset(s) + multiset{x}
    ensures Consistent(cmp, all) && OrderedBy(cmp, s) ==> OrderedBy(cmp, r)
  {
    var k := 0;
    while k < |s| && cmp(s[k], x) <= 0
      invariant 0 <= k <= |s| && forall i :: 0 <= i < k ==> cmp(s[i], x) <= 0
    {
      k := k + 1;
    }
    r := s[..k] + [x] + s[k..];
    assert multiset(r) == multiset(s[..k] + s[k..]) + multiset{x} && s[..k] + s[k..] == s;
    if Consistent(cmp, all) && OrderedBy(cmp, s) {
      forall i, j | 0 <= i < j < |r| ensures cmp(r[i], r[j]) <= 0 {
        PlaceOrder(cmp, s, x, all, k, i, j);
      }
    }
  }

  lemma PlaceOrder<T>(cmp: Cmp<T>, s: seq<T>, x: T, all: seq<T>, k: nat, i: nat, j: nat)
    requires x in all && (forall e :: e in s ==> e in all) && Consistent(cmp, all) && OrderedBy(cmp, s)
    requires k <= |s| && i < j <= |s| && (forall m :: 0 <= m < k ==> cmp(s[m], x) <= 0) && (k < |s| ==> cmp(s[k], x) > 0)
    ensures var r := s[..k] + [x] + s[k..]; cmp(r[i], r[j]) <= 0
  {
    if k < |s| && j > k {
      assert s[k] in s && s[j - 1] in s;
      assert cmp(x, s[k]) <= 0;
      assert j - 1 > k ==> cmp(s[k], s[j - 1]) <= 0;
    }
  }

  method QSort<T>(cmp: Cmp<T>, s: seq<T>) returns (r: seq<T>)
    ensures multiset(r) == multiset(s)
    ensures Consistent(cmp, s) ==> OrderedBy(cmp, r)
  {
    hide Consistent, OrderedBy;
    r := [];
    assert OrderedBy(cmp, r) by { NoneOrdered(cmp); }
    var i := 0;
    while i < |s|
      invariant 0 <= i <= |s| && multiset(r) == multiset(s[..i])
      invariant Consistent(cmp, s) ==> OrderedBy(cmp, r)
    {
      assert s[..i + 1] == s[..i] + [s[i]];
      forall e | e in r ensures e in s { assert e in multiset(r); }
      r := Place(cmp, r, s[i], s);
      i := i + 1;
    }
    assert s[..i] == s;
  }

  lemma NoneOrdered<T>(cmp: Cmp<T>)
    ensures OrderedBy(cmp, [])
  {
  }
}
