/** Sums over the keys of a collection and over the elements of a list.
    A document collection is a map from id to record, so an aggregate such as
    a budget total is a sum over a set of keys; a fetched list is summed left
    to right, as the client's loops do. */
module Sums {

  /** The sum of `f` over the finite set `ks`, in no particular order. */
  ghost function SumSet<K>(ks: set<K>, f: K -> int): int
    decreases ks
  {
    if ks == {} then 0 else var k :| k in ks; f(k) + SumSet(ks - {k}, f)
  }

  /** Any element can be taken out first: the sum does not depend on the order. */
  lemma {:induction false} SumSetRemove<K>(ks: set<K>, f: K -> int, k: K)
    requires k in ks
    ensures SumSet(ks, f) == f(k) + SumSet(ks - {k}, f)
    decreases ks
  {
    var j :| j in ks && SumSet(ks, f) == f(j) + SumSet(ks - {j}, f);
    if j != k {
      SumSetRemove(ks - {j}, f, k);
      SumSetRemove(ks - {k}, f, j);
      assert ks - {j} - {k} == ks - {k} - {j};
    }
  }

  /** Adding one new element adds its value. */
  lemma SumSetInsert<K>(ks: set<K>, f: K -> int, k: K)
    requires k !in ks
    ensures SumSet(ks + {k}, f) == SumSet(ks, f) + f(k)
  {
    SumSetRemove(ks + {k}, f, k);
    assert ks + {k} - {k} == ks;
  }

  /** Two summands that agree on the set have the same sum. */
  lemma {:induction false} SumSetExt<K>(ks: set<K>, f: K -> int, g: K -> int)
    requires forall k :: k in ks ==> f(k) == g(k)
    ensures SumSet(ks, f) == SumSet(ks, g)
    decreases ks
  {
    if ks != {} {
      var k :| k in ks;
      SumSetRemove(ks, f, k);
      SumSetRemove(ks, g, k);
      SumSetExt(ks - {k}, f, g);
    }
  }

  /** A summand that is zero on the whole set sums to zero. */
  lemma {:induction false} SumSetZero<K>(ks: set<K>, f: K -> int)
    requires forall k :: k in ks ==> f(k) == 0
    ensures SumSet(ks, f) == 0
    decreases ks
  {
    if ks != {} {
      var k :| k in ks;
      SumSetRemove(ks, f, k);
      SumSetZero(ks - {k}, f);
    }
  }

  /** The sum of a pointwise sum is the sum of the sums. */
  lemma {:induction false} SumSetAdd<K>(ks: set<K>, f: K -> int, g: K -> int, h: K -> int)
    requires forall k :: k in ks ==> h(k) == f(k) + g(k)
    ensures SumSet(ks, h) == SumSet(ks, f) + SumSet(ks, g)
    decreases ks
  {
    if ks != {} {
      var k :| k in ks;
      SumSetRemove(ks, f, k);
      SumSetRemove(ks, g, k);
      SumSetRemove(ks, h, k);
      SumSetAdd(ks - {k}, f, g, h);
    }
  }

  /** Summing over a disjoint union is summing over each part. */
  lemma {:induction false} SumSetUnion<K>(a: set<K>, b: set<K>, f: K -> int)
    requires a !! b
    ensures SumSet(a + b, f) == SumSet(a, f) + SumSet(b, f)
    decreases b
  {
    if b != {} {
      var k :| k in b;
      SumSetRemove(b, f, k);
      SumSetRemove(a + b, f, k);
      assert a + b - {k} == a + (b - {k});
      SumSetUnion(a, b - {k}, f);
      calc {
        SumSet(a + b, f);
        f(k) + SumSet(a + b - {k}, f);
        f(k) + SumSet(a + (b - {k}), f);
        f(k) + SumSet(a, f) + SumSet(b - {k}, f);
        SumSet(a, f) + SumSet(b, f);
      }
    } else {
      assert a + b == a;
    }
  }

  /** Elements on which the summand is zero can be dropped. */
  lemma SumSetRestrict<K>(ks: set<K>, sub: set<K>, f: K -> int)
    requires sub <= ks
    requires forall k :: k in ks && k !in sub ==> f(k) == 0
    ensures SumSet(ks, f) == SumSet(sub, f)
  {
    assert ks == sub + (ks - sub);
    SumSetUnion(sub, ks - sub, f);
    SumSetZero(ks - sub, f);
  }

  // ---------------------------------------------------------------------
  // Lists

  /** The sum of `f` over a list, accumulated from the left. */
  function SumSeq<T>(s: seq<T>, f: T -> int): int
  {
    if s == [] then 0 else SumSeq(s[..|s| - 1], f) + f(s[|s| - 1])
  }

  lemma SumSeqSnoc<T>(s: seq<T>, x: T, f: T -> int)
    ensures SumSeq(s + [x], f) == SumSeq(s, f) + f(x)
  {
    assert (s + [x])[..|s|] == s;
  }

  lemma {:induction false} SumSeqAppend<T>(a: seq<T>, b: seq<T>, f: T -> int)
    ensures SumSeq(a + b, f) == SumSeq(a, f) + SumSeq(b, f)
    decreases |b|
  {
    if b != [] {
      var b', x := b[..|b| - 1], b[|b| - 1];
      assert a + b == (a + b') + [x];
      SumSeqSnoc(a + b', x, f);
      SumSeqAppend(a, b', f);
      assert b == b' + [x];
      SumSeqSnoc(b', x, f);
    } else {
      assert a + b == a;
    }
  }

  /** A list whose elements all contribute zero sums to zero. */
  lemma {:induction false} SumSeqZero<T>(s: seq<T>, f: T -> int)
    requires forall i :: 0 <= i < |s| ==> f(s[i]) == 0
    ensures SumSeq(s, f) == 0
    decreases |s|
  {
    if s != [] {
      SumSeqZero(s[..|s| - 1], f);
    }
  }

  lemma {:induction false} SumSeqExt<T>(s: seq<T>, f: T -> int, g: T -> int)
    requires forall i :: 0 <= i < |s| ==> f(s[i]) == g(s[i])
    ensures SumSeq(s, f) == SumSeq(s, g)
    decreases |s|
  {
    if s != [] {
      SumSeqExt(s[..|s| - 1], f, g);
    }
  }

  /** Summing a list through a relabelling gives the same total: when the
      `i`-th label's value under `g` is the `i`-th element's value under `f`. */
  lemma {:induction false} SumSeqRelabel<T, U>(s: seq<T>, f: T -> int, labels: seq<U>, g: U -> int)
    requires |labels| == |s|
    requires forall i :: 0 <= i < |s| ==> g(labels[i]) == f(s[i])
    ensures SumSeq(s, f) == SumSeq(labels, g)
    decreases |s|
  {
    if s != [] {
      SumSeqRelabel(s[..|s| - 1], f, labels[..|s| - 1], g);
    }
  }

  function Elems<T(==)>(s: seq<T>): set<T> {
    set x | x in s
  }

  predicate Distinct<T(==)>(s: seq<T>) {
    forall i, j :: 0 <= i < j < |s| ==> s[i] != s[j]
  }

  /** A list of distinct keys sums the same as the set of those keys. */
  lemma {:induction false} SumSeqOfDistinct<K>(s: seq<K>, f: K -> int)
    requires Distinct(s)
    ensures SumSeq(s, f) == SumSet(Elems(s), f)
    decreases |s|
  {
    if s != [] {
      var init := s[..|s| - 1];
      var last := s[|s| - 1];
      SumSeqOfDistinct(init, f);
      assert Elems(s) == Elems(init) + {last};
      assert last !in init;
      SumSetInsert(Elems(init), f, last);
    }
  }
}
