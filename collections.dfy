/** A document collection is a map from id to document. `Find` with a filter
    and a sort returns the matching documents ordered by the sort key;
    documents that tie on the key come back in no promised order. */
module Collections {
  import opened Records
  import opened Sums
  import opened Sorting

  /** The ids of the documents the filter keeps. */
  ghost function Matching<V>(m: map<Id, V>, keep: V -> bool): set<Id> {
    set k | k in m && keep(m[k])
  }

  /** A list whose multiset of elements is a set has no repeats and holds
      exactly that set. */
  lemma {:induction false} DistinctOfSetMultiset(s: seq<Id>, S: set<Id>)
    requires multiset(s) == multiset(S)
    ensures Distinct(s) && Elems(s) == S
    decreases |s|
  {
    if s == [] {
      assert forall x :: x in S ==> x in multiset(S);
    } else {
      var init, x := s[..|s| - 1], s[|s| - 1];
      assert s == init + [x];
      assert x in multiset(s);
      assert multiset(S) == multiset(S - {x}) + multiset{x};
      assert multiset(s) == multiset(init) + multiset{x};
      assert multiset(init) == multiset(s) - multiset{x};
      assert multiset(S - {x}) == multiset(S) - multiset{x};
      DistinctOfSetMultiset(init, S - {x});
      assert Elems(s) == Elems(init) + {x};
    }
  }

  /** `find(filter).sort({ key: 1 })`: the ids and documents that `keep`
      accepts, each once, in ascending order of `key`. */
  method SelectSorted<V>(m: map<Id, V>, keep: V -> bool, key: V -> int) returns (ids: seq<Id>, r: seq<V>)
    ensures |ids| == |r| && Distinct(ids) && Elems(ids) == Matching(m, keep)
    ensures forall i :: 0 <= i < |r| ==> ids[i] in m && r[i] == m[ids[i]]
    ensures SortedBy(r, key)
  {
    var keyOf := (k: Id) => if k in m then key(m[k]) else 0;
    var remaining := m.Keys;
    ids := [];
    ghost var chosen: set<Id> := {};
    while remaining != {}
      invariant remaining <= m.Keys
      invariant forall k :: k in chosen <==> k in m && k !in remaining && keep(m[k])
      invariant multiset(ids) == multiset(chosen)
      invariant SortedBy(ids, keyOf)
      decreases remaining
    {
      var k :| k in remaining;
      if keep(m[k]) {
        ids := InsertBy(k, ids, keyOf);
        assert multiset(chosen + {k}) == multiset(chosen) + multiset{k};
        chosen := chosen + {k};
      }
      remaining := remaining - {k};
    }
    assert chosen == Matching(m, keep);
    DistinctOfSetMultiset(ids, chosen);
    assert forall i :: 0 <= i < |ids| ==> ids[i] in Elems(ids);
    r := seq(|ids|, i requires 0 <= i < |ids| => m[ids[i]]);
  }

  /** `r` lists exactly the documents of `m` that `keep` accepts, each once. */
  ghost predicate ListsExactly<V>(m: map<Id, V>, r: seq<V>, keep: V -> bool, id: V -> Id) {
    && (forall i :: 0 <= i < |r| ==> id(r[i]) in m && m[id(r[i])] == r[i] && keep(r[i]))
    && (forall k :: k in m && keep(m[k]) ==> exists i :: 0 <= i < |r| && id(r[i]) == k)
    && (forall i, j :: 0 <= i < j < |r| ==> id(r[i]) != id(r[j]))
  }

  /** The query a route runs: every matching document once, sorted by `key`. */
  method FindSorted<V>(m: map<Id, V>, keep: V -> bool, key: V -> int, id: V -> Id) returns (r: seq<V>)
    requires forall k :: k in m ==> id(m[k]) == k
    ensures ListsExactly(m, r, keep, id)
    ensures SortedBy(r, key)
  {
    var ids;
    ids, r := SelectSorted(m, keep, key);
    assert forall i :: 0 <= i < |r| ==> id(r[i]) == ids[i];
    forall i | 0 <= i < |r| ensures keep(r[i]) {
      assert ids[i] in Elems(ids);
    }
    forall k | k in m && keep(m[k]) ensures exists i :: 0 <= i < |r| && id(r[i]) == k {
      assert k in Matching(m, keep);
      assert k in Elems(ids);
      var i :| 0 <= i < |ids| && ids[i] == k;
      assert id(r[i]) == k;
    }
  }

  /** `r` is what `.sort(key).limit(n)` returns: at most `n` matching
      documents, each once, in key order, and none left out that has a
      smaller key than one listed. */
  ghost predicate FirstByKey<V>(m: map<Id, V>, r: seq<V>, keep: V -> bool, key: V -> int, id: V -> Id, n: nat) {
    var ks := Matching(m, keep);
    && |r| == (if n < |ks| then n else |ks|)
    && (forall i :: 0 <= i < |r| ==> id(r[i]) in ks && m[id(r[i])] == r[i])
    && (forall i, j :: 0 <= i < j < |r| ==> id(r[i]) != id(r[j]))
    && SortedBy(r, key)
    && (forall k, i :: k in ks && 0 <= i < |r| && (forall j :: 0 <= j < |r| ==> id(r[j]) != k)
                      ==> key(r[i]) <= key(m[k]))
  }

  /** Cutting the full sorted answer to `n` gives the first `n` by key. */
  lemma TakeFirstByKey<V>(m: map<Id, V>, all: seq<V>, keep: V -> bool, key: V -> int, id: V -> Id, n: nat)
    requires ListsExactly(m, all, keep, id) && SortedBy(all, key)
    ensures FirstByKey(m, Take(all, n), keep, key, id, n)
  {
    CountOfListed(m, all, keep, id);
    TakeListed(m, all, keep, id, n);
    TakeSorted(all, key, n);
    TakeNothingSmaller(m, all, keep, key, id, n);
  }

  /** A cut of the answer lists matching documents, each once. */
  lemma TakeListed<V>(m: map<Id, V>, all: seq<V>, keep: V -> bool, id: V -> Id, n: nat)
    requires ListsExactly(m, all, keep, id)
    ensures var r := Take(all, n);
            && (forall i :: 0 <= i < |r| ==> id(r[i]) in Matching(m, keep) && m[id(r[i])] == r[i])
            && (forall i, j :: 0 <= i < j < |r| ==> id(r[i]) != id(r[j]))
  {
    var r := Take(all, n);
    forall i | 0 <= i < |r| ensures id(r[i]) in Matching(m, keep) && m[id(r[i])] == r[i] {
      assert r[i] == all[i];
    }
  }

  lemma TakeSorted<V>(all: seq<V>, key: V -> int, n: nat)
    requires SortedBy(all, key)
    ensures SortedBy(Take(all, n), key)
  {
  }

  /** A matching document left out of the cut has a key no smaller than any kept. */
  lemma TakeNothingSmaller<V>(m: map<Id, V>, all: seq<V>, keep: V -> bool, key: V -> int, id: V -> Id, n: nat)
    requires ListsExactly(m, all, keep, id) && SortedBy(all, key)
    ensures var r := Take(all, n);
            forall k, i :: k in Matching(m, keep) && 0 <= i < |r| && (forall j :: 0 <= j < |r| ==> id(r[j]) != k)
                           ==> key(r[i]) <= key(m[k])
  {
    var r := Take(all, n);
    forall k, i | k in Matching(m, keep) && 0 <= i < |r| && (forall j :: 0 <= j < |r| ==> id(r[j]) != k)
      ensures key(r[i]) <= key(m[k])
    {
      var j :| 0 <= j < |all| && id(all[j]) == k;
      if j < |r| {
        assert false;
      }
      assert key(all[i]) <= key(all[j]);
    }
  }

  /** A list naming each matching document once is as long as the set of
      matching ids. */
  lemma CountOfListed<V>(m: map<Id, V>, r: seq<V>, keep: V -> bool, id: V -> Id)
    requires ListsExactly(m, r, keep, id)
    ensures |r| == |Matching(m, keep)|
  {
    var ids := seq(|r|, i requires 0 <= i < |r| => id(r[i]));
    assert Distinct(ids);
    assert Elems(ids) == Matching(m, keep) by {
      forall k | k in Matching(m, keep) ensures k in Elems(ids) {
        var i :| 0 <= i < |r| && id(r[i]) == k;
        assert ids[i] == k;
      }
    }
    DistinctCard(ids);
  }

  /** `f` read through the collection: the value of the document with that id. */
  function Through<V>(m: map<Id, V>, f: V -> int): Id -> int {
    k => if k in m then f(m[k]) else 0
  }

  /** Summing a list that names each matching document once is summing over
      the matching ids. */
  lemma SumOfListed<V>(m: map<Id, V>, r: seq<V>, keep: V -> bool, id: V -> Id, f: V -> int)
    requires ListsExactly(m, r, keep, id)
    ensures SumSeq(r, f) == SumSet(Matching(m, keep), Through(m, f))
  {
    var g := Through(m, f);
    var ids := seq(|r|, i requires 0 <= i < |r| => id(r[i]));
    SumSeqRelabel(r, f, ids, g);
    assert Distinct(ids);
    SumSeqOfDistinct(ids, g);
    assert Elems(ids) == Matching(m, keep) by {
      forall k | k in Matching(m, keep) ensures k in Elems(ids) {
        var i :| 0 <= i < |r| && id(r[i]) == k;
        assert ids[i] == k;
      }
    }
  }

  lemma {:induction false} DistinctCard(s: seq<Id>)
    requires Distinct(s)
    ensures |Elems(s)| == |s|
    decreases |s|
  {
    if s != [] {
      var init := s[..|s| - 1];
      assert s == init + [s[|s| - 1]];
      assert Elems(s) == Elems(init) + {s[|s| - 1]};
      assert s[|s| - 1] !in Elems(init);
      DistinctCard(init);
    }
  }
}
