/** Sorting by an integer key: what `.sort({ field: 1 })` and
    `[...xs].sort((a, b) => key(a) - key(b))` produce, up to the order of
    elements with equal keys. A descending order is a sort by the negated key. */
module Sorting {

  ghost predicate SortedBy<T>(s: seq<T>, key: T -> int) {
    forall i, j :: 0 <= i < j < |s| ==> key(s[i]) <= key(s[j])
  }

  /** Inserts `x` after every element whose key is not greater than its own. */
  function InsertBy<T>(x: T, s: seq<T>, key: T -> int): (r: seq<T>)
    ensures |r| == |s| + 1
    ensures multiset(r) == multiset(s) + multiset{x}
    ensures SortedBy(s, key) ==> SortedBy(r, key)
  {
    if s == [] then [x]
    else if key(x) < key(s[0]) then
      FrontSorted(x, s, key);
      [x] + s
    else
      var rest := InsertBy(x, s[1..], key);
      assert s == [s[0]] + s[1..];
      ConsSorted(s[0], s[1..], x, rest, key);
      [s[0]] + rest
  }

  /** A key no larger than the head's keeps a sorted list sorted in front. */
  lemma FrontSorted<T>(x: T, s: seq<T>, key: T -> int)
    requires s != [] && key(x) <= key(s[0])
    ensures SortedBy(s, key) ==> SortedBy([x] + s, key)
  {
    if SortedBy(s, key) {
      forall i, j | 0 <= i < j < |[x] + s| ensures key(([x] + s)[i]) <= key(([x] + s)[j]) {
        if i > 0 {
          assert ([x] + s)[i] == s[i - 1] && ([x] + s)[j] == s[j - 1];
        } else {
          assert ([x] + s)[j] == s[j - 1];
          assert key(s[0]) <= key(s[j - 1]);
        }
      }
    }
  }

  /** Putting the head back in front of the insertion into the tail keeps
      the list sorted, since every element of that insertion is the new
      element or one of the tail's. */
  lemma ConsSorted<T>(h: T, tail: seq<T>, x: T, rest: seq<T>, key: T -> int)
    requires key(h) <= key(x)
    requires multiset(rest) == multiset(tail) + multiset{x}
    requires SortedBy(tail, key) ==> SortedBy(rest, key)
    ensures SortedBy([h] + tail, key) ==> SortedBy([h] + rest, key)
  {
    if SortedBy([h] + tail, key) {
      assert SortedBy(tail, key) by {
        forall i, j | 0 <= i < j < |tail| ensures key(tail[i]) <= key(tail[j]) {
          assert tail[i] == ([h] + tail)[i + 1] && tail[j] == ([h] + tail)[j + 1];
        }
      }
      forall j | 0 <= j < |rest| ensures key(h) <= key(rest[j]) {
        assert rest[j] in multiset(rest);
        if rest[j] != x {
          assert rest[j] in multiset(tail);
          var k :| 0 <= k < |tail| && tail[k] == rest[j];
          assert ([h] + tail)[0] == h && ([h] + tail)[k + 1] == tail[k];
        }
      }
      forall i, j | 0 <= i < j < |[h] + rest| ensures key(([h] + rest)[i]) <= key(([h] + rest)[j]) {
        assert ([h] + rest)[j] == rest[j - 1];
        if i > 0 {
          assert ([h] + rest)[i] == rest[i - 1];
        }
      }
    }
  }

  /** Insertion sort; elements with equal keys keep their relative order. */
  function SortBy<T>(s: seq<T>, key: T -> int): (r: seq<T>)
    ensures |r| == |s|
    ensures multiset(r) == multiset(s)
    ensures SortedBy(r, key)
  {
    if s == [] then []
    else
      var init := s[..|s| - 1];
      assert s == init + [s[|s| - 1]];
      InsertBy(s[|s| - 1], SortBy(init, key), key)
  }

  /** The first `n` elements of a list, as `.limit(n)` on a sorted query. */
  function Take<T>(s: seq<T>, n: nat): (r: seq<T>)
    ensures |r| == if n < |s| then n else |s|
    ensures r == s[..|r|]
  {
    if n < |s| then s[..n] else s
  }

  /** Cutting a sorted list keeps the elements with the smallest keys:
      whatever is cut off has a key no smaller than anything kept. */
  lemma TakeKeepsSmallest<T>(s: seq<T>, n: nat, key: T -> int)
    requires SortedBy(s, key)
    ensures forall i, j :: 0 <= i < |Take(s, n)| <= j < |s| ==> key(s[i]) <= key(s[j])
  {
  }
}
