/** The list filter the client pages apply after a successful delete:
    `list.filter(item => item._id !== id)` (Trips.jsx, Dashboard.jsx and the
    stop and activity lists of ItineraryBuilder.jsx). */
module ClientLists {
  import opened Records

  /** The entries of `s` whose id is not `x`, in their original order. */
  function WithoutId<T>(s: seq<T>, id: T -> Id, x: Id): (r: seq<T>)
    ensures |r| <= |s|
    ensures forall i :: 0 <= i < |r| ==> r[i] in s && id(r[i]) != x
    ensures forall i :: 0 <= i < |s| && id(s[i]) != x ==> s[i] in r
  {
    if s == [] then []
    else
      assert s == [s[0]] + s[1..];
      (if id(s[0]) != x then [s[0]] else []) + WithoutId(s[1..], id, x)
  }

  /** Filtering a concatenation filters each part, so the entries that stay
      keep their relative order. */
  lemma {:induction false} WithoutIdAppend<T>(a: seq<T>, b: seq<T>, id: T -> Id, x: Id)
    ensures WithoutId(a + b, id, x) == WithoutId(a, id, x) + WithoutId(b, id, x)
    decreases |a|
  {
    if a == [] {
      assert a + b == b;
    } else {
      assert (a + b)[0] == a[0];
      assert (a + b)[1..] == a[1..] + b;
      WithoutIdAppend(a[1..], b, id, x);
    }
  }

  /** A list with no entry of that id is left exactly as it was. */
  lemma {:induction false} WithoutAbsentId<T>(s: seq<T>, id: T -> Id, x: Id)
    requires forall i :: 0 <= i < |s| ==> id(s[i]) != x
    ensures WithoutId(s, id, x) == s
    decreases |s|
  {
    if s != [] {
      WithoutAbsentId(s[1..], id, x);
      assert s == [s[0]] + s[1..];
    }
  }

  /** Deleting the same id twice is deleting it once. */
  lemma WithoutIdIdempotent<T>(s: seq<T>, id: T -> Id, x: Id)
    ensures WithoutId(WithoutId(s, id, x), id, x) == WithoutId(s, id, x)
  {
    var r := WithoutId(s, id, x);
    assert forall i :: 0 <= i < |r| ==> r[i] in r;
    WithoutAbsentId(r, id, x);
  }

  /** Each entry that stays is kept as many times as it occurred. */
  lemma {:induction false} WithoutIdCount<T>(s: seq<T>, id: T -> Id, x: Id, y: T)
    requires id(y) != x
    ensures multiset(WithoutId(s, id, x))[y] == multiset(s)[y]
    decreases |s|
  {
    if s != [] {
      WithoutIdCount(s[1..], id, x, y);
      assert s == [s[0]] + s[1..];
      assert multiset(s) == multiset([s[0]]) + multiset(s[1..]);
    }
  }
}
