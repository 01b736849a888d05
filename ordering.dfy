/** `cursor.sort({field: 1 | -1})` on one field. Missing values order before
    every number (BSON order); the store's order of equal keys is unspecified,
    and this model keeps store order among them (a stable insertion sort). */
module Ordering {
  import opened Wrappers
  import opened Documents

  datatype Field = PricePerDay | Rating | CreatedAt
  datatype Direction = Asc | Desc

  function Key(v: Vehicle, f: Field): Option<real> {
    match f
    case PricePerDay => v.pricePerDay
    case Rating => Some(v.rating)
    case CreatedAt => Some(v.createdAt as real)
  }

  /** Ascending key order: a missing key first, then numbers by value. */
  predicate KeyLe(a: Option<real>, b: Option<real>) {
    a.None? || (b.Some? && a.value <= b.value)
  }

  /** `u` may stand before `v` in a list sorted on `f` in direction `d`. */
  predicate Before(u: Vehicle, v: Vehicle, f: Field, d: Direction) {
    if d == Asc then KeyLe(Key(u, f), Key(v, f)) else KeyLe(Key(v, f), Key(u, f))
  }

  lemma BeforeTotal(u: Vehicle, v: Vehicle, f: Field, d: Direction)
    ensures Before(u, v, f, d) || Before(v, u, f, d)
  {
  }

  lemma BeforeTransitive(u: Vehicle, v: Vehicle, w: Vehicle, f: Field, d: Direction)
    requires Before(u, v, f, d) && Before(v, w, f, d)
    ensures Before(u, w, f, d)
  {
  }

  predicate SortedBy(s: seq<Vehicle>, f: Field, d: Direction) {
    forall i, j | 0 <= i < j < |s| :: Before(s[i], s[j], f, d)
  }

  /** Inserts `v` in front of the first element it may precede. */
  function Insert(v: Vehicle, s: seq<Vehicle>, f: Field, d: Direction): (r: seq<Vehicle>)
    ensures multiset(r) == multiset(s) + multiset{v}
    ensures forall x | x in r :: x == v || x in s
  {
    if s == [] then [v]
    else if Before(v, s[0], f, d) then [v] + s
    else
      assert s == [s[0]] + s[1..];
      [s[0]] + Insert(v, s[1..], f, d)
  }

  /** A list sorted on `f` stays sorted when `v` is inserted. */
  lemma {:induction false} InsertSorted(v: Vehicle, s: seq<Vehicle>, f: Field, d: Direction)
    requires SortedBy(s, f, d)
    ensures SortedBy(Insert(v, s, f, d), f, d)
  {
    if s == [] {
    } else if Before(v, s[0], f, d) {
      forall j | 0 < j < |s| ensures Before(v, s[j], f, d) {
        BeforeTransitive(v, s[0], s[j], f, d);
      }
    } else {
      BeforeTotal(v, s[0], f, d);
      var tail := Insert(v, s[1..], f, d);
      InsertSorted(v, s[1..], f, d);
      forall x | x in tail ensures Before(s[0], x, f, d) {
        if x != v {
          var j :| 0 <= j < |s[1..]| && s[1..][j] == x;
          assert s[j + 1] == x;
        }
      }
      var r := [s[0]] + tail;
      assert r == Insert(v, s, f, d);
      forall i, j | 0 <= i < j < |r| ensures Before(r[i], r[j], f, d) {
        if i == 0 {
          assert r[j] == tail[j - 1];
        } else {
          assert r[i] == tail[i - 1] && r[j] == tail[j - 1];
        }
      }
    }
  }

  /** The sorted permutation of `s` on `f` in direction `d`. */
  function Sort(s: seq<Vehicle>, f: Field, d: Direction): (r: seq<Vehicle>)
    ensures SortedBy(r, f, d)
    ensures multiset(r) == multiset(s)
    ensures |r| == |s|
  {
    if s == [] then []
    else
      assert s == [s[0]] + s[1..];
      InsertSorted(s[0], Sort(s[1..], f, d), f, d);
      var r := Insert(s[0], Sort(s[1..], f, d), f, d);
      assert |r| == |multiset(r)|;
      r
  }

  /** A list already in order is returned as it is. */
  lemma {:induction false} SortKeepsSorted(s: seq<Vehicle>, f: Field, d: Direction)
    requires SortedBy(s, f, d)
    ensures Sort(s, f, d) == s
  {
    if s != [] {
      SortKeepsSorted(s[1..], f, d);
      assert Sort(s[1..], f, d) == s[1..];
      if |s| > 1 {
        assert Before(s[0], s[1], f, d);
      }
    }
  }

  /** The `sort` parameter of `GET /all-vehicles`: "asc" or "desc" orders by
      `pricePerDay`; any other value, or none, keeps store order. */
  function Arrange(s: seq<Vehicle>, sort: Option<string>): (r: seq<Vehicle>)
    ensures multiset(r) == multiset(s) && |r| == |s|
    ensures sort == Some("asc") ==> SortedBy(r, PricePerDay, Asc)
    ensures sort == Some("desc") ==> SortedBy(r, PricePerDay, Desc)
    ensures sort != Some("asc") && sort != Some("desc") ==> r == s
  {
    if sort == Some("asc") then Sort(s, PricePerDay, Asc)
    else if sort == Some("desc") then Sort(s, PricePerDay, Desc)
    else s
  }

  /** The first `n` elements of a list sorted on `f` in direction `d` precede
      every element left out. */
  lemma TopPrecedesRest(s: seq<Vehicle>, n: nat, f: Field, d: Direction)
    requires SortedBy(s, f, d) && n <= |s|
    ensures forall x, y | x in s[..n] && y in s[n..] :: Before(x, y, f, d)
  {
  }
}
