/** `GET /dashboard-stats`: the summary of one owner's vehicles, namely their
    number, the sum of their daily prices, the number per category and a
    five-bucket histogram of prices. */
module Stats {
  import opened Wrappers
  import opened Documents

  // ---------------------------------------------------------------------------
  // Revenue: `vehicles.reduce((acc, v) => acc + (v.pricePerDay || 0), 0)`

  /** A missing price contributes 0. */
  function PriceOrZero(v: Vehicle): real {
    v.pricePerDay.GetOr(0.0)
  }

  /** The left fold of the handler, one vehicle at a time from the front. */
  function Revenue(vs: seq<Vehicle>): real {
    if vs == [] then 0.0 else Revenue(vs[..|vs| - 1]) + PriceOrZero(vs[|vs| - 1])
  }

  /** Revenue adds up over concatenation. */
  lemma {:induction false} RevenueAppend(a: seq<Vehicle>, b: seq<Vehicle>)
    ensures Revenue(a + b) == Revenue(a) + Revenue(b)
    decreases |b|
  {
    if b == [] {
      assert a + b == a;
    } else {
      var b' := b[..|b| - 1];
      assert (a + b)[..|a + b| - 1] == a + b';
      assert (a + b)[|a + b| - 1] == b[|b| - 1];
      RevenueAppend(a, b');
    }
  }

  /** Revenue does not depend on the order of the vehicles. */
  lemma {:induction false} RevenuePermutation(a: seq<Vehicle>, b: seq<Vehicle>)
    requires multiset(a) == multiset(b)
    ensures Revenue(a) == Revenue(b)
    decreases |a|
  {
    if a != [] {
      var x := a[|a| - 1];
      var a' := a[..|a| - 1];
      assert a == a' + [x];
      assert x in multiset(b);
      var j :| 0 <= j < |b| && b[j] == x;
      assert b == b[..j] + [x] + b[j + 1..];
      var b' := b[..j] + b[j + 1..];
      assert multiset(a) == multiset(a') + multiset{x};
      assert multiset(b) == multiset(b[..j]) + multiset{x} + multiset(b[j + 1..]);
      assert multiset(b') == multiset(b[..j]) + multiset(b[j + 1..]);
      assert multiset(a') == multiset(a) - multiset{x};
      assert multiset(b') == multiset(b) - multiset{x};
      RevenuePermutation(a', b');
      RevenueAppend(b[..j] + [x], b[j + 1..]);
      RevenueAppend(b[..j], [x]);
      RevenueAppend(b[..j], b[j + 1..]);
      assert Revenue([x]) == PriceOrZero(x) by {
        assert [x][..0] == [];
      }
    }
  }

  /** With no negative price the revenue is not negative, and it is at least
      the price of every priced vehicle. */
  lemma {:induction false} RevenueBounds(vs: seq<Vehicle>)
    requires forall v | v in vs :: PriceOrZero(v) >= 0.0
    ensures Revenue(vs) >= 0.0
    ensures forall v | v in vs :: PriceOrZero(v) <= Revenue(vs)
  {
    if vs != [] {
      var vs' := vs[..|vs| - 1];
      assert forall v | v in vs' :: v in vs;
      RevenueBounds(vs');
      assert forall v | v in vs :: v in vs' || v == vs[|vs| - 1] by {
        assert vs == vs' + [vs[|vs| - 1]];
      }
    }
  }

  // ---------------------------------------------------------------------------
  // Category counts: `acc[v.category] = (acc[v.category] || 0) + 1`

  function CategoryCount(vs: seq<Vehicle>, c: string): nat {
    if vs == [] then 0
    else CategoryCount(vs[..|vs| - 1], c) + (if vs[|vs| - 1].category == c then 1 else 0)
  }

  function Categories(vs: seq<Vehicle>): set<string> {
    set v | v in vs :: v.category
  }

  /** The reference definition: one key per category present, mapped to the
      number of vehicles of that category. */
  function CategoryCounts(vs: seq<Vehicle>): (m: map<string, nat>)
    ensures m.Keys == Categories(vs)
    ensures forall c | c in m :: 1 <= m[c] <= |vs|
  {
    CategoryCountsRange(vs);
    map c | c in Categories(vs) :: CategoryCount(vs, c)
  }

  /** A category is counted iff some vehicle has it. */
  lemma {:induction false} CategoryCountPositive(vs: seq<Vehicle>, c: string)
    ensures CategoryCount(vs, c) > 0 <==> c in Categories(vs)
  {
    if vs != [] {
      var vs' := vs[..|vs| - 1];
      CategoryCountPositive(vs', c);
      assert vs == vs' + [vs[|vs| - 1]];
      assert Categories(vs) == Categories(vs') + {vs[|vs| - 1].category};
    }
  }

  /** No category is counted more often than there are vehicles. */
  lemma {:induction false} CategoryCountBound(vs: seq<Vehicle>, c: string)
    ensures CategoryCount(vs, c) <= |vs|
  {
    if vs != [] {
      CategoryCountBound(vs[..|vs| - 1], c);
    }
  }

  /** Every category present is counted at least once and at most `|vs|` times. */
  lemma CategoryCountsRange(vs: seq<Vehicle>)
    ensures forall c | c in Categories(vs) :: 1 <= CategoryCount(vs, c) <= |vs|
  {
    forall c | c in Categories(vs) ensures 1 <= CategoryCount(vs, c) <= |vs| {
      CategoryCountPositive(vs, c);
      CategoryCountBound(vs, c);
    }
  }

  /** One step of the handler's `reduce`. */
  lemma CategoryCountsStep(vs: seq<Vehicle>, v: Vehicle)
    ensures var m := CategoryCounts(vs);
            CategoryCounts(vs + [v]) == m[v.category := (if v.category in m then m[v.category] else 0) + 1]
  {
    var m := CategoryCounts(vs);
    var m' := CategoryCounts(vs + [v]);
    assert (vs + [v])[..|vs|] == vs;
    assert Categories(vs + [v]) == Categories(vs) + {v.category};
    CategoryCountPositive(vs, v.category);
    forall c | c in m'
      ensures m'[c] == m[v.category := (if v.category in m then m[v.category] else 0) + 1][c]
    {
      assert m'[c] == CategoryCount(vs, c) + (if v.category == c then 1 else 0);
    }
  }

  /** The sum of the values of a map. */
  ghost function MapSum(m: map<string, nat>): nat
    decreases |m|
  {
    if m == map[] then 0
    else
      var k :| k in m;
      assert |m - {k}| < |m| by {
        assert (m - {k}).Keys == m.Keys - {k};
      }
      m[k] + MapSum(m - {k})
  }

  lemma {:induction false} MapSumRemove(m: map<string, nat>, k: string)
    requires k in m
    ensures MapSum(m) == m[k] + MapSum(m - {k})
    decreases |m|
  {
    var j :| j in m && MapSum(m) == m[j] + MapSum(m - {j});
    if j != k {
      assert (m - {j}).Keys == m.Keys - {j};
      assert (m - {k}).Keys == m.Keys - {k};
      MapSumRemove(m - {j}, k);
      MapSumRemove(m - {k}, j);
      assert (m - {j}) - {k} == (m - {k}) - {j};
    }
  }

  lemma MapSumPut(m: map<string, nat>, k: string, x: nat)
    ensures MapSum(m[k := x]) == MapSum(m) - (if k in m then m[k] else 0) + x
  {
    MapSumRemove(m[k := x], k);
    if k in m {
      MapSumRemove(m, k);
      assert m[k := x] - {k} == m - {k};
    } else {
      assert m[k := x] - {k} == m;
    }
  }

  /** The category counts add up to the number of vehicles. */
  lemma {:induction false} CategoryCountsSum(vs: seq<Vehicle>)
    ensures MapSum(CategoryCounts(vs)) == |vs|
  {
    if vs == [] {
      assert CategoryCounts(vs) == map[];
    } else {
      var vs', v := vs[..|vs| - 1], vs[|vs| - 1];
      var m := CategoryCounts(vs');
      var x: nat := (if v.category in m then m[v.category] else 0) + 1;
      CategoryCountsSum(vs');
      CategoryCountsStep(vs', v);
      assert vs' + [v] == vs;
      assert CategoryCounts(vs) == m[v.category := x];
      MapSumPut(m, v.category, x);
    }
  }

  /** Builds `categoryCounts` with a mutable accumulator, as the handler does. */
  method CountCategories(vs: seq<Vehicle>) returns (acc: map<string, nat>)
    ensures acc == CategoryCounts(vs)
    ensures forall c | c in acc :: acc[c] == CategoryCount(vs, c) >= 1
  {
    acc := map[];
    var k := 0;
    while k < |vs|
      invariant 0 <= k <= |vs|
      invariant acc == CategoryCounts(vs[..k])
    {
      var v := vs[k];
      CategoryCountsStep(vs[..k], v);
      assert vs[..k + 1] == vs[..k] + [v];
      acc := acc[v.category := (if v.category in acc then acc[v.category] else 0) + 1];
      k := k + 1;
    }
    assert vs[..k] == vs;
    forall c | c in acc ensures acc[c] >= 1 {
      CategoryCountPositive(vs, c);
    }
  }

  // ---------------------------------------------------------------------------
  // Price distribution

  /** A histogram bucket; `max == None` stands for `Infinity`. */
  datatype PriceRange = PriceRange(name: string, min: real, max: Option<real>)

  /** The buckets in the order the handler searches them. */
  const PriceRanges: seq<PriceRange> := [
    PriceRange("0-100", 0.0, Some(100.0)),
    PriceRange("101-200", 101.0, Some(200.0)),
    PriceRange("201-300", 201.0, Some(300.0)),
    PriceRange("301-400", 301.0, Some(400.0)),
    PriceRange("400+", 401.0, None)
  ]

  /** `v.pricePerDay >= r.min && v.pricePerDay <= r.max`; a missing price
      compares false with every number. */
  predicate InRange(price: Option<real>, r: PriceRange) {
    price.Some? && r.min <= price.value && (r.max.None? || price.value <= r.max.value)
  }

  /** `priceRanges.find(...)` from position `from` on: the first bucket that
      holds the price. */
  function FindRange(price: Option<real>, from: nat): (r: Option<nat>)
    requires from <= |PriceRanges|
    ensures r.Some? ==> from <= r.value < |PriceRanges| && InRange(price, PriceRanges[r.value])
    ensures r.Some? ==> forall j | from <= j < r.value :: !InRange(price, PriceRanges[j])
    ensures r.None? ==> forall j | from <= j < |PriceRanges| :: !InRange(price, PriceRanges[j])
    decreases |PriceRanges| - from
  {
    if from == |PriceRanges| then None
    else if InRange(price, PriceRanges[from]) then Some(from)
    else FindRange(price, from + 1)
  }

  function RangeOf(price: Option<real>): Option<nat> {
    FindRange(price, 0)
  }

  /** The buckets do not overlap, so a price holds in at most one of them. */
  lemma RangesDisjoint(price: Option<real>, i: nat, j: nat)
    requires i < j < |PriceRanges|
    ensures !(InRange(price, PriceRanges[i]) && InRange(price, PriceRanges[j]))
  {
  }

  /** Prices on the bucket edges, a fraction between two buckets, and prices
      that are negative or missing. */
  lemma RangeExamples()
    ensures RangeOf(Some(0.0)) == Some(0) && RangeOf(Some(100.0)) == Some(0)
    ensures RangeOf(Some(101.0)) == Some(1) && RangeOf(Some(400.0)) == Some(3)
    ensures RangeOf(Some(401.0)) == Some(4) && RangeOf(Some(10000.0)) == Some(4)
    ensures RangeOf(Some(100.5)) == None && RangeOf(Some(400.5)) == None
    ensures RangeOf(Some(-1.0)) == None && RangeOf(None) == None
  {
  }

  /** A price that is a non-negative integer always lands in a bucket. */
  lemma IntegralPriceInRange(p: real)
    requires p >= 0.0 && p == p.Floor as real
    ensures RangeOf(Some(p)).Some?
  {
  }

  /** A negative or missing price lands in no bucket. */
  lemma UnpricedInNoRange(price: Option<real>)
    requires price.None? || price.value < 0.0
    ensures RangeOf(price).None?
  {
  }

  /** Number of vehicles counted in bucket `i`. */
  function BucketCount(vs: seq<Vehicle>, i: nat): nat {
    if vs == [] then 0
    else BucketCount(vs[..|vs| - 1], i) + (if RangeOf(vs[|vs| - 1].pricePerDay) == Some(i) then 1 else 0)
  }

  /** Number of vehicles counted in some bucket. */
  function Counted(vs: seq<Vehicle>): (n: nat)
    ensures n <= |vs|
  {
    if vs == [] then 0
    else Counted(vs[..|vs| - 1]) + (if RangeOf(vs[|vs| - 1].pricePerDay).Some? then 1 else 0)
  }

  /** Sum of the first `k` bucket counts. */
  function BucketTotal(vs: seq<Vehicle>, k: nat): nat {
    if k == 0 then 0 else BucketTotal(vs, k - 1) + BucketCount(vs, k - 1)
  }

  lemma {:induction false} BucketTotalStep(vs: seq<Vehicle>, v: Vehicle, k: nat)
    ensures BucketTotal(vs + [v], k) ==
      BucketTotal(vs, k) + (if RangeOf(v.pricePerDay).Some? && RangeOf(v.pricePerDay).value < k then 1 else 0)
  {
    assert (vs + [v])[..|vs|] == vs;
    if k > 0 {
      BucketTotalStep(vs, v, k - 1);
    }
  }

  /** Each counted vehicle is in exactly one bucket: the bucket counts add up
      to the number of counted vehicles. */
  lemma {:induction false} BucketsSumToCounted(vs: seq<Vehicle>)
    ensures BucketTotal(vs, |PriceRanges|) == Counted(vs)
  {
    if vs == [] {
      assert forall k: nat :: BucketTotal([], k) == 0 by {
        forall k: nat ensures BucketTotal([], k) == 0 {
          BucketTotalEmpty(k);
        }
      }
    } else {
      var vs', v := vs[..|vs| - 1], vs[|vs| - 1];
      assert vs == vs' + [v];
      BucketsSumToCounted(vs');
      BucketTotalStep(vs', v, |PriceRanges|);
    }
  }

  lemma {:induction false} BucketTotalEmpty(k: nat)
    ensures BucketTotal([], k) == 0
  {
    if k > 0 {
      BucketTotalEmpty(k - 1);
    }
  }

  predicate NonNegativeIntegerPrice(v: Vehicle) {
    v.pricePerDay.Some? && v.pricePerDay.value >= 0.0 && v.pricePerDay.value == v.pricePerDay.value.Floor as real
  }

  /** The bucket counts add up to at most the number of vehicles, and to exactly
      that number when every price is a non-negative integer. */
  lemma {:induction false} BucketsSumBound(vs: seq<Vehicle>)
    ensures BucketTotal(vs, |PriceRanges|) <= |vs|
    ensures (forall v | v in vs :: NonNegativeIntegerPrice(v)) ==> BucketTotal(vs, |PriceRanges|) == |vs|
  {
    BucketsSumToCounted(vs);
    if forall v | v in vs :: NonNegativeIntegerPrice(v) {
      AllCounted(vs);
    }
  }

  lemma {:induction false} AllCounted(vs: seq<Vehicle>)
    requires forall v | v in vs :: NonNegativeIntegerPrice(v)
    ensures Counted(vs) == |vs|
  {
    if vs != [] {
      var vs' := vs[..|vs| - 1];
      assert forall v | v in vs' :: v in vs;
      AllCounted(vs');
      assert vs[|vs| - 1] in vs;
      IntegralPriceInRange(vs[|vs| - 1].pricePerDay.value);
    }
  }

  /** One entry of `priceDistribution`. */
  datatype RangeCount = RangeCount(name: string, count: nat)

  /** Counts the vehicles per bucket in place, as the handler's `forEach` does,
      then pairs each bucket's name with its count. */
  method PriceDistribution(vs: seq<Vehicle>) returns (dist: seq<RangeCount>)
    ensures |dist| == |PriceRanges|
    ensures forall i | 0 <= i < |dist| ::
              dist[i].name == PriceRanges[i].name && dist[i].count == BucketCount(vs, i)
  {
    var counts := new nat[|PriceRanges|](_ => 0);
    var k := 0;
    while k < |vs|
      invariant 0 <= k <= |vs|
      invariant forall i | 0 <= i < counts.Length :: counts[i] == BucketCount(vs[..k], i)
    {
      assert vs[..k + 1][..k] == vs[..k];
      var range := RangeOf(vs[k].pricePerDay);
      if range.Some? {
        counts[range.value] := counts[range.value] + 1;
      }
      k := k + 1;
    }
    assert vs[..k] == vs;
    dist := seq(|PriceRanges|, i requires 0 <= i < |PriceRanges| reads counts =>
                RangeCount(PriceRanges[i].name, counts[i]));
  }
}
