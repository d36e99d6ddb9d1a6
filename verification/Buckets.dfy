/** Averaging price snapshots on a uniform time grid, one series per market. */
module Buckets {
  import opened Basics
  import opened Pearson

  /** A snapshot row: an empty label, an unreadable price or an unparseable time makes it useless.
      `time` is the whole-second epoch of the parsed timestamp. */
  datatype Row = Row(market: string, price: Option<real>, time: Option<int>)

  /** Only a price of exactly zero or one is dropped; a price outside that range is kept. */
  predicate Usable(r: Row) {
    r.market != "" && r.price.Some? && r.time.Some? && r.price.value != 0.0 && r.price.value != 1.0
  }

  /** Floor division, for either sign of the divisor. */
  function FloorDiv(a: int, b: int): int
    requires b != 0
  {
    if b > 0 then a / b else (-a) / (-b)
  }

  predicate FallsIn(r: Row, width: int, market: string, bucket: int)
    requires width != 0
  {
    Usable(r) && r.market == market && FloorDiv(r.time.value, width) == bucket
  }

  /** The prices of one market in one bucket, in row order. */
  function Prices(rows: seq<Row>, width: int, market: string, bucket: int): seq<real>
    requires width != 0
  {
    if rows == [] then []
    else
      var r := rows[|rows| - 1];
      Prices(rows[..|rows| - 1], width, market, bucket)
        + if FallsIn(r, width, market, bucket) then [r.price.value] else []
  }

  type Raw = map<string, map<int, seq<real>>>
  type Series = map<string, map<int, real>>

  function BucketOf(raw: Raw, market: string, bucket: int): seq<real> {
    if market in raw && bucket in raw[market] then raw[market][bucket] else []
  }

  ghost predicate Collected(raw: Raw, rows: seq<Row>, width: int)
    requires width != 0
  {
    && (forall m, b :: BucketOf(raw, m, b) == Prices(rows, width, m, b))
    && (forall m :: m in raw ==> exists b :: b in raw[m])
    && (forall m, b :: m in raw && b in raw[m] ==> raw[m][b] != [])
  }

  /** `raw.setdefault(market, {}).setdefault(bucket, []).append(price)`. */
  function Append(raw: Raw, market: string, bucket: int, price: real): Raw {
    var buckets := if market in raw then raw[market] else map[];
    var prices := if bucket in buckets then buckets[bucket] else [];
    raw[market := buckets[bucket := prices + [price]]]
  }

  lemma CollectOne(raw: Raw, rows: seq<Row>, n: nat, width: int)
    requires width != 0 && n < |rows| && Collected(raw, rows[..n], width)
    ensures var r := rows[n];
            var next := if Usable(r) then Append(raw, r.market, FloorDiv(r.time.value, width), r.price.value) else raw;
            Collected(next, rows[..n + 1], width)
  {
    var r := rows[n];
    assert rows[..n + 1][..n] == rows[..n];
    var next := if Usable(r) then Append(raw, r.market, FloorDiv(r.time.value, width), r.price.value) else raw;
    forall m, b ensures BucketOf(next, m, b) == Prices(rows[..n + 1], width, m, b) {
      assert BucketOf(raw, m, b) == Prices(rows[..n], width, m, b);
    }
    forall m | m in next ensures exists b :: b in next[m] {
      if Usable(r) && m == r.market { assert FloorDiv(r.time.value, width) in next[m]; }
    }
  }

  /** One market's series holds, for exactly the buckets with a usable row, the average of their prices. */
  ghost predicate AveragedFor(buckets: map<int, real>, rows: seq<Row>, width: int, m: string)
    requires width != 0
  {
    forall b ::
      && (b in buckets <==> Prices(rows, width, m, b) != [])
      && (b in buckets ==> buckets[b] == Mean(Prices(rows, width, m, b)))
  }

  ghost predicate Averaged(series: Series, rows: seq<Row>, width: int)
    requires width != 0
  {
    && (forall m :: m in series <==> exists b :: Prices(rows, width, m, b) != [])
    && (forall m :: m in series ==> AveragedFor(series[m], rows, width, m))
  }

  method BuildBucketedSeries(rows: seq<Row>, width: int) returns (series: Series)
    requires width != 0
    ensures Averaged(series, rows, width)
  {
    var raw: Raw := map[];
    for i := 0 to |rows|
      invariant Collected(raw, rows[..i], width)
    {
      var r := rows[i];
      CollectOne(raw, rows, i, width);
      if Usable(r) {
        raw := Append(raw, r.market, FloorDiv(r.time.value, width), r.price.value);
      }
    }
    assert rows[..|rows|] == rows;
    series := AverageAll(raw, rows, width);
  }

  lemma CollectedMarkets(raw: Raw, rows: seq<Row>, width: int, m: string)
    requires width != 0 && Collected(raw, rows, width)
    ensures m in raw <==> exists b :: Prices(rows, width, m, b) != []
  {
    if m in raw {
      var b :| b in raw[m];
      assert BucketOf(raw, m, b) == raw[m][b] != [];
      assert Prices(rows, width, m, b) != [];
    }
    if b :| Prices(rows, width, m, b) != [] {
      assert BucketOf(raw, m, b) == Prices(rows, width, m, b);
    }
  }

  method AverageAll(raw: Raw, ghost rows: seq<Row>, ghost width: int) returns (series: Series)
    requires width != 0 && Collected(raw, rows, width)
    ensures Averaged(series, rows, width)
  {
    series := map m | m in raw :: map b | b in raw[m] && raw[m][b] != [] :: Mean(raw[m][b]);
    forall m ensures m in series <==> exists b :: Prices(rows, width, m, b) != [] {
      CollectedMarkets(raw, rows, width, m);
    }
    forall m | m in series ensures AveragedFor(series[m], rows, width, m) {
      forall b
        ensures (b in series[m] <==> Prices(rows, width, m, b) != [])
        ensures b in series[m] ==> series[m][b] == Mean(Prices(rows, width, m, b))
      {
        assert BucketOf(raw, m, b) == Prices(rows, width, m, b);
      }
    }
  }

  // ------------------------------------------------------- order independence

  lemma {:induction false} SumSplit(xs: seq<real>, i: nat)
    requires i < |xs|
    ensures Sum(xs) == Sum(xs[..i] + xs[i + 1..]) + xs[i]
  {
    var n := |xs| - 1;
    if i < n {
      SumSplit(xs[..n], i);
      var rest := xs[..i] + xs[i + 1..];
      assert rest[..n - 1] == xs[..n][..i] + xs[..n][i + 1..];
    } else {
      assert xs[..i] + xs[i + 1..] == xs[..n];
    }
  }

  /** A permutation of `init + [x]` is a permutation of `init` with `x` put somewhere. */
  lemma Locate<T>(init: seq<T>, x: T, ys: seq<T>) returns (before: seq<T>, after: seq<T>)
    requires multiset(init + [x]) == multiset(ys)
    ensures ys == before + ([x] + after) && multiset(init) == multiset(before + after)
  {
    assert x in multiset(ys);
    var i :| 0 <= i < |ys| && ys[i] == x;
    before, after := ys[..i], ys[i + 1..];
    assert ys == before + ([x] + after);
    WithoutOne(init, [], x);
    WithoutOne(before, after, x);
    assert init + [x] == init + ([x] + []) && init + [] == init;
  }

  lemma WithoutOne<T>(before: seq<T>, after: seq<T>, x: T)
    ensures multiset(before + after) == multiset(before + ([x] + after)) - multiset{x}
  {}

  lemma SumOfInserted(before: seq<real>, x: real, after: seq<real>)
    ensures Sum(before + ([x] + after)) == Sum(before + after) + x
  {
    var ys := before + ([x] + after);
    SumSplit(ys, |before|);
    assert ys[..|before|] + ys[|before| + 1..] == before + after;
  }

  lemma {:induction false} SumOfPermutation(xs: seq<real>, ys: seq<real>)
    requires multiset(xs) == multiset(ys)
    ensures |xs| == |ys| && Sum(xs) == Sum(ys)
    decreases |xs|
  {
    if xs != [] {
      var init, x := xs[..|xs| - 1], xs[|xs| - 1];
      assert xs == init + [x];
      var before, after := Locate(init, x, ys);
      SumOfPermutation(init, before + after);
      SumOfInserted(before, x, after);
    } else {
      EmptyPermutation(ys);
    }
  }

  lemma EmptyPermutation<T>(ys: seq<T>)
    requires multiset(ys) == multiset([])
    ensures ys == []
  {
    assert |ys| == |multiset(ys)| == 0;
  }

  lemma {:induction false} PricesConcat(a: seq<Row>, b: seq<Row>, width: int, m: string, bucket: int)
    requires width != 0
    ensures Prices(a + b, width, m, bucket) == Prices(a, width, m, bucket) + Prices(b, width, m, bucket)
  {
    if b == [] {
      assert a + b == a;
    } else {
      assert (a + b)[..|a + b| - 1] == a + b[..|b| - 1];
      PricesConcat(a, b[..|b| - 1], width, m, bucket);
    }
  }

  lemma {:induction false} PricesOfPermutation(xs: seq<Row>, ys: seq<Row>, width: int, m: string, bucket: int)
    requires width != 0 && multiset(xs) == multiset(ys)
    ensures multiset(Prices(xs, width, m, bucket)) == multiset(Prices(ys, width, m, bucket))
    decreases |xs|
  {
    if xs != [] {
      var init, x := xs[..|xs| - 1], xs[|xs| - 1];
      assert xs == init + [x];
      var before, after := Locate(init, x, ys);
      PricesOfPermutation(init, before + after, width, m, bucket);
      PricesAroundOne(xs, ys, init, before, after, x, width, m, bucket);
    } else {
      EmptyPermutation(ys);
    }
  }

  lemma PricesAroundOne(xs: seq<Row>, ys: seq<Row>, init: seq<Row>, before: seq<Row>, after: seq<Row>, x: Row,
                        width: int, m: string, bucket: int)
    requires width != 0 && xs == init + [x] && ys == before + ([x] + after)
    requires multiset(Prices(init, width, m, bucket)) == multiset(Prices(before + after, width, m, bucket))
    ensures multiset(Prices(xs, width, m, bucket)) == multiset(Prices(ys, width, m, bucket))
  {
    PricesConcat(before, after, width, m, bucket);
    PricesConcat(before, [x] + after, width, m, bucket);
    PricesConcat([x], after, width, m, bucket);
    PricesConcat(init, [x], width, m, bucket);
    MoveIntoTheMiddle(Prices(init, width, m, bucket), Prices([x], width, m, bucket),
                      Prices(before, width, m, bucket), Prices(after, width, m, bucket));
  }

  lemma MoveIntoTheMiddle<T>(all: seq<T>, one: seq<T>, before: seq<T>, after: seq<T>)
    requires multiset(all) == multiset(before + after)
    ensures multiset(all + one) == multiset(before + (one + after))
  {}

  /** Reordering the snapshots changes nothing: the same rows in any order give the same series. */
  lemma BucketingIgnoresOrder(xs: seq<Row>, ys: seq<Row>, width: int, a: Series, b: Series)
    requires width != 0 && multiset(xs) == multiset(ys)
    requires Averaged(a, xs, width) && Averaged(b, ys, width)
    ensures a == b
  {
    forall m ensures m in a <==> m in b { SameMarkets(xs, ys, width, a, b, m); }
    forall m | m in a ensures a[m] == b[m] { SameBuckets(xs, ys, width, a, b, m); }
  }

  lemma SameMarkets(xs: seq<Row>, ys: seq<Row>, width: int, a: Series, b: Series, m: string)
    requires width != 0 && multiset(xs) == multiset(ys)
    requires Averaged(a, xs, width) && Averaged(b, ys, width)
    ensures m in a <==> m in b
  {
    if m in a { SeenInAnyOrder(xs, ys, width, m); }
    if m in b { SeenInAnyOrder(ys, xs, width, m); }
  }

  lemma SameBuckets(xs: seq<Row>, ys: seq<Row>, width: int, a: Series, b: Series, m: string)
    requires width != 0 && multiset(xs) == multiset(ys)
    requires Averaged(a, xs, width) && Averaged(b, ys, width) && m in a && m in b
    ensures a[m] == b[m]
  {
    SameSeries(xs, ys, width, m, a[m], b[m]);
  }

  /** What the averaging promises determines the series. */
  lemma AveragedIsUnique(rows: seq<Row>, width: int, a: Series, b: Series)
    requires width != 0 && Averaged(a, rows, width) && Averaged(b, rows, width)
    ensures a == b
  {
    BucketingIgnoresOrder(rows, rows, width, a, b);
  }

  lemma FloorDivWindow(t: int, width: int, bucket: int)
    requires width > 0
    ensures FloorDiv(t, width) == bucket <==> bucket * width <= t < bucket * width + width
  {
    var q := FloorDiv(t, width);
    DividendInItsWindow(t, width, q);
    if q < bucket { WindowsAreApart(q, bucket, width); }
    if bucket < q { WindowsAreApart(bucket, q, width); }
  }

  lemma DividendInItsWindow(t: int, width: int, q: int)
    requires width > 0 && q == t / width
    ensures q * width <= t < q * width + width
  {
    assert t == q * width + t % width;
  }

  lemma WindowsAreApart(a: int, b: int, width: int)
    requires a < b && width > 0
    ensures a * width + width <= b * width
  {
    var d := b - a - 1;
    assert d * width >= 0;
    assert d * width == b * width - a * width - width;
  }

  /** A row counts for a market in the bucket whose window holds its time, and only there: labelled, with a price that is
      neither zero nor one, and timed. */
  lemma FallsInItsWindow(r: Row, width: int, market: string, bucket: int)
    requires width > 0
    ensures FallsIn(r, width, market, bucket) <==>
            && r.market == market && market != "" && r.price.Some? && r.price.value !in {0.0, 1.0}
            && r.time.Some? && bucket * width <= r.time.value < bucket * width + width
  {
    if r.time.Some? { FloorDivWindow(r.time.value, width, bucket); }
  }

  /** Only exactly zero and one are taken for placeholders: that a kept price of a labelled, timed row lies strictly
      between them holds if and only if the price is not outside the range. */
  lemma KeptPriceIsInRangeExactlyWhen(market: string, price: real, time: int)
    requires market != ""
    ensures (Usable(Row(market, Some(price), Some(time))) ==> 0.0 < price < 1.0) <==> 0.0 <= price <= 1.0
  {}

  lemma SeenInAnyOrder(xs: seq<Row>, ys: seq<Row>, width: int, m: string)
    requires width != 0 && multiset(xs) == multiset(ys) && exists k :: Prices(xs, width, m, k) != []
    ensures exists k :: Prices(ys, width, m, k) != []
  {
    var k :| Prices(xs, width, m, k) != [];
    SameMean(xs, ys, width, m, k);
  }

  lemma SameSeries(xs: seq<Row>, ys: seq<Row>, width: int, m: string, a: map<int, real>, b: map<int, real>)
    requires width != 0 && multiset(xs) == multiset(ys)
    requires AveragedFor(a, xs, width, m) && AveragedFor(b, ys, width, m)
    ensures a == b
  {
    forall k ensures (k in a <==> k in b) && (k in a ==> a[k] == b[k]) {
      SameMean(xs, ys, width, m, k);
    }
  }

  lemma SameMean(xs: seq<Row>, ys: seq<Row>, width: int, m: string, k: int)
    requires width != 0 && multiset(xs) == multiset(ys)
    ensures (Prices(xs, width, m, k) == []) == (Prices(ys, width, m, k) == [])
    ensures Prices(xs, width, m, k) != [] ==> Mean(Prices(xs, width, m, k)) == Mean(Prices(ys, width, m, k))
  {
    PricesOfPermutation(xs, ys, width, m, k);
    SumOfPermutation(Prices(xs, width, m, k), Prices(ys, width, m, k));
  }
}
