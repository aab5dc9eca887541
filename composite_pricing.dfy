/**
 * The reconciliation step of CompositePricingService.getMarketSummary: the
 * providers' settled results come in as a list, None standing for a provider
 * whose call failed.
 */
module CompositePricing {
  import opened Wrappers
  import opened Numbers
  import opened Sorting
  import opened PricingTypes

  const NoDataError: string := "No pricing data available from any provider"

  /** summaries.filter(s => s !== null), keeping provider order. */
  function ValidSummaries(results: seq<Option<MarketSummary>>): (v: seq<MarketSummary>)
    ensures |v| <= |results|
  {
    if |results| == 0 then []
    else (if results[0].Some? then [results[0].value] else []) + ValidSummaries(results[1..])
  }

  /** A summary survives exactly when some provider returned it. */
  lemma {:induction false} ValidSummariesMember(results: seq<Option<MarketSummary>>, s: MarketSummary)
    ensures s in ValidSummaries(results) <==> Some(s) in results
  {
    if |results| > 0 {
      ValidSummariesMember(results[1..], s);
      assert results == [results[0]] + results[1..];
    }
  }

  /** Nothing survives exactly when every provider failed. */
  lemma {:induction false} ValidSummariesEmpty(results: seq<Option<MarketSummary>>)
    ensures |ValidSummaries(results)| == 0 <==> forall i :: 0 <= i < |results| ==> results[i].None?
  {
    if |results| > 0 {
      ValidSummariesEmpty(results[1..]);
      assert forall i :: 1 <= i < |results| ==> results[i] == results[1..][i - 1];
    }
  }

  lemma {:induction false} ValidSummariesConcat(a: seq<Option<MarketSummary>>, b: seq<Option<MarketSummary>>)
    ensures ValidSummaries(a + b) == ValidSummaries(a) + ValidSummaries(b)
  {
    if |a| > 0 {
      assert (a + b)[1..] == a[1..] + b;
      ValidSummariesConcat(a[1..], b);
    } else {
      assert a + b == b;
    }
  }

  /** JavaScript truthiness of an optional number: present and not 0. */
  predicate Truthy(o: Option<real>) {
    o.Some? && o.value != 0.0
  }

  /** `s.soldAvg || s.mid || s.market`: realised sales first, then the mid price, then the market price. */
  function Representative(s: MarketSummary): (v: real)
    ensures v == s.market || (s.soldAvg.Some? && v == s.soldAvg.value) || (s.mid.Some? && v == s.mid.value)
    ensures Truthy(s.soldAvg) ==> v == s.soldAvg.value
    ensures !Truthy(s.soldAvg) && Truthy(s.mid) ==> v == s.mid.value
    ensures v != 0.0 <==> Truthy(s.soldAvg) || Truthy(s.mid) || s.market != 0.0
  {
    if Truthy(s.soldAvg) then s.soldAvg.value
    else if Truthy(s.mid) then s.mid.value
    else s.market
  }

  /** `s.low || s.market` */
  function LowOrMarket(s: MarketSummary): real {
    if Truthy(s.low) then s.low.value else s.market
  }

  /** `s.high || s.market` */
  function HighOrMarket(s: MarketSummary): real {
    if Truthy(s.high) then s.high.value else s.market
  }

  /** The representative value of each summary, in order. */
  function Representatives(v: seq<MarketSummary>): seq<real> {
    seq(|v|, i requires 0 <= i < |v| => Representative(v[i]))
  }

  /** `s.low || s.market` of each summary, in order. */
  function Lows(v: seq<MarketSummary>): seq<real> {
    seq(|v|, i requires 0 <= i < |v| => LowOrMarket(v[i]))
  }

  /** `s.high || s.market` of each summary, in order. */
  function Highs(v: seq<MarketSummary>): seq<real> {
    seq(|v|, i requires 0 <= i < |v| => HighOrMarket(v[i]))
  }

  /**
   * calculateMedian: the middle of the sorted copy, the mean of the two middle
   * values for an even count, 0 for no values.
   */
  function Median(values: seq<real>): real {
    if |values| == 0 then 0.0 else Middle(SortAsc(values))
  }

  /** The middle element of a list, or the mean of the two middle elements when the length is even. */
  function Middle(sorted: seq<real>): real
    requires |sorted| > 0
  {
    var mid := |sorted| / 2;
    if |sorted| % 2 == 0 then (sorted[mid - 1] + sorted[mid]) / 2.0 else sorted[mid]
  }

  /** Every element of the sorted copy is one of the values, so lies between their least and greatest. */
  lemma SortedElementBounded(values: seq<real>, k: int)
    requires 0 <= k < |values|
    ensures SortAsc(values)[k] in values
    ensures MinOf(values) <= SortAsc(values)[k] <= MaxOf(values)
  {
    var sorted := SortAsc(values);
    assert sorted[k] in multiset(sorted);
    var j :| 0 <= j < |values| && values[j] == sorted[k];
  }

  /** The middle of a list lies within any bounds on its elements, and is one of them for an odd length. */
  lemma MiddleWithin(sorted: seq<real>, lo: real, hi: real)
    requires |sorted| > 0
    requires forall k :: 0 <= k < |sorted| ==> lo <= sorted[k] <= hi
    ensures lo <= Middle(sorted) <= hi
    ensures |sorted| % 2 == 1 ==> Middle(sorted) == sorted[|sorted| / 2]
  {
  }

  /** The median lies between the least and the greatest value, and is one of them for an odd count. */
  lemma MedianBounds(values: seq<real>)
    ensures |values| == 0 ==> Median(values) == 0.0
    ensures |values| > 0 ==> MinOf(values) <= Median(values) <= MaxOf(values)
    ensures |values| % 2 == 1 ==> Median(values) in values
  {
    if |values| > 0 {
      var sorted := SortAsc(values);
      forall k | 0 <= k < |sorted|
        ensures MinOf(values) <= sorted[k] <= MaxOf(values)
      {
        SortedElementBounded(values, k);
      }
      MiddleWithin(sorted, MinOf(values), MaxOf(values));
      SortedElementBounded(values, |sorted| / 2);
    }
  }

  /** For values that are already in order the median is read off the middle directly. */
  lemma MedianOfSorted(s: seq<real>)
    requires SortedAsc(s) && |s| > 0
    ensures |s| % 2 == 1 ==> Median(s) == s[|s| / 2]
    ensures |s| % 2 == 0 ==> Median(s) == (s[|s| / 2 - 1] + s[|s| / 2]) / 2.0
  {
    SortOfSorted(s);
  }

  /** The median depends only on the values, not on the order the providers answered in. */
  lemma MedianPermutation(a: seq<real>, b: seq<real>)
    requires multiset(a) == multiset(b)
    ensures Median(a) == Median(b)
  {
    SortedUnique(SortAsc(a), SortAsc(b));
    assert |a| == |multiset(a)| == |b|;
  }

  /** `Math.abs(v - median) / median <= 0.5`; a zero median gives NaN or Infinity, which fail the test. */
  predicate Keep(v: real, median: real) {
    median != 0.0 && Abs(v - median) / median <= 0.5
  }

  lemma KeepNearPositiveMedian(v: real, median: real)
    requires median > 0.0
    ensures Keep(v, median) <==> median / 2.0 <= v <= median * 1.5
  {
    var d := Abs(v - median);
    assert (d / median) * median == d;
    if d / median <= 0.5 {
      assert d <= 0.5 * median;
    }
    if d <= 0.5 * median {
      assert d / median <= 0.5;
    }
  }

  lemma KeepAllBelowZeroMedian(v: real, median: real)
    requires median < 0.0
    ensures Keep(v, median)
  {
    var d := Abs(v - median);
    assert d / median == -(d / -median);
    QuotientNonNegative(d, -median);
  }

  /** The outlier filter `values.filter(v => Math.abs(v - median) / median <= 0.5)`: exactly the values that pass Keep, with their multiplicities and order. */
  function FilterOutliers(values: seq<real>, median: real): (kept: seq<real>)
    ensures |kept| <= |values|
    ensures forall v :: v in kept <==> v in values && Keep(v, median)
    ensures forall v :: multiset(kept)[v] == if Keep(v, median) then multiset(values)[v] else 0
  {
    if |values| == 0 then []
    else
      assert values == [values[0]] + values[1..];
      (if Keep(values[0], median) then [values[0]] else []) + FilterOutliers(values[1..], median)
  }

  /** The unrounded aggregate market value: the mean of the representatives that survive the outlier filter. */
  function RawMarket(valid: seq<MarketSummary>): real {
    var values := Representatives(valid);
    Mean(FilterOutliers(values, Median(values)))
  }

  /** The lower band before rounding: Math.min over `s.low || s.market` of every surviving summary. */
  function RawLow(valid: seq<MarketSummary>): real
    requires |valid| > 0
  {
    MinOf(Lows(valid))
  }

  function RawHigh(valid: seq<MarketSummary>): real
    requires |valid| > 0
  {
    MaxOf(Highs(valid))
  }

  /** The soldAvg of every summary that defines one (0 included: the filter tests `!== undefined`). */
  function SoldAvgs(v: seq<MarketSummary>): (r: seq<real>)
    ensures |r| <= |v|
  {
    if |v| == 0 then []
    else (if v[0].soldAvg.Some? then [v[0].soldAvg.value] else []) + SoldAvgs(v[1..])
  }

  /** A value is listed exactly when some summary reports it as its soldAvg. */
  lemma {:induction false} SoldAvgsMember(v: seq<MarketSummary>, x: real)
    ensures x in SoldAvgs(v) <==> exists i :: 0 <= i < |v| && v[i].soldAvg == Some(x)
  {
    if |v| > 0 {
      SoldAvgsMember(v[1..], x);
      assert forall i :: 1 <= i < |v| ==> v[i] == v[1..][i - 1];
      if x in SoldAvgs(v[1..]) {
        var k :| 0 <= k < |v[1..]| && v[1..][k].soldAvg == Some(x);
        assert v[k + 1].soldAvg == Some(x);
      }
    }
  }

  /** One summary contributes its soldAvg once when it defines one, and nothing otherwise. */
  lemma SoldAvgsOfOne(s: MarketSummary)
    ensures SoldAvgs([s]) == if s.soldAvg.Some? then [s.soldAvg.value] else []
  {
    assert [s][1..] == [];
  }

  /** The collected soldAvgs keep the summary order and every repeat, so their mean is the source's. */
  lemma {:induction false} SoldAvgsConcat(a: seq<MarketSummary>, b: seq<MarketSummary>)
    ensures SoldAvgs(a + b) == SoldAvgs(a) + SoldAvgs(b)
  {
    if |a| > 0 {
      assert (a + b)[1..] == a[1..] + b;
      SoldAvgsConcat(a[1..], b);
    } else {
      assert a + b == b;
    }
  }

  /** No value is listed exactly when no summary defines a soldAvg. */
  lemma {:induction false} SoldAvgsEmpty(v: seq<MarketSummary>)
    ensures |SoldAvgs(v)| == 0 <==> forall i :: 0 <= i < |v| ==> v[i].soldAvg.None?
  {
    if |v| > 0 {
      SoldAvgsEmpty(v[1..]);
      assert forall i :: 1 <= i < |v| ==> v[i] == v[1..][i - 1];
    }
  }

  /** `s.sampleSize || 0` */
  function SampleSizeOrZero(s: MarketSummary): int {
    if s.sampleSize.Some? then s.sampleSize.value else 0
  }

  function TotalSampleSize(v: seq<MarketSummary>): int {
    if |v| == 0 then 0 else SampleSizeOrZero(v[0]) + TotalSampleSize(v[1..])
  }

  lemma {:induction false} TotalSampleSizeConcat(a: seq<MarketSummary>, b: seq<MarketSummary>)
    ensures TotalSampleSize(a + b) == TotalSampleSize(a) + TotalSampleSize(b)
  {
    if |a| > 0 {
      assert (a + b)[1..] == a[1..] + b;
      TotalSampleSizeConcat(a[1..], b);
    } else {
      assert a + b == b;
    }
  }

  /** Math.max of the summaries' timestamps. */
  function LatestUpdate(v: seq<MarketSummary>): (t: int)
    requires |v| > 0
    ensures forall i :: 0 <= i < |v| ==> v[i].lastUpdated <= t
    ensures exists i :: 0 <= i < |v| && v[i].lastUpdated == t
  {
    if |v| == 1 then v[0].lastUpdated
    else
      var rest := LatestUpdate(v[1..]);
      var k :| 0 <= k < |v[1..]| && v[1..][k].lastUpdated == rest;
      assert v[k + 1].lastUpdated == rest;
      if v[0].lastUpdated >= rest then v[0].lastUpdated else rest
  }

  /** validSummaries.flatMap(s => s.sources) */
  function AllSources(v: seq<MarketSummary>): (r: seq<PricePoint>) {
    if |v| == 0 then [] else v[0].sources + AllSources(v[1..])
  }

  /** A price point is listed exactly when one of the summaries carries it. */
  lemma {:induction false} AllSourcesMember(v: seq<MarketSummary>, p: PricePoint)
    ensures p in AllSources(v) <==> exists i :: 0 <= i < |v| && p in v[i].sources
  {
    if |v| > 0 {
      AllSourcesMember(v[1..], p);
      assert forall i :: 1 <= i < |v| ==> v[i] == v[1..][i - 1];
      if p in AllSources(v[1..]) {
        var k :| 0 <= k < |v[1..]| && p in v[1..][k].sources;
        assert p in v[k + 1].sources;
      }
    }
  }

  lemma {:induction false} AllSourcesConcat(a: seq<MarketSummary>, b: seq<MarketSummary>)
    ensures AllSources(a + b) == AllSources(a) + AllSources(b)
  {
    if |a| > 0 {
      assert (a + b)[1..] == a[1..] + b;
      AllSourcesConcat(a[1..], b);
    } else {
      assert a + b == b;
    }
  }

  /** The reported soldAvg: the mean over the summaries that define one, dropped when there are none or it is 0. */
  function SoldAvgValue(valid: seq<MarketSummary>): Option<real> {
    var sold := SoldAvgs(valid);
    if |sold| > 0 && Mean(sold) != 0.0 then Some(Round2(Mean(sold))) else None
  }

  /** The reported sampleSize: the total, dropped unless positive. */
  function SampleSizeValue(valid: seq<MarketSummary>): (r: Option<int>)
    ensures r.Some? ==> r.value > 0
  {
    var total := TotalSampleSize(valid);
    if total > 0 then Some(total) else None
  }

  /** The summary built from the surviving provider summaries: merged sources, rounded prices, summed sample size, latest time. */
  function Reconcile(valid: seq<MarketSummary>): (r: MarketSummary)
    requires |valid| > 0
    ensures r.low.Some? && r.mid.Some? && r.high.Some?
  {
    MarketSummary(
      currency := valid[0].currency,
      market := Round2(RawMarket(valid)),
      low := Some(Round2(RawLow(valid))),
      mid := Some(Round2((RawLow(valid) + RawHigh(valid)) / 2.0)),
      high := Some(Round2(RawHigh(valid))),
      soldAvg := SoldAvgValue(valid),
      sampleSize := SampleSizeValue(valid),
      lastUpdated := LatestUpdate(valid),
      sources := AllSources(valid))
  }

  /** getMarketSummary after all provider calls have settled. */
  function Aggregate(results: seq<Option<MarketSummary>>): Result<MarketSummary, string> {
    var valid := ValidSummaries(results);
    if |valid| == 0 then Failure(NoDataError) else Success(Reconcile(valid))
  }

  // Properties of the aggregate

  /** The call fails, with the fixed message, exactly when every provider failed (or there are none). */
  lemma AggregateFailsIffAllFailed(results: seq<Option<MarketSummary>>)
    ensures Aggregate(results).Failure? <==> forall i :: 0 <= i < |results| ==> results[i].None?
    ensures Aggregate(results).Failure? ==> Aggregate(results).error == NoDataError
  {
    ValidSummariesEmpty(results);
  }

  lemma AggregateFailsWithoutProviders()
    ensures Aggregate([]) == Failure(NoDataError)
  {
  }

  /** The aggregate depends on the provider results only through the surviving summaries. */
  lemma AggregateOfSameSummaries(x: seq<Option<MarketSummary>>, y: seq<Option<MarketSummary>>)
    requires ValidSummaries(x) == ValidSummaries(y)
    ensures Aggregate(x) == Aggregate(y)
  {
  }

  /** A provider that failed is dropped and does not change the result, wherever it stands. */
  lemma AggregateIgnoresFailedProvider(a: seq<Option<MarketSummary>>, b: seq<Option<MarketSummary>>)
    ensures Aggregate(a + [None] + b) == Aggregate(a + b)
  {
    assert ValidSummaries(a + [None] + b) == ValidSummaries(a + b) by {
      ValidSummariesConcat(a + [None], b);
      ValidSummariesConcat(a, [None]);
      ValidSummariesConcat(a, b);
      assert ValidSummaries([None]) == [];
    }
    AggregateOfSameSummaries(a + [None] + b, a + b);
  }

  lemma SingletonValid(s: MarketSummary)
    ensures ValidSummaries([Some(s)]) == [s]
  {
    assert [Some(s)][1..] == [];
  }

  lemma PairValid(s1: MarketSummary, s2: MarketSummary)
    ensures ValidSummaries([Some(s1), Some(s2)]) == [s1, s2]
  {
    assert [Some(s1), Some(s2)][1..] == [Some(s2)];
    SingletonValid(s2);
  }

  lemma RawMarketSingle(s: MarketSummary)
    ensures Round2(RawMarket([s])) == Round2(Representative(s))
  {
    var v := Representative(s);
    assert Representatives([s]) == [v];
    MedianOfSorted([v]);
    assert [v][1..] == [];
    if v != 0.0 {
      assert Keep(v, v);
      assert FilterOutliers([v], v) == [v];
      MeanSingleton(v);
    } else {
      assert FilterOutliers([v], v) == [];
    }
  }

  lemma SoldAvgSingle(s: MarketSummary)
    ensures SoldAvgValue([s]) == if Truthy(s.soldAvg) then Some(Round2(s.soldAvg.value)) else None
  {
    assert [s][1..] == [];
    if s.soldAvg.Some? {
      assert SoldAvgs([s]) == [s.soldAvg.value];
      MeanSingleton(s.soldAvg.value);
    } else {
      assert SoldAvgs([s]) == [];
    }
  }

  /** Each field the aggregate reports for a single summary s. */
  predicate SingleOutcome(r: MarketSummary, s: MarketSummary) {
    && r.market == Round2(Representative(s))
    && r.low == Some(Round2(LowOrMarket(s)))
    && r.high == Some(Round2(HighOrMarket(s)))
    && r.mid == Some(Round2((LowOrMarket(s) + HighOrMarket(s)) / 2.0))
    && r.soldAvg == (if Truthy(s.soldAvg) then Some(Round2(s.soldAvg.value)) else None)
    && r.sampleSize == (if SampleSizeOrZero(s) > 0 then Some(SampleSizeOrZero(s)) else None)
    && r.lastUpdated == s.lastUpdated
    && r.currency == s.currency
    && r.sources == s.sources
  }

  lemma ReconcileSingle(s: MarketSummary)
    ensures SingleOutcome(Reconcile([s]), s)
  {
    RawMarketSingle(s);
    SoldAvgSingle(s);
    assert [s][1..] == [];
    assert RawLow([s]) == LowOrMarket(s) by {
      assert Lows([s]) == [LowOrMarket(s)];
    }
    assert RawHigh([s]) == HighOrMarket(s) by {
      assert Highs([s]) == [HighOrMarket(s)];
    }
    assert TotalSampleSize([s]) == SampleSizeOrZero(s);
    assert AllSources([s]) == s.sources;
  }

  /** With one summary the aggregate is that summary's own contribution, rounded. */
  lemma AggregateSingleSummary(s: MarketSummary)
    ensures Aggregate([Some(s)]).Success?
    ensures SingleOutcome(Aggregate([Some(s)]).value, s)
  {
    SingletonValid(s);
    ReconcileSingle(s);
  }

  /** Every value kept around a positive median lies within half of it either way, and so does their mean. */
  lemma KeptMeanNearMedian(values: seq<real>, m: real)
    requires m > 0.0 && |FilterOutliers(values, m)| > 0
    ensures m / 2.0 <= Mean(FilterOutliers(values, m)) <= m * 1.5
  {
    var kept := FilterOutliers(values, m);
    forall i | 0 <= i < |kept|
      ensures m / 2.0 <= kept[i] <= m * 1.5
    {
      assert kept[i] in kept;
      KeepNearPositiveMedian(kept[i], m);
    }
    MeanWithin(kept, m / 2.0, m * 1.5);
  }

  lemma RawMarketNearMedian(valid: seq<MarketSummary>)
    requires var values := Representatives(valid);
      Median(values) > 0.0 && |FilterOutliers(values, Median(values))| > 0
    ensures var m := Median(Representatives(valid));
      m / 2.0 <= RawMarket(valid) <= m * 1.5
  {
    var values := Representatives(valid);
    KeptMeanNearMedian(values, Median(values));
  }

  lemma RoundedWithin(raw: real, lo: real, hi: real)
    requires lo <= raw <= hi
    ensures Round2(lo) <= Round2(raw) <= Round2(hi)
  {
    Round2Monotone(lo, raw);
    Round2Monotone(raw, hi);
  }

  /** Rounding moves a non-negative value by at most half a cent. */
  lemma RoundedNear(raw: real, lo: real, hi: real)
    requires 0.0 <= lo <= raw <= hi
    ensures lo - 0.005 < Round2(raw) <= hi + 0.005
  {
    Round2Spec(raw);
  }

  lemma ReconcileMarketNearMedian(valid: seq<MarketSummary>, m: real)
    requires |valid| > 0
    requires m == Median(Representatives(valid))
    requires m > 0.0 && |FilterOutliers(Representatives(valid), m)| > 0
    ensures m / 2.0 - 0.005 < Reconcile(valid).market <= m * 1.5 + 0.005
  {
    RawMarketNearMedian(valid);
    RoundedNear(RawMarket(valid), m / 2.0, m * 1.5);
  }

  /** When some value survives a positive median m, the market lies in [m/2, 3m/2], give or take the rounding. */
  lemma AggregateMarketNearMedian(results: seq<Option<MarketSummary>>)
    requires Aggregate(results).Success?
    requires var values := Representatives(ValidSummaries(results));
      Median(values) > 0.0 && |FilterOutliers(values, Median(values))| > 0
    ensures var m := Median(Representatives(ValidSummaries(results)));
      m / 2.0 - 0.005 < Aggregate(results).value.market <= m * 1.5 + 0.005
  {
    var valid := ValidSummaries(results);
    ReconcileMarketNearMedian(valid, Median(Representatives(valid)));
  }

  /** With an odd number of summaries and a positive median, the median itself survives the filter. */
  lemma OddCountKeepsMedian(values: seq<real>)
    requires |values| % 2 == 1 && Median(values) > 0.0
    ensures Median(values) in FilterOutliers(values, Median(values))
  {
    MedianBounds(values);
    KeepNearPositiveMedian(Median(values), Median(values));
  }

  /** There is no fallback to the unfiltered mean: when every value is rejected the market is 0. */
  lemma AggregateNothingKept(results: seq<Option<MarketSummary>>)
    requires Aggregate(results).Success?
    requires var values := Representatives(ValidSummaries(results));
      |FilterOutliers(values, Median(values))| == 0
    ensures Aggregate(results).value.market == 0.0
  {
    assert Aggregate(results).value.market == Round2(RawMarket(ValidSummaries(results)));
  }

  /** When no value passes the test the filter keeps nothing. */
  lemma {:induction false} NothingKept(values: seq<real>, median: real)
    requires forall i :: 0 <= i < |values| ==> !Keep(values[i], median)
    ensures FilterOutliers(values, median) == []
  {
    if |values| > 0 {
      NothingKept(values[1..], median);
    }
  }

  /** The median of two ordered values is their mean. */
  lemma MedianOfPair(a: real, b: real)
    requires a <= b
    ensures Median([a, b]) == (a + b) / 2.0
  {
    MedianOfSorted([a, b]);
  }

  /** Two positive values more than a factor of three apart both deviate from their median by more than half. */
  lemma FarApartRejected(a: real, b: real)
    requires 0.0 < a && 3.0 * a < b
    ensures FilterOutliers([a, b], Median([a, b])) == []
  {
    var m := Median([a, b]);
    MedianOfPair(a, b);
    KeepNearPositiveMedian(a, m);
    KeepNearPositiveMedian(b, m);
    assert forall i :: 0 <= i < |[a, b]| ==> !Keep([a, b][i], m);
    NothingKept([a, b], m);
  }

  /** Two summaries whose representatives differ by more than a factor of three reject each other. */
  lemma TwoFarApartSummaries(s1: MarketSummary, s2: MarketSummary)
    requires 0.0 < Representative(s1) && 3.0 * Representative(s1) < Representative(s2)
    ensures Aggregate([Some(s1), Some(s2)]).Success?
    ensures Aggregate([Some(s1), Some(s2)]).value.market == 0.0
  {
    PairValid(s1, s2);
    assert Representatives([s1, s2]) == [Representative(s1), Representative(s2)];
    FarApartRejected(Representative(s1), Representative(s2));
    AggregateNothingKept([Some(s1), Some(s2)]);
  }

  /** The unrounded bands bound every surviving summary's `low || market` and `high || market`. */
  lemma RawBands(valid: seq<MarketSummary>, s: MarketSummary)
    requires s in valid
    ensures RawLow(valid) <= LowOrMarket(s) && HighOrMarket(s) <= RawHigh(valid)
  {
    var i :| 0 <= i < |valid| && valid[i] == s;
    assert Lows(valid)[i] == LowOrMarket(s) && Highs(valid)[i] == HighOrMarket(s);
  }

  /** low lies at or below `low || market` of every surviving summary, outliers included. */
  lemma AggregateLowBound(results: seq<Option<MarketSummary>>, s: MarketSummary)
    requires Some(s) in results
    ensures Aggregate(results).Success?
    ensures Aggregate(results).value.low.value <= Round2(LowOrMarket(s))
  {
    var valid := ValidSummaries(results);
    ValidSummariesMember(results, s);
    RawBands(valid, s);
    Round2Monotone(RawLow(valid), LowOrMarket(s));
  }

  /** high lies at or above `high || market` of every surviving summary, outliers included. */
  lemma AggregateHighBound(results: seq<Option<MarketSummary>>, s: MarketSummary)
    requires Some(s) in results
    ensures Aggregate(results).Success?
    ensures Round2(HighOrMarket(s)) <= Aggregate(results).value.high.value
  {
    var valid := ValidSummaries(results);
    ValidSummariesMember(results, s);
    RawBands(valid, s);
    Round2Monotone(HighOrMarket(s), RawHigh(valid));
  }

  /** low and high are each attained by some surviving summary. */
  lemma AggregateBandsAttained(results: seq<Option<MarketSummary>>)
    requires Aggregate(results).Success?
    ensures exists s :: Some(s) in results && Aggregate(results).value.low.value == Round2(LowOrMarket(s))
    ensures exists s :: Some(s) in results && Aggregate(results).value.high.value == Round2(HighOrMarket(s))
  {
    var valid := ValidSummaries(results);
    var i :| 0 <= i < |valid| && Lows(valid)[i] == RawLow(valid);
    assert valid[i] in valid;
    ValidSummariesMember(results, valid[i]);
    var j :| 0 <= j < |valid| && Highs(valid)[j] == RawHigh(valid);
    assert valid[j] in valid;
    ValidSummariesMember(results, valid[j]);
  }

  lemma RoundedMidBetween(valid: seq<MarketSummary>, s: MarketSummary)
    requires s in valid && LowOrMarket(s) <= HighOrMarket(s)
    ensures var low, high := RawLow(valid), RawHigh(valid);
      Round2(low) <= Round2((low + high) / 2.0) <= Round2(high)
  {
    RawBands(valid, s);
    RoundedWithin((RawLow(valid) + RawHigh(valid)) / 2.0, RawLow(valid), RawHigh(valid));
  }

  lemma ReconcileMidBetween(valid: seq<MarketSummary>, s: MarketSummary)
    requires s in valid && LowOrMarket(s) <= HighOrMarket(s)
    ensures var r := Reconcile(valid); r.low.value <= r.mid.value <= r.high.value
  {
    RoundedMidBetween(valid, s);
  }

  /** mid lies between low and high as soon as one surviving summary has `low || market` <= `high || market`. */
  lemma AggregateMidBetween(results: seq<Option<MarketSummary>>, s: MarketSummary)
    requires Some(s) in results && LowOrMarket(s) <= HighOrMarket(s)
    ensures Aggregate(results).Success?
    ensures var r := Aggregate(results).value; r.low.value <= r.mid.value <= r.high.value
  {
    ValidSummariesMember(results, s);
    ReconcileMidBetween(ValidSummaries(results), s);
  }

  /** lastUpdated is the most recent timestamp among the surviving summaries. */
  lemma AggregateLatestUpdate(results: seq<Option<MarketSummary>>)
    requires Aggregate(results).Success?
    ensures forall s :: Some(s) in results ==> s.lastUpdated <= Aggregate(results).value.lastUpdated
    ensures exists s :: Some(s) in results && s.lastUpdated == Aggregate(results).value.lastUpdated
  {
    var valid := ValidSummaries(results);
    assert Aggregate(results).value.lastUpdated == LatestUpdate(valid);
    forall s | Some(s) in results
      ensures s.lastUpdated <= LatestUpdate(valid)
    {
      ValidSummariesMember(results, s);
      var k :| 0 <= k < |valid| && valid[k] == s;
    }
    var i :| 0 <= i < |valid| && valid[i].lastUpdated == LatestUpdate(valid);
    assert valid[i] in valid;
    ValidSummariesMember(results, valid[i]);
  }

  /** The currency is the first surviving summary's, whatever the later ones say. */
  lemma AggregateCurrencyFromFirst(failed: seq<Option<MarketSummary>>, s: MarketSummary, rest: seq<Option<MarketSummary>>)
    requires forall i :: 0 <= i < |failed| ==> failed[i].None?
    ensures Aggregate(failed + [Some(s)] + rest).Success?
    ensures Aggregate(failed + [Some(s)] + rest).value.currency == s.currency
  {
    var results := failed + [Some(s)] + rest;
    assert ValidSummaries(results)[0] == s by {
      ValidSummariesEmpty(failed);
      ValidSummariesConcat(failed + [Some(s)], rest);
      ValidSummariesConcat(failed, [Some(s)]);
      SingletonValid(s);
    }
    assert results[|failed|] == Some(s);
  }

  /** The provenance lists are concatenated in provider order. */
  lemma AggregateSourcesInOrder(a: seq<Option<MarketSummary>>, b: seq<Option<MarketSummary>>)
    requires Aggregate(a + b).Success?
    ensures Aggregate(a + b).value.sources == AllSources(ValidSummaries(a)) + AllSources(ValidSummaries(b))
    ensures forall p :: p in Aggregate(a + b).value.sources <==> exists s :: Some(s) in a + b && p in s.sources
  {
    var valid := ValidSummaries(a + b);
    assert Aggregate(a + b).value.sources == AllSources(valid);
    assert AllSources(valid) == AllSources(ValidSummaries(a)) + AllSources(ValidSummaries(b)) by {
      ValidSummariesConcat(a, b);
      AllSourcesConcat(ValidSummaries(a), ValidSummaries(b));
    }
    forall p
      ensures p in AllSources(valid) <==> exists s :: Some(s) in a + b && p in s.sources
    {
      AllSourcesMember(valid, p);
      if p in AllSources(valid) {
        var i :| 0 <= i < |valid| && p in valid[i].sources;
        assert valid[i] in valid;
        ValidSummariesMember(a + b, valid[i]);
      }
      if s :| Some(s) in a + b && p in s.sources {
        ValidSummariesMember(a + b, s);
        var i :| 0 <= i < |valid| && valid[i] == s;
      }
    }
  }

  /** The total sample size is reported only when it is positive. */
  lemma AggregateSampleSize(results: seq<Option<MarketSummary>>)
    requires Aggregate(results).Success?
    ensures var total := TotalSampleSize(ValidSummaries(results));
      Aggregate(results).value.sampleSize == if total > 0 then Some(total) else None
  {
  }

  /** Two summaries: their sample sizes add up, and their sources come first-provider first. */
  lemma AggregatePair(s1: MarketSummary, s2: MarketSummary)
    ensures Aggregate([Some(s1), Some(s2)]).Success?
    ensures var r := Aggregate([Some(s1), Some(s2)]).value;
      && r.sources == s1.sources + s2.sources
      && |r.sources| == |s1.sources| + |s2.sources|
      && r.sampleSize == (var n := SampleSizeOrZero(s1) + SampleSizeOrZero(s2); if n > 0 then Some(n) else None)
      && r.currency == s1.currency
  {
    PairValid(s1, s2);
    assert [s1, s2] == [s1] + [s2];
    assert [s1][1..] == [] && [s2][1..] == [];
    assert AllSources([s1, s2]) == s1.sources + s2.sources by {
      AllSourcesConcat([s1], [s2]);
      assert AllSources([s1]) == s1.sources && AllSources([s2]) == s2.sources;
    }
    assert TotalSampleSize([s1, s2]) == SampleSizeOrZero(s1) + SampleSizeOrZero(s2) by {
      TotalSampleSizeConcat([s1], [s2]);
    }
  }

  /** When only the second of two summaries reports a sold average, the aggregate's soldAvg is that one, rounded. */
  lemma AggregatePairSoldAvg(s1: MarketSummary, s2: MarketSummary)
    requires s1.soldAvg.None? && s2.soldAvg.Some?
    ensures Aggregate([Some(s1), Some(s2)]).Success?
    ensures Aggregate([Some(s1), Some(s2)]).value.soldAvg ==
      (if s2.soldAvg.value != 0.0 then Some(Round2(s2.soldAvg.value)) else None)
  {
    var rs := [Some(s1), Some(s2)];
    AggregateFailsIffAllFailed(rs);
    PairValid(s1, s2);
    assert [s1, s2][1..] == [s2] && [s2][1..] == [];
    assert SoldAvgs([s1, s2]) == [s2.soldAvg.value];
    MeanSingleton(s2.soldAvg.value);
    AggregateSoldAvg(rs);
  }

  /** soldAvg is absent unless some summary defines one, and is then the rounded mean of those that do. */
  lemma AggregateSoldAvg(results: seq<Option<MarketSummary>>)
    requires Aggregate(results).Success?
    ensures (forall s :: Some(s) in results ==> s.soldAvg.None?) ==> Aggregate(results).value.soldAvg.None?
    ensures var r := Aggregate(results).value; var sold := SoldAvgs(ValidSummaries(results));
      r.soldAvg.Some? <==> |sold| > 0 && Mean(sold) != 0.0
    ensures var r := Aggregate(results).value; var sold := SoldAvgs(ValidSummaries(results));
      r.soldAvg.Some? ==> r.soldAvg.value == Round2(Mean(sold))
  {
    var valid := ValidSummaries(results);
    assert Aggregate(results).value.soldAvg == SoldAvgValue(valid);
    if forall s :: Some(s) in results ==> s.soldAvg.None? {
      forall i | 0 <= i < |valid|
        ensures valid[i].soldAvg.None?
      {
        assert valid[i] in valid;
        ValidSummariesMember(results, valid[i]);
      }
      SoldAvgsEmpty(valid);
    }
  }

  /** Every band is present and every price is a cent value. */
  ghost predicate PricesInCents(r: MarketSummary) {
    && r.low.Some? && r.mid.Some? && r.high.Some?
    && IsCents(r.market) && IsCents(r.low.value) && IsCents(r.mid.value) && IsCents(r.high.value)
    && (r.soldAvg.Some? ==> IsCents(r.soldAvg.value))
  }

  /**
   * Rounding any price again leaves it unchanged, and so does the test's own
   * check of two decimals, `x == Math.round(x * 100) / 100`.
   */
  ghost predicate PricesRoundTrip(r: MarketSummary) {
    && r.low.Some? && r.mid.Some? && r.high.Some?
    && Round2(r.market) == r.market
    && Round2(r.low.value) == r.low.value
    && Round2(r.mid.value) == r.mid.value
    && Round2(r.high.value) == r.high.value
    && (r.soldAvg.Some? ==> Round2(r.soldAvg.value) == r.soldAvg.value)
    && r.market == (JsRound(r.market * 100.0) as real) / 100.0
    && r.low.value == (JsRound(r.low.value * 100.0) as real) / 100.0
    && r.mid.value == (JsRound(r.mid.value * 100.0) as real) / 100.0
    && r.high.value == (JsRound(r.high.value * 100.0) as real) / 100.0
  }

  lemma ReconcileCents(valid: seq<MarketSummary>)
    requires |valid| > 0
    ensures PricesInCents(Reconcile(valid))
  {
    var low, high := RawLow(valid), RawHigh(valid);
    Round2Spec(RawMarket(valid));
    Round2Spec(low);
    Round2Spec((low + high) / 2.0);
    Round2Spec(high);
    Round2Spec(Mean(SoldAvgs(valid)));
  }

  lemma CentsRoundTripSummary(r: MarketSummary)
    requires PricesInCents(r)
    ensures PricesRoundTrip(r)
  {
    Round2OfCents(r.market);
    Round2OfCents(r.low.value);
    Round2OfCents(r.mid.value);
    Round2OfCents(r.high.value);
    if r.soldAvg.Some? {
      Round2OfCents(r.soldAvg.value);
    }
    CentsRoundTrip(r.market);
    CentsRoundTrip(r.low.value);
    CentsRoundTrip(r.mid.value);
    CentsRoundTrip(r.high.value);
  }

  /** Every price of the aggregate is a cent value, so it survives rounding again and the test's check. */
  lemma AggregatePricesRoundTrip(results: seq<Option<MarketSummary>>)
    requires Aggregate(results).Success?
    ensures PricesInCents(Aggregate(results).value)
    ensures PricesRoundTrip(Aggregate(results).value)
  {
    ReconcileCents(ValidSummaries(results));
    CentsRoundTripSummary(Aggregate(results).value);
  }
}
