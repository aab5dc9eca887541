/**
 * The deal evaluator: target prices at 80, 85 and 90 percent of a market
 * value, and the verdict on an asking price against a market summary.
 * Prices that may be Infinity or NaN are `Num`s; the clock (`Date.now()`) is
 * the parameter `now`, in milliseconds like `lastUpdated`.
 */
module Deals {
  import opened Wrappers
  import opened Numbers
  import opened Text
  import opened PricingTypes

  /** 24 hours in milliseconds. */
  const StaleThresholdMs: int := 24 * 60 * 60 * 1000
  const MsPerHour: int := 60 * 60 * 1000

  datatype DealTargets = DealTargets(pct80: real, pct85: real, pct90: real)

  datatype Verdict = Good | Fair | Overpriced | Unknown

  /** The evaluator's result, with the targets spread into it. */
  datatype DealVerdict = DealVerdict(verdict: Verdict, confidence: real, reason: string, targets: DealTargets)

  /** A market value both guards accept: `!(v <= 0 || !isFinite(v))`, which also rules out a falsy 0 and NaN. */
  predicate UsableMarket(v: Num) {
    v.Finite? && v.value > 0.0
  }

  /** An asking price the first guard accepts: `!(p < 0 || !isFinite(p))`. */
  predicate ValidAsking(p: Num) {
    p.Finite? && p.value >= 0.0
  }

  /** Each target is a cent value within half a cent of its share of the market value `m`, and they are ordered. */
  ghost predicate NearShares(t: DealTargets, m: real) {
    && IsCents(t.pct80) && IsCents(t.pct85) && IsCents(t.pct90)
    && 0.8 * m - 0.005 < t.pct80 <= 0.8 * m + 0.005
    && 0.85 * m - 0.005 < t.pct85 <= 0.85 * m + 0.005
    && 0.9 * m - 0.005 < t.pct90 <= 0.9 * m + 0.005
    && 0.0 <= t.pct80 <= t.pct85 <= t.pct90
  }

  /** computeDealTargets: the 80, 85 and 90 percent targets of a usable market value, zeros otherwise. */
  function ComputeDealTargets(marketValue: Num): (t: DealTargets)
    ensures UsableMarket(marketValue) ==> NearShares(t, marketValue.value)
    ensures !UsableMarket(marketValue) ==> t == DealTargets(0.0, 0.0, 0.0)
  {
    if !UsableMarket(marketValue) then DealTargets(0.0, 0.0, 0.0)
    else
      var m := marketValue.value;
      Round2Spec(m * 0.8);
      Round2Spec(m * 0.85);
      Round2Spec(m * 0.9);
      Round2Monotone(m * 0.8, m * 0.85);
      Round2Monotone(m * 0.85, m * 0.9);
      DealTargets(Round2(m * 0.8), Round2(m * 0.85), Round2(m * 0.9))
  }

  lemma TargetsOfHundred()
    ensures ComputeDealTargets(Finite(100.0)) == DealTargets(80.0, 85.0, 90.0)
  {
    Round2OfCents(80.0);
    Round2OfCents(85.0);
    Round2OfCents(90.0);
  }

  /** At 99.99 every target rounds down to a cent. */
  lemma TargetsOfAlmostHundred()
    ensures ComputeDealTargets(Finite(99.99)) == DealTargets(79.99, 84.99, 89.99)
  {
  }

  /** At 33.33 the 90 % target rounds up to 30.00. */
  lemma TargetsOfThird()
    ensures ComputeDealTargets(Finite(33.33)) == DealTargets(26.66, 28.33, 30.0)
  {
  }

  /**
   * The additive confidence score: 0.7, plus 0.2 for a truthy sample size
   * above 10, plus 0.1 for more than one source, capped at 1.0.
   */
  function Confidence(sampleSize: Option<int>, sourceCount: int): (c: real)
    ensures 0.7 <= c <= 1.0
  {
    var base := 0.7;
    var withSamples := if sampleSize.Some? && sampleSize.value != 0 && sampleSize.value > 10 then base + 0.2 else base;
    var withSources := if sourceCount > 1 then withSamples + 0.1 else withSamples;
    Min(withSources, 1.0)
  }

  /** The four confidence levels and what earns each. */
  lemma ConfidenceLevels(sampleSize: Option<int>, sourceCount: int)
    ensures var c := Confidence(sampleSize, sourceCount);
      var many := sampleSize.Some? && sampleSize.value > 10;
      && (c == 1.0 <==> many && sourceCount > 1)
      && (c == 0.9 <==> many && sourceCount <= 1)
      && (c == 0.8 <==> !many && sourceCount > 1)
      && (c == 0.7 <==> !many && sourceCount <= 1)
  {
  }

  /** Math.round(((market - asking) / market) * 100) */
  function PercentBelow(asking: real, market: real): int
    requires market > 0.0
  {
    JsRound((market - asking) / market * 100.0)
  }

  /** Math.round(((asking - market) / market) * 100) */
  function PercentOver(asking: real, market: real): int
    requires market > 0.0
  {
    JsRound((asking - market) / market * 100.0)
  }

  const InvalidAskingReason: string := "Invalid asking price"
  const UnavailableReason: string := "Market data unavailable"
  const AtMarketReason: string := "Asking price is at market value"

  function StaleReason(hours: int): string {
    "Market data is stale (" + IntToString(hours) + "h old)"
  }

  /** The wording that tells a buyer which side of the market value the asking price is on. */
  const BelowMarketWords := "below market"
  const AboveMarketWords := "above market"

  function BelowMarketReason(percent: int): string {
    "Asking price is " + IntToString(percent) + "% " + BelowMarketWords + " value"
  }

  function AboveMarketReason(percent: int): string {
    "Asking price is " + IntToString(percent) + "% " + AboveMarketWords + " value"
  }

  /** The closing classification of evaluateDeal, once every guard has passed. */
  function Judge(a: real, m: real, targets: DealTargets, confidence: real): (r: DealVerdict)
    requires m > 0.0
  {
    if a <= targets.pct80 then
      DealVerdict(Good, confidence, BelowMarketReason(PercentBelow(a, m)), targets)
    else if a <= targets.pct90 then
      DealVerdict(Fair, confidence, BelowMarketReason(PercentBelow(a, m)), targets)
    else
      var percentOver := PercentOver(a, m);
      DealVerdict(Overpriced, confidence, if percentOver > 0 then AboveMarketReason(percentOver) else AtMarketReason, targets)
  }

  /**
   * evaluateDeal, reading the market value from `marketValue` so that a
   * non-finite `market.market` can be expressed; every other field comes
   * from `market`.
   */
  function Evaluate(asking: Num, marketValue: Num, market: MarketSummary, now: int): (r: DealVerdict)
    ensures r.targets == ComputeDealTargets(marketValue)
  {
    var targets := ComputeDealTargets(marketValue);
    if !ValidAsking(asking) then
      DealVerdict(Unknown, 0.0, InvalidAskingReason, targets)
    else if !UsableMarket(marketValue) then
      DealVerdict(Unknown, 0.0, UnavailableReason, targets)
    else
      var dataAge := now - market.lastUpdated;
      if dataAge > StaleThresholdMs then
        DealVerdict(Unknown, 0.0, StaleReason(dataAge / MsPerHour), targets)
      else
        Judge(asking.value, marketValue.value, targets, Confidence(market.sampleSize, |market.sources|))
  }

  /** evaluateDeal(askingPrice, market) at time `now`. */
  function EvaluateDeal(asking: Num, market: MarketSummary, now: int): DealVerdict {
    Evaluate(asking, Finite(market.market), market, now)
  }

  /** The data is fresh enough: an age of exactly 24 hours still counts. */
  predicate Fresh(market: MarketSummary, now: int) {
    now - market.lastUpdated <= StaleThresholdMs
  }

  /** A bad asking price is reported first, whatever the market data. */
  lemma InvalidAskingFirst(asking: Num, marketValue: Num, market: MarketSummary, now: int)
    requires !ValidAsking(asking)
    ensures Evaluate(asking, marketValue, market, now) ==
      DealVerdict(Unknown, 0.0, InvalidAskingReason, ComputeDealTargets(marketValue))
  {
  }

  /** A valid asking price against a market value that is 0, negative or not finite. */
  lemma MarketUnavailable(asking: Num, marketValue: Num, market: MarketSummary, now: int)
    requires ValidAsking(asking) && !UsableMarket(marketValue)
    ensures Evaluate(asking, marketValue, market, now) ==
      DealVerdict(Unknown, 0.0, UnavailableReason, DealTargets(0.0, 0.0, 0.0))
  {
  }

  /** Data older than 24 hours is refused, and the reason gives its age in whole hours (at least 24). */
  lemma StaleData(asking: Num, marketValue: Num, market: MarketSummary, now: int)
    requires ValidAsking(asking) && UsableMarket(marketValue) && !Fresh(market, now)
    ensures var r := Evaluate(asking, marketValue, market, now);
      var hours := (now - market.lastUpdated) / MsPerHour;
      && r.verdict == Unknown && r.confidence == 0.0
      && r.reason == StaleReason(hours)
      && hours >= 24
      && hours * MsPerHour <= now - market.lastUpdated < (hours + 1) * MsPerHour
  {
  }

  /** The verdict is UNKNOWN exactly when one of the three guards fires, and only then is the confidence 0. */
  lemma UnknownIff(asking: Num, marketValue: Num, market: MarketSummary, now: int)
    ensures var r := Evaluate(asking, marketValue, market, now);
      && (r.verdict == Unknown <==> !ValidAsking(asking) || !UsableMarket(marketValue) || !Fresh(market, now))
      && (r.verdict == Unknown <==> r.confidence == 0.0)
      && (r.verdict != Unknown ==> r.confidence == Confidence(market.sampleSize, |market.sources|))
  {
  }

  /** Judge compares the asking price with the targets, thresholds included, and keeps them and the confidence. */
  lemma JudgeClassifies(a: real, m: real, t: DealTargets, confidence: real)
    requires m > 0.0 && t.pct80 <= t.pct90
    ensures var r := Judge(a, m, t, confidence);
      && (r.verdict == Good <==> a <= t.pct80)
      && (r.verdict == Fair <==> t.pct80 < a <= t.pct90)
      && (r.verdict == Overpriced <==> t.pct90 < a)
      && r.targets == t && r.confidence == confidence
  {
  }

  /** Once every guard has passed, the result is Judge's, against the market's own targets and confidence. */
  lemma ValidPath(asking: Num, marketValue: Num, market: MarketSummary, now: int)
    requires ValidAsking(asking) && UsableMarket(marketValue) && Fresh(market, now)
    ensures Evaluate(asking, marketValue, market, now) ==
      Judge(asking.value, marketValue.value, ComputeDealTargets(marketValue), Confidence(market.sampleSize, |market.sources|))
  {
  }

  /** On the valid path the verdict compares the asking price with the rounded targets, thresholds included. */
  lemma Classification(asking: Num, marketValue: Num, market: MarketSummary, now: int)
    requires ValidAsking(asking) && UsableMarket(marketValue) && Fresh(market, now)
    ensures var r := Evaluate(asking, marketValue, market, now);
      var a, t := asking.value, ComputeDealTargets(marketValue);
      && (r.verdict == Good <==> a <= t.pct80)
      && (r.verdict == Fair <==> t.pct80 < a <= t.pct90)
      && (r.verdict == Overpriced <==> t.pct90 < a)
  {
    ValidPath(asking, marketValue, market, now);
    JudgeClassifies(asking.value, marketValue.value, ComputeDealTargets(marketValue), Confidence(market.sampleSize, |market.sources|));
  }

  /** Asking a target that needs no rounding, or less, meets that target: 80 of 100 is GOOD, 90 of 100 FAIR. */
  lemma ExactShareThresholds(a: real, m: real, market: MarketSummary, now: int)
    requires a >= 0.0 && m > 0.0 && Fresh(market, now)
    ensures var v := Evaluate(Finite(a), Finite(m), market, now).verdict;
      && (IsCents(m * 0.8) && a <= m * 0.8 ==> v == Good)
      && (IsCents(m * 0.9) && a <= m * 0.9 ==> v == Good || v == Fair)
  {
    var t := ComputeDealTargets(Finite(m));
    if IsCents(m * 0.8) {
      Round2OfCents(m * 0.8);
    }
    if IsCents(m * 0.9) {
      Round2OfCents(m * 0.9);
    }
    Classification(Finite(a), Finite(m), market, now);
  }

  /** A free card is always a GOOD deal once the market data passes the guards. */
  lemma ZeroAskingIsGood(m: real, market: MarketSummary, now: int)
    requires m > 0.0 && Fresh(market, now)
    ensures Evaluate(Finite(0.0), Finite(m), market, now).verdict == Good
  {
  }

  /** GOOD before FAIR before OVERPRICED. */
  function Rank(v: Verdict): int {
    match v
    case Good => 0
    case Fair => 1
    case Overpriced => 2
    case Unknown => 3
  }

  /** For a fixed summary and time, a higher asking price never gets a better verdict. */
  lemma VerdictMonotone(a1: real, a2: real, marketValue: Num, market: MarketSummary, now: int)
    requires 0.0 <= a1 <= a2
    ensures Rank(Evaluate(Finite(a1), marketValue, market, now).verdict) <=
            Rank(Evaluate(Finite(a2), marketValue, market, now).verdict)
  {
  }

  /** In terms of the market value itself the thresholds hold up to half a cent. */
  lemma ThresholdsNearShares(a: real, m: real, market: MarketSummary, now: int)
    requires a >= 0.0 && m > 0.0 && Fresh(market, now)
    ensures var v := Evaluate(Finite(a), Finite(m), market, now).verdict;
      && (a <= 0.8 * m - 0.005 ==> v == Good)
      && (0.8 * m + 0.005 < a <= 0.9 * m - 0.005 ==> v == Fair)
      && (0.9 * m + 0.005 < a ==> v == Overpriced)
  {
  }

  /** Asking the market value itself is OVERPRICED once the market is above 5 cents. */
  lemma AtMarketIsOverpriced(m: real, market: MarketSummary, now: int)
    requires m > 0.05 && Fresh(market, now)
    ensures Evaluate(Finite(m), Finite(m), market, now).verdict == Overpriced
  {
  }

  /**
   * Exactly 80 % of the market is not always GOOD: at a market of 33.33 the
   * 80 % target rounds down to 26.66, so asking 26.664 is FAIR.
   */
  lemma EightyPercentOfThirdIsFair(market: MarketSummary, now: int)
    requires Fresh(market, now)
    ensures 26.664 == 0.8 * 33.33
    ensures Evaluate(Finite(26.664), Finite(33.33), market, now).verdict == Fair
  {
    TargetsOfThird();
    Classification(Finite(26.664), Finite(33.33), market, now);
  }

  /** Below that, rounding lifts the targets: at a market of 1 cent, asking 1 cent is GOOD. */
  lemma TinyMarketAtMarketIsGood(market: MarketSummary, now: int)
    requires Fresh(market, now)
    ensures Evaluate(Finite(0.01), Finite(0.01), market, now).verdict == Good
  {
    assert ComputeDealTargets(Finite(0.01)).pct80 == 0.01;
  }

  /** At a market of 0.7 cents, asking 1 cent is GOOD, reported as -43% below market value. */
  lemma TinyMarketGoodAboveMarket(market: MarketSummary, now: int)
    requires Fresh(market, now)
    ensures var r := Evaluate(Finite(0.01), Finite(0.007), market, now);
      r.verdict == Good && r.reason == BelowMarketReason(-43)
  {
    assert ComputeDealTargets(Finite(0.007)).pct80 == 0.01;
    assert PercentBelow(0.01, 0.007) == -43;
  }

  /** Math.round of a percentage is positive exactly when the ratio behind it is at least half a percent. */
  lemma PercentOverPositive(a: real, m: real)
    requires m > 0.0
    ensures PercentOver(a, m) > 0 <==> a >= 1.005 * m
  {
    QuotientBelow(a - m, m, 0.005);
  }

  /** An OVERPRICED verdict says "above market value" exactly when asking is at least 0.5 % over the market. */
  lemma JudgeOverpricedReason(a: real, m: real, t: DealTargets, confidence: real)
    requires m > 0.0 && Judge(a, m, t, confidence).verdict == Overpriced
    ensures var r := Judge(a, m, t, confidence);
      && (a >= 1.005 * m ==> r.reason == AboveMarketReason(PercentOver(a, m)) && PercentOver(a, m) > 0)
      && (a < 1.005 * m ==> r.reason == AtMarketReason)
  {
    PercentOverPositive(a, m);
  }

  lemma OverpricedReason(a: real, m: real, market: MarketSummary, now: int)
    requires a >= 0.0 && m > 0.0
    requires Evaluate(Finite(a), Finite(m), market, now).verdict == Overpriced
    ensures var r := Evaluate(Finite(a), Finite(m), market, now);
      && (a >= 1.005 * m ==> r.reason == AboveMarketReason(PercentOver(a, m)) && PercentOver(a, m) > 0)
      && (a < 1.005 * m ==> r.reason == AtMarketReason)
  {
    var t, c := ComputeDealTargets(Finite(m)), Confidence(market.sampleSize, |market.sources|);
    ValidPath(Finite(a), Finite(m), market, now);
    JudgeOverpricedReason(a, m, t, c);
  }

  /** On a market of at least 1, a GOOD verdict reports at least 20 % below market value. */
  lemma GoodPercentBelow(a: real, m: real, t: DealTargets, confidence: real)
    requires m >= 1.0 && t.pct80 <= 0.8 * m + 0.005
    requires Judge(a, m, t, confidence).verdict == Good
    ensures Judge(a, m, t, confidence).reason == BelowMarketReason(PercentBelow(a, m))
    ensures PercentBelow(a, m) >= 20
  {
    QuotientBelow(m - a, m, 0.195);
  }

  /** On a market of at least 1, a FAIR verdict reports between 10 % and 20 % below market value. */
  lemma FairPercentBelow(a: real, m: real, t: DealTargets, confidence: real)
    requires m >= 1.0 && 0.8 * m - 0.005 < t.pct80 && t.pct90 <= 0.9 * m + 0.005
    requires Judge(a, m, t, confidence).verdict == Fair
    ensures Judge(a, m, t, confidence).reason == BelowMarketReason(PercentBelow(a, m))
    ensures 10 <= PercentBelow(a, m) <= 20
  {
    QuotientBelow(m - a, m, 0.205);
    QuotientBelow(m - a, m, 0.095);
  }

  /** The same bounds on the evaluator's own result. */
  lemma PercentBelowOnMarket(a: real, m: real, market: MarketSummary, now: int)
    requires a >= 0.0 && m >= 1.0 && Fresh(market, now)
    ensures var r := Evaluate(Finite(a), Finite(m), market, now);
      && (r.verdict == Good ==> r.reason == BelowMarketReason(PercentBelow(a, m)) && PercentBelow(a, m) >= 20)
      && (r.verdict == Fair ==> r.reason == BelowMarketReason(PercentBelow(a, m)) && 10 <= PercentBelow(a, m) <= 20)
  {
    var t, c := ComputeDealTargets(Finite(m)), Confidence(market.sampleSize, |market.sources|);
    ValidPath(Finite(a), Finite(m), market, now);
    if Judge(a, m, t, c).verdict == Good {
      GoodPercentBelow(a, m, t, c);
    } else if Judge(a, m, t, c).verdict == Fair {
      FairPercentBelow(a, m, t, c);
    }
  }

  lemma BelowReasonWording(percent: int)
    ensures Contains(BelowMarketReason(percent), "below market")
  {
    ContainsPiece("Asking price is " + IntToString(percent) + "% ", BelowMarketWords, " value");
  }

  lemma AboveReasonWording(percent: int)
    ensures Contains(AboveMarketReason(percent), "above market")
  {
    ContainsPiece("Asking price is " + IntToString(percent) + "% ", AboveMarketWords, " value");
  }

  lemma StaleReasonWording(hours: int)
    ensures Contains(StaleReason(hours), "stale")
  {
    var h := IntToString(hours);
    assert StaleReason(hours) == "Market data is " + "stale" + (" (" + h + "h old)");
    ContainsPiece("Market data is ", "stale", " (" + h + "h old)");
  }

  lemma InvalidReasonWording()
    ensures Contains(InvalidAskingReason, "Invalid")
  {
    assert InvalidAskingReason == "" + "Invalid" + " asking price";
    ContainsPiece("", "Invalid", " asking price");
  }

  lemma UnavailableReasonWording()
    ensures Contains(UnavailableReason, "unavailable")
  {
    assert UnavailableReason == "Market data " + "unavailable" + "";
    ContainsPiece("Market data ", "unavailable", "");
  }

  /** An UNKNOWN verdict names the guard that fired. */
  lemma GuardReasonWording(asking: Num, marketValue: Num, market: MarketSummary, now: int)
    ensures var r := Evaluate(asking, marketValue, market, now);
      && (!ValidAsking(asking) ==> Contains(r.reason, "Invalid"))
      && (ValidAsking(asking) && !UsableMarket(marketValue) ==> Contains(r.reason, "unavailable"))
      && (ValidAsking(asking) && UsableMarket(marketValue) && !Fresh(market, now) ==> Contains(r.reason, "stale"))
  {
    if !ValidAsking(asking) {
      InvalidReasonWording();
    } else if !UsableMarket(marketValue) {
      UnavailableReasonWording();
    } else if !Fresh(market, now) {
      StaleReasonWording((now - market.lastUpdated) / MsPerHour);
    }
  }

  /** Any other verdict says where the price stands against the market. */
  lemma VerdictReasonWording(asking: Num, marketValue: Num, market: MarketSummary, now: int)
    ensures var r := Evaluate(asking, marketValue, market, now);
      && (r.verdict == Good || r.verdict == Fair ==> Contains(r.reason, "below market"))
      && (r.verdict == Overpriced ==> Contains(r.reason, "above market") || r.reason == AtMarketReason)
  {
    if ValidAsking(asking) && UsableMarket(marketValue) && Fresh(market, now) {
      var a, m := asking.value, marketValue.value;
      ValidPath(asking, marketValue, market, now);
      BelowReasonWording(PercentBelow(a, m));
      AboveReasonWording(PercentOver(a, m));
    }
  }

  /** Asking 95 against a market of 100 is OVERPRICED yet reported as at market value. */
  lemma OverpricedBelowMarket(market: MarketSummary, now: int)
    requires Fresh(market, now)
    ensures var r := Evaluate(Finite(95.0), Finite(100.0), market, now);
      r.verdict == Overpriced && r.reason == AtMarketReason
  {
    TargetsOfHundred();
    OverpricedReason(95.0, 100.0, market, now);
  }
}
