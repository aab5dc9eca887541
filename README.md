# poke-pulse-pro: a verified model of the pricing and deal core

poke-pulse-pro is a Pokémon-card collection app. This project models its
non-UI core in Dafny:

- **Card lookup.** `InMemoryCardRepository` searches the in-memory catalogue (`SETS`, `CARDS`), lists sets, lists the cards of a set by id prefix, and looks a card up by id.
- **Scanner database.** `cardDatabase` does the same over `MOCK_CARDS`. It also has the name-based resolver the scanner uses (`getCardByDetails`).
- **Pricing.** Two stub providers (TCGplayer and eBay sold listings) read fixture records. `CompositePricingService` merges their summaries into one: it prefers realised sales, rejects outliers against the median, takes the min/max bands, the latest timestamp and the summed sample size, and rounds to cents.
- **Deals.** `deals` computes the 80/85/90 % target prices and the verdict on an asking price (GOOD, FAIR, OVERPRICED or UNKNOWN), with a confidence score and a reason string.

Every source file is pure or mixed: at most an object holding a list fixed at
construction. So the model is datatypes, functions and lemmas. The composite
service's only field, its provider list, is an argument of `Composite`.

Modules, one per concern:

| file | module | models |
|---|---|---|
| wrappers.dfy | Wrappers | `Option`, and `Result` for the thrown error |
| numbers.dfy | Numbers | `Number(x.toFixed(2))` as `Round2`, `Math.round` as `JsRound`, `calculateAverage` as `Mean`, `Math.min/max` |
| sorting.dfy | Sorting | the numeric sort inside `calculateMedian` |
| text.dfy | Text | `toLowerCase`, `trim`, `includes`, `startsWith`, `split('-')[0]`, number-to-string |
| pricing_types.dfy | PricingTypes | `Card`, `PricePoint`, `MarketSummary` |
| composite_pricing.dfy | CompositePricing | `getMarketSummary`, `calculateMedian`, `calculateAverage` |
| providers.dfy | PricingProviders | the two stubs, their card key and fixture lookup, and the composite over them |
| deals.dfy | Deals | `computeDealTargets`, `evaluateDeal` |
| catalog.dfy | Catalog | `PokemonCard`, `CardSet`, `Array.filter`, `Array.find(..) \|\| null` |
| card_repository.dfy | InMemoryCardRepository | `search`, `getSets`, `getCardsBySet`, `getCard` over `SETS`/`CARDS` |
| card_database.dfy | CardDatabase | `searchCards`, `getCardById`, `getCardByDetails` over `MOCK_CARDS` |

How JavaScript values are represented:

- Prices are exact `real`s.
- `toFixed(2)` rounds the magnitude half up and keeps the sign.
- `Math.round(x)` is `floor(x + 0.5)`.
- Truthiness is written out: an optional price counts only when present and non-zero, which is the `||` fallbacks. A `!== undefined` test counts zero.
- A number that may be `Infinity` or `NaN` is a `Num`: either `Finite(value)` or `NonFinite`.

### Behaviour that follows from the code

The model follows the code. These consequences are easy to miss when reading
the program's own comments and tests.

- **Exactly 80 % is not always GOOD.** The comment at `services/deals.ts:29` says "Good: asking <= 80% of market". The code compares against the 80 % target after rounding to cents (`services/deals.ts:20`, `:87`). At market 33.33 the target is 26.66, so asking 26.664, exactly 80 % of the market, is FAIR (`Deals.EightyPercentOfThirdIsFair`).
- **Asking the market price.** The test at `services/deals.test.ts:93-97` expects OVERPRICED when the asking price equals the market of 100. That holds for every market above 0.05 (`Deals.AtMarketIsOverpriced`). At market 0.01 the 80 % target rounds up to 0.01, so asking 0.01 is GOOD (`Deals.TinyMarketAtMarketIsGood`).
- **GOOD above market.** The GOOD reason always says "below market value" (`services/deals.ts:91`). Market 0.007 against asking 0.01 is GOOD, and the reason reads "Asking price is -43% below market value" (`Deals.TinyMarketGoodAboveMarket`).
- **"At market value".** An OVERPRICED verdict reads "Asking price is at market value" whenever the rounded percentage over market is not positive (`services/deals.ts:105-111`). So 95 against 100 reads "at market value" (`Deals.OverpricedBelowMarket`).
- **Every value an outlier.** When the outlier filter (`services/pricing/CompositePricingService.ts:50-52`) rejects every representative value, the average of the empty list is 0, so the merged market is 0 (`CompositePricing.AggregateNothingKept`, `CompositePricing.TwoFarApartSummaries`).
- **Set prefix matching.** `getCardsBySet` matches by id prefix, so `swsh4` also returns the Shining Fates card `swsh45sv-107` (`InMemoryCardRepository.PrefixReachesOtherSet`).
- **sampleSize.** The merged `sampleSize` is reported only when the summed sample size is positive (`services/pricing/CompositePricingService.ts:87`). Providers that all report 0 give no `sampleSize` (`CompositePricing.AggregateSampleSize`).

## Operations

Each operation of the core, the Dafny function that models it, and the members
whose contracts state its properties (listed in the next section).

| operation | source | modelled by | properties in |
|---|---|---|---|
| `getMarketSummary` | services/pricing/CompositePricingService.ts:22-91 | `CompositePricing.Aggregate` (on provider results), `PricingProviders.Composite` (on providers) | `AggregateFailsIffAllFailed`, `AggregateMarketNearMedian`, `AggregateLowBound`, `AggregateHighBound`, `AggregateMidBetween`, `AggregateSoldAvg`, `AggregateSampleSize`, `AggregateSourcesInOrder`, `AggregateLatestUpdate`, `AggregateCurrencyFromFirst`, `ReconcileCents`, `AggregatePricesRoundTrip` |
| failed-provider filter | services/pricing/CompositePricingService.ts:36 | `CompositePricing.ValidSummaries` | `ValidSummariesMember`, `ValidSummariesEmpty`, `ValidSummariesConcat` |
| price-point flattening | services/pricing/CompositePricingService.ts:43 | `CompositePricing.AllSources` | `AllSourcesMember`, `AllSourcesConcat` |
| representative values | services/pricing/CompositePricingService.ts:46 | `CompositePricing.Representative`, `CompositePricing.Representatives` | `Representative`, `RawMarketSingle` |
| outlier filter | services/pricing/CompositePricingService.ts:49-52 | `CompositePricing.Keep`, `CompositePricing.FilterOutliers` | `KeepNearPositiveMedian`, `KeepAllBelowZeroMedian`, `FilterOutliers`, `OddCountKeepsMedian`, `NothingKept`, `FarApartRejected` |
| market, low, high, mid | services/pricing/CompositePricingService.ts:55-60 | `CompositePricing.RawMarket`, `RawLow`, `RawHigh`, `Lows`, `Highs` | `RawMarketNearMedian`, `KeptMeanNearMedian`, `RawBands`, `AggregateBandsAttained`, `RoundedMidBetween` |
| soldAvg | services/pricing/CompositePricingService.ts:62-66 | `CompositePricing.SoldAvgs`, `CompositePricing.SoldAvgValue` | `SoldAvgsMember`, `SoldAvgsOfOne`, `SoldAvgsConcat`, `SoldAvgsEmpty`, `SoldAvgSingle`, `AggregateSoldAvg` |
| sample size | services/pricing/CompositePricingService.ts:68-72 | `CompositePricing.TotalSampleSize`, `CompositePricing.SampleSizeValue` | `TotalSampleSizeConcat`, `SampleSizeValue`, `AggregateSampleSize` |
| `calculateMedian` | services/pricing/CompositePricingService.ts:93-100 | `CompositePricing.Median` | `MedianBounds`, `MedianOfSorted`, `MedianPermutation`, `MedianOfPair` |
| `calculateAverage` | services/pricing/CompositePricingService.ts:102-105 | `Numbers.Mean` | `MeanWithin`, `MeanTimesCount`, `MeanSingleton` |
| `Number(x.toFixed(2))` | services/pricing/CompositePricingService.ts:82-86 | `Numbers.Round2` | `Round2Spec`, `Round2Idempotent`, `Round2Monotone`, `Round2OfCents` |
| `Math.abs` | services/pricing/CompositePricingService.ts:51 | `Numbers.Abs` | its own contract |
| spread `Math.min`, `Math.max` | services/pricing/CompositePricingService.ts:56-57 | `Numbers.MinOf`, `Numbers.MaxOf` | their own contracts, `RawBands` |
| `Math.min(confidence, 1.0)` | services/deals.ts:84 | `Numbers.Min` | its own contract, `Deals.Confidence` |
| card key and fixture lookup | services/pricing/TcgplayerProviderStub.ts:30-34 | `PricingProviders.CardKey`, `PricingProviders.Lookup` | `CardKeySetId`, `CardKeyInjective`, `TcgplayerLookup`, `EbayLookup` |
| stub summaries | services/pricing/TcgplayerProviderStub.ts:36-52 | `PricingProviders.TcgplayerSummary`, `EbaySummary`, `Summary`, `Name`, `Results` | `SummarySourceIsName`, `CompositeSingleTcgplayer`, `CompositeSingleEbay`, `CompositeTcgplayerThenEbay` |
| `computeDealTargets` | services/deals.ts:10-24 | `Deals.ComputeDealTargets` | its own contract, `TargetsOfHundred`, `TargetsOfAlmostHundred`, `TargetsOfThird` |
| `evaluateDeal` | services/deals.ts:34-114 | `Deals.Evaluate` (market value as a `Num`), `Deals.EvaluateDeal` | `InvalidAskingFirst`, `MarketUnavailable`, `StaleData`, `UnknownIff`, `ValidPath`, `Classification`, `VerdictMonotone`, `OverpricedReason`, `PercentBelowOnMarket`, `GuardReasonWording`, `VerdictReasonWording` |
| closing classification | services/deals.ts:86-113 | `Deals.Judge`, `Deals.PercentBelow`, `Deals.PercentOver` | `JudgeClassifies`, `JudgeOverpricedReason`, `PercentOverPositive`, `GoodPercentBelow`, `FairPercentBelow` |
| `search` | services/cards/InMemoryCardRepository.ts:235-249 | `InMemoryCardRepository.Search` | `SearchMember`, `SearchNoMatch`, `SearchCaseInsensitive` |
| `getSets` | services/cards/InMemoryCardRepository.ts:251-254 | `InMemoryCardRepository.GetSets` | `GetSetsWellFormed` |
| `getCardsBySet` | services/cards/InMemoryCardRepository.ts:256-263 | `InMemoryCardRepository.GetCardsBySet` | `GetCardsBySetMember`, `GetCardsBySetOfCardId`, `PrefixReachesOtherSet`, `UnknownSet` |
| `getCard` | services/cards/InMemoryCardRepository.ts:265-268 | `InMemoryCardRepository.GetCard` | its own contract, `GetCardFirst` |
| `searchCards` | services/cardDatabase.ts:46-55 | `CardDatabase.SearchCards` | `SearchCardsMember`, `SearchCardsEmpty`, `SearchCardsCaseInsensitive` |
| `getCardById` | services/cardDatabase.ts:57-59 | `CardDatabase.GetCardById` | its own contract, `GetCardByIdFirst` |
| `getCardByDetails` | services/cardDatabase.ts:61-67 | `CardDatabase.GetCardByDetails` | its own contract, `GetCardByDetailsFirst`, `GetCardByDetailsEmptyName`, `GetCardByDetailsCaseInsensitive` |
| `includes`, `startsWith` | services/cards/InMemoryCardRepository.ts:244-247 | `Text.Contains`, `Text.StartsWith` | `ContainsIff`, `ContainsEmpty`, `ContainsChar`, `ContainsPiece` |

## Model

| member | source | states |
|---|---|---|
| Numbers.Round2Spec | services/pricing/CompositePricingService.ts:82-86 | `Number(x.toFixed(2))` is a whole number of cents. It is within half a cent of x, ties go away from zero, and the sign is kept. |
| Numbers.Round2Idempotent | services/pricing/CompositePricingService.ts:82-86 | Rounding an already rounded price changes nothing. |
| Numbers.Round2Monotone | services/pricing/CompositePricingService.ts:82-86 | Rounding to cents preserves order. |
| Numbers.Round2OfCents | services/deals.ts:20-22 | A price already in whole cents comes back unchanged. |
| Numbers.JsRound | services/deals.ts:91 | `Math.round` is the integer nearest x, with halves rounded up. |
| Numbers.CentsRoundTrip | services/pricing/pricing.test.ts:177-195 | A value is in whole cents exactly when `Math.round(x*100)/100` gives it back. |
| Numbers.Abs | services/pricing/CompositePricingService.ts:51 | `Math.abs(x)` is x or -x, whichever is not negative. |
| Numbers.Min | services/deals.ts:84 | `Math.min(a, b)` is one of a and b and no greater than either. |
| Numbers.MeanWithin | services/pricing/CompositePricingService.ts:102-105 | The average of values between lo and hi is between lo and hi. |
| Numbers.MeanTimesCount | services/pricing/CompositePricingService.ts:102-105 | The average times the count is the sum. |
| Numbers.MeanSingleton | services/pricing/CompositePricingService.ts:102-105 | The average of one value is that value. |
| Numbers.MinOf | services/pricing/CompositePricingService.ts:56 | `Math.min(...)` is a member of the list and no greater than any member. |
| Numbers.MaxOf | services/pricing/CompositePricingService.ts:57 | `Math.max(...)` is a member of the list and no smaller than any member. |
| Sorting.SortAsc | services/pricing/CompositePricingService.ts:95 | The sort result is ascending, a permutation of its input, and of the same length. |
| Sorting.Insert | services/pricing/CompositePricingService.ts:95 | Inserting into a sorted list keeps it sorted and adds exactly that element. |
| Sorting.SortedUnique | services/pricing/CompositePricingService.ts:95 | Two sorted permutations of one multiset are equal, so the median does not depend on input order. |
| Sorting.SortOfSorted | services/pricing/CompositePricingService.ts:95 | Sorting a sorted list returns it unchanged. |
| Text.Lower | services/cards/InMemoryCardRepository.ts:239 | `toLowerCase` keeps the length and maps each ASCII capital to its small letter, leaving other characters alone. |
| Text.LowerOfUpper | services/cards/cards.test.ts:39-44 | Strings that differ only in letter case have the same lower-case form. |
| Text.LowerIdempotent | services/cards/InMemoryCardRepository.ts:239 | Lower-casing twice is lower-casing once. |
| Text.ContainsIff | services/cards/InMemoryCardRepository.ts:244-247 | `includes` holds exactly when the text occurs at some position. |
| Text.ContainsEmpty | services/cards/InMemoryCardRepository.ts:244-247 | Every string includes the empty string. |
| Text.ContainsChar | services/cards/InMemoryCardRepository.ts:260 | `includes('-')` holds exactly when '-' is one of the characters. |
| Text.ContainsPiece | services/deals.test.ts:216-234 | A string includes each piece it is concatenated from. |
| Text.Trim | services/cards/InMemoryCardRepository.ts:239 | `trim` returns a slice of the input with only white space cut from both ends, starting and ending with non-space. |
| Text.TrimStart | services/cards/InMemoryCardRepository.ts:239 | Cuts exactly the leading white space. |
| Text.TrimEnd | services/cards/InMemoryCardRepository.ts:239 | Cuts exactly the trailing white space. |
| Text.BeforeFirst | services/cards/InMemoryCardRepository.ts:260 | `split('-')[0]` is the longest prefix without '-', and is followed by '-' when shorter than the input. |
| Text.BeforeFirstOfJoin | services/cards/InMemoryCardRepository.ts:259-260 | For a set id without '-', splitting `set + '-' + rest` gives the set id back. |
| Text.BeforeFirstWithoutSep | services/cards/InMemoryCardRepository.ts:260 | A string without '-' is its own prefix. |
| Text.BeforeFirstIdempotent | services/cards/InMemoryCardRepository.ts:260 | Taking the prefix twice is taking it once. |
| Text.NatToString | services/deals.ts:64-68 | The decimal rendering of a number is a non-empty string of digits without a leading zero. |
| Text.NatToStringRoundTrip | services/deals.ts:64-68 | Reading the decimal rendering back gives the number. |
| Text.IntToStringRoundTrip | services/deals.ts:91 | Reading the printed integer back, with its optional leading '-', gives the integer, negative ones included. |
| CompositePricing.ValidSummaries | services/pricing/CompositePricingService.ts:36 | Filtering out failed providers never lengthens the list. |
| CompositePricing.ValidSummariesMember | services/pricing/CompositePricingService.ts:24-36 | A summary survives exactly when some provider returned it. |
| CompositePricing.ValidSummariesEmpty | services/pricing/CompositePricingService.ts:36-40 | Nothing survives exactly when every provider failed. |
| CompositePricing.ValidSummariesConcat | services/pricing/CompositePricingService.ts:36 | The surviving summaries keep the provider order. |
| CompositePricing.Representative | services/pricing/CompositePricingService.ts:46 | `soldAvg \|\| mid \|\| market`: the value is the market, the soldAvg or the mid of the summary. A truthy soldAvg is always chosen; otherwise a truthy mid is chosen over the market. It is 0 exactly when none of soldAvg, mid and market is truthy. |
| CompositePricing.MedianBounds | services/pricing/CompositePricingService.ts:93-100 | The median of nothing is 0. Otherwise it lies between the smallest and largest value, and for an odd count it is one of the values. |
| CompositePricing.MedianOfSorted | services/pricing/CompositePricingService.ts:96-99 | On sorted input the median is the middle element, or the mean of the two middle elements. |
| CompositePricing.MedianPermutation | services/pricing/CompositePricingService.ts:95 | The median does not depend on the order of the values. |
| CompositePricing.MiddleWithin | services/pricing/CompositePricingService.ts:96-99 | The middle of values in [lo, hi] is in [lo, hi]. |
| CompositePricing.SortedElementBounded | services/pricing/CompositePricingService.ts:95 | Every sorted element is an input value between the minimum and the maximum. |
| CompositePricing.KeepNearPositiveMedian | services/pricing/CompositePricingService.ts:50-52 | With a positive median, a value is kept exactly when it is between half and one and a half times the median. |
| CompositePricing.KeepAllBelowZeroMedian | services/pricing/CompositePricingService.ts:50-52 | With a negative median the deviation ratio is never positive (it is 0 at the median itself), so every value is kept. |
| CompositePricing.FilterOutliers | services/pricing/CompositePricingService.ts:50-52 | The outlier filter keeps exactly the values passing the test, with their multiplicities. |
| CompositePricing.OddCountKeepsMedian | services/pricing/CompositePricingService.ts:49-52 | For an odd count and a positive median, the median value itself is kept. |
| CompositePricing.NothingKept | services/pricing/CompositePricingService.ts:50-52 | When no value passes the deviation test, the filter keeps nothing. |
| CompositePricing.MedianOfPair | services/pricing/CompositePricingService.ts:96-98 | The median of two values is their mean. |
| CompositePricing.FarApartRejected | services/pricing/CompositePricingService.ts:49-52 | Two values more than a factor 3 apart are both rejected. |
| CompositePricing.SoldAvgs | services/pricing/CompositePricingService.ts:63-65 | The collected soldAvgs are no more than the summaries. |
| CompositePricing.SoldAvgsMember | services/pricing/CompositePricingService.ts:63-65 | A value is collected exactly when some summary's soldAvg is defined and equal to it. Zero counts. |
| CompositePricing.SoldAvgsOfOne | services/pricing/CompositePricingService.ts:63-65 | A summary contributes its soldAvg exactly once when it defines one, and nothing otherwise. |
| CompositePricing.SoldAvgsConcat | services/pricing/CompositePricingService.ts:63-65 | The collected soldAvgs keep the summary order and every repeat: collecting over a + b is collecting over a, then over b. |
| CompositePricing.SoldAvgsEmpty | services/pricing/CompositePricingService.ts:63-66 | Nothing is collected exactly when no summary defines soldAvg. |
| CompositePricing.TotalSampleSizeConcat | services/pricing/CompositePricingService.ts:69-72 | The summed sample size adds up over consecutive parts. |
| CompositePricing.LatestUpdate | services/pricing/CompositePricingService.ts:75 | The merged timestamp is the largest of the summaries' timestamps, and one of them. |
| CompositePricing.AllSourcesMember | services/pricing/CompositePricingService.ts:43 | A price point is listed exactly when one of the summaries carries it. |
| CompositePricing.AllSourcesConcat | services/pricing/CompositePricingService.ts:43 | The flattened price points keep the summary order. |
| CompositePricing.SampleSizeValue | services/pricing/CompositePricingService.ts:87 | The reported sample size, when present, is positive. |
| CompositePricing.Reconcile | services/pricing/CompositePricingService.ts:80-90 | A merged summary always has low, mid and high. |
| CompositePricing.AggregateFailsIffAllFailed | services/pricing/CompositePricingService.ts:35-40 | The call fails with "No pricing data available from any provider" exactly when every provider failed. |
| CompositePricing.AggregateFailsWithoutProviders | services/pricing/CompositePricingService.ts:38-40 | With no providers the call fails with that message. |
| CompositePricing.AggregateOfSameSummaries | services/pricing/CompositePricingService.ts:36 | The result depends only on the surviving summaries. |
| CompositePricing.AggregateIgnoresFailedProvider | services/pricing/CompositePricingService.ts:28-36 | A failing provider anywhere in the list changes nothing. |
| CompositePricing.SingletonValid | services/pricing/CompositePricingService.ts:36 | One successful provider leaves one summary. |
| CompositePricing.PairValid | services/pricing/CompositePricingService.ts:36 | Two successful providers leave both summaries, in order. |
| CompositePricing.RawMarketSingle | services/pricing/CompositePricingService.ts:46-55 | With one summary the market is its rounded representative value. |
| CompositePricing.SoldAvgSingle | services/pricing/CompositePricingService.ts:63-66 | With one summary the soldAvg is its rounded soldAvg when truthy, else absent. |
| CompositePricing.ReconcileSingle | services/pricing/CompositePricingService.ts:42-90 | Merging a single surviving summary yields its own rounded representative, bands and soldAvg, with sampleSize only when positive, and its timestamp, currency and sources. |
| CompositePricing.AggregateSingleSummary | services/pricing/CompositePricingService.ts:42-90 | Every field of the result for a single summary: the rounded representative, low, high and mid; soldAvg; sampleSize only when positive; and the timestamp, currency and sources unchanged. |
| CompositePricing.KeptMeanNearMedian | services/pricing/CompositePricingService.ts:50-55 | The mean of the kept values is between half and one and a half times a positive median. |
| CompositePricing.RawMarketNearMedian | services/pricing/CompositePricingService.ts:46-55 | The unrounded market is within the outlier band around the median of the representative values. |
| CompositePricing.RoundedWithin | services/pricing/CompositePricingService.ts:82-85 | Rounding keeps a value between the rounded bounds. |
| CompositePricing.RoundedNear | services/pricing/CompositePricingService.ts:82-85 | Rounding a value in [lo, hi] lands within half a cent of that interval. |
| CompositePricing.ReconcileMarketNearMedian | services/pricing/CompositePricingService.ts:46-82 | The merged market is within the outlier band of the median, give or take half a cent. |
| CompositePricing.AggregateMarketNearMedian | services/pricing/CompositePricingService.ts:22-90 | The same, for the whole call: when any value survives the filter, the market is within the band. |
| CompositePricing.AggregateNothingKept | services/pricing/CompositePricingService.ts:50-55 | When every representative value is rejected, the merged market is 0. |
| CompositePricing.TwoFarApartSummaries | services/pricing/CompositePricingService.ts:46-55 | Two providers whose values are more than a factor 3 apart give market 0. |
| CompositePricing.RawBands | services/pricing/CompositePricingService.ts:56-57 | The unrounded low is at most, and the high at least, any summary's `low \|\| market` and `high \|\| market`. |
| CompositePricing.AggregateLowBound | services/pricing/CompositePricingService.ts:56-83 | The merged low is at most every provider's rounded low. |
| CompositePricing.AggregateHighBound | services/pricing/CompositePricingService.ts:57-85 | The merged high is at least every provider's rounded high. |
| CompositePricing.AggregateBandsAttained | services/pricing/CompositePricingService.ts:56-57 | The merged low and high are each some provider's rounded band. |
| CompositePricing.RoundedMidBetween | services/pricing/CompositePricingService.ts:60-85 | When some surviving summary's own `low \|\| market` ≤ `high \|\| market`, the rounded mid lies between the rounded low and high. |
| CompositePricing.ReconcileMidBetween | services/pricing/CompositePricingService.ts:60-85 | In a merged summary, low ≤ mid ≤ high, when some surviving summary's own `low \|\| market` ≤ `high \|\| market`. |
| CompositePricing.AggregateMidBetween | services/pricing/CompositePricingService.ts:56-60 | The same for the whole call, when some provider's own bands are ordered. |
| CompositePricing.AggregateLatestUpdate | services/pricing/CompositePricingService.ts:74-75 | The merged timestamp is the most recent provider timestamp. |
| CompositePricing.AggregateCurrencyFromFirst | services/pricing/CompositePricingService.ts:77-78 | The currency is that of the first provider that succeeded. |
| CompositePricing.AggregateSourcesInOrder | services/pricing/CompositePricingService.ts:42-89 | The price points are all the providers' points, in provider order, and nothing else. |
| CompositePricing.AggregateSampleSize | services/pricing/CompositePricingService.ts:68-87 | The sample size is the sum of the present sample sizes, reported only when positive. |
| CompositePricing.AggregatePair | services/pricing/CompositePricingService.ts:43-72 | For two summaries, the sources are concatenated, the sample sizes summed, and the currency is the first one's. |
| CompositePricing.AggregatePairSoldAvg | services/pricing/CompositePricingService.ts:63-86 | When only the second summary has a soldAvg, the result has its rounded value, or none if it is 0. |
| CompositePricing.AggregateSoldAvg | services/pricing/CompositePricingService.ts:62-86 | soldAvg is present exactly when some summary defines one and their mean is non-zero, and is then the rounded mean. |
| CompositePricing.ReconcileCents | services/pricing/CompositePricingService.ts:80-86 | Every price in the merged summary is a whole number of cents. |
| CompositePricing.CentsRoundTripSummary | services/pricing/pricing.test.ts:177-195 | For a summary in cents, each price equals `Math.round(x*100)/100`. |
| CompositePricing.AggregatePricesRoundTrip | services/pricing/pricing.test.ts:177-195 | Every price of a successful call passes the two-decimals check. |
| PricingProviders.CardKeySetId | services/pricing/TcgplayerProviderStub.ts:31 | The key `setId + '-' + number` splits back into the set id and the number. |
| PricingProviders.CardKeyInjective | services/pricing/EbaySoldProviderStub.ts:30 | Distinct (set id, number) pairs give distinct keys when set ids have no '-'. |
| PricingProviders.TcgplayerLookup | services/pricing/TcgplayerProviderStub.ts:30-34 | A card with its own fixture gets that record; any other card gets the default record. |
| PricingProviders.EbayLookup | services/pricing/EbaySoldProviderStub.ts:29-33 | The card's own fixture, or the default. |
| PricingProviders.SummarySourceIsName | services/pricing/EbaySoldProviderStub.ts:35-50 | Each stub's summary has one price point. It is named after the stub and carries the summary's market value, currency and `lastUpdated`. |
| PricingProviders.CompositeFailsIffNoProviders | services/pricing/pricing.test.ts:156-164 | Over stubs, the composite fails exactly when it has no providers. |
| PricingProviders.CompositeSingleTcgplayer | services/pricing/pricing.test.ts:145-154 | TCGplayer alone gives market = rounded mid (or market when mid is 0), no soldAvg, and one price point. |
| PricingProviders.CompositeSingleEbay | services/pricing/EbaySoldProviderStub.ts:42-51 | eBay alone gives market = rounded sold average, soldAvg present unless it is 0, and one price point. |
| PricingProviders.CompositeOfPair | services/pricing/CompositePricingService.ts:24-36 | The two-stub composite merges exactly the two stub summaries. |
| PricingProviders.AggregateTcgplayerThenEbay | services/pricing/pricing.test.ts:94-119 | Merging a TCGplayer and an eBay record gives both price points in order and the summed sample size. |
| PricingProviders.AggregateTcgplayerThenEbaySold | services/pricing/pricing.test.ts:166-175 | Merging them gives TCGplayer's currency and eBay's rounded sold average. |
| PricingProviders.AggregateTcgplayerThenEbayOutcome | services/pricing/pricing.test.ts:94-175 | Merging a TCGplayer and an eBay record: both price points in order, the summed sample size, TCGplayer's currency and eBay's rounded sold average. |
| PricingProviders.CompositeTcgplayerThenEbay | services/pricing/pricing.test.ts:94-175 | The two-stub composite for any card: sources, sample size (e.g. 47 + 23 = 70), currency and soldAvg. |
| Deals.ComputeDealTargets | services/deals.ts:10-24 | For a usable market value, each target is a whole number of cents within half a cent of 80, 85 and 90 % of the market, and 0 ≤ pct80 ≤ pct85 ≤ pct90. An unusable market value (≤ 0, Infinity or NaN) gives all-zero targets. |
| Deals.TargetsOfHundred | services/deals.test.ts:6-11 | Market 100 gives 80, 85, 90. |
| Deals.TargetsOfAlmostHundred | services/deals.test.ts:13-18 | Market 99.99 gives 79.99, 84.99, 89.99. |
| Deals.TargetsOfThird | services/deals.test.ts:20-25 | Market 33.33 gives 26.66, 28.33, 30. |
| Deals.Confidence | services/deals.ts:73-84 | Confidence is between 0.7 and 1.0. |
| Deals.ConfidenceLevels | services/deals.ts:73-84 | Confidence is 1.0, 0.9, 0.8 or 0.7 exactly according to "more than 10 samples" and "more than one source". |
| Deals.Evaluate | services/deals.ts:38-113 | Every verdict carries the targets of the market value. |
| Deals.InvalidAskingFirst | services/deals.ts:41-48 | A negative or non-finite asking price gives UNKNOWN, confidence 0 and "Invalid asking price", before any other check. |
| Deals.MarketUnavailable | services/deals.ts:51-58 | A valid price against an unusable market gives UNKNOWN, "Market data unavailable" and zero targets. |
| Deals.StaleData | services/deals.ts:60-71 | Data older than 24 h gives UNKNOWN with "Market data is stale (Nh old)". N is the whole hours of age, at least 24. |
| Deals.UnknownIff | services/deals.ts:40-84 | UNKNOWN exactly when a guard fails, and exactly when confidence is 0. Otherwise confidence is the computed score. |
| Deals.JudgeClassifies | services/deals.ts:86-113 | GOOD iff asking ≤ pct80; FAIR iff pct80 < asking ≤ pct90; OVERPRICED iff asking > pct90. |
| Deals.ValidPath | services/deals.ts:40-86 | When every guard passes, the verdict is the closing classification with the computed confidence. |
| Deals.Classification | services/deals.ts:86-113 | The three verdicts of a valid evaluation, each as an if-and-only-if against the targets. |
| Deals.ExactShareThresholds | services/deals.test.ts:69-85 | When 80 % (or 90 %) of the market is a cent value, asking that much is GOOD (or at worst FAIR). |
| Deals.ZeroAskingIsGood | services/deals.test.ts:249-253 | Asking 0 against any usable fresh market is GOOD. |
| Deals.VerdictMonotone | services/deals.ts:86-113 | A higher asking price never gets a better verdict. |
| Deals.ThresholdsNearShares | services/deals.ts:86-113 | Away from half-cent boundaries, the verdict follows 80 % and 90 % of the market exactly. |
| Deals.AtMarketIsOverpriced | services/deals.test.ts:93-97 | Asking the market value is OVERPRICED for every market above 0.05. |
| Deals.EightyPercentOfThirdIsFair | services/deals.ts:87-103 | At market 33.33, asking exactly 80 % of it (26.664) is FAIR, because the 80 % target rounds down to 26.66. |
| Deals.TinyMarketAtMarketIsGood | services/deals.ts:20-87 | At market 0.01, asking 0.01 is GOOD: the rounded 80 % target is 0.01. |
| Deals.TinyMarketGoodAboveMarket | services/deals.ts:87-94 | Market 0.007 against asking 0.01 is GOOD, with reason "-43% below market value". |
| Deals.PercentOverPositive | services/deals.ts:105-111 | The rounded percentage over market is positive exactly when asking ≥ 1.005 × market. |
| Deals.JudgeOverpricedReason | services/deals.ts:105-113 | OVERPRICED reads "N% above market value" with N > 0 when asking ≥ 1.005 × market, else "at market value". |
| Deals.OverpricedReason | services/deals.ts:105-113 | The same, for the full evaluation. |
| Deals.GoodPercentBelow | services/deals.ts:87-94 | For a market of at least 1, a GOOD reason states a percentage below market of at least 20. |
| Deals.FairPercentBelow | services/deals.ts:96-103 | For a market of at least 1, a FAIR reason states a percentage between 10 and 20. |
| Deals.PercentBelowOnMarket | services/deals.ts:86-103 | Both of the above, for the full evaluation. |
| Deals.BelowReasonWording | services/deals.test.ts:217-221 | A below-market reason contains "below market". |
| Deals.AboveReasonWording | services/deals.test.ts:223-227 | An above-market reason contains "above market". |
| Deals.StaleReasonWording | services/deals.test.ts:146-152 | A stale reason contains "stale". |
| Deals.InvalidReasonWording | services/deals.ts:45 | The invalid-price reason contains "Invalid". |
| Deals.UnavailableReasonWording | services/deals.test.ts:229-234 | The unavailable reason contains "unavailable". |
| Deals.GuardReasonWording | services/deals.ts:41-71 | Each failed guard's reason has its keyword. |
| Deals.VerdictReasonWording | services/deals.ts:86-113 | GOOD and FAIR reasons say "below market"; OVERPRICED says "above market" or "at market value". |
| Deals.OverpricedBelowMarket | services/deals.ts:105-111 | Asking 95 against 100 is OVERPRICED and reads "at market value". |
| Catalog.Filter | services/cards/InMemoryCardRepository.ts:242 | Filtering never lengthens the list. |
| Catalog.FilterMember | services/cards/InMemoryCardRepository.ts:242-248 | A card is kept exactly when it is in the list and passes the test. |
| Catalog.FilterConcat | services/cards/InMemoryCardRepository.ts:242 | Filtering keeps the list order. |
| Catalog.FilterAll | services/cards/InMemoryCardRepository.ts:242 | When every card passes, the list comes back unchanged. |
| Catalog.FilterNone | services/cards/InMemoryCardRepository.ts:242 | When no card passes, the result is empty. |
| Catalog.FilterCongruent | services/cards/InMemoryCardRepository.ts:242 | Tests agreeing on every card filter alike. |
| Catalog.Find | services/cards/InMemoryCardRepository.ts:267 | A found card is in the list and passes the test. |
| Catalog.FindFirst | services/cards/InMemoryCardRepository.ts:267 | `find \|\| null` is null exactly when no card passes, and otherwise is the first card that does. |
| InMemoryCardRepository.SearchMember | services/cards/InMemoryCardRepository.ts:235-249 | A card is returned exactly when it is in CARDS and the trimmed lower-case query is blank or included in its lower-case name, set name, number or rarity. |
| InMemoryCardRepository.SearchNoMatch | services/cards/cards.test.ts:46-49 | A query matching nothing returns an empty list. |
| InMemoryCardRepository.SearchCaseInsensitive | services/cards/cards.test.ts:39-44 | Upper- and lower-casing the query changes nothing. |
| InMemoryCardRepository.GetSetsWellFormed | services/cards/cards.test.ts:58-77 | The set list is not empty, and every set has a non-empty id, name, series and release date and a positive card count. |
| InMemoryCardRepository.SetPrefix | services/cards/InMemoryCardRepository.ts:259-260 | The set prefix is the part of the id before the first '-', or the whole id. |
| InMemoryCardRepository.GetCardsBySetMember | services/cards/InMemoryCardRepository.ts:256-263 | A card is returned exactly when it is in CARDS and its id starts with the set prefix. |
| InMemoryCardRepository.GetCardsBySetOfCardId | services/cards/cards.test.ts:103-108 | A card id `set-number` lists the same cards as its set id. |
| InMemoryCardRepository.GetCard | services/cards/InMemoryCardRepository.ts:265-268 | A returned card is in CARDS and has exactly the given id. |
| InMemoryCardRepository.GetCardFirst | services/cards/InMemoryCardRepository.ts:265-268 | null exactly when no card has the id; otherwise the first card with it. |
| InMemoryCardRepository.PrefixReachesOtherSet | services/cards/InMemoryCardRepository.ts:262 | The Shining Fates card `swsh45sv-107` is listed for the set `swsh4`. |
| InMemoryCardRepository.UnknownSet | services/cards/cards.test.ts:98-101 | An unknown set lists no cards. |
| InMemoryCardRepository.CatalogPricesPositive | services/cards/cards.test.ts:158-177 | Every catalogue card has a positive market price and price data with positive market values. |
| InMemoryCardRepository.GetCharizard | services/cards/cards.test.ts:111-116 | `base1-4` is Charizard. |
| CardDatabase.SearchCardsMember | services/cardDatabase.ts:46-55 | A card is returned exactly when it is in MOCK_CARDS and the lower-cased (untrimmed) query is included in its lower-case name, set name or number. |
| CardDatabase.SearchCardsEmpty | services/cardDatabase.ts:49-54 | The empty query returns every card, in order. |
| CardDatabase.SearchCardsCaseInsensitive | services/cardDatabase.ts:49 | Upper-casing the query changes nothing. |
| CardDatabase.GetCardById | services/cardDatabase.ts:57-59 | A returned card is in MOCK_CARDS with exactly that id. |
| CardDatabase.GetCardByIdFirst | services/cardDatabase.ts:57-59 | null exactly when no card has the id; otherwise the first card with it. |
| CardDatabase.GetCardByDetails | services/cardDatabase.ts:61-67 | The result is always a card of MOCK_CARDS. A result other than the first card overlaps the given name. |
| CardDatabase.GetCardByDetailsFirst | services/cardDatabase.ts:61-67 | The first card whose lower-case name includes, or is included in, the lower-case given name; MOCK_CARDS[0] when there is none. |
| CardDatabase.GetCardByDetailsEmptyName | services/cardDatabase.ts:61-67 | An empty name resolves to the first card. |
| CardDatabase.GetCardByDetailsCaseInsensitive | services/cardDatabase.ts:63 | The letter case of the name does not matter. |

## Left out

- Latency and async: every `setTimeout` delay and all `Promise` plumbing. The model is the value each call resolves to. `Promise.all` with per-provider `.catch` becomes a list of `Option` results.
- The clock: `Date.now()` is the parameter `now` of `Deals.Evaluate`.
- Fixture files: `tcgplayer.sample.json` and `ebay.sample.json` are not part of this model. Each stub takes its fixture as a parameter: a map from card key to record, plus the default record. So the test expectations that depend on their concrete numbers (market 95.5, sample sizes 47 and 23) are not restated.
- Date parsing: the fixture records carry `lastUpdated` as a date string, and the stubs turn it into milliseconds with `new Date(lastUpdated).getTime()`. The model's records hold that millisecond value as an `int` directly. So an invalid date, which gives NaN, is not represented, and neither are its effects: `Math.max` would make the merged `lastUpdated` NaN, and `evaluateDeal` would treat NaN data as fresh because `NaN > STALE_THRESHOLD_MS` is false.
- Floating point: prices are exact reals, and no IEEE effect is represented. So:
  - `0.7 + 0.2 + 0.1` is 0.9999999999999999 in JavaScript, while `Deals.Confidence` reaches 1.0 exactly.
  - `toFixed(2)` rounds the nearest binary double, not the decimal written: `(1.005).toFixed(2)` is "1.00", while `Numbers.Round2(1.005)` is 1.01. "Ties go away from zero" (`Numbers.Round2Spec`) holds for exact reals only.
  - Integers of 1e21 or more print in exponent form in a template literal. `Text.IntToString` always prints plain digits, so the percentages and hours in the reason strings differ for such values.
- JavaScript strings: `toLowerCase` is modelled on ASCII letters only. A Dafny string is a sequence of Unicode code points, and `includes`, `startsWith` and `trim` compare code points. A JavaScript string is a sequence of UTF-16 code units, so lone surrogates are not represented, and a character outside the Basic Multilingual Plane is one character here but two units in JavaScript.
- Non-finite summary prices: `MarketSummary.market` is a real. `Deals.Evaluate` takes the market value as a separate `Num`, so the Infinity and NaN cases of `evaluateDeal` are covered through `Evaluate`; `Deals.EvaluateDeal` itself only sees finite markets.
- Object keys: a card key naming an inherited property of a JavaScript object (such as `constructor`) is not modelled. Lookup is by plain map membership.
- The `market.sources &&` check in `evaluateDeal` is not modelled, because `sources` is always a list.
- Concrete search results over CARDS ("charizard" finds two cards, and so on) are not restated member by member. `InMemoryCardRepository.SearchMember` states search results in general.
- Not part of this model: UI components, `App.tsx`, the Gemini scanner service, collection state, and the `CardRepository`/`PricingProvider` interfaces (the models implement them directly).
