/**
 * The two fixture-backed pricing providers, TcgplayerProviderStub and
 * EbaySoldProviderStub, and the composite service over a list of them
 * (CompositePricingService, whose `providers` field is fixed by its
 * constructor). The JSON fixture files are parameters: a map from card key to
 * record, and the `default` record used for every other key.
 */
module PricingProviders {
  import opened Wrappers
  import opened Numbers
  import opened Text
  import opened PricingTypes
  import opened CompositePricing

  /** `typeof card.id === 'string' ? card.id : card.id.setId + '-' + card.id.number` */
  function CardKey(id: CardId): string {
    match id
    case KeyId(key) => key
    case PartsId(setId, number) => setId + "-" + number
  }

  /** For a set id without '-', the set id is read back as the part of the key before the first '-'. */
  lemma CardKeySetId(setId: string, number: string)
    requires '-' !in setId
    ensures BeforeFirst(CardKey(PartsId(setId, number)), '-') == setId
    ensures CardKey(PartsId(setId, number))[|setId| + 1..] == number
  {
    BeforeFirstOfJoin(setId, '-', number);
    assert setId + "-" + number == setId + ['-'] + number;
  }

  /** Two set-and-number ids give the same key only if they agree, as long as set ids contain no '-'. */
  lemma CardKeyInjective(s1: string, n1: string, s2: string, n2: string)
    requires '-' !in s1 && '-' !in s2
    requires CardKey(PartsId(s1, n1)) == CardKey(PartsId(s2, n2))
    ensures s1 == s2 && n1 == n2
  {
    CardKeySetId(s1, n1);
    CardKeySetId(s2, n2);
  }

  /** `cards[key] || default`: a fixture record is an object, so any record found is used. */
  function Lookup<R>(cards: map<string, R>, fallback: R, key: string): R {
    if key in cards then cards[key] else fallback
  }

  // TCGplayer

  /** A fixture record; `lastUpdated` is the millisecond value `new Date(lastUpdated).getTime()` gives for a valid date. */
  datatype TcgplayerRecord = TcgplayerRecord(
    cardId: string,
    currency: string,
    market: real,
    low: real,
    mid: real,
    high: real,
    lastSold: real,
    sampleSize: int,
    lastUpdated: int)

  datatype TcgplayerFixtures = TcgplayerFixtures(cards: map<string, TcgplayerRecord>, fallback: TcgplayerRecord)

  /** The summary built from one TCGplayer record. */
  function TcgplayerSummaryOf(r: TcgplayerRecord): MarketSummary {
    MarketSummary(
      currency := r.currency,
      market := r.market,
      low := Some(r.low),
      mid := Some(r.mid),
      high := Some(r.high),
      soldAvg := None,
      sampleSize := Some(r.sampleSize),
      lastUpdated := r.lastUpdated,
      sources := [PricePoint("tcgplayer", r.currency, r.market, r.lastUpdated)])
  }

  function TcgplayerSummary(f: TcgplayerFixtures, card: Card): MarketSummary {
    TcgplayerSummaryOf(Lookup(f.cards, f.fallback, CardKey(card.id)))
  }

  /** A card with its own fixture gets that record; any other card gets the default record. */
  lemma TcgplayerLookup(f: TcgplayerFixtures, card: Card)
    ensures CardKey(card.id) in f.cards ==>
      TcgplayerSummary(f, card) == TcgplayerSummaryOf(f.cards[CardKey(card.id)])
    ensures CardKey(card.id) !in f.cards ==>
      TcgplayerSummary(f, card) == TcgplayerSummaryOf(f.fallback)
  {
  }

  // eBay sold listings

  /** A fixture record; `lastUpdated` as in TcgplayerRecord. */
  datatype EbayRecord = EbayRecord(
    cardId: string,
    currency: string,
    soldAvg: real,
    low: real,
    high: real,
    lastSold: real,
    sampleSize: int,
    lastUpdated: int)

  datatype EbayFixtures = EbayFixtures(cards: map<string, EbayRecord>, fallback: EbayRecord)

  /** The summary built from one eBay record: the sold average serves as the market price too. */
  function EbaySummaryOf(r: EbayRecord): MarketSummary {
    MarketSummary(
      currency := r.currency,
      market := r.soldAvg,
      low := Some(r.low),
      mid := None,
      high := Some(r.high),
      soldAvg := Some(r.soldAvg),
      sampleSize := Some(r.sampleSize),
      lastUpdated := r.lastUpdated,
      sources := [PricePoint("ebay", r.currency, r.soldAvg, r.lastUpdated)])
  }

  function EbaySummary(f: EbayFixtures, card: Card): MarketSummary {
    EbaySummaryOf(Lookup(f.cards, f.fallback, CardKey(card.id)))
  }

  lemma EbayLookup(f: EbayFixtures, card: Card)
    ensures CardKey(card.id) in f.cards ==>
      EbaySummary(f, card) == EbaySummaryOf(f.cards[CardKey(card.id)])
    ensures CardKey(card.id) !in f.cards ==>
      EbaySummary(f, card) == EbaySummaryOf(f.fallback)
  {
  }

  // Providers and the composite service

  datatype Provider = Tcgplayer(tcg: TcgplayerFixtures) | EbaySold(ebay: EbayFixtures)

  /** getName() */
  function Name(p: Provider): string {
    match p
    case Tcgplayer(_) => "tcgplayer"
    case EbaySold(_) => "ebay"
  }

  /** getMarketSummary(card); neither stub ever fails. */
  function Summary(p: Provider, card: Card): MarketSummary {
    match p
    case Tcgplayer(f) => TcgplayerSummary(f, card)
    case EbaySold(f) => EbaySummary(f, card)
  }

  /** Every summary a stub returns names that stub as the source of its only price point, which carries the summary's market, currency and time. */
  lemma SummarySourceIsName(p: Provider, card: Card)
    ensures |Summary(p, card).sources| == 1
    ensures Summary(p, card).sources[0].source == Name(p)
    ensures Summary(p, card).sources[0].value == Summary(p, card).market
    ensures Summary(p, card).sources[0].currency == Summary(p, card).currency
    ensures Summary(p, card).sources[0].lastUpdated == Summary(p, card).lastUpdated
  {
  }

  /** The settled results of calling every provider: the stubs all answer. */
  function Results(providers: seq<Provider>, card: Card): seq<Option<MarketSummary>> {
    seq(|providers|, i requires 0 <= i < |providers| => Some(Summary(providers[i], card)))
  }

  /** CompositePricingService(providers).getMarketSummary(card) */
  function Composite(providers: seq<Provider>, card: Card): Result<MarketSummary, string> {
    Aggregate(Results(providers, card))
  }

  /** With stubs only, the composite fails exactly when it has no providers. */
  lemma CompositeFailsIffNoProviders(providers: seq<Provider>, card: Card)
    ensures Composite(providers, card).Failure? <==> |providers| == 0
    ensures Composite(providers, card).Failure? ==> Composite(providers, card).error == NoDataError
  {
    AggregateFailsIffAllFailed(Results(providers, card));
    if |providers| > 0 {
      assert Results(providers, card)[0].Some?;
    }
  }

  /** A lone TCGplayer provider: the market is the record's mid price, or its market price when mid is 0. */
  lemma CompositeSingleTcgplayer(f: TcgplayerFixtures, card: Card)
    ensures Composite([Tcgplayer(f)], card).Success?
    ensures var r := Lookup(f.cards, f.fallback, CardKey(card.id));
      var c := Composite([Tcgplayer(f)], card).value;
      && c.market == Round2(if r.mid != 0.0 then r.mid else r.market)
      && c.soldAvg.None?
      && c.currency == r.currency
      && c.sources == [PricePoint("tcgplayer", r.currency, r.market, r.lastUpdated)]
  {
    var r := Lookup(f.cards, f.fallback, CardKey(card.id));
    var s := TcgplayerSummaryOf(r);
    assert Results([Tcgplayer(f)], card) == [Some(s)];
    AggregateSingleSummary(s);
    var c := Aggregate([Some(s)]).value;
    assert SingleOutcome(c, s);
    assert Representative(s) == if r.mid != 0.0 then r.mid else r.market;
  }

  /** A lone eBay provider: market and soldAvg are both the rounded sold average (soldAvg dropped when 0). */
  lemma CompositeSingleEbay(f: EbayFixtures, card: Card)
    ensures Composite([EbaySold(f)], card).Success?
    ensures var r := Lookup(f.cards, f.fallback, CardKey(card.id));
      var c := Composite([EbaySold(f)], card).value;
      && c.market == Round2(r.soldAvg)
      && c.soldAvg == (if r.soldAvg != 0.0 then Some(Round2(r.soldAvg)) else None)
      && c.sources == [PricePoint("ebay", r.currency, r.soldAvg, r.lastUpdated)]
  {
    var r := Lookup(f.cards, f.fallback, CardKey(card.id));
    var s := EbaySummaryOf(r);
    assert Results([EbaySold(f)], card) == [Some(s)];
    AggregateSingleSummary(s);
    var c := Aggregate([Some(s)]).value;
    assert SingleOutcome(c, s);
    assert Representative(s) == r.soldAvg;
  }

  /** The composite over TCGplayer then eBay aggregates the two stub summaries in that order. */
  lemma CompositeOfPair(tf: TcgplayerFixtures, ef: EbayFixtures, card: Card)
    ensures Composite([Tcgplayer(tf), EbaySold(ef)], card) ==
      Aggregate([Some(TcgplayerSummary(tf, card)), Some(EbaySummary(ef, card))])
  {
    assert Results([Tcgplayer(tf), EbaySold(ef)], card) ==
      [Some(TcgplayerSummary(tf, card)), Some(EbaySummary(ef, card))];
  }

  /** Aggregating one TCGplayer record's summary and then one eBay record's. */
  lemma AggregateTcgplayerThenEbay(t: TcgplayerRecord, e: EbayRecord)
    ensures Aggregate([Some(TcgplayerSummaryOf(t)), Some(EbaySummaryOf(e))]).Success?
    ensures var c := Aggregate([Some(TcgplayerSummaryOf(t)), Some(EbaySummaryOf(e))]).value;
      && c.sources == [PricePoint("tcgplayer", t.currency, t.market, t.lastUpdated),
                       PricePoint("ebay", e.currency, e.soldAvg, e.lastUpdated)]
      && c.sampleSize == (if t.sampleSize + e.sampleSize > 0 then Some(t.sampleSize + e.sampleSize) else None)
  {
    var s1, s2 := TcgplayerSummaryOf(t), EbaySummaryOf(e);
    AggregatePair(s1, s2);
    var r := Aggregate([Some(s1), Some(s2)]).value;
    assert r.sources == [s1.sources[0], s2.sources[0]];
    var n := SampleSizeOrZero(s1) + SampleSizeOrZero(s2);
    assert n == t.sampleSize + e.sampleSize;
    assert r.sampleSize == if n > 0 then Some(n) else None;
  }

  lemma AggregateTcgplayerThenEbaySold(t: TcgplayerRecord, e: EbayRecord)
    ensures Aggregate([Some(TcgplayerSummaryOf(t)), Some(EbaySummaryOf(e))]).Success?
    ensures var c := Aggregate([Some(TcgplayerSummaryOf(t)), Some(EbaySummaryOf(e))]).value;
      && c.currency == t.currency
      && c.soldAvg == (if e.soldAvg != 0.0 then Some(Round2(e.soldAvg)) else None)
  {
    var s1, s2 := TcgplayerSummaryOf(t), EbaySummaryOf(e);
    AggregatePairSoldAvg(s1, s2);
    AggregatePair(s1, s2);
  }

  /**
   * TCGplayer then eBay: one price point from each, in that order, the two
   * sample sizes added, the currency TCGplayer's and the sold average eBay's
   * alone, rounded.
   */
  predicate TcgplayerThenEbayOutcome(c: MarketSummary, t: TcgplayerRecord, e: EbayRecord) {
    && c.sources == [PricePoint("tcgplayer", t.currency, t.market, t.lastUpdated),
                     PricePoint("ebay", e.currency, e.soldAvg, e.lastUpdated)]
    && c.sampleSize == (if t.sampleSize + e.sampleSize > 0 then Some(t.sampleSize + e.sampleSize) else None)
    && c.currency == t.currency
    && c.soldAvg == (if e.soldAvg != 0.0 then Some(Round2(e.soldAvg)) else None)
  }

  lemma AggregateTcgplayerThenEbayOutcome(t: TcgplayerRecord, e: EbayRecord)
    ensures Aggregate([Some(TcgplayerSummaryOf(t)), Some(EbaySummaryOf(e))]).Success?
    ensures TcgplayerThenEbayOutcome(Aggregate([Some(TcgplayerSummaryOf(t)), Some(EbaySummaryOf(e))]).value, t, e)
  {
    AggregateTcgplayerThenEbay(t, e);
    AggregateTcgplayerThenEbaySold(t, e);
  }

  /** The two-stub composite for any card, in terms of the two fixture records the card's key selects. */
  lemma CompositeTcgplayerThenEbay(tf: TcgplayerFixtures, ef: EbayFixtures, card: Card)
    ensures Composite([Tcgplayer(tf), EbaySold(ef)], card).Success?
    ensures TcgplayerThenEbayOutcome(Composite([Tcgplayer(tf), EbaySold(ef)], card).value,
      Lookup(tf.cards, tf.fallback, CardKey(card.id)), Lookup(ef.cards, ef.fallback, CardKey(card.id)))
  {
    var t := Lookup(tf.cards, tf.fallback, CardKey(card.id));
    var e := Lookup(ef.cards, ef.fallback, CardKey(card.id));
    CompositeOfPair(tf, ef, card);
    assert TcgplayerSummary(tf, card) == TcgplayerSummaryOf(t);
    assert EbaySummary(ef, card) == EbaySummaryOf(e);
    var c := Composite([Tcgplayer(tf), EbaySold(ef)], card);
    assert c == Aggregate([Some(TcgplayerSummaryOf(t)), Some(EbaySummaryOf(e))]);
    AggregateTcgplayerThenEbayOutcome(t, e);
  }
}
