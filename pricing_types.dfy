/** The shared records of the pricing services: cards as the providers see them, price points and market summaries. */
module PricingTypes {
  import opened Wrappers

  /** `card.id`: either a plain string key or a set id and a card number. */
  datatype CardId = KeyId(key: string) | PartsId(setId: string, number: string)

  /** The catalogue card handed to a pricing provider (images are not modelled). */
  datatype Card = Card(id: CardId, name: string, setName: string, setId: string, number: string, rarity: string)

  /** One source's observation of a price; lastUpdated is in milliseconds since the epoch. */
  datatype PricePoint = PricePoint(source: string, currency: string, value: real, lastUpdated: int)

  /** A market summary; the optional fields are absent (`undefined`) when None. */
  datatype MarketSummary = MarketSummary(
    currency: string,
    market: real,
    low: Option<real>,
    mid: Option<real>,
    high: Option<real>,
    soldAvg: Option<real>,
    sampleSize: Option<int>,
    lastUpdated: int,
    sources: seq<PricePoint>)
}
