/**
 * The local card database: name/set/number search, lookup by id, and the
 * scanner's name-based resolver over the constant MOCK_CARDS list. The
 * simulated latency is not modelled.
 */
module CardDatabase {
  import opened Wrappers
  import opened Text
  import opened Catalog

  const MockCards: seq<PokemonCard> := [
    PokemonCard("swsh4-183", "Charizard VMAX", "Shining Fates", "SV107/SV122", "Shiny Rare VMAX",
      "https://images.pokemontcg.io/swsh45sv/SV107_hires.png", 95.50,
      [CardPrice("TCGplayer", 95.50, 88.00, 110.00, Some(92.00)),
        CardPrice("eBay", 98.00, 75.00, 125.00, Some(94.50))]),
    PokemonCard("base1-4", "Charizard", "Base Set", "4/102", "Rare Holo",
      "https://images.pokemontcg.io/base1/4_hires.png", 350.00,
      [CardPrice("TCGplayer", 350.00, 280.00, 450.00, Some(340.00)),
        CardPrice("PriceCharting", 365.00, 310.00, 500.00, Some(355.00))]),
    PokemonCard("swsh12-160", "Lugia V", "Silver Tempest", "186/195", "Special Illustration Rare",
      "https://images.pokemontcg.io/swsh12/186_hires.png", 185.25,
      [CardPrice("TCGplayer", 185.25, 170.00, 210.00, Some(182.00))])
  ]

  /** The test inside cardDatabase's searchCards: a card matches when its lower-cased name, set name or number includes q; rarity is not searched. */
  predicate MatchesQuery(card: PokemonCard, q: string) {
    || Contains(Lower(card.name), q)
    || Contains(Lower(card.setName), q)
    || Contains(Lower(card.number), q)
  }

  /** MatchesQuery as the callback that searchCards passes to `filter`. */
  function QueryTest(q: string): PokemonCard -> bool {
    (card: PokemonCard) => MatchesQuery(card, q)
  }

  /** searchCards(query): the query is lower-cased but not trimmed. */
  function SearchCards(query: string): seq<PokemonCard> {
    Filter(MockCards, QueryTest(Lower(query)))
  }

  /** Sound and complete over MOCK_CARDS. */
  lemma SearchCardsMember(query: string, card: PokemonCard)
    ensures card in SearchCards(query) <==> card in MockCards && MatchesQuery(card, Lower(query))
  {
    FilterMember(MockCards, QueryTest(Lower(query)), card);
  }

  /** The empty query matches every card, so the whole list comes back in order. */
  lemma SearchCardsEmpty()
    ensures SearchCards("") == MockCards
  {
    forall i | 0 <= i < |MockCards| ensures QueryTest(Lower(""))(MockCards[i]) {
      ContainsEmpty(Lower(MockCards[i].name));
    }
    FilterAll(MockCards, QueryTest(Lower("")));
  }

  lemma SearchCardsCaseInsensitive(query: string)
    ensures SearchCards(Upper(query)) == SearchCards(query)
  {
    LowerOfUpper(query);
  }

  /** getCardById(id): the first card with exactly this id, or None (`null`). */
  function GetCardById(id: string): (r: Option<PokemonCard>)
    ensures r.Some? ==> r.value in MockCards && r.value.id == id
  {
    Find(MockCards, IdTest(id))
  }

  lemma GetCardByIdFirst(id: string)
    ensures GetCardById(id).None? <==> forall i :: 0 <= i < |MockCards| ==> MockCards[i].id != id
    ensures forall i :: 0 <= i < |MockCards| && MockCards[i].id == id && (forall j :: 0 <= j < i ==> MockCards[j].id != id) ==>
      GetCardById(id) == Some(MockCards[i])
  {
    FindFirst(MockCards, IdTest(id));
  }

  /** The resolver's test: either lower-cased name includes the other. */
  predicate NamesOverlap(card: PokemonCard, normalizedName: string) {
    Contains(Lower(card.name), normalizedName) || Contains(normalizedName, Lower(card.name))
  }

  function NameTest(normalizedName: string): PokemonCard -> bool {
    (card: PokemonCard) => NamesOverlap(card, normalizedName)
  }

  /**
   * getCardByDetails(name, cardSet, number): the first card whose name overlaps
   * the given one, or MOCK_CARDS[0]. `set` (here cardSet) and `number` are accepted and ignored.
   */
  function GetCardByDetails(name: string, cardSet: string, number: string): (c: PokemonCard)
    ensures c in MockCards
    ensures c != MockCards[0] ==> NamesOverlap(c, Lower(name))
  {
    match Find(MockCards, NameTest(Lower(name)))
    case Some(c) => c
    case None => MockCards[0]
  }

  /** Never null: the first overlapping card, or MOCK_CARDS[0] when no card overlaps. */
  lemma GetCardByDetailsFirst(name: string, cardSet: string, number: string)
    ensures var n := Lower(name);
      (forall i :: 0 <= i < |MockCards| ==> !NamesOverlap(MockCards[i], n)) ==>
        GetCardByDetails(name, cardSet, number) == MockCards[0]
    ensures var n := Lower(name);
      forall i ::
        (0 <= i < |MockCards| && NamesOverlap(MockCards[i], n) &&
         (forall j :: 0 <= j < i ==> !NamesOverlap(MockCards[j], n))) ==>
        GetCardByDetails(name, cardSet, number) == MockCards[i]
  {
    FindFirst(MockCards, NameTest(Lower(name)));
  }

  /** An empty name is included in every name, so the first card is returned. */
  lemma GetCardByDetailsEmptyName(cardSet: string, number: string)
    ensures GetCardByDetails("", cardSet, number) == MockCards[0]
  {
    ContainsEmpty(Lower(MockCards[0].name));
    assert NameTest(Lower(""))(MockCards[0]);
  }

  lemma GetCardByDetailsCaseInsensitive(name: string, cardSet: string, number: string)
    ensures GetCardByDetails(Upper(name), cardSet, number) == GetCardByDetails(name, cardSet, number)
  {
    LowerOfUpper(name);
  }
}
