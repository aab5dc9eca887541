/**
 * InMemoryCardRepository: search, set listing, per-set listing and lookup by
 * id over the constant SETS and CARDS catalogues. The simulated network
 * latency of each call is not modelled.
 */
module InMemoryCardRepository {
  import opened Wrappers
  import opened Text
  import opened Catalog

  const Sets: seq<CardSet> := [
    CardSet("base1", "Base Set", "Original Series", "1999-01-09", 102, None),
    CardSet("swsh45sv", "Shining Fates", "Sword & Shield", "2021-02-19", 122, None),
    CardSet("swsh12", "Silver Tempest", "Sword & Shield", "2022-11-11", 195, None)
  ]

  const Cards: seq<PokemonCard> := [
    PokemonCard("base1-4", "Charizard", "Base Set", "4/102", "Rare Holo",
      "https://images.pokemontcg.io/base1/4_hires.png", 350.0,
      [CardPrice("TCGplayer", 350.0, 280.0, 450.0, Some(340.0)),
        CardPrice("PriceCharting", 365.0, 310.0, 500.0, Some(355.0))]),
    PokemonCard("base1-1", "Alakazam", "Base Set", "1/102", "Rare Holo",
      "https://images.pokemontcg.io/base1/1_hires.png", 45.0,
      [CardPrice("TCGplayer", 45.0, 38.0, 55.0, Some(44.0))]),
    PokemonCard("base1-2", "Blastoise", "Base Set", "2/102", "Rare Holo",
      "https://images.pokemontcg.io/base1/2_hires.png", 120.0,
      [CardPrice("TCGplayer", 120.0, 95.0, 150.0, Some(115.0))]),
    PokemonCard("base1-3", "Chansey", "Base Set", "3/102", "Rare Holo",
      "https://images.pokemontcg.io/base1/3_hires.png", 35.0,
      [CardPrice("TCGplayer", 35.0, 28.0, 45.0, Some(33.0))]),
    PokemonCard("base1-15", "Venusaur", "Base Set", "15/102", "Rare Holo",
      "https://images.pokemontcg.io/base1/15_hires.png", 110.0,
      [CardPrice("TCGplayer", 110.0, 90.0, 135.0, Some(108.0))]),
    PokemonCard("base1-58", "Pikachu", "Base Set", "58/102", "Common",
      "https://images.pokemontcg.io/base1/58_hires.png", 8.5,
      [CardPrice("TCGplayer", 8.5, 6.0, 12.0, Some(8.0))]),
    PokemonCard("swsh45sv-107", "Charizard VMAX", "Shining Fates", "SV107/SV122", "Shiny Rare VMAX",
      "https://images.pokemontcg.io/swsh45sv/SV107_hires.png", 95.5,
      [CardPrice("TCGplayer", 95.5, 88.0, 110.0, Some(92.0)),
        CardPrice("eBay", 98.0, 75.0, 125.0, Some(94.5))]),
    PokemonCard("swsh45sv-122", "Shiny Charizard V", "Shining Fates", "SV122/SV122", "Shiny Ultra Rare",
      "https://images.pokemontcg.io/swsh45sv/SV122_hires.png", 155.0,
      [CardPrice("TCGplayer", 155.0, 140.0, 180.0, Some(150.0))]),
    PokemonCard("swsh45sv-050", "Ditto VMAX", "Shining Fates", "SV050/SV122", "Shiny Rare VMAX",
      "https://images.pokemontcg.io/swsh45sv/SV050_hires.png", 22.0,
      [CardPrice("TCGplayer", 22.0, 18.0, 28.0, Some(21.0))]),
    PokemonCard("swsh45sv-001", "Rowlet", "Shining Fates", "SV001/SV122", "Shiny Common",
      "https://images.pokemontcg.io/swsh45sv/SV001_hires.png", 3.5,
      [CardPrice("TCGplayer", 3.5, 2.5, 5.0, Some(3.2))]),
    PokemonCard("swsh12-186", "Lugia V", "Silver Tempest", "186/195", "Special Illustration Rare",
      "https://images.pokemontcg.io/swsh12/186_hires.png", 185.25,
      [CardPrice("TCGplayer", 185.25, 170.0, 210.0, Some(182.0))]),
    PokemonCard("swsh12-195", "Lugia VSTAR", "Silver Tempest", "195/195", "Ultra Rare",
      "https://images.pokemontcg.io/swsh12/195_hires.png", 45.0,
      [CardPrice("TCGplayer", 45.0, 38.0, 55.0, Some(44.0))]),
    PokemonCard("swsh12-183", "Regieleki VMAX", "Silver Tempest", "183/195", "Ultra Rare",
      "https://images.pokemontcg.io/swsh12/183_hires.png", 12.5,
      [CardPrice("TCGplayer", 12.5, 10.0, 16.0, Some(12.0))]),
    PokemonCard("swsh12-001", "Snivy", "Silver Tempest", "001/195", "Common",
      "https://images.pokemontcg.io/swsh12/1_hires.png", 0.25,
      [CardPrice("TCGplayer", 0.25, 0.15, 0.5, Some(0.2))]),
    PokemonCard("swsh12-100", "Pikachu", "Silver Tempest", "100/195", "Uncommon",
      "https://images.pokemontcg.io/swsh12/100_hires.png", 1.5,
      [CardPrice("TCGplayer", 1.5, 1.0, 2.5, Some(1.4))]),
    PokemonCard("swsh12-147", "Mewtwo V", "Silver Tempest", "147/195", "Ultra Rare",
      "https://images.pokemontcg.io/swsh12/147_hires.png", 8.0,
      [CardPrice("TCGplayer", 8.0, 6.5, 10.0, Some(7.8))])
  ]

  /** The query as search uses it: `query.toLowerCase().trim()`. */
  function NormalizeQuery(query: string): string {
    Trim(Lower(query))
  }

  /** The test inside InMemoryCardRepository.search: a card matches when its lower-cased name, set name, number or rarity includes q. */
  predicate MatchesQuery(card: PokemonCard, q: string) {
    || Contains(Lower(card.name), q)
    || Contains(Lower(card.setName), q)
    || Contains(Lower(card.number), q)
    || Contains(Lower(card.rarity), q)
  }

  /** MatchesQuery as the callback that search passes to `filter`. */
  function QueryTest(q: string): PokemonCard -> bool {
    (card: PokemonCard) => MatchesQuery(card, q)
  }

  /** search(query): the whole catalogue for a blank query, otherwise the matching cards in catalogue order. */
  function Search(query: string): seq<PokemonCard> {
    var q := NormalizeQuery(query);
    if q == "" then Cards else Filter(Cards, QueryTest(q))
  }

  /** Sound and complete: a card is returned exactly when it is in the catalogue and matches (or the query is blank). */
  lemma SearchMember(query: string, card: PokemonCard)
    ensures var q := NormalizeQuery(query);
      card in Search(query) <==> card in Cards && (q == "" || MatchesQuery(card, q))
  {
    var q := NormalizeQuery(query);
    if q != "" {
      FilterMember(Cards, QueryTest(q), card);
    }
  }

  /** A query nothing matches gives the empty list. */
  lemma SearchNoMatch(query: string)
    requires NormalizeQuery(query) != ""
    requires forall i :: 0 <= i < |Cards| ==> !MatchesQuery(Cards[i], NormalizeQuery(query))
    ensures Search(query) == []
  {
    FilterNone(Cards, QueryTest(NormalizeQuery(query)));
  }

  /** Letter case in the query makes no difference. */
  lemma SearchCaseInsensitive(query: string)
    ensures Search(Upper(query)) == Search(query)
    ensures Search(Lower(query)) == Search(query)
  {
    LowerOfUpper(query);
    LowerIdempotent(query);
  }

  /** getSets(): the constant list of sets, unchanged. */
  function GetSets(): seq<CardSet> {
    Sets
  }

  /** The set list is not empty, and every set has an id, a name, a series, a release date and a positive card count. */
  lemma GetSetsWellFormed()
    ensures |GetSets()| > 0
    ensures forall s :: s in GetSets() ==>
      |s.id| > 0 && |s.name| > 0 && |s.series| > 0 && |s.releaseDate| > 0 && s.totalCards > 0
  {
    var sets := GetSets();
    assert sets == [sets[0], sets[1], sets[2]];
  }

  /** `setId.includes('-') ? setId.split('-')[0] : setId` */
  function SetPrefix(setId: string): (prefix: string)
    ensures prefix == BeforeFirst(setId, '-')
  {
    ContainsChar(setId, '-');
    if Contains(setId, "-") then BeforeFirst(setId, '-')
    else
      BeforeFirstWithoutSep(setId, '-');
      setId
  }

  function SetTest(prefix: string): PokemonCard -> bool {
    (card: PokemonCard) => StartsWith(card.id, prefix)
  }

  /** getCardsBySet(setId): the catalogue cards whose id starts with the set prefix, in catalogue order. */
  function GetCardsBySet(setId: string): seq<PokemonCard> {
    Filter(Cards, SetTest(SetPrefix(setId)))
  }

  lemma GetCardsBySetMember(setId: string, card: PokemonCard)
    ensures card in GetCardsBySet(setId) <==> card in Cards && StartsWith(card.id, BeforeFirst(setId, '-'))
  {
    FilterMember(Cards, SetTest(SetPrefix(setId)), card);
  }

  /** A card id names its set: "base1-4" lists the same cards as "base1". */
  lemma GetCardsBySetOfCardId(setId: string, number: string)
    requires '-' !in setId
    ensures GetCardsBySet(setId + "-" + number) == GetCardsBySet(setId)
  {
    assert setId + "-" + number == setId + ['-'] + number;
    BeforeFirstOfJoin(setId, '-', number);
    BeforeFirstWithoutSep(setId, '-');
  }

  /** getCard(cardId): the first catalogue card with exactly this id, or None (`null`). */
  function GetCard(cardId: string): (r: Option<PokemonCard>)
    ensures r.Some? ==> r.value in Cards && r.value.id == cardId
  {
    Find(Cards, IdTest(cardId))
  }

  /** getCard fails exactly when no catalogue card has the id, and otherwise returns the first that does. */
  lemma GetCardFirst(cardId: string)
    ensures GetCard(cardId).None? <==> forall i :: 0 <= i < |Cards| ==> Cards[i].id != cardId
    ensures forall i :: 0 <= i < |Cards| && Cards[i].id == cardId && (forall j :: 0 <= j < i ==> Cards[j].id != cardId) ==>
      GetCard(cardId) == Some(Cards[i])
  {
    FindFirst(Cards, IdTest(cardId));
  }

  /** Prefix matching is not set matching: "swsh4" lists the Shining Fates cards of set "swsh45sv". */
  lemma PrefixReachesOtherSet()
    ensures Cards[6] in GetCardsBySet("swsh4") && Cards[6].id == "swsh45sv-107"
  {
    var c := Cards[6];
    assert c.id == "swsh45sv-107";
    assert StartsWith(c.id, "swsh4") by {
      assert c.id[..5] == "swsh4";
    }
    BeforeFirstWithoutSep("swsh4", '-');
    GetCardsBySetMember("swsh4", c);
  }

  /** An id matching no card prefix lists nothing. */
  lemma UnknownSet()
    ensures GetCardsBySet("unknown-set") == []
  {
    assert "unknown-set" == "unknown" + ['-'] + "set";
    BeforeFirstOfJoin("unknown", '-', "set");
    forall i | 0 <= i < |Cards| ensures !StartsWith(Cards[i].id, "unknown") {
      assert Cards[i].id[0] != 'u';
    }
    FilterNone(Cards, SetTest("unknown"));
  }

  /** Every catalogue card has a positive market price and at least one price entry, each with a positive market. */
  lemma CatalogPricesPositive()
    ensures forall i :: 0 <= i < |Cards| ==> Cards[i].marketPrice > 0.0 && |Cards[i].prices| > 0
    ensures forall i, k :: 0 <= i < |Cards| && 0 <= k < |Cards[i].prices| ==> Cards[i].prices[k].market > 0.0
  {
  }

  lemma GetCharizard()
    ensures GetCard("base1-4").Some? && GetCard("base1-4").value.name == "Charizard"
  {
  }
}
