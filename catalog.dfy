/**
 * The catalogue records shown to the user and the two list operations the
 * card services are built from: `Array.prototype.filter` and
 * `Array.prototype.find(...) || null`.
 */
module Catalog {
  import opened Wrappers

  datatype CardPrice = CardPrice(source: string, market: real, low: real, high: real, lastSold: Option<real>)

  datatype PokemonCard = PokemonCard(
    id: string,
    name: string,
    setName: string,
    number: string,
    rarity: string,
    imageUrl: string,
    marketPrice: real,
    prices: seq<CardPrice>)

  datatype CardSet = CardSet(
    id: string,
    name: string,
    series: string,
    releaseDate: string,
    totalCards: int,
    imageUrl: Option<string>)

  /** `cards.filter(p)`: the cards satisfying p, in their original order. */
  function Filter(cards: seq<PokemonCard>, p: PokemonCard -> bool): (r: seq<PokemonCard>)
    ensures |r| <= |cards|
  {
    if |cards| == 0 then []
    else (if p(cards[0]) then [cards[0]] else []) + Filter(cards[1..], p)
  }

  /** Sound and complete: a card is kept exactly when it is in the list and satisfies p. */
  lemma {:induction false} FilterMember(cards: seq<PokemonCard>, p: PokemonCard -> bool, c: PokemonCard)
    ensures c in Filter(cards, p) <==> c in cards && p(c)
  {
    if |cards| > 0 {
      FilterMember(cards[1..], p, c);
      assert cards == [cards[0]] + cards[1..];
    }
  }

  /** Filtering a concatenation filters each part and keeps them in order. */
  lemma {:induction false} FilterConcat(a: seq<PokemonCard>, b: seq<PokemonCard>, p: PokemonCard -> bool)
    ensures Filter(a + b, p) == Filter(a, p) + Filter(b, p)
  {
    if |a| == 0 {
      assert a + b == b;
    } else {
      var h := if p(a[0]) then [a[0]] else [];
      assert (a + b)[0] == a[0] && (a + b)[1..] == a[1..] + b;
      FilterConcat(a[1..], b, p);
      calc {
        Filter(a + b, p);
        h + Filter(a[1..] + b, p);
        h + (Filter(a[1..], p) + Filter(b, p));
        { assert h + (Filter(a[1..], p) + Filter(b, p)) == (h + Filter(a[1..], p)) + Filter(b, p); }
        (h + Filter(a[1..], p)) + Filter(b, p);
        Filter(a, p) + Filter(b, p);
      }
    }
  }

  /** When every card satisfies p the list comes back unchanged. */
  lemma {:induction false} FilterAll(cards: seq<PokemonCard>, p: PokemonCard -> bool)
    requires forall i :: 0 <= i < |cards| ==> p(cards[i])
    ensures Filter(cards, p) == cards
  {
    if |cards| > 0 {
      FilterAll(cards[1..], p);
    }
  }

  /** When no card satisfies p the result is empty. */
  lemma {:induction false} FilterNone(cards: seq<PokemonCard>, p: PokemonCard -> bool)
    requires forall i :: 0 <= i < |cards| ==> !p(cards[i])
    ensures Filter(cards, p) == []
  {
    if |cards| > 0 {
      FilterNone(cards[1..], p);
    }
  }

  /** Two tests that agree on every card of the list filter it alike. */
  lemma {:induction false} FilterCongruent(cards: seq<PokemonCard>, p: PokemonCard -> bool, q: PokemonCard -> bool)
    requires forall i :: 0 <= i < |cards| ==> p(cards[i]) == q(cards[i])
    ensures Filter(cards, p) == Filter(cards, q)
  {
    if |cards| > 0 {
      FilterCongruent(cards[1..], p, q);
    }
  }

  /** `card => card.id === id`, the test both card lookups by id use. */
  function IdTest(id: string): PokemonCard -> bool {
    (card: PokemonCard) => card.id == id
  }

  /** `cards.find(p) || null`: the first card satisfying p, if any (a card object is never falsy). */
  function Find(cards: seq<PokemonCard>, p: PokemonCard -> bool): (r: Option<PokemonCard>)
    ensures r.Some? ==> r.value in cards && p(r.value)
  {
    if |cards| == 0 then None
    else if p(cards[0]) then Some(cards[0])
    else Find(cards[1..], p)
  }

  /** Find fails exactly when no card satisfies p, and returns the first card that does. */
  lemma {:induction false} FindFirst(cards: seq<PokemonCard>, p: PokemonCard -> bool)
    ensures Find(cards, p).None? <==> forall i :: 0 <= i < |cards| ==> !p(cards[i])
    ensures forall i :: 0 <= i < |cards| && p(cards[i]) && (forall j :: 0 <= j < i ==> !p(cards[j])) ==>
      Find(cards, p) == Some(cards[i])
  {
    if |cards| > 0 {
      FindFirst(cards[1..], p);
      if !p(cards[0]) {
        forall i | 0 < i < |cards| && p(cards[i]) && (forall j :: 0 <= j < i ==> !p(cards[j]))
          ensures Find(cards[1..], p) == Some(cards[1..][i - 1])
        {
          assert forall j :: 0 <= j < i - 1 ==> !p(cards[1..][j]) by {
            forall j | 0 <= j < i - 1 ensures !p(cards[1..][j]) {
              assert cards[1..][j] == cards[j + 1];
            }
          }
        }
        assert Find(cards[1..], p).None? ==> forall i :: 0 <= i < |cards| ==> !p(cards[i]) by {
          if Find(cards[1..], p).None? {
            forall i | 0 <= i < |cards| ensures !p(cards[i]) {
              if i > 0 {
                assert cards[i] == cards[1..][i - 1];
              }
            }
          }
        }
      }
    }
  }
}
