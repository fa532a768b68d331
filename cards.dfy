/**
 * The card catalog, the deck flavors and the construction of a flavored deck
 * (card-game-simulator.js:10-30 and 96-105), plus the unit record a card
 * becomes when it is deployed onto a field (card-game-simulator.js:134, 149).
 */
module Cards {

  /** A card record: the catalog's stats plus the card's name. */
  datatype Card = Card(name: string, hp: int, attack: int, speed: int, cost: int)

  /**
   * A card deployed onto a field. `hp` is the value combat reads and damages;
   * `maxHp` and `currentHp` are copies taken at deployment that nothing reads.
   */
  datatype Unit = Unit(name: string, hp: int, attack: int, speed: int, cost: int,
                       maxHp: int, currentHp: int)

  /** A deck as a match receives it: card names in draw order, a flavor and a targeting strategy. */
  datatype DeckConfig = DeckConfig(cards: seq<string>, flavor: string, strategy: string, name: string)

  const BASE_CARDS: map<string, Card> := map[
    "Goblin" := Card("Goblin", 30, 15, 35, 1),
    "Skeleton" := Card("Skeleton", 75, 30, 15, 2),
    "Archer" := Card("Archer", 90, 55, 30, 4),
    "Wizard" := Card("Wizard", 120, 75, 25, 6),
    "Knight" := Card("Knight", 240, 120, 20, 8)
  ]

  const SPEEDY_BONUS := 15

  /** Every stat the engine reads is positive. */
  predicate Playable(c: Card) {
    c.hp > 0 && c.attack > 0 && c.speed > 0 && c.cost > 0
  }

  predicate InCatalog(names: seq<string>) {
    forall i :: 0 <= i < |names| ==> names[i] in BASE_CARDS
  }

  /** Every catalog entry is filed under its own name and has positive stats. */
  lemma CatalogWellFormed(n: string)
    requires n in BASE_CARDS
    ensures BASE_CARDS[n].name == n && Playable(BASE_CARDS[n])
  {
  }

  /**
   * `Math.round(x * 1.25)`: the nearest integer to 1.25 x, halves rounded up.
   * For the catalog's small integers the floating-point product is exact.
   */
  function RoundQuarterUp(x: int): (r: int)
    ensures (r as real) - 0.5 <= (x as real) * 1.25 < (r as real) + 0.5
    ensures x >= 0 ==> x <= r
    ensures x > 0 ==> r > 0
  {
    var q := (5 * x + 2) / 4;
    var m := (5 * x + 2) % 4;
    assert 5 * x + 2 == 4 * q + m && 0 <= m < 4;
    assert (x as real) * 1.25 == (q as real) + ((m - 2) as real) / 4.0;
    q
  }

  /**
   * Applies a deck flavor to one card. At most one stat changes; name and cost
   * never do; a flavor other than the three recognised ones changes nothing.
   */
  function ApplyFlavor(card: Card, flavor: string): (r: Card)
    ensures r.name == card.name && r.cost == card.cost
    ensures flavor == "speedy" ==>
      r.speed == card.speed + SPEEDY_BONUS && r.hp == card.hp && r.attack == card.attack
    ensures flavor == "hardy" ==>
      (r.hp as real) - 0.5 <= (card.hp as real) * 1.25 < (r.hp as real) + 0.5 &&
      r.attack == card.attack && r.speed == card.speed
    ensures flavor == "angry" ==>
      (r.attack as real) - 0.5 <= (card.attack as real) * 1.25 < (r.attack as real) + 0.5 &&
      r.hp == card.hp && r.speed == card.speed
    ensures flavor != "speedy" && flavor != "hardy" && flavor != "angry" ==> r == card
    ensures Playable(card) ==> Playable(r)
  {
    if flavor == "speedy" then card.(speed := card.speed + SPEEDY_BONUS)
    else if flavor == "hardy" then card.(hp := RoundQuarterUp(card.hp))
    else if flavor == "angry" then card.(attack := RoundQuarterUp(card.attack))
    else card
  }

  /** A flavor's effect does not depend on the card's name. */
  lemma FlavorIgnoresName(card: Card, flavor: string, name: string)
    ensures ApplyFlavor(card.(name := name), flavor) == ApplyFlavor(card, flavor).(name := name)
  {
  }

  /** A flavor never weakens a card whose stats are non-negative. */
  lemma FlavorNeverWeakens(card: Card, flavor: string)
    requires card.hp >= 0 && card.attack >= 0
    ensures ApplyFlavor(card, flavor).hp >= card.hp
    ensures ApplyFlavor(card, flavor).attack >= card.attack
    ensures ApplyFlavor(card, flavor).speed >= card.speed
  {
  }

  /** The flavored card a deck holds for one catalog name. */
  function FlavoredCard(name: string, flavor: string): (c: Card)
    requires name in BASE_CARDS
    ensures c.name == name && c.cost == BASE_CARDS[name].cost
    ensures c == ApplyFlavor(BASE_CARDS[name], flavor)
    ensures Playable(c)
  {
    CatalogWellFormed(name);
    ApplyFlavor(BASE_CARDS[name], flavor).(name := name, cost := BASE_CARDS[name].cost)
  }

  /**
   * Builds a deck from catalog names: one flavored card per name, in order,
   * each with its own name and its unflavored catalog cost.
   */
  function BuildDeck(names: seq<string>, flavor: string): (deck: seq<Card>)
    requires InCatalog(names)
    ensures |deck| == |names|
    ensures forall i :: 0 <= i < |deck| ==>
      deck[i].name == names[i] && deck[i].cost == BASE_CARDS[names[i]].cost &&
      deck[i] == ApplyFlavor(BASE_CARDS[names[i]], flavor) && Playable(deck[i])
  {
    seq(|names|, i requires 0 <= i < |names| => FlavoredCard(names[i], flavor))
  }

  /** The unit a card becomes when it is deployed: full hp, nothing else changed. */
  function NewUnit(c: Card): Unit {
    Unit(c.name, c.hp, c.attack, c.speed, c.cost, c.hp, c.hp)
  }
}
