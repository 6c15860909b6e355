/** The card catalog: the `Card` record and the four card factories.

    A card's effect is data, not code: one of three effect kinds carrying
    its fixed amount, interpreted by `Combat.GameEngine.ApplyEffect`. */
module Cards {

  /** The card's category: 'attack', 'defense' or 'utility'. */
  datatype CardType = Attack | Defense | Utility

  /** What playing the card does: the enemy takes `amount` damage, the
      player gains `amount` block, or the player gains `amount` ammo up to
      the ammo maximum. */
  datatype Effect = Damage(amount: nat) | Block(amount: nat) | GainAmmo(amount: nat)

  /** A card instance. `id` tells instances apart; the costs are what
      playing it debits from the player's AP and ammo. The description text
      shown on the card is display only and is not part of the model. */
  datatype Card = Card(
    id: string,
    name: string,
    cardType: CardType,
    apCost: nat,
    ammoCost: nat,
    effect: Effect)

  /** Handgun: one AP and one round of ammo for 5 damage. */
  function Handgun(id: string): (c: Card)
    ensures c.id == id && c.name == "Handgun" && c.cardType == Attack
    ensures c.apCost == 1 && c.ammoCost == 1
    ensures c.effect == Damage(5)
  {
    Card(id, "Handgun", Attack, 1, 1, Damage(5))
  }

  /** Combat Knife: one AP and no ammo for 2 damage. */
  function Knife(id: string): (c: Card)
    ensures c.id == id && c.name == "Combat Knife" && c.cardType == Attack
    ensures c.apCost == 1 && c.ammoCost == 0
    ensures c.effect == Damage(2)
  {
    Card(id, "Combat Knife", Attack, 1, 0, Damage(2))
  }

  /** Evade: one AP for 5 block. */
  function Evade(id: string): (c: Card)
    ensures c.id == id && c.name == "Evade" && c.cardType == Defense
    ensures c.apCost == 1 && c.ammoCost == 0
    ensures c.effect == Block(5)
  {
    Card(id, "Evade", Defense, 1, 0, Block(5))
  }

  /** Scavenge: two AP for up to 2 ammo. */
  function Scavenge(id: string): (c: Card)
    ensures c.id == id && c.name == "Scavenge" && c.cardType == Utility
    ensures c.apCost == 2 && c.ammoCost == 0
    ensures c.effect == GainAmmo(2)
  {
    Card(id, "Scavenge", Utility, 2, 0, GainAmmo(2))
  }
}
