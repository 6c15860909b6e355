/** The combat engine: the enemy, the player's resources, the three card
    piles and the two-phase turn machine. */
module Combat {
  import Cards
  import opened Rand
  import opened Wrappers

  function Max(a: int, b: int): int { if a < b then b else a }
  function Min(a: int, b: int): int { if a < b then a else b }

  // ---------------------------------------------------------------------
  // Enemy

  /** 'attack' or 'block'. */
  datatype IntentType = Attack | Block

  /** What the enemy announced it will do on its next turn. */
  datatype Intent = Intent(intentType: IntentType, value: int, description: string)

  const BiteText := "Intends to Bite"
  const StumbleText := "Stumbles unpredictably (Adds block)"

  /** The intents enemy planning can produce: a bite for 3 to 6 damage or a
      block of 5. */
  predicate PlannedIntent(i: Intent)
  {
    || (i.intentType == Attack && 3 <= i.value <= 6 && i.description == BiteText)
    || i == Intent(Block, 5, StumbleText)
  }

  /** The enemy's hp after taking `amount` damage: lowered by `amount` and
      floored at 0. */
  function DamagedHp(hp: int, amount: int): (r: int)
    ensures r >= 0
    ensures r == 0 || r == hp - amount
    ensures r == 0 <==> hp <= amount
    ensures hp >= 0 && amount >= 0 ==> r <= hp
  {
    if hp - amount < 0 then 0 else hp - amount
  }

  class Enemy {
    const id: string
    const name: string
    const maxHp: int
    var hp: int
    const spriteIcon: string
    var currentIntent: Option<Intent>

    /** A fresh enemy at full health with no intent yet. */
    constructor (id: string, name: string, hp: int, spriteIcon: string)
      ensures this.id == id && this.name == name && this.spriteIcon == spriteIcon
      ensures maxHp == hp && this.hp == hp && currentIntent == None
    {
      this.id := id;
      this.name := name;
      this.maxHp := hp;
      this.hp := hp;
      this.spriteIcon := spriteIcon;
      this.currentIntent := None;
    }

    /** Chooses the next intent: with a roll below 0.7 a bite whose damage
        is drawn from 3..6, otherwise a block of 5. */
    method PlanTurn(rng: Random)
      modifies this`currentIntent, rng
      ensures currentIntent.Some? && PlannedIntent(currentIntent.value)
      ensures (currentIntent.value.intentType == Attack) == (rng.draws(old(rng.used)) < 0.7)
      ensures currentIntent.value.intentType == Attack ==>
        currentIntent.value.value == ScaledFloor(rng.draws(old(rng.used) + 1), 4) + 3
    {
      var roll := rng.Next();
      if roll < 0.7 {
        var k := rng.Below(4);
        currentIntent := Some(Intent(Attack, k + 3, BiteText));
      } else {
        currentIntent := Some(Intent(Block, 5, StumbleText));
      }
    }

    /** Lowers hp by `amount`, never below 0. */
    method TakeDamage(amount: int)
      modifies this`hp
      ensures hp == DamagedHp(old(hp), amount)
    {
      hp := hp - amount;
      if hp < 0 {
        hp := 0;
      }
    }
  }

  // ---------------------------------------------------------------------
  // Player resources and card effects

  datatype PlayerState = PlayerState(
    maxHp: int, hp: int,
    maxAp: int, ap: int,
    maxAmmo: int, ammo: int,
    block: int)

  /** The bounds every engine operation keeps on the player's resources.
      Hp is bounded above only: enemy damage is not clamped. */
  predicate ResourcesInBounds(p: PlayerState)
  {
    && p.hp <= p.maxHp
    && 0 <= p.ap <= p.maxAp
    && 0 <= p.ammo <= p.maxAmmo
    && p.block >= 0
  }

  /** The player's state after the card effect `e` has been applied:
      only block and ammo can change, block grows by exactly the amount,
      ammo grows but never past the maximum. */
  function PlayerAfterEffect(e: Cards.Effect, p: PlayerState): (q: PlayerState)
    ensures q.maxHp == p.maxHp && q.hp == p.hp && q.maxAp == p.maxAp && q.ap == p.ap
    ensures q.maxAmmo == p.maxAmmo
    ensures q.block == (if e.Block? then p.block + e.amount else p.block)
    ensures !e.GainAmmo? ==> q.ammo == p.ammo
    ensures e.GainAmmo? && p.ammo <= p.maxAmmo ==> p.ammo <= q.ammo <= q.maxAmmo
    ensures e.GainAmmo? ==> q.ammo == p.ammo + e.amount || q.ammo == p.maxAmmo
    ensures e.GainAmmo? && p.ammo + e.amount <= p.maxAmmo ==> q.ammo == p.ammo + e.amount
    ensures ResourcesInBounds(p) ==> ResourcesInBounds(q)
  {
    match e
    case Damage(_) => p
    case Block(n) => p.(block := p.block + n)
    case GainAmmo(n) => p.(ammo := Min(p.maxAmmo, p.ammo + n))
  }

  /** The enemy's hp after the card effect `e`. */
  function EnemyHpAfter(e: Cards.Effect, hp: int): (r: int)
    ensures e.Damage? ==> r >= 0 && (r == 0 <==> hp <= e.amount)
    ensures e.Damage? && hp >= e.amount ==> r == hp - e.amount
    ensures !e.Damage? ==> r == hp
  {
    if e.Damage? then DamagedHp(hp, e.amount) else hp
  }

  /** Whether the player can pay for the card. */
  predicate Affordable(p: PlayerState, c: Cards.Card)
  {
    p.ap >= c.apCost && p.ammo >= c.ammoCost
  }

  /** The player's state after paying for the card. */
  function Pay(p: PlayerState, c: Cards.Card): (q: PlayerState)
    ensures Affordable(p, c) ==> q.ap >= 0 && q.ammo >= 0
    ensures q.ap <= p.ap && q.ammo <= p.ammo
    ensures q.(ap := p.ap, ammo := p.ammo) == p
    ensures q.ap + c.apCost == p.ap && q.ammo + c.ammoCost == p.ammo
  {
    p.(ap := p.ap - c.apCost, ammo := p.ammo - c.ammoCost)
  }

  /** What each catalog card does when played: Handgun and Combat Knife
      take 5 and 2 hp from the enemy, floored at 0, and leave the player
      as they were; Evade adds exactly 5 block and Scavenge 2 ammo up to
      the maximum, neither touching the enemy. */
  lemma CatalogEffects(id: string, p: PlayerState, hp: int)
    ensures PlayerAfterEffect(Cards.Handgun(id).effect, p) == p
    ensures EnemyHpAfter(Cards.Handgun(id).effect, hp) == Max(0, hp - 5)
    ensures PlayerAfterEffect(Cards.Knife(id).effect, p) == p
    ensures EnemyHpAfter(Cards.Knife(id).effect, hp) == Max(0, hp - 2)
    ensures PlayerAfterEffect(Cards.Evade(id).effect, p) == p.(block := p.block + 5)
    ensures EnemyHpAfter(Cards.Evade(id).effect, hp) == hp
    ensures PlayerAfterEffect(Cards.Scavenge(id).effect, p) == p.(ammo := Min(p.maxAmmo, p.ammo + 2))
    ensures EnemyHpAfter(Cards.Scavenge(id).effect, hp) == hp
  {
  }

  /** How an attack of `raw` damage splits between the player's block and hp. */
  datatype Absorbed = Absorbed(hpLoss: int, blockLeft: int)

  /** Block soaks up an attack first; what it does not absorb is lost from
      hp. Both parts are non-negative, at most one is non-zero, and the
      block used plus the hp lost make up the whole attack. */
  function AbsorbAttack(block: int, raw: int): (r: Absorbed)
    ensures r.hpLoss >= 0 && r.blockLeft >= 0
    ensures r.hpLoss == 0 || r.blockLeft == 0
    ensures block >= 0 && raw >= 0 ==> r.hpLoss + (block - r.blockLeft) == raw
    ensures block >= 0 && raw >= 0 ==> r.blockLeft <= block && r.hpLoss <= raw
  {
    Absorbed(Max(0, raw - block), Max(0, block - raw))
  }

  // ---------------------------------------------------------------------
  // Piles

  /** The first position of a card with the given id, or -1. */
  function FindCard(hand: seq<Cards.Card>, cardId: string): (r: int)
    ensures -1 <= r < |hand|
    ensures r == -1 <==> forall i | 0 <= i < |hand| :: hand[i].id != cardId
    ensures r >= 0 ==> hand[r].id == cardId && forall i | 0 <= i < r :: hand[i].id != cardId
  {
    if |hand| == 0 then -1
    else if hand[0].id == cardId then 0
    else
      var k := FindCard(hand[1..], cardId);
      if k == -1 then -1 else k + 1
  }

  /** The sequence in reverse order: the order in which repeated pops
      take the elements off its end. */
  function Reversed<T>(s: seq<T>): seq<T>
  {
    if s == [] then [] else Reversed(s[1..]) + [s[0]]
  }

  lemma {:induction false} ReversedIsPermutation<T>(s: seq<T>)
    ensures |Reversed(s)| == |s|
    ensures multiset(Reversed(s)) == multiset(s)
  {
    if s != [] {
      ReversedIsPermutation(s[1..]);
      assert s == [s[0]] + s[1..];
    }
  }

  lemma ReversedStep<T>(s: seq<T>, m: nat)
    requires m < |s|
    ensures Reversed(s[m..]) == Reversed(s[m + 1..]) + [s[m]]
  {
    assert s[m..][1..] == s[m + 1..];
  }

  /** Popping the whole hand onto the discard pile keeps every card. */
  lemma DiscardingHandKeepsCards(deck: seq<Cards.Card>, hand: seq<Cards.Card>, discard: seq<Cards.Card>)
    ensures Owned(deck, [], discard + Reversed(hand)) == Owned(deck, hand, discard)
  {
    ReversedIsPermutation(hand);
  }

  /** The deck every combat starts from: eight cards with ids card_1 to
      card_8, in this order three Handguns, one Combat Knife, two Evades
      and two Scavenges. */
  function StartingDeck(): (d: seq<Cards.Card>)
    ensures |d| == 8
    ensures forall i | 0 <= i < |d| :: d[i].id == CardId(i + 1)
    ensures forall i, j | 0 <= i < j < |d| :: d[i].id != d[j].id
  {
    seq(8, i requires 0 <= i < 8 => StartingCard(i + 1))
  }

  /** The k-th card of the starting deck, for k in 1..8. */
  function StartingCard(k: nat): (c: Cards.Card)
    requires 1 <= k <= 8
    ensures c.id == CardId(k)
  {
    var id := CardId(k);
    if k <= 3 then Cards.Handgun(id)
    else if k == 4 then Cards.Knife(id)
    else if k <= 6 then Cards.Evade(id)
    else Cards.Scavenge(id)
  }

  /** "card_" followed by the digit k. */
  function CardId(k: nat): (s: string)
    requires 1 <= k <= 9
    ensures |s| == 6 && s[..5] == "card_" && s[5] == ('0' as int + k) as char
  {
    "card_" + [('0' as int + k) as char]
  }

  /** The starting deck holds three Handguns, one Combat Knife, two Evades
      and two Scavenges, and no card of any other name. */
  lemma StartingDeckComposition(name: string)
    ensures CountNamed(StartingDeck(), name) ==
      if name == "Handgun" then 3
      else if name == "Combat Knife" then 1
      else if name == "Evade" || name == "Scavenge" then 2
      else 0
  {
    StartingNames();
    CountRuns(StartingDeck(), name);
  }

  /** Counting names over a deck laid out as the starting deck's runs. */
  lemma CountRuns(d: seq<Cards.Card>, name: string)
    requires |d| == 8
    requires forall i | 0 <= i < 3 :: d[i].name == "Handgun"
    requires d[3].name == "Combat Knife"
    requires forall i | 4 <= i < 6 :: d[i].name == "Evade"
    requires forall i | 6 <= i < 8 :: d[i].name == "Scavenge"
    ensures CountNamed(d, name) ==
      if name == "Handgun" then 3
      else if name == "Combat Knife" then 1
      else if name == "Evade" || name == "Scavenge" then 2
      else 0
  {
    assert d == d[0..3] + d[3..4] + d[4..6] + d[6..8];
    CountNamedConcat(d[0..3] + d[3..4] + d[4..6], d[6..8], name);
    CountNamedConcat(d[0..3] + d[3..4], d[4..6], name);
    CountNamedConcat(d[0..3], d[3..4], name);
    CountNamedRun(d, 0, 3, "Handgun", name);
    CountNamedRun(d, 3, 4, "Combat Knife", name);
    CountNamedRun(d, 4, 6, "Evade", name);
    CountNamedRun(d, 6, 8, "Scavenge", name);
  }

  /** The names along the starting deck. */
  lemma StartingNames()
    ensures forall i | 0 <= i < 3 :: StartingDeck()[i].name == "Handgun"
    ensures StartingDeck()[3].name == "Combat Knife"
    ensures forall i | 4 <= i < 6 :: StartingDeck()[i].name == "Evade"
    ensures forall i | 6 <= i < 8 :: StartingDeck()[i].name == "Scavenge"
  {
  }

  lemma {:induction false} CountNamedConcat(a: seq<Cards.Card>, b: seq<Cards.Card>, name: string)
    ensures CountNamed(a + b, name) == CountNamed(a, name) + CountNamed(b, name)
  {
    if a != [] {
      assert (a + b)[0] == a[0] && (a + b)[1..] == a[1..] + b;
      CountNamedConcat(a[1..], b, name);
    } else {
      assert a + b == b;
    }
  }

  /** In a run of cards all named `runName`, every card counts for that
      name and none for any other. */
  lemma {:induction false} CountNamedRun(d: seq<Cards.Card>, lo: nat, hi: nat, runName: string, name: string)
    requires lo <= hi <= |d|
    requires forall i | lo <= i < hi :: d[i].name == runName
    ensures CountNamed(d[lo..hi], name) == if name == runName then hi - lo else 0
    decreases hi - lo
  {
    if lo < hi {
      assert d[lo..hi][0] == d[lo] && d[lo..hi][1..] == d[lo + 1..hi];
      CountNamedRun(d, lo + 1, hi, runName, name);
    }
  }

  /** Cards drawn into the hand behind `held` come from the draw pile,
      when the discard pile is the same before and after. */
  lemma DrawnFromDeck(deck0: seq<Cards.Card>, held: seq<Cards.Card>, discard: seq<Cards.Card>,
                      deck: seq<Cards.Card>, hand: seq<Cards.Card>)
    requires |held| <= |hand| && hand[..|held|] == held
    requires Owned(deck, hand, discard) == Owned(deck0, held, discard)
    ensures multiset(deck) + multiset(hand[|held|..]) == multiset(deck0)
  {
    assert hand == held + hand[|held|..];
    assert multiset(hand) == multiset(held) + multiset(hand[|held|..]);
    var drawn := multiset(deck) + multiset(hand[|held|..]);
    forall c | c in drawn + multiset(deck0)
      ensures drawn[c] == multiset(deck0)[c]
    {
      assert Owned(deck, hand, discard)[c] == Owned(deck0, held, discard)[c];
    }
    assert drawn == multiset(deck0);
  }

  /** A prefix of a prefix is kept. */
  lemma PrefixKept(h0: seq<Cards.Card>, before: seq<Cards.Card>, after: seq<Cards.Card>)
    requires |h0| <= |before| <= |after|
    requires before[..|h0|] == h0 && after[..|before|] == before
    ensures after[..|h0|] == h0
  {
    assert after[..|h0|] == before[..|h0|];
  }

  /** Every card the player owns, whichever of the three piles holds it. */
  ghost function Owned(deck: seq<Cards.Card>, hand: seq<Cards.Card>, discard: seq<Cards.Card>): multiset<Cards.Card>
  {
    multiset(deck) + multiset(hand) + multiset(discard)
  }

  /** How many cards of the sequence have the given name. */
  function CountNamed(d: seq<Cards.Card>, name: string): nat
  {
    if d == [] then 0 else (if d[0].name == name then 1 else 0) + CountNamed(d[1..], name)
  }

  // ---------------------------------------------------------------------
  // Engine

  /** 'player' or 'enemy'. */
  datatype TurnState = PlayerTurn | EnemyTurn

  /** Which branch a card play took: the two silent no-ops (not the
      player's turn, card not in hand), the two rejections the source
      reports in its log, or a successful play. */
  datatype PlayOutcome = NotPlayerTurn | NotInHand | NotEnoughAp | NotEnoughAmmo | Played

  /** What follows an enemy turn: nothing (no enemy), the game-over
      screen, or the next player turn, which the source schedules. */
  datatype EnemyTurnResult = NoEnemy | GameOver | PlayerTurnNext

  /** The checks a card play goes through, in the source's order. */
  function PlayCheck(turn: TurnState, hand: seq<Cards.Card>, p: PlayerState, cardId: string): (r: PlayOutcome)
    ensures r == NotPlayerTurn <==> turn != PlayerTurn
    ensures r == NotInHand <==> turn == PlayerTurn && forall i | 0 <= i < |hand| :: hand[i].id != cardId
    ensures r in {NotEnoughAp, NotEnoughAmmo, Played} <==> turn == PlayerTurn && FindCard(hand, cardId) >= 0
    ensures r == NotEnoughAp <==>
      turn == PlayerTurn && FindCard(hand, cardId) >= 0 && p.ap < hand[FindCard(hand, cardId)].apCost
    ensures r == NotEnoughAmmo <==>
      && turn == PlayerTurn && FindCard(hand, cardId) >= 0
      && p.ap >= hand[FindCard(hand, cardId)].apCost
      && p.ammo < hand[FindCard(hand, cardId)].ammoCost
    ensures r == Played <==>
      turn == PlayerTurn && FindCard(hand, cardId) >= 0 && Affordable(p, hand[FindCard(hand, cardId)])
  {
    if turn != PlayerTurn then NotPlayerTurn
    else
      var i := FindCard(hand, cardId);
      if i == -1 then NotInHand
      else if p.ap < hand[i].apCost then NotEnoughAp
      else if p.ammo < hand[i].ammoCost then NotEnoughAmmo
      else Played
  }

  class GameEngine {
    var player: PlayerState
    var deck: seq<Cards.Card>
    var discardPile: seq<Cards.Card>
    var hand: seq<Cards.Card>
    var enemy: Enemy?
    var turnState: TurnState

    /** The engine's invariant: the player's resources are in bounds and
        an enemy in combat always has an intent planning produced. */
    ghost predicate Valid()
      reads this, enemy
    {
      && ResourcesInBounds(player)
      && (enemy != null ==> enemy.currentIntent.Some? && PlannedIntent(enemy.currentIntent.value))
    }


    /** Whether playing `cardId` now would get as far as a damage effect,
        which strikes the current enemy. */
    predicate WouldStrike(cardId: string)
      reads this
    {
      && PlayCheck(turnState, hand, player, cardId) == Played
      && hand[FindCard(hand, cardId)].effect.Damage?
    }

    constructor ()
      ensures Valid()
      ensures player == PlayerState(30, 30, 3, 3, 10, 5, 0)
      ensures deck == [] && discardPile == [] && hand == []
      ensures enemy == null && turnState == PlayerTurn
    {
      player := PlayerState(30, 30, 3, 3, 10, 5, 0);
      deck := [];
      discardPile := [];
      hand := [];
      enemy := null;
      turnState := PlayerTurn;
    }

    /** Enters combat with `enemyObj`: plans its first intent, replaces the
        deck with a shuffled starting deck (hand and discard pile are kept)
        and starts the player's turn. */
    method StartCombat(enemyObj: Enemy, rng: Random)
      requires Valid()
      modifies this, enemyObj, rng
      ensures Valid()
      ensures enemy == enemyObj && enemyObj.hp == old(enemyObj.hp)
      ensures turnState == PlayerTurn
      ensures player == old(player).(ap := old(player.maxAp), block := 0)
      ensures Owned(deck, hand, discardPile) == multiset(StartingDeck()) + old(multiset(hand) + multiset(discardPile))
      ensures |hand| == old(|hand|) + 5 && hand[..old(|hand|)] == old(hand)
      ensures discardPile == old(discardPile)
      ensures multiset(deck) + multiset(hand[old(|hand|)..]) == multiset(StartingDeck())
    {
      enemy := enemyObj;
      enemy.PlanTurn(rng);
      var startDeck := StartingDeck();
      deck := startDeck;
      ShuffleDeck(rng);
      assert Owned(deck, hand, discardPile) == multiset(startDeck) + old(multiset(hand) + multiset(discardPile));
      assert |deck| == 8;
      ghost var shuffled, held := deck, hand;
      StartPlayerTurn(rng);
      DrawnFromDeck(shuffled, held, discardPile, deck, hand);
    }

    /** Backward Fisher-Yates shuffle of the deck in place: for i from the
        last position down to 1, swap position i with a position drawn
        from 0..i. */
    method ShuffleDeck(rng: Random)
      modifies this`deck, rng
      ensures |deck| == old(|deck|)
      ensures multiset(deck) == old(multiset(deck))
    {
      var i := |deck| - 1;
      while i > 0
        invariant -1 <= i < |deck|
        invariant |deck| == old(|deck|)
        invariant multiset(deck) == old(multiset(deck))
      {
        var j := rng.Below(i + 1);
        deck := Swap(deck, i, j);
        i := i - 1;
      }
    }

    /** Moves the deck's last card to the end of the hand; an empty deck
        is first refilled from the discard pile and shuffled; with both
        empty nothing happens. */
    method DrawCard(rng: Random)
      modifies this`deck, this`hand, this`discardPile, rng
      ensures old(|deck|) == 0 && old(|discardPile|) == 0 ==>
        deck == old(deck) && hand == old(hand) && discardPile == old(discardPile)
      ensures old(|deck|) > 0 ==>
        && hand == old(hand) + [old(deck[|deck| - 1])]
        && deck == old(deck[..|deck| - 1])
        && discardPile == old(discardPile)
      ensures old(|deck|) == 0 && old(|discardPile|) > 0 ==>
        && discardPile == []
        && |hand| == old(|hand|) + 1 && hand[..old(|hand|)] == old(hand)
        && multiset(deck) + multiset{hand[|hand| - 1]} == old(multiset(discardPile))
      ensures |hand| >= old(|hand|) && hand[..old(|hand|)] == old(hand)
      ensures |deck| + |discardPile| == Max(0, old(|deck| + |discardPile|) - 1)
      ensures Owned(deck, hand, discardPile) == old(Owned(deck, hand, discardPile))
    {
      if |deck| == 0 {
        if |discardPile| == 0 {
          return;
        }
        Reshuffle(rng);
      }
      TakeTop();
    }

    /** Turns the discard pile into a freshly shuffled draw pile. */
    method Reshuffle(rng: Random)
      requires deck == []
      modifies this`deck, this`discardPile, rng
      ensures discardPile == [] && |deck| == old(|discardPile|)
      ensures multiset(deck) == old(multiset(discardPile))
    {
      deck := discardPile;
      discardPile := [];
      ShuffleDeck(rng);
    }

    /** Moves the top of a non-empty draw pile (its last element) to the
        end of the hand. */
    method TakeTop()
      requires |deck| > 0
      modifies this`deck, this`hand
      ensures hand == old(hand) + [old(deck[|deck| - 1])]
      ensures deck == old(deck[..|deck| - 1])
      ensures multiset(deck) + multiset{hand[|hand| - 1]} == old(multiset(deck))
      ensures Owned(deck, hand, discardPile) == old(Owned(deck, hand, discardPile))
    {
      var top := deck[|deck| - 1];
      assert deck == deck[..|deck| - 1] + [top];
      hand := hand + [top];
      deck := deck[..|deck| - 1];
    }

    /** Starts the player's turn: full AP, block wiped, five draws (each a
        no-op once deck and discard pile are both empty). */
    method StartPlayerTurn(rng: Random)
      requires Valid()
      modifies this`turnState, this`player, this`deck, this`hand, this`discardPile, rng
      ensures Valid()
      ensures turnState == PlayerTurn
      ensures player == old(player).(ap := old(player.maxAp), block := 0)
      ensures |hand| == old(|hand|) + Min(5, old(|deck| + |discardPile|))
      ensures hand[..old(|hand|)] == old(hand)
      ensures Owned(deck, hand, discardPile) == old(Owned(deck, hand, discardPile))
      ensures old(|deck|) >= 5 ==> discardPile == old(discardPile) && deck == old(deck[..|deck| - 5])
    {
      turnState := PlayerTurn;
      player := player.(ap := player.maxAp, block := 0);
      DrawFive(rng);
    }

    /** The five draws that open a player turn. */
    method DrawFive(rng: Random)
      modifies this`deck, this`hand, this`discardPile, rng
      ensures |hand| == old(|hand|) + Min(5, old(|deck| + |discardPile|))
      ensures hand[..old(|hand|)] == old(hand)
      ensures Owned(deck, hand, discardPile) == old(Owned(deck, hand, discardPile))
      ensures old(|deck|) >= 5 ==> discardPile == old(discardPile) && deck == old(deck[..|deck| - 5])
    {
      ghost var h0, owned := hand, Owned(deck, hand, discardPile);
      ghost var avail := |deck| + |discardPile|;
      ghost var deck0, discard0 := deck, discardPile;
      var i := 0;
      while i < 5
        invariant 0 <= i <= 5
        invariant |hand| == |h0| + Min(i, avail)
        invariant |deck| + |discardPile| == avail - Min(i, avail)
        invariant hand[..|h0|] == h0
        invariant Owned(deck, hand, discardPile) == owned
        invariant |deck0| >= 5 ==> discardPile == discard0 && deck == deck0[..|deck0| - i]
      {
        ghost var before := hand;
        DrawCard(rng);
        PrefixKept(h0, before, hand);
        i := i + 1;
      }
    }

    /** Applies a card effect: damage goes through the enemy's
        `TakeDamage`, block and ammo change the player. */
    method ApplyEffect(e: Cards.Effect)
      requires e.Damage? ==> enemy != null
      modifies this`player, enemy
      ensures player == PlayerAfterEffect(e, old(player))
      ensures enemy != null ==>
        enemy.hp == EnemyHpAfter(e, old(enemy.hp)) && enemy.currentIntent == old(enemy.currentIntent)
    {
      match e
      case Damage(n) =>
        enemy.TakeDamage(n);
      case Block(n) =>
        player := player.(block := player.block + n);
      case GainAmmo(n) =>
        player := player.(ammo := Min(player.maxAmmo, player.ammo + n));
    }

    /** Plays the first hand card with id `cardId`. Outside the player's
        turn, for an id not in hand, or without enough AP or ammo, nothing
        changes. Otherwise the card is played by `PlayAt`. A damage card
        needs an enemy to strike. */
    method PlayCard(cardId: string) returns (outcome: PlayOutcome)
      requires Valid()
      requires enemy != null || !WouldStrike(cardId)
      modifies this`player, this`hand, this`discardPile, this`enemy, enemy
      ensures Valid()
      ensures outcome == PlayCheck(old(turnState), old(hand), old(player), cardId)
      ensures deck == old(deck) && turnState == old(turnState)
      ensures outcome != Played ==>
        && player == old(player) && hand == old(hand) && discardPile == old(discardPile)
        && enemy == old(enemy) && (enemy != null ==> enemy.hp == old(enemy.hp))
      ensures outcome == Played ==>
        var i := FindCard(old(hand), cardId);
        var c := old(hand)[i];
        && player == PlayerAfterEffect(c.effect, Pay(old(player), c))
        && hand == old(hand)[..i] + old(hand)[i + 1..]
        && discardPile == old(discardPile) + [c]
        && (old(enemy) != null ==> old(enemy).hp == EnemyHpAfter(c.effect, old(enemy.hp)))
        && enemy == (if old(enemy) != null && old(enemy).hp <= 0 then null else old(enemy))
      ensures old(enemy) != null ==> old(enemy).currentIntent == old(enemy.currentIntent)
      ensures Owned(deck, hand, discardPile) == old(Owned(deck, hand, discardPile))
    {
      outcome := PlayCheck(turnState, hand, player, cardId);
      if outcome == Played {
        PlayAt(FindCard(hand, cardId));
      }
    }

    /** Plays the hand card at position i, which the player can afford:
        pays its costs, applies its effect, moves it from the hand to the
        end of the discard pile and clears a dead enemy. */
    method PlayAt(i: nat)
      requires Valid()
      requires i < |hand| && Affordable(player, hand[i])
      requires hand[i].effect.Damage? ==> enemy != null
      modifies this`player, this`hand, this`discardPile, this`enemy, enemy
      ensures Valid()
      ensures var c := old(hand[i]);
        && player == PlayerAfterEffect(c.effect, Pay(old(player), c))
        && hand == old(hand[..i] + hand[i + 1..])
        && discardPile == old(discardPile) + [c]
        && (old(enemy) != null ==> old(enemy).hp == EnemyHpAfter(c.effect, old(enemy.hp)))
        && enemy == (if old(enemy) != null && old(enemy).hp <= 0 then null else old(enemy))
      ensures old(enemy) != null ==> old(enemy).currentIntent == old(enemy.currentIntent)
      ensures Owned(deck, hand, discardPile) == old(Owned(deck, hand, discardPile))
    {
      var card := hand[i];
      player := Pay(player, card);
      ApplyEffect(card.effect);
      ghost var h0 := hand;
      discardPile := discardPile + [card];
      hand := hand[..i] + hand[i + 1..];
      assert h0 == h0[..i] + [card] + h0[i + 1..];
      CheckWinState();
    }

    /** Pops the hand card by card onto the discard pile. */
    method DiscardHand()
      modifies this`hand, this`discardPile
      ensures hand == [] && discardPile == old(discardPile) + Reversed(old(hand))
      ensures Owned(deck, hand, discardPile) == old(Owned(deck, hand, discardPile))
    {
      ghost var h0, d0 := hand, discardPile;
      while |hand| > 0
        modifies this`hand, this`discardPile
        invariant hand == h0[..|hand|]
        invariant discardPile == d0 + Reversed(h0[|hand|..])
      {
        var last := |hand| - 1;
        ReversedStep(h0, last);
        discardPile := discardPile + [hand[last]];
        hand := hand[..last];
      }
      assert h0[0..] == h0;
      DiscardingHandKeepsCards(deck, h0, d0);
    }

    /** Ends the player's turn: the hand is popped card by card onto the
        discard pile and the enemy's turn begins. A no-op outside the
        player's turn. */
    method EndPlayerTurn()
      modifies this`hand, this`discardPile, this`turnState
      ensures old(turnState) != PlayerTurn ==>
        hand == old(hand) && discardPile == old(discardPile) && turnState == old(turnState)
      ensures old(turnState) == PlayerTurn ==>
        hand == [] && discardPile == old(discardPile) + Reversed(old(hand)) && turnState == EnemyTurn
      ensures Owned(deck, hand, discardPile) == old(Owned(deck, hand, discardPile))
    {
      if turnState != PlayerTurn {
        return;
      }
      DiscardHand();
      turnState := EnemyTurn;
    }

    /** The enemy acts on its intent: an attack is soaked by block first
        and the rest taken from hp; a block intent does nothing. The enemy
        then plans its next intent. Without an enemy nothing happens. */
    method ExecuteEnemyTurn(rng: Random) returns (result: EnemyTurnResult)
      requires Valid()
      modifies this`player, enemy, rng
      ensures Valid()
      ensures old(enemy) == null ==> result == NoEnemy && player == old(player)
      ensures old(enemy) != null ==>
        var intent := old(enemy.currentIntent).value;
        var hit := AbsorbAttack(old(player.block), intent.value);
        && player == (if intent.intentType == Attack
                      then old(player).(hp := old(player.hp) - hit.hpLoss, block := hit.blockLeft)
                      else old(player))
        && enemy.hp == old(enemy.hp)
        && (enemy.currentIntent.value.intentType == Attack) == (rng.draws(old(rng.used)) < 0.7)
        && result == (if player.hp <= 0 then GameOver else PlayerTurnNext)
    {
      if enemy == null {
        return NoEnemy;
      }
      var intent := enemy.currentIntent.value;
      if intent.intentType == Attack {
        var rawDamage := intent.value;
        var damageTaken := Max(0, rawDamage - player.block);
        player := player.(block := Max(0, player.block - rawDamage));
        player := player.(hp := player.hp - damageTaken);
      }
      enemy.PlanTurn(rng);
      if player.hp <= 0 {
        result := GameOver;
      } else {
        result := PlayerTurnNext;
      }
    }

    /** Clears the enemy once its hp has reached 0; the turn state stays. */
    method CheckWinState()
      modifies this`enemy
      ensures enemy == (if old(enemy) != null && old(enemy).hp <= 0 then null else old(enemy))
    {
      if enemy != null && enemy.hp <= 0 {
        enemy := null;
      }
    }
  }

  /** The sequence with positions i and j exchanged. */
  function Swap<T>(s: seq<T>, i: int, j: int): (r: seq<T>)
    requires 0 <= i < |s| && 0 <= j < |s|
    ensures |r| == |s| && r[i] == s[j] && r[j] == s[i]
    ensures forall k | 0 <= k < |s| && k != i && k != j :: r[k] == s[k]
    ensures multiset(r) == multiset(s)
  {
    s[i := s[j]][j := s[i]]
  }
}
