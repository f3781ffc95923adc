/**
 * The encounter rules of scoundrel-3d.js: the `game` record, entering a room
 * (dealing from the deck, merchant offers, bonfires), picking cards (weapons,
 * fights, potions, gifts), finishing and avoiding rooms, resting at a bonfire
 * and the score on death. `State` is a snapshot of the record; each operation
 * is a function on snapshots, and the class `Game` performs it in place.
 */
module Encounter {
  import opened Wrappers
  import opened Cards
  import opened Dungeon

  const StartHp: int := 20
  const PicksPerRoom: int := 3
  const RoomSize: nat := 4
  const RepairCap: int := 14
  const HealPerRest: int := 5
  /** The entries of a generated floor: twelve rooms and two waypoints on each of the eleven corridors. */
  const FloorLength: nat := Slot(NumRooms - 1) + 1

  /** `game.weaponDurability`: `Infinity`, or the value of the last monster slain. */
  datatype Durability = Unlimited | Limit(bound: int)

  /** The `game` record. `active` is the index of `activeRoom` in `rooms`; `currentRoom` is `currentRoomIdx`. */
  datatype State = State(
    hp: int, maxHp: int, floor: int,
    deck: seq<Card>,
    weapon: Option<Weapon>, durability: Durability, slainStack: seq<Card>,
    rooms: seq<Room>, currentRoom: RoomId,
    lastAvoided: bool, potionsUsedThisTurn: bool,
    active: Option<nat>, chosenCount: int, combatCards: seq<Card>, carryCard: Option<Card>)

  /** What a pick led to. */
  datatype Outcome = Ignored | Continue | Finished(stairs: bool) | Died(score: int)

  // ---------------------------------------------------------------------------
  // Single rules

  /** `card.val <= game.weaponDurability`. */
  predicate Admits(d: Durability, v: int)
  {
    d.Unlimited? || v <= d.bound
  }

  /** The damage a monster of value `v` deals: reduced by the weapon's value, never below 0. */
  function Damage(weapon: Option<Weapon>, v: int): (dmg: int)
    ensures weapon.None? ==> dmg == v
    ensures weapon.Some? ==> dmg >= 0 && dmg >= v - weapon.value.val
    ensures weapon.Some? && v > weapon.value.val ==> dmg == v - weapon.value.val
    ensures v >= 0 && (weapon.Some? ==> weapon.value.val >= 0) ==> 0 <= dmg <= v
  {
    if weapon.Some? then Max(0, v - weapon.value.val) else v
  }

  /** `Math.min(amount, game.maxHp - game.hp)`: healing stops at full health. */
  function Heal(amount: int, hp: int, maxHp: int): (heal: int)
    ensures hp + heal <= maxHp
    ensures heal == amount || hp + heal == maxHp
    ensures heal <= amount
  {
    Min(amount, maxHp - hp)
  }

  /** The pile `room.cards` would be dealt from: the carried card, then the deck. */
  function Carried(carry: Option<Card>): seq<Card>
  {
    if carry.Some? then [carry.value] else []
  }

  /**
   * The `while (room.cards.length < 4 && game.deck.length > 0)` deal, as the
   * split of the carried card and the deck into the room's cards and the rest.
   */
  function Dealt(carry: Option<Card>, deck: seq<Card>): (dealt: (seq<Card>, seq<Card>))
    ensures dealt.0 + dealt.1 == Carried(carry) + deck
    ensures |dealt.0| == Min(RoomSize, |Carried(carry)| + |deck|)
  {
    var pile := Carried(carry) + deck;
    var n := Min(RoomSize, |pile|);
    (pile[..n], pile[n..])
  }

  /** The dealing loop of `enterRoom`: the carried card, then cards off the top of the deck while the room has fewer than four. */
  method DealCards(carry: Option<Card>, deck: seq<Card>) returns (cards: seq<Card>, rest: seq<Card>)
    ensures (cards, rest) == Dealt(carry, deck)
  {
    cards := Carried(carry);
    rest := deck;
    ghost var pile := cards + rest;
    ghost var n := Min(RoomSize, |pile|);
    while |cards| < RoomSize && |rest| > 0
      invariant cards + rest == pile && |cards| <= n
      invariant |cards| < n ==> |cards| < RoomSize && |rest| > 0
      decreases |rest|
    {
      cards := cards + [rest[0]];
      rest := rest[1..];
    }
    assert |cards| == n;
    assert cards == pile[..n] && rest == pile[n..];
  }

  /** The first room with the given id (`game.rooms.find(r => r.id === id)`). */
  function FindRoom(rooms: seq<Room>, id: RoomId): (k: Option<nat>)
    ensures k.Some? ==> k.value < |rooms| && rooms[k.value].id == id
    ensures k.Some? ==> forall j | 0 <= j < k.value :: rooms[j].id != id
    ensures k.None? ==> forall j | 0 <= j < |rooms| :: rooms[j].id != id
  {
    if |rooms| == 0 then None
    else
      var k := FindRoom(rooms[..|rooms| - 1], id);
      if k.Some? then k
      else if rooms[|rooms| - 1].id == id then Some(|rooms| - 1)
      else None
  }

  // ---------------------------------------------------------------------------
  // Merchant offers

  /** The draws behind one merchant offer: which red face card, and weapon (or potion). */
  datatype GiftRoll = GiftRoll(face: nat, isWeapon: bool)

  /** `redFaces`: jack to ace of hearts, then of diamonds. */
  const RedFaces: seq<(Suit, int)> :=
    [(Hearts, 11), (Hearts, 12), (Hearts, 13), (Hearts, 14),
     (Diamonds, 11), (Diamonds, 12), (Diamonds, 13), (Diamonds, 14)]

  /** One card-gift offer. */
  function GiftOffer(roll: GiftRoll): (c: Card)
    ensures c.kind.GiftCard? && (c.suit == Hearts || c.suit == Diamonds) && 11 <= c.val <= 14
    ensures c.kind.gift == (if roll.isWeapon then WeaponGift(c.suit, c.val) else PotionGift(c.suit, c.val))
  {
    var base := RedFaces[roll.face % |RedFaces|];
    Card(base.0, base.1, GiftCard(if roll.isWeapon then WeaponGift(base.0, base.1) else PotionGift(base.0, base.1)))
  }

  /** The repair offer with a boost of `1 + boostDraw % 6`. */
  function RepairOffer(boostDraw: nat): (c: Card)
    ensures c.kind == GiftCard(RepairGift(c.val)) && 1 <= c.val <= 6
  {
    var boost := boostDraw % 6 + 1;
    Card(Tools, boost, GiftCard(RepairGift(boost)))
  }

  /** A merchant's offers: two card gifts, and a repair when a weapon is held. */
  function MerchantGifts(giftRoll: nat -> GiftRoll, boostDraw: nat, weapon: Option<Weapon>): (gifts: seq<Card>)
    ensures |gifts| == if weapon.Some? then 3 else 2
    ensures forall i | 0 <= i < |gifts| :: gifts[i].kind.GiftCard? && gifts[i].val >= 1
  {
    [GiftOffer(giftRoll(0)), GiftOffer(giftRoll(1))] + (if weapon.Some? then [RepairOffer(boostDraw)] else [])
  }

  // ---------------------------------------------------------------------------
  // The score

  /** A card's weight in the score: a monster's value, 0 for anything else. */
  function MonsterValue(c: Card): int
  {
    if c.kind == Monster then c.val else 0
  }

  function MonsterSum(cards: seq<Card>): int
  {
    if |cards| == 0 then 0 else MonsterSum(cards[..|cards| - 1]) + MonsterValue(cards[|cards| - 1])
  }

  function RoomsMonsterSum(rooms: seq<Room>): int
  {
    if |rooms| == 0 then 0 else RoomsMonsterSum(rooms[..|rooms| - 1]) + MonsterSum(rooms[|rooms| - 1].cards)
  }

  /** The score of `gameOver`: hp less every monster left in the deck and in the rooms. */
  function Score(s: State): int
  {
    s.hp - MonsterSum(s.deck) - RoomsMonsterSum(s.rooms)
  }

  lemma {:induction false} MonsterSumAppend(a: seq<Card>, b: seq<Card>)
    ensures MonsterSum(a + b) == MonsterSum(a) + MonsterSum(b)
    decreases |b|
  {
    if |b| > 0 {
      assert (a + b)[..|a + b| - 1] == a + b[..|b| - 1];
      MonsterSumAppend(a, b[..|b| - 1]);
    } else {
      assert a + b == a;
    }
  }

  /** Replacing one room's cards changes the rooms' sum by the difference. */
  lemma {:induction false} RoomsMonsterSumUpdate(rooms: seq<Room>, k: nat, r: Room)
    requires k < |rooms|
    ensures RoomsMonsterSum(rooms[k := r]) == RoomsMonsterSum(rooms) - MonsterSum(rooms[k].cards) + MonsterSum(r.cards)
    decreases |rooms|
  {
    var n := |rooms| - 1;
    if k < n {
      assert rooms[k := r][..n] == rooms[..n][k := r];
      RoomsMonsterSumUpdate(rooms[..n], k, r);
    } else {
      assert rooms[k := r][..n] == rooms[..n];
    }
  }

  /** With no negative monster anywhere, the score is at most the hp. */
  lemma {:induction false} MonsterSumNonNegative(cards: seq<Card>)
    requires forall i | 0 <= i < |cards| :: cards[i].val >= 0
    ensures MonsterSum(cards) >= 0
    decreases |cards|
  {
    if |cards| > 0 {
      MonsterSumNonNegative(cards[..|cards| - 1]);
    }
  }

  // ---------------------------------------------------------------------------
  // The invariant of the record

  predicate NonNegative(cards: seq<Card>)
  {
    forall i | 0 <= i < |cards| :: cards[i].val >= 0
  }

  /** The cards lying in rooms and the merchants' stored offers. */
  ghost predicate RoomsNonNegative(rooms: seq<Room>)
  {
    && (forall i | 0 <= i < |rooms| :: NonNegative(rooms[i].cards))
    && (forall i | 0 <= i < |rooms| :: rooms[i].generatedContent.Some? ==> NonNegative(rooms[i].generatedContent.value))
  }

  /** Every card the game can still deal or show has a value of at least 0. */
  ghost predicate CardsNonNegative(s: State)
  {
    && NonNegative(s.deck) && NonNegative(s.combatCards) && NonNegative(Carried(s.carryCard))
    && RoomsNonNegative(s.rooms)
  }

  /** Monsters slain with the current weapon, in order, never rising in value. */
  ghost predicate Trophies(s: State)
  {
    && (s.durability.Unlimited? <==> s.slainStack == [])
    && (s.slainStack != [] ==> s.weapon.Some? && s.durability == Limit(s.slainStack[|s.slainStack| - 1].val))
    && (forall i, j | 0 <= i < j < |s.slainStack| :: s.slainStack[j].val <= s.slainStack[i].val)
  }

  /**
   * What every operation keeps: hp never above the maximum of 20, a full
   * floor of rooms, at most three picks, an active room whenever cards are on
   * the table, and the durability rule over the slain stack.
   */
  ghost predicate Consistent(s: State)
  {
    && s.hp <= s.maxHp == StartHp
    && |s.rooms| == FloorLength
    && 0 <= s.chosenCount <= PicksPerRoom
    && (s.active.Some? ==> s.active.value < |s.rooms|)
    && (|s.combatCards| > 0 ==> s.active.Some?)
    && Trophies(s)
    && CardsNonNegative(s)
  }

  // ---------------------------------------------------------------------------
  // The operations on snapshots

  /** `enterRoom(id)`. */
  function Enter(s: State, id: RoomId, giftRoll: nat -> GiftRoll, boostDraw: nat): State
    requires FindRoom(s.rooms, id).Some?
  {
    var k := FindRoom(s.rooms, id).value;
    var room := s.rooms[k];
    var s := s.(currentRoom := id);
    if room.isWaypoint then s
    else if room.state == Cleared && !room.isFinal then s
    else if room.state == Cleared then s.(active := Some(k))
    else if room.isSpecial then MerchantVisit(s, k, giftRoll, boostDraw)
    else if room.isBonfire then
      s.(active := Some(k), chosenCount := 0, potionsUsedThisTurn := false)
    else RegularVisit(s, id, k)
  }

  /** Entering merchant room `k`: the stored offers, or new ones made and stored on the first visit. */
  function MerchantVisit(s: State, k: nat, giftRoll: nat -> GiftRoll, boostDraw: nat): State
    requires k < |s.rooms|
  {
    var room := s.rooms[k];
    var gifts := if room.generatedContent.Some? then room.generatedContent.value
                 else MerchantGifts(giftRoll, boostDraw, s.weapon);
    s.(rooms := s.rooms[k := room.(generatedContent := Some(gifts))], active := Some(k),
       combatCards := gifts, chosenCount := 0, potionsUsedThisTurn := false)
  }

  /** Entering regular room `id` at index `k`: dealt on the first visit (the start room always stays empty), then shown. */
  function RegularVisit(s: State, id: RoomId, k: nat): State
    requires k < |s.rooms|
  {
    var t := Stocked(s, id, k);
    t.(active := Some(k), combatCards := t.rooms[k].cards, chosenCount := 0, potionsUsedThisTurn := false)
  }

  /** Regular room `id` at index `k` before it is shown: dealt if empty, emptied if it is the start room. */
  function Stocked(s: State, id: RoomId, k: nat): (t: State)
    requires k < |s.rooms|
    ensures |t.rooms| == |s.rooms|
  {
    var room := s.rooms[k];
    if |room.cards| == 0 && id != Num(0) then
      var dealt := Dealt(s.carryCard, s.deck);
      s.(rooms := s.rooms[k := room.(cards := dealt.0)], deck := dealt.1, carryCard := None)
    else if id == Num(0) then s.(rooms := s.rooms[k := room.(cards := [])])
    else s
  }

  /** An active room to act on. */
  predicate HasActive(s: State)
  {
    s.active.Some? && s.active.value < |s.rooms|
  }

  /** A room that no longer stands between the player and the stairs. */
  predicate Purged(r: Room)
  {
    r.isWaypoint || r.isSpecial || r.isBonfire || r.state == Cleared
  }

  /** `finishRoom()`; the flag says whether the stairs are revealed (the boss room, with the floor purged). */
  function Finish(s: State): (State, bool)
    requires HasActive(s)
  {
    var a := s.active.value;
    var room := s.rooms[a];
    var carry := if !room.isSpecial && !room.isBonfire then
                   (if |s.combatCards| > 0 then Some(s.combatCards[0]) else None)
                 else s.carryCard;
    var rooms := s.rooms[a := room.(state := Cleared, cards := [])];
    var allCleared := forall i | 0 <= i < |rooms| :: Purged(rooms[i]);
    (s.(rooms := rooms, carryCard := carry, combatCards := [], lastAvoided := false), allCleared && room.isFinal)
  }

  /** The monster fight of `pickCard`: slay, break the weapon, or grapple barehanded. */
  function Fight(s: State, card: Card): State
  {
    var dmg := Damage(s.weapon, card.val);
    if s.weapon.Some? && Admits(s.durability, card.val) then
      s.(hp := s.hp - dmg, durability := Limit(card.val), slainStack := s.slainStack + [card])
    else if s.weapon.Some? then
      s.(hp := s.hp - dmg, weapon := None, durability := Unlimited, slainStack := [])
    else s.(hp := s.hp - dmg)
  }

  /** A merchant's gift taking effect. */
  function Receive(s: State, gift: Gift): State
  {
    match gift
    case WeaponGift(suit, val) => s.(weapon := Some(Weapon(suit, val)), durability := Unlimited, slainStack := [])
    case PotionGift(_, val) => s.(hp := s.hp + Heal(val, s.hp, s.maxHp))
    case RepairGift(boost) =>
      if s.weapon.Some? then
        s.(weapon := Some(s.weapon.value.(val := Min(RepairCap, s.weapon.value.val + boost))),
           durability := Unlimited, slainStack := [])
      else s
  }

  /** The end of a weapon, monster or potion pick: the card leaves the table and the pick counts. */
  function Settle(s: State, idx: nat): (State, Outcome)
    requires idx < |s.combatCards| && HasActive(s)
  {
    var s := s.(combatCards := s.combatCards[..idx] + s.combatCards[idx + 1..], chosenCount := s.chosenCount + 1);
    if s.hp <= 0 then (s, Died(Score(s)))
    else if s.chosenCount == PicksPerRoom then
      var f := Finish(s);
      (f.0, Finished(f.1))
    else (s, Continue)
  }

  /**
   * What a weapon, monster or potion card does before it leaves the table:
   * it touches only hp, the weapon, its durability and trophies, and the
   * potion flag.
   */
  function Use(s: State, card: Card): (u: State)
    requires card.kind in {WeaponCard, Monster, Potion}
    ensures u == s.(hp := u.hp, weapon := u.weapon, durability := u.durability, slainStack := u.slainStack,
                    potionsUsedThisTurn := u.potionsUsedThisTurn)
  {
    if card.kind == WeaponCard then
      s.(weapon := Some(Weapon(card.suit, card.val)), durability := Unlimited, slainStack := [])
    else if card.kind == Monster then Fight(s, card)
    else if s.potionsUsedThisTurn then s
    else s.(hp := s.hp + Heal(card.val, s.hp, s.maxHp), potionsUsedThisTurn := true)
  }

  /** `pickCard(idx)`. */
  function Pick(s: State, idx: nat): (State, Outcome)
    requires idx < |s.combatCards| && HasActive(s)
  {
    if s.chosenCount >= PicksPerRoom then (s, Ignored)
    else
      var card := s.combatCards[idx];
      match card.kind
      case GiftCard(gift) =>
        var t := Receive(s, gift);
        var a := t.active.value;
        var f := Finish(t.(rooms := t.rooms[a := t.rooms[a].(state := Cleared)], combatCards := []));
        (f.0, Finished(f.1))
      case BonfireCard =>
        var a := s.active.value;
        var rest := s.rooms[a].restRemaining - 1;
        var room := s.rooms[a].(restRemaining := rest, state := if rest <= 0 then Cleared else s.rooms[a].state);
        (s.(hp := s.hp + Heal(card.val, s.hp, s.maxHp), rooms := s.rooms[a := room]), Continue)
      case _ => Settle(Use(s, card), idx)
  }

  /** `avoidRoom()`: allowed once in a row and only before the first pick. */
  function Avoid(s: State): State
    requires !s.lastAvoided && s.chosenCount <= 0 ==> HasActive(s)
  {
    if s.lastAvoided || s.chosenCount > 0 then s
    else
      var a := s.active.value;
      s.(deck := s.deck + s.rooms[a].cards,
         rooms := s.rooms[a := s.rooms[a].(cards := [], state := Avoided)],
         lastAvoided := true)
  }

  /** `handleBonfire(cost)`: spend `cost` rests for up to `5 * cost` hp. */
  function Rest(s: State, cost: int): State
    requires HasActive(s)
  {
    var a := s.active.value;
    var room := s.rooms[a];
    if room.restRemaining < cost then s
    else
      var rest := room.restRemaining - cost;
      s.(rooms := s.rooms[a := room.(restRemaining := rest, state := if rest <= 0 then Cleared else room.state)],
         hp := s.hp + Heal(HealPerRest * cost, s.hp, s.maxHp))
  }

  // ---------------------------------------------------------------------------
  // Properties of single operations

  /** Slaying: the weapon absorbs its value, durability drops to the monster's value, the monster is kept. */
  lemma SlayRule(s: State, card: Card)
    requires s.weapon.Some? && Admits(s.durability, card.val)
    ensures var t := Fight(s, card);
            && t.hp == s.hp - Max(0, card.val - s.weapon.value.val)
            && t.weapon == s.weapon && t.durability == Limit(card.val)
            && t.slainStack == s.slainStack + [card]
  {
  }

  /** A monster above the durability breaks the weapon, which still absorbs its value once. */
  lemma BreakRule(s: State, card: Card)
    requires s.weapon.Some? && !Admits(s.durability, card.val)
    ensures var t := Fight(s, card);
            && t.hp == s.hp - Max(0, card.val - s.weapon.value.val)
            && t.weapon == None && t.durability == Unlimited && t.slainStack == []
  {
  }

  /** Barehanded, the monster deals its full value. */
  lemma BarehandedRule(s: State, card: Card)
    requires s.weapon.None?
    ensures Fight(s, card) == s.(hp := s.hp - card.val)
  {
  }

  /** A fight never hurts more than the monster's value, nor heals. */
  lemma FightDamageBounded(s: State, card: Card)
    requires card.val >= 0 && (s.weapon.Some? ==> s.weapon.value.val >= 0)
    ensures s.hp - card.val <= Fight(s, card).hp <= s.hp
  {
  }

  /** While a weapon is kept, its durability never rises: the slain stack only descends. */
  lemma {:induction false} FightKeepsTrophies(s: State, card: Card)
    requires Trophies(s)
    ensures Trophies(Fight(s, card))
    ensures var t := Fight(s, card);
            t.weapon.Some? && s.durability.Limit? ==> t.durability.Limit? && t.durability.bound <= s.durability.bound
  {
    var t := Fight(s, card);
    if s.weapon.Some? && Admits(s.durability, card.val) {
      var n := |s.slainStack|;
      forall i, j | 0 <= i < j < |t.slainStack| ensures t.slainStack[j].val <= t.slainStack[i].val {
        if j == n && n > 0 {
          assert t.slainStack[i].val >= s.slainStack[n - 1].val by {
            if i < n - 1 {
              assert s.slainStack[n - 1].val <= s.slainStack[i].val;
            }
          }
        }
      }
    }
  }

  lemma PickIgnoredWhenFull(s: State, idx: nat)
    requires idx < |s.combatCards| && HasActive(s) && s.chosenCount >= PicksPerRoom
    ensures Pick(s, idx) == (s, Ignored)
  {
  }

  /** Equipping a weapon card forgets the old durability and trophies. */
  lemma EquipRule(s: State, idx: nat)
    requires idx < |s.combatCards| && HasActive(s) && s.chosenCount < PicksPerRoom
    requires s.combatCards[idx].kind == WeaponCard
    ensures var t := Pick(s, idx).0;
            var c := s.combatCards[idx];
            && t.weapon == Some(Weapon(c.suit, c.val)) && t.durability == Unlimited && t.slainStack == []
  {
  }

  /** Only the first potion of a room heals; a later one is still used up. */
  lemma PotionRule(s: State, idx: nat)
    requires idx < |s.combatCards| && HasActive(s) && s.chosenCount < PicksPerRoom
    requires s.combatCards[idx].kind == Potion
    ensures var t := Pick(s, idx).0;
            && t.hp == (if s.potionsUsedThisTurn then s.hp else s.hp + Min(s.combatCards[idx].val, s.maxHp - s.hp))
            && t.potionsUsedThisTurn
            && t.chosenCount == s.chosenCount + 1
            && (t.chosenCount < PicksPerRoom || t.hp <= 0 ==> t.combatCards == s.combatCards[..idx] + s.combatCards[idx + 1..])
  {
  }

  /** A repair raises the weapon by its boost up to 14 and resets durability. */
  lemma RepairRule(s: State, idx: nat)
    requires idx < |s.combatCards| && HasActive(s) && s.chosenCount < PicksPerRoom
    requires s.combatCards[idx].kind.GiftCard? && s.combatCards[idx].kind.gift.RepairGift? && s.weapon.Some?
    ensures var t := Pick(s, idx).0;
            && t.weapon == Some(s.weapon.value.(val := Min(RepairCap, s.weapon.value.val + s.combatCards[idx].kind.gift.boost)))
            && t.durability == Unlimited && t.slainStack == []
            && t.weapon.value.val <= Max(RepairCap, s.weapon.value.val)
  {
  }

  /**
   * A gift ends the merchant visit: the room is cleared and the other offers
   * vanish, without counting a pick. A weapon gift is equipped fresh, and a
   * potion gift heals even after a potion this turn and does not use up the
   * turn's potion.
   */
  lemma GiftRule(s: State, idx: nat)
    requires idx < |s.combatCards| && HasActive(s) && s.chosenCount < PicksPerRoom
    requires s.combatCards[idx].kind.GiftCard?
    ensures var (t, outcome) := Pick(s, idx);
            && outcome.Finished? && t.combatCards == [] && t.rooms[s.active.value].state == Cleared
            && t.hp <= Max(s.hp, s.maxHp)
            && t.chosenCount == s.chosenCount
    ensures var g := s.combatCards[idx].kind.gift;
            var t := Pick(s, idx).0;
            g.WeaponGift? ==> t.weapon == Some(Weapon(g.suit, g.val)) && t.durability == Unlimited && t.slainStack == [] && t.hp == s.hp
    ensures var g := s.combatCards[idx].kind.gift;
            var t := Pick(s, idx).0;
            g.PotionGift? ==> t.hp == s.hp + Min(g.val, s.maxHp - s.hp) && t.potionsUsedThisTurn == s.potionsUsedThisTurn
                              && t.weapon == s.weapon && t.durability == s.durability
  {
  }

  /**
   * A weapon, monster or potion pick removes exactly the picked card and
   * counts; the third pick of a survivor finishes the room.
   */
  lemma {:induction false} PickRemovesCard(s: State, idx: nat)
    requires idx < |s.combatCards| && HasActive(s) && s.chosenCount < PicksPerRoom
    requires s.combatCards[idx].kind in {WeaponCard, Monster, Potion}
    ensures var (t, outcome) := Pick(s, idx);
            && t.chosenCount == s.chosenCount + 1
            && (outcome.Finished? <==> t.hp > 0 && t.chosenCount == PicksPerRoom)
            && (outcome.Died? <==> t.hp <= 0)
            && (!outcome.Finished? ==> multiset(t.combatCards) + multiset{s.combatCards[idx]} == multiset(s.combatCards))
            && (outcome.Finished? ==> t.combatCards == [])
  {
    var u := Use(s, s.combatCards[idx]);
    assert Pick(s, idx) == Settle(u, idx);
    SettleRule(u, idx);
    RemovedAt(s.combatCards, idx);
  }

  /** Removing entry `idx` takes exactly that card out of the multiset. */
  lemma RemovedAt(cards: seq<Card>, idx: nat)
    requires idx < |cards|
    ensures multiset(cards[..idx] + cards[idx + 1..]) + multiset{cards[idx]} == multiset(cards)
  {
    assert cards == cards[..idx] + [cards[idx]] + cards[idx + 1..];
  }

  /** Settling removes the picked card and counts the pick; a surviving third pick finishes the room. */
  lemma SettleRule(u: State, idx: nat)
    requires idx < |u.combatCards| && HasActive(u)
    ensures var (t, outcome) := Settle(u, idx);
            var rest := u.combatCards[..idx] + u.combatCards[idx + 1..];
            var v := u.(combatCards := rest, chosenCount := u.chosenCount + 1);
            && t.hp == u.hp && t.chosenCount == u.chosenCount + 1
            && (outcome.Finished? <==> u.hp > 0 && t.chosenCount == PicksPerRoom)
            && (outcome.Died? <==> u.hp <= 0)
            && (!outcome.Finished? ==> t == v)
            && (outcome.Finished? ==> t == Finish(v).0)
  {
  }

  /**
   * The third pick in a regular room that the player survives clears it and
   * carries the one card left (if any) to the next room.
   */
  lemma {:induction false} ThirdPickCarries(s: State, idx: nat)
    requires idx < |s.combatCards| && HasActive(s) && s.chosenCount == PicksPerRoom - 1
    requires s.combatCards[idx].kind in {WeaponCard, Monster, Potion}
    requires var r := s.rooms[s.active.value]; !r.isSpecial && !r.isBonfire
    requires Pick(s, idx).0.hp > 0
    ensures var (t, outcome) := Pick(s, idx);
            var rest := s.combatCards[..idx] + s.combatCards[idx + 1..];
            && outcome.Finished?
            && t.carryCard == (if |rest| > 0 then Some(rest[0]) else None)
            && t.rooms[s.active.value].state == Cleared && t.rooms[s.active.value].cards == []
            && t.combatCards == [] && !t.lastAvoided
  {
    var u := Use(s, s.combatCards[idx]);
    assert Pick(s, idx) == Settle(u, idx);
    SettleRule(u, idx);
  }

  /** `finishRoom` clears the active room; outside merchants and bonfires the first card left is carried. */
  lemma FinishRule(s: State)
    requires HasActive(s)
    ensures var (t, stairs) := Finish(s);
            var a := s.active.value;
            && t.rooms[a].state == Cleared && t.rooms[a].cards == [] && t.combatCards == []
            && (forall i | 0 <= i < |s.rooms| && i != a :: t.rooms[i] == s.rooms[i])
            && (!s.rooms[a].isSpecial && !s.rooms[a].isBonfire ==>
                  t.carryCard == (if |s.combatCards| > 0 then Some(s.combatCards[0]) else None))
            && (s.rooms[a].isSpecial || s.rooms[a].isBonfire ==> t.carryCard == s.carryCard)
            && (stairs <==> s.rooms[a].isFinal && forall i | 0 <= i < |t.rooms| :: Purged(t.rooms[i]))
  {
  }

  /** `avoidRoom` is refused after an avoid or a pick. */
  lemma AvoidRefused(s: State)
    requires s.lastAvoided || s.chosenCount > 0
    ensures Avoid(s) == s
  {
  }

  /**
   * An avoid moves the room's cards to the bottom of the deck, in order: no
   * card is lost or made, and the score is unchanged.
   */
  lemma {:induction false} AvoidConserves(s: State)
    requires !s.lastAvoided && s.chosenCount <= 0 && HasActive(s)
    ensures var t := Avoid(s);
            var a := s.active.value;
            && t.deck == s.deck + s.rooms[a].cards
            && multiset(t.deck) + multiset(t.rooms[a].cards) == multiset(s.deck) + multiset(s.rooms[a].cards)
            && t.rooms[a].cards == [] && t.rooms[a].state == Avoided && t.lastAvoided
            && Score(t) == Score(s)
  {
    var t := Avoid(s);
    var a := s.active.value;
    MonsterSumAppend(s.deck, s.rooms[a].cards);
    RoomsMonsterSumUpdate(s.rooms, a, t.rooms[a]);
  }

  /**
   * Dealing a room moves the carried card and the top of the deck into it,
   * up to four cards: nothing is lost or made, and the score only gains
   * what the carried card weighed.
   */
  lemma {:induction false} DealConserves(s: State, id: RoomId, giftRoll: nat -> GiftRoll, boostDraw: nat)
    requires FindRoom(s.rooms, id).Some?
    requires var r := s.rooms[FindRoom(s.rooms, id).value];
             !r.isWaypoint && r.state != Cleared && !r.isSpecial && !r.isBonfire && r.cards == [] && id != Num(0)
    ensures var t := Enter(s, id, giftRoll, boostDraw);
            var k := FindRoom(s.rooms, id).value;
            && t.rooms[k].cards + t.deck == Carried(s.carryCard) + s.deck
            && |t.rooms[k].cards| == Min(RoomSize, |Carried(s.carryCard)| + |s.deck|)
            && t.combatCards == t.rooms[k].cards && t.carryCard == None && t.active == Some(k)
            && t.chosenCount == 0 && !t.potionsUsedThisTurn
            && Score(t) == Score(s) - MonsterSum(Carried(s.carryCard))
  {
    var t := Enter(s, id, giftRoll, boostDraw);
    var k := FindRoom(s.rooms, id).value;
    var dealt := Dealt(s.carryCard, s.deck);
    MonsterSumAppend(dealt.0, dealt.1);
    MonsterSumAppend(Carried(s.carryCard), s.deck);
    RoomsMonsterSumUpdate(s.rooms, k, t.rooms[k]);
    assert MonsterSum(s.rooms[k].cards) == 0;
  }

  /** A merchant's offers are made once and kept for every later visit. */
  lemma MerchantPersists(s: State, id: RoomId, giftRoll: nat -> GiftRoll, boostDraw: nat)
    requires FindRoom(s.rooms, id).Some?
    requires var r := s.rooms[FindRoom(s.rooms, id).value]; !r.isWaypoint && r.state != Cleared && r.isSpecial
    ensures var t := Enter(s, id, giftRoll, boostDraw);
            var k := FindRoom(s.rooms, id).value;
            && t.rooms[k].generatedContent.Some? && t.combatCards == t.rooms[k].generatedContent.value
            && (s.rooms[k].generatedContent.Some? ==> t.rooms[k].generatedContent == s.rooms[k].generatedContent)
            && (s.rooms[k].generatedContent.None? ==> t.combatCards == MerchantGifts(giftRoll, boostDraw, s.weapon))
            && t.deck == s.deck && t.carryCard == s.carryCard
  {
  }

  /** Resting: refused without enough rests, else spends them for up to five hp each. */
  lemma RestRule(s: State, cost: int)
    requires HasActive(s)
    ensures var t := Rest(s, cost);
            var a := s.active.value;
            && (s.rooms[a].restRemaining < cost ==> t == s)
            && (s.rooms[a].restRemaining >= cost ==>
                  && t.rooms[a].restRemaining == s.rooms[a].restRemaining - cost
                  && t.hp == s.hp + Min(HealPerRest * cost, s.maxHp - s.hp)
                  && (t.rooms[a].state == Cleared <==> t.rooms[a].restRemaining <= 0 || s.rooms[a].state == Cleared))
  {
  }

  // ---------------------------------------------------------------------------
  // The record stays consistent

  lemma {:induction false} RoomsMonsterSumNonNegative(rooms: seq<Room>)
    requires forall i | 0 <= i < |rooms| :: NonNegative(rooms[i].cards)
    ensures RoomsMonsterSum(rooms) >= 0
    decreases |rooms|
  {
    if |rooms| > 0 {
      RoomsMonsterSumNonNegative(rooms[..|rooms| - 1]);
      MonsterSumNonNegative(rooms[|rooms| - 1].cards);
    }
  }

  /** The score never exceeds the hp left: monsters still waiting only count against it. */
  lemma ScoreAtMostHp(s: State)
    requires Consistent(s)
    ensures Score(s) <= s.hp
  {
    MonsterSumNonNegative(s.deck);
    RoomsMonsterSumNonNegative(s.rooms);
  }

  /** Replacing one room by a room whose cards are non-negative keeps the card invariant over rooms. */
  lemma RoomsNonNegativeUpdate(rooms: seq<Room>, k: nat, r: Room)
    requires k < |rooms| && RoomsNonNegative(rooms)
    requires NonNegative(r.cards) && (r.generatedContent.Some? ==> NonNegative(r.generatedContent.value))
    ensures RoomsNonNegative(rooms[k := r])
  {
  }

  lemma FinishConsistent(s: State)
    requires Consistent(s) && HasActive(s)
    ensures Consistent(Finish(s).0)
  {
    var a := s.active.value;
    RoomsNonNegativeUpdate(s.rooms, a, s.rooms[a].(state := Cleared, cards := []));
  }

  lemma SettleConsistent(s: State, idx: nat)
    requires Consistent(s) && idx < |s.combatCards| && HasActive(s) && s.chosenCount < PicksPerRoom
    ensures Consistent(Settle(s, idx).0)
  {
    var t := s.(combatCards := s.combatCards[..idx] + s.combatCards[idx + 1..], chosenCount := s.chosenCount + 1);
    assert NonNegative(t.combatCards) by {
      forall i | 0 <= i < |t.combatCards| ensures t.combatCards[i].val >= 0 {
        if i < idx { assert t.combatCards[i] == s.combatCards[i]; }
        else { assert t.combatCards[i] == s.combatCards[i + 1]; }
      }
    }
    assert Consistent(t);
    if t.hp > 0 && t.chosenCount == PicksPerRoom {
      FinishConsistent(t);
    }
  }

  lemma GiftConsistent(s: State, idx: nat)
    requires Consistent(s) && idx < |s.combatCards| && HasActive(s) && s.chosenCount < PicksPerRoom
    requires s.combatCards[idx].kind.GiftCard?
    ensures Consistent(Pick(s, idx).0)
  {
    var t := Receive(s, s.combatCards[idx].kind.gift);
    var a := t.active.value;
    var u := t.(rooms := t.rooms[a := t.rooms[a].(state := Cleared)], combatCards := []);
    RoomsNonNegativeUpdate(t.rooms, a, t.rooms[a].(state := Cleared));
    assert Consistent(u);
    FinishConsistent(u);
  }

  lemma BonfireCardConsistent(s: State, idx: nat)
    requires Consistent(s) && idx < |s.combatCards| && HasActive(s) && s.chosenCount < PicksPerRoom
    requires s.combatCards[idx].kind == BonfireCard
    ensures Consistent(Pick(s, idx).0)
  {
    var a := s.active.value;
    var rest := s.rooms[a].restRemaining - 1;
    RoomsNonNegativeUpdate(s.rooms, a, s.rooms[a].(restRemaining := rest, state := if rest <= 0 then Cleared else s.rooms[a].state));
  }

  lemma WeaponPickConsistent(s: State, idx: nat)
    requires Consistent(s) && idx < |s.combatCards| && HasActive(s) && s.chosenCount < PicksPerRoom
    requires s.combatCards[idx].kind == WeaponCard
    ensures Consistent(Pick(s, idx).0)
  {
    SettleConsistent(Use(s, s.combatCards[idx]), idx);
  }

  lemma MonsterPickConsistent(s: State, idx: nat)
    requires Consistent(s) && idx < |s.combatCards| && HasActive(s) && s.chosenCount < PicksPerRoom
    requires s.combatCards[idx].kind == Monster
    ensures Consistent(Pick(s, idx).0)
  {
    var card := s.combatCards[idx];
    FightKeepsTrophies(s, card);
    SettleConsistent(Use(s, card), idx);
  }

  lemma PotionPickConsistent(s: State, idx: nat)
    requires Consistent(s) && idx < |s.combatCards| && HasActive(s) && s.chosenCount < PicksPerRoom
    requires s.combatCards[idx].kind == Potion
    ensures Consistent(Pick(s, idx).0)
  {
    var u := Use(s, s.combatCards[idx]);
    assert Consistent(u);
    SettleConsistent(u, idx);
  }

  /** Every pick keeps the record consistent: in particular hp stays at most maxHp. */
  lemma PickConsistent(s: State, idx: nat)
    requires Consistent(s) && idx < |s.combatCards| && HasActive(s)
    ensures Consistent(Pick(s, idx).0)
  {
    if s.chosenCount < PicksPerRoom {
      match s.combatCards[idx].kind
      case WeaponCard => WeaponPickConsistent(s, idx);
      case Monster => MonsterPickConsistent(s, idx);
      case Potion => PotionPickConsistent(s, idx);
      case GiftCard(_) => GiftConsistent(s, idx);
      case BonfireCard => BonfireCardConsistent(s, idx);
    }
  }

  lemma AvoidConsistent(s: State)
    requires Consistent(s) && (!s.lastAvoided && s.chosenCount <= 0 ==> HasActive(s))
    ensures Consistent(Avoid(s))
  {
    if !s.lastAvoided && s.chosenCount <= 0 {
      var a := s.active.value;
      RoomsNonNegativeUpdate(s.rooms, a, s.rooms[a].(cards := [], state := Avoided));
      assert NonNegative(s.deck + s.rooms[a].cards) by {
        forall i | 0 <= i < |s.deck| + |s.rooms[a].cards| ensures (s.deck + s.rooms[a].cards)[i].val >= 0 {
          if i >= |s.deck| { assert (s.deck + s.rooms[a].cards)[i] == s.rooms[a].cards[i - |s.deck|]; }
        }
      }
    }
  }

  lemma RestConsistent(s: State, cost: int)
    requires Consistent(s) && HasActive(s)
    ensures Consistent(Rest(s, cost))
  {
    var a := s.active.value;
    var room := s.rooms[a];
    var rest := room.restRemaining - cost;
    RoomsNonNegativeUpdate(s.rooms, a, room.(restRemaining := rest, state := if rest <= 0 then Cleared else room.state));
  }

  lemma MerchantEnterConsistent(s: State, id: RoomId, giftRoll: nat -> GiftRoll, boostDraw: nat)
    requires Consistent(s) && FindRoom(s.rooms, id).Some?
    requires var r := s.rooms[FindRoom(s.rooms, id).value]; !r.isWaypoint && r.state != Cleared && r.isSpecial
    ensures Consistent(Enter(s, id, giftRoll, boostDraw))
  {
    var k := FindRoom(s.rooms, id).value;
    var room := s.rooms[k];
    var gifts := if room.generatedContent.Some? then room.generatedContent.value
                 else MerchantGifts(giftRoll, boostDraw, s.weapon);
    RoomsNonNegativeUpdate(s.rooms, k, room.(generatedContent := Some(gifts)));
  }

  lemma DealEnterConsistent(s: State, id: RoomId, giftRoll: nat -> GiftRoll, boostDraw: nat)
    requires Consistent(s) && FindRoom(s.rooms, id).Some?
    requires var r := s.rooms[FindRoom(s.rooms, id).value];
             !r.isWaypoint && r.state != Cleared && !r.isSpecial && !r.isBonfire
    ensures Consistent(Enter(s, id, giftRoll, boostDraw))
  {
    var k := FindRoom(s.rooms, id).value;
    var room := s.rooms[k];
    if |room.cards| == 0 && id != Num(0) {
      var dealt := Dealt(s.carryCard, s.deck);
      var pile := Carried(s.carryCard) + s.deck;
      assert NonNegative(pile) by {
        forall i | 0 <= i < |pile| ensures pile[i].val >= 0 {
          if i >= |Carried(s.carryCard)| { assert pile[i] == s.deck[i - |Carried(s.carryCard)|]; }
        }
      }
      assert NonNegative(dealt.0) && NonNegative(dealt.1) by {
        forall i | 0 <= i < |dealt.0| ensures dealt.0[i].val >= 0 { assert dealt.0[i] == pile[i]; }
        forall i | 0 <= i < |dealt.1| ensures dealt.1[i].val >= 0 { assert dealt.1[i] == pile[i + |dealt.0|]; }
      }
      RoomsNonNegativeUpdate(s.rooms, k, room.(cards := dealt.0));
    } else if id == Num(0) {
      RoomsNonNegativeUpdate(s.rooms, k, room.(cards := []));
    }
  }

  /** Entering any room keeps the record consistent. */
  lemma EnterConsistent(s: State, id: RoomId, giftRoll: nat -> GiftRoll, boostDraw: nat)
    requires Consistent(s) && FindRoom(s.rooms, id).Some?
    ensures Consistent(Enter(s, id, giftRoll, boostDraw))
  {
    var room := s.rooms[FindRoom(s.rooms, id).value];
    if room.isWaypoint || room.state == Cleared {
    } else if room.isSpecial {
      MerchantEnterConsistent(s, id, giftRoll, boostDraw);
    } else if room.isBonfire {
    } else {
      DealEnterConsistent(s, id, giftRoll, boostDraw);
    }
  }

  // ---------------------------------------------------------------------------
  // Starting a dive

  /** A freshly laid-out floor holds no cards and no merchant offers yet. */
  lemma LaidRoomsEmpty(rooms: seq<Room>)
    requires Laid(rooms)
    ensures forall i | 0 <= i < |rooms| :: rooms[i].cards == [] && rooms[i].generatedContent == None
  {
    forall i | 0 <= i < |rooms| ensures rooms[i].cards == [] && rooms[i].generatedContent == None {
      if i == 0 {
      } else if i % 3 == 0 {
        assert Fresh(rooms[Slot(i / 3)], i / 3);
      } else {
        assert Linked(rooms, i / 3 + 1);
      }
    }
  }

  /** No card of a new deck has a negative value. */
  lemma NewDeckNonNegative(deck: seq<Card>)
    requires forall c :: multiset(deck)[c] == if InDeck(c) then 1 else 0
    ensures NonNegative(deck)
  {
    forall i | 0 <= i < |deck| ensures deck[i].val >= 0 {
      assert deck[i] in multiset(deck);
    }
  }

  /**
   * The `game` record as the page loads it. `floor`, `deck` and `weapon` are
   * not in that record; the first dive sets them before anything reads them.
   */
  const Initial: State := State(StartHp, StartHp, 1, [], None, Unlimited, [], [], Num(0), false, false, None, 0, [], None)

  /**
   * `finalizeStartDive` on record `s`: full health on floor 1, a new deck and
   * dungeon, no weapon, back at the start room. `maxHp` and the encounter
   * fields (`activeRoom`, `chosenCount`, `combatCards`, `potionsUsedThisTurn`,
   * `carryCard`) are left as they were.
   */
  function Restart(s: State, deck: seq<Card>, rooms: seq<Room>): State
  {
    s.(hp := StartHp, floor := 1, deck := deck, weapon := None, durability := Unlimited, slainStack := [],
       rooms := rooms, currentRoom := Num(0), lastAvoided := false)
  }

  /**
   * `descendToNextFloor` on record `s`: one floor deeper, a new deck and
   * dungeon, back at the start room; health, weapon and slain stack are kept.
   */
  function NextFloor(s: State, deck: seq<Card>, rooms: seq<Room>): State
  {
    s.(floor := s.floor + 1, deck := deck, rooms := rooms, currentRoom := Num(0), lastAvoided := false)
  }

  /** The record after the first dive has started: nothing on the table. */
  function StartOfDive(deck: seq<Card>, rooms: seq<Room>): State
  {
    Restart(Initial, deck, rooms)
  }

  /** The part of `Consistent` about the fields a restart leaves as they were. */
  ghost predicate KeptConsistent(s: State)
  {
    && s.maxHp == StartHp
    && 0 <= s.chosenCount <= PicksPerRoom
    && (s.active.Some? ==> s.active.value < FloorLength)
    && (|s.combatCards| > 0 ==> s.active.Some?)
    && NonNegative(s.combatCards) && NonNegative(Carried(s.carryCard))
  }

  /**
   * A dive starts consistent from the page's record or from any consistent
   * record (the "new game" button mid-dive), and entering the cleared start
   * room changes nothing, so a carried card waits for the next regular room.
   */
  lemma RestartConsistent(s: State, deck: seq<Card>, rooms: seq<Room>, giftRoll: nat -> GiftRoll, boostDraw: nat)
    requires s == Initial || Consistent(s)
    requires forall c :: multiset(deck)[c] == if InDeck(c) then 1 else 0
    requires Laid(rooms) && |rooms| == FloorLength
    ensures KeptConsistent(s) && Consistent(Restart(s, deck, rooms))
    ensures FindRoom(rooms, Num(0)) == Some(0)
    ensures Enter(Restart(s, deck, rooms), Num(0), giftRoll, boostDraw) == Restart(s, deck, rooms)
  {
    NewDeckNonNegative(deck);
    LaidRoomsEmpty(rooms);
    assert rooms[0].id == Num(0) && rooms[0].state == Cleared && !rooms[0].isFinal && !rooms[0].isWaypoint;
  }

  /** Descending keeps the record consistent, and the new start room is entered without effect. */
  lemma NextFloorConsistent(s: State, deck: seq<Card>, rooms: seq<Room>, giftRoll: nat -> GiftRoll, boostDraw: nat)
    requires Consistent(s)
    requires forall c :: multiset(deck)[c] == if InDeck(c) then 1 else 0
    requires Laid(rooms) && |rooms| == FloorLength
    ensures Consistent(NextFloor(s, deck, rooms))
    ensures FindRoom(rooms, Num(0)) == Some(0)
    ensures Enter(NextFloor(s, deck, rooms), Num(0), giftRoll, boostDraw) == NextFloor(s, deck, rooms)
  {
    NewDeckNonNegative(deck);
    LaidRoomsEmpty(rooms);
    assert rooms[0].id == Num(0) && rooms[0].state == Cleared && !rooms[0].isFinal && !rooms[0].isWaypoint;
  }

  // ---------------------------------------------------------------------------
  // The game record, updated in place

  class Game {
    var hp: int
    var maxHp: int
    var floor: int
    var deck: seq<Card>
    var weapon: Option<Weapon>
    var durability: Durability
    var slainStack: seq<Card>
    var rooms: seq<Room>
    var currentRoom: RoomId
    var lastAvoided: bool
    var potionsUsedThisTurn: bool
    var active: Option<nat>
    var chosenCount: int
    var combatCards: seq<Card>
    var carryCard: Option<Card>

    /** The record as a value. */
    function Snapshot(): State
      reads this
    {
      State(hp, maxHp, floor, deck, weapon, durability, slainStack, rooms, currentRoom,
            lastAvoided, potionsUsedThisTurn, active, chosenCount, combatCards, carryCard)
    }

    ghost predicate Valid()
      reads this
    {
      Consistent(Snapshot())
    }

    /** The page loads with the initial record and the player starts the first dive. */
    constructor (deckDraw: nat -> nat, rolls: nat -> Roll, specialDraw: nat -> nat, merchantDraw: nat)
      ensures Valid()
      ensures Snapshot() == StartOfDive(deck, rooms)
      ensures deck == Shuffling.Shuffled(OrderedDeck(), deckDraw)
      ensures Laid(rooms) && |rooms| == FloorLength
    {
      hp, maxHp, floor, deck := StartHp, StartHp, 1, [];
      weapon, durability, slainStack := None, Unlimited, [];
      rooms, currentRoom, lastAvoided, potionsUsedThisTurn := [], Num(0), false, false;
      active, chosenCount, combatCards, carryCard := None, 0, [], None;
      new;
      assert Snapshot() == Initial;
      NewDive(deckDraw, rolls, specialDraw, merchantDraw);
    }

    /**
     * `finalizeStartDive`, from the page's record or from the "new game"
     * button mid-dive: full health on floor 1, a shuffled deck, no weapon, a
     * new dungeon, then `enterRoom(0)` into the cleared start room. The
     * encounter fields are not reset.
     */
    method NewDive(deckDraw: nat -> nat, rolls: nat -> Roll, specialDraw: nat -> nat, merchantDraw: nat)
      requires Snapshot() == Initial || Valid()
      modifies this
      ensures Valid()
      ensures Snapshot() == Restart(old(Snapshot()), deck, rooms)
      ensures deck == Shuffling.Shuffled(OrderedDeck(), deckDraw)
      ensures Laid(rooms) && |rooms| == FloorLength
    {
      var newDeck := CreateDeck(deckDraw);
      var laid, final, bonfire, merchants := GenerateDungeon(rolls, specialDraw, merchantDraw);
      var noGifts := _ => GiftRoll(0, false);
      RestartConsistent(Snapshot(), newDeck, laid, noGifts, 0);
      Disarm();
      ResetFloor(newDeck, laid);
      EnterRoom(Num(0), noGifts, 0);
    }

    /** The reset of health and weapon in `finalizeStartDive`. */
    method Disarm()
      modifies this
      ensures Snapshot() == old(Snapshot()).(hp := StartHp, weapon := None, durability := Unlimited, slainStack := [])
    {
      hp, weapon, durability, slainStack := StartHp, None, Unlimited, [];
    }

    /** The new floor of `finalizeStartDive`: floor 1, the new deck and dungeon, at the start room. */
    method ResetFloor(newDeck: seq<Card>, laid: seq<Room>)
      modifies this
      ensures Snapshot() == old(Snapshot()).(floor := 1, deck := newDeck, rooms := laid, currentRoom := Num(0), lastAvoided := false)
    {
      floor, deck, rooms, currentRoom, lastAvoided := 1, newDeck, laid, Num(0), false;
    }

    /** `descendToNextFloor`: a new deck and dungeon one floor deeper, then `enterRoom(0)`. */
    method DescendToNextFloor(deckDraw: nat -> nat, rolls: nat -> Roll, specialDraw: nat -> nat, merchantDraw: nat)
      requires Valid()
      modifies this
      ensures Valid()
      ensures Snapshot() == NextFloor(old(Snapshot()), deck, rooms)
      ensures deck == Shuffling.Shuffled(OrderedDeck(), deckDraw)
      ensures Laid(rooms) && |rooms| == FloorLength
    {
      var newDeck := CreateDeck(deckDraw);
      var laid, final, bonfire, merchants := GenerateDungeon(rolls, specialDraw, merchantDraw);
      var noGifts := _ => GiftRoll(0, false);
      NextFloorConsistent(Snapshot(), newDeck, laid, noGifts, 0);
      Relocate(newDeck, laid);
      EnterRoom(Num(0), noGifts, 0);
    }

    /** The field updates of `descendToNextFloor`. */
    method Relocate(newDeck: seq<Card>, laid: seq<Room>)
      modifies this
      ensures Snapshot() == NextFloor(old(Snapshot()), newDeck, laid)
    {
      floor, deck, rooms, currentRoom, lastAvoided := floor + 1, newDeck, laid, Num(0), false;
    }

    /** `game.rooms.find(r => r.id === id)`, as an index. */
    method FindRoomIndex(id: RoomId) returns (k: Option<nat>)
      ensures k == FindRoom(rooms, id)
    {
      var i := 0;
      while i < |rooms|
        invariant 0 <= i <= |rooms|
        invariant forall j | 0 <= j < i :: rooms[j].id != id
      {
        if rooms[i].id == id {
          return Some(i);
        }
        i := i + 1;
      }
      return None;
    }

    /** The merchant's two red face cards, then a repair when a weapon is held. */
    method GenerateGifts(giftRoll: nat -> GiftRoll, boostDraw: nat) returns (gifts: seq<Card>)
      ensures gifts == MerchantGifts(giftRoll, boostDraw, weapon)
    {
      gifts := [];
      for i := 0 to 2
        invariant |gifts| == i && forall j | 0 <= j < i :: gifts[j] == GiftOffer(giftRoll(j))
      {
        gifts := gifts + [GiftOffer(giftRoll(i))];
      }
      if weapon.Some? {
        var boost := boostDraw % 6 + 1;
        gifts := gifts + [Card(Tools, boost, GiftCard(RepairGift(boost)))];
      }
    }

    /** The deal of `enterRoom`: the carried card, then the deck's top cards until the room holds four. */
    method Deal(k: nat)
      requires k < |rooms|
      modifies this
      ensures var dealt := Dealt(old(carryCard), old(deck));
              Snapshot() == old(Snapshot()).(rooms := old(rooms)[k := old(rooms)[k].(cards := dealt.0)],
                                             deck := dealt.1, carryCard := None)
    {
      var cards, rest := DealCards(carryCard, deck);
      carryCard := None;
      deck := rest;
      rooms := rooms[k := rooms[k].(cards := cards)];
    }

    /** The offers of merchant room `k`: the stored ones, or new ones on the first visit. */
    method MerchantOffers(k: nat, giftRoll: nat -> GiftRoll, boostDraw: nat) returns (gifts: seq<Card>)
      requires k < |rooms|
      ensures rooms[k].generatedContent.Some? ==> gifts == rooms[k].generatedContent.value
      ensures rooms[k].generatedContent.None? ==> gifts == MerchantGifts(giftRoll, boostDraw, weapon)
    {
      if rooms[k].generatedContent.None? {
        gifts := GenerateGifts(giftRoll, boostDraw);
      } else {
        gifts := rooms[k].generatedContent.value;
      }
    }

    /** A merchant's room: the stored offers, or new ones made and stored on the first visit. */
    method EnterMerchant(k: nat, giftRoll: nat -> GiftRoll, boostDraw: nat)
      requires k < |rooms|
      modifies this
      ensures Snapshot() == MerchantVisit(old(Snapshot()), k, giftRoll, boostDraw)
    {
      var gifts := MerchantOffers(k, giftRoll, boostDraw);
      rooms := rooms[k := rooms[k].(generatedContent := Some(gifts))];
      active := Some(k);
      combatCards := gifts;
      chosenCount := 0;
      potionsUsedThisTurn := false;
    }

    /** The cards of regular room `id` at index `k`: a deal when it is empty, none in the start room. */
    method Stock(id: RoomId, k: nat)
      requires k < |rooms|
      modifies this
      ensures Snapshot() == Stocked(old(Snapshot()), id, k)
    {
      if |rooms[k].cards| == 0 && id != Num(0) {
        Deal(k);
      } else if id == Num(0) {
        rooms := rooms[k := rooms[k].(cards := [])];
      }
    }

    /** A regular room: dealt on the first visit (the start room always stays empty), then shown. */
    method EnterRegular(id: RoomId, k: nat)
      requires k < |rooms|
      modifies this
      ensures Snapshot() == RegularVisit(old(Snapshot()), id, k)
    {
      Stock(id, k);
      active := Some(k);
      combatCards := rooms[k].cards;
      chosenCount := 0;
      potionsUsedThisTurn := false;
    }

    /** `enterRoom(id)`. */
    method EnterRoom(id: RoomId, giftRoll: nat -> GiftRoll, boostDraw: nat)
      requires FindRoom(rooms, id).Some?
      modifies this
      ensures Snapshot() == Enter(old(Snapshot()), id, giftRoll, boostDraw)
      ensures old(Valid()) ==> Valid()
    {
      if Valid() {
        EnterConsistent(Snapshot(), id, giftRoll, boostDraw);
      }
      Visit(id, giftRoll, boostDraw);
    }

    /** The steps of `enterRoom(id)`, by the kind and state of the room. */
    method Visit(id: RoomId, giftRoll: nat -> GiftRoll, boostDraw: nat)
      requires FindRoom(rooms, id).Some?
      modifies this
      ensures Snapshot() == Enter(old(Snapshot()), id, giftRoll, boostDraw)
    {
      currentRoom := id;
      var found := FindRoomIndex(id);
      var k := found.value;
      var room := rooms[k];
      if room.isWaypoint {
        return;
      }
      if room.state == Cleared && !room.isFinal {
        return;
      }
      if room.state == Cleared && room.isFinal {
        active := Some(k);
        return;
      }
      if room.isSpecial && room.state != Cleared {
        EnterMerchant(k, giftRoll, boostDraw);
        return;
      }
      if room.isBonfire && room.state != Cleared {
        active := Some(k);
        chosenCount := 0;
        potionsUsedThisTurn := false;
        return;
      }
      EnterRegular(id, k);
    }

    /** `game.rooms.every(...)` of `finishRoom`. */
    method AllPurged() returns (allCleared: bool)
      ensures allCleared <==> forall i | 0 <= i < |rooms| :: Purged(rooms[i])
    {
      allCleared := true;
      var i := 0;
      while i < |rooms|
        invariant 0 <= i <= |rooms|
        invariant allCleared <==> forall j | 0 <= j < i :: Purged(rooms[j])
      {
        allCleared := allCleared && Purged(rooms[i]);
        i := i + 1;
      }
    }

    /** `finishRoom()`; returns whether the stairs are revealed. */
    method FinishRoom() returns (stairs: bool)
      requires HasActive(Snapshot())
      modifies this
      ensures (Snapshot(), stairs) == Finish(old(Snapshot()))
      ensures old(Valid()) ==> Valid()
    {
      if Valid() {
        FinishConsistent(Snapshot());
      }
      stairs := ClearRoom();
    }

    /** The steps of `finishRoom()`: the room is cleared and emptied, the first leftover card carried. */
    method ClearRoom() returns (stairs: bool)
      requires HasActive(Snapshot())
      modifies this
      ensures (Snapshot(), stairs) == Finish(old(Snapshot()))
    {
      var a := active.value;
      ghost var before := rooms;
      rooms := rooms[a := rooms[a].(state := Cleared)];
      if !rooms[a].isSpecial && !rooms[a].isBonfire {
        carryCard := if |combatCards| > 0 then Some(combatCards[0]) else None;
      }
      combatCards := [];
      rooms := rooms[a := rooms[a].(cards := [])];
      assert rooms == before[a := before[a].(state := Cleared, cards := [])];
      lastAvoided := false;
      var allCleared := AllPurged();
      stairs := allCleared && rooms[a].isFinal;
    }

    /** The monster branch of `pickCard`. */
    method FightMonster(card: Card)
      modifies this
      ensures Snapshot() == Fight(old(Snapshot()), card)
    {
      var dmg := card.val;
      if weapon.Some? && Admits(durability, card.val) {
        dmg := Max(0, card.val - weapon.value.val);
        durability := Limit(card.val);
        slainStack := slainStack + [card];
      } else if weapon.Some? {
        dmg := Max(0, card.val - weapon.value.val);
        weapon := None;
        durability := Unlimited;
        slainStack := [];
      }
      hp := hp - dmg;
    }

    /** The gift branch of `pickCard`, before the room is finished. */
    method ReceiveGift(gift: Gift)
      modifies this
      ensures Snapshot() == Receive(old(Snapshot()), gift)
    {
      match gift {
        case WeaponGift(suit, val) =>
          weapon := Some(Weapon(suit, val));
          durability := Unlimited;
          slainStack := [];
        case PotionGift(_, val) =>
          var heal := Min(val, maxHp - hp);
          hp := hp + heal;
        case RepairGift(boost) =>
          if weapon.Some? {
            weapon := Some(weapon.value.(val := Min(RepairCap, weapon.value.val + boost)));
            durability := Unlimited;
            slainStack := [];
          }
      }
    }

    /** The common end of a weapon, monster or potion pick. */
    method SettlePick(idx: nat) returns (outcome: Outcome)
      requires idx < |combatCards| && HasActive(Snapshot())
      modifies this
      ensures (Snapshot(), outcome) == Settle(old(Snapshot()), idx)
    {
      combatCards := combatCards[..idx] + combatCards[idx + 1..];
      chosenCount := chosenCount + 1;
      if hp <= 0 {
        var score := GameOverScore();
        return Died(score);
      }
      if chosenCount == PicksPerRoom {
        var stairs := FinishRoom();
        return Finished(stairs);
      }
      return Continue;
    }

    /** `pickCard(idx)`. */
    method PickCard(idx: nat) returns (outcome: Outcome)
      requires idx < |combatCards| && HasActive(Snapshot())
      modifies this
      ensures (Snapshot(), outcome) == Pick(old(Snapshot()), idx)
      ensures old(Valid()) ==> Valid()
    {
      if Valid() {
        PickConsistent(Snapshot(), idx);
      }
      if chosenCount >= PicksPerRoom {
        return Ignored;
      }
      var card := combatCards[idx];
      match card.kind {
        case GiftCard(_) => outcome := PickGift(idx);
        case BonfireCard => outcome := PickBonfireCard(idx);
        case _ => outcome := PickAndSettle(idx);
      }
    }

    /** A weapon, monster or potion pick. */
    method PickAndSettle(idx: nat) returns (outcome: Outcome)
      requires idx < |combatCards| && HasActive(Snapshot()) && chosenCount < PicksPerRoom
      requires combatCards[idx].kind in {WeaponCard, Monster, Potion}
      modifies this
      ensures (Snapshot(), outcome) == Pick(old(Snapshot()), idx)
    {
      ghost var s := Snapshot();
      var card := combatCards[idx];
      match card.kind {
        case WeaponCard =>
          weapon := Some(Weapon(card.suit, card.val));
          durability := Unlimited;
          slainStack := [];
        case Monster =>
          FightMonster(card);
        case Potion =>
          var heal := Min(card.val, maxHp - hp);
          if !potionsUsedThisTurn {
            hp := hp + heal;
            potionsUsedThisTurn := true;
          }
      }
      assert Snapshot() == Use(s, card);
      outcome := SettlePick(idx);
    }

    /** A merchant's gift: it takes effect, the other offers vanish and the room is finished. */
    method PickGift(idx: nat) returns (outcome: Outcome)
      requires idx < |combatCards| && HasActive(Snapshot()) && chosenCount < PicksPerRoom
      requires combatCards[idx].kind.GiftCard?
      modifies this
      ensures (Snapshot(), outcome) == Pick(old(Snapshot()), idx)
    {
      ReceiveGift(combatCards[idx].kind.gift);
      var a := active.value;
      rooms := rooms[a := rooms[a].(state := Cleared)];
      combatCards := [];
      var stairs := FinishRoom();
      outcome := Finished(stairs);
    }

    /** A bonfire card: it heals and burns one rest, without counting as a pick. */
    method PickBonfireCard(idx: nat) returns (outcome: Outcome)
      requires idx < |combatCards| && HasActive(Snapshot()) && chosenCount < PicksPerRoom
      requires combatCards[idx].kind == BonfireCard
      modifies this
      ensures (Snapshot(), outcome) == Pick(old(Snapshot()), idx)
    {
      var card := combatCards[idx];
      var heal := Min(card.val, maxHp - hp);
      hp := hp + heal;
      var a := active.value;
      ghost var before := rooms;
      rooms := rooms[a := rooms[a].(restRemaining := rooms[a].restRemaining - 1)];
      if rooms[a].restRemaining <= 0 {
        rooms := rooms[a := rooms[a].(state := Cleared)];
      }
      ghost var rest := before[a].restRemaining - 1;
      assert rooms == before[a := before[a].(restRemaining := rest, state := if rest <= 0 then Cleared else before[a].state)];
      outcome := Continue;
    }

    /** `avoidRoom()`. */
    method AvoidRoom()
      requires !lastAvoided && chosenCount <= 0 ==> HasActive(Snapshot())
      modifies this
      ensures Snapshot() == Avoid(old(Snapshot()))
      ensures old(Valid()) ==> Valid()
    {
      if Valid() {
        AvoidConsistent(Snapshot());
      }
      if lastAvoided || chosenCount > 0 {
        return;
      }
      var a := active.value;
      deck := deck + rooms[a].cards;
      rooms := rooms[a := rooms[a].(cards := [])];
      rooms := rooms[a := rooms[a].(state := Avoided)];
      lastAvoided := true;
    }

    /** `handleBonfire(cost)`. */
    method HandleBonfire(cost: int)
      requires HasActive(Snapshot())
      modifies this
      ensures Snapshot() == Rest(old(Snapshot()), cost)
      ensures old(Valid()) ==> Valid()
    {
      if Valid() {
        RestConsistent(Snapshot(), cost);
      }
      var a := active.value;
      if rooms[a].restRemaining < cost {
        return;
      }
      rooms := rooms[a := rooms[a].(restRemaining := rooms[a].restRemaining - cost)];
      var heal := Min(HealPerRest * cost, maxHp - hp);
      hp := hp + heal;
      if rooms[a].restRemaining <= 0 {
        rooms := rooms[a := rooms[a].(state := Cleared)];
      }
    }

    /** The score of `gameOver`: hp less the monsters in the deck and in every room. */
    method GameOverScore() returns (score: int)
      ensures score == Score(Snapshot())
    {
      var monsterSum := 0;
      for i := 0 to |deck|
        invariant monsterSum == MonsterSum(deck[..i])
      {
        assert deck[..i + 1][..i] == deck[..i];
        if deck[i].kind == Monster {
          monsterSum := monsterSum + deck[i].val;
        }
      }
      assert deck[..|deck|] == deck;
      var roomSum := 0;
      for i := 0 to |rooms|
        invariant roomSum == RoomsMonsterSum(rooms[..i])
      {
        assert rooms[..i + 1][..i] == rooms[..i];
        var cards := rooms[i].cards;
        var cardSum := 0;
        for j := 0 to |cards|
          invariant cardSum == MonsterSum(cards[..j])
        {
          assert cards[..j + 1][..j] == cards[..j];
          if cards[j].kind == Monster {
            cardSum := cardSum + cards[j].val;
          }
        }
        assert cards[..|cards|] == cards;
        roomSum := roomSum + cardSum;
      }
      assert rooms[..|rooms|] == rooms;
      score := hp - (monsterSum + roomSum);
    }
  }
}
