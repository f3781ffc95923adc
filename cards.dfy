/**
 * Cards of the Scoundrel-style dungeon (scoundrel-3d.js): the 44-card deck,
 * monster names, the face letters shown on cards, the sprite-sheet cell of an
 * asset and the floor themes.
 */
module Cards {
  import opened Wrappers
  import Text
  import Shuffling

  /** `SUITS`, plus the tool glyph shown on a merchant's repair offer. */
  datatype Suit = Hearts | Diamonds | Clubs | Spades | Tools

  /** The `actualGift` behind a merchant offer. */
  datatype Gift =
    | WeaponGift(suit: Suit, val: int)
    | PotionGift(suit: Suit, val: int)
    | RepairGift(boost: int)

  /** A card's `type`; a gift card carries its `actualGift`. */
  datatype Kind = Monster | WeaponCard | Potion | GiftCard(gift: Gift) | BonfireCard

  datatype Card = Card(suit: Suit, val: int, kind: Kind)

  /** The equipped weapon: the weapon card, or a merchant's weapon gift. */
  datatype Weapon = Weapon(suit: Suit, val: int)

  // ---------------------------------------------------------------------------
  // Deck construction

  /** The cards pushed by `for (let v = lo; v <= hi; v++) deck.push(...)`, in push order. */
  function Run(suit: Suit, kind: Kind, lo: int, hi: int): seq<Card>
    decreases hi - lo
  {
    if hi < lo then [] else Run(suit, kind, lo, hi - 1) + [Card(suit, hi, kind)]
  }

  /** The lowest value `createDeck` pushes, the ace, and the highest weapon and potion value. */
  const Low: int := 2
  const Ace: int := 14
  const RedHigh: int := 10

  /** `createDeck` before its final shuffle. */
  function OrderedDeck(): seq<Card>
  {
    Run(Clubs, Monster, Low, Ace) + Run(Spades, Monster, Low, Ace)
    + Run(Diamonds, WeaponCard, Low, RedHigh) + Run(Hearts, Potion, Low, RedHigh)
  }

  /** The 44 cards of a Scoundrel deck: black monsters 2..14, diamond weapons and heart potions 2..10. */
  predicate InDeck(c: Card)
  {
    || (c.kind == Monster && (c.suit == Clubs || c.suit == Spades) && 2 <= c.val <= 14)
    || (c.kind == WeaponCard && c.suit == Diamonds && 2 <= c.val <= 10)
    || (c.kind == Potion && c.suit == Hearts && 2 <= c.val <= 10)
  }

  lemma {:induction false} RunCount(suit: Suit, kind: Kind, lo: int, hi: int, c: Card)
    requires lo <= hi + 1
    ensures |Run(suit, kind, lo, hi)| == hi - lo + 1
    ensures multiset(Run(suit, kind, lo, hi))[c]
         == if c.suit == suit && c.kind == kind && lo <= c.val <= hi then 1 else 0
    decreases hi - lo
  {
    if lo <= hi {
      var init := Run(suit, kind, lo, hi - 1);
      RunCount(suit, kind, lo, hi - 1, c);
      assert Run(suit, kind, lo, hi) == init + [Card(suit, hi, kind)];
      assert multiset(init + [Card(suit, hi, kind)]) == multiset(init) + multiset{Card(suit, hi, kind)};
    }
  }

  /** The unshuffled deck holds every deck card exactly once and nothing else. */
  lemma OrderedDeckCounts(c: Card)
    ensures |OrderedDeck()| == 44
    ensures multiset(OrderedDeck())[c] == if InDeck(c) then 1 else 0
  {
    RunCount(Clubs, Monster, Low, Ace, c);
    RunCount(Spades, Monster, Low, Ace, c);
    RunCount(Diamonds, WeaponCard, Low, RedHigh, c);
    RunCount(Hearts, Potion, Low, RedHigh, c);
  }

  lemma OrderedDeckLength()
    ensures |OrderedDeck()| == 44
  {
    OrderedDeckCounts(Card(Tools, 0, BonfireCard));
  }

  /** `for (let v = lo; v <= hi; v++) deck.push({ suit, val: v, type })` */
  method PushRun(deck: seq<Card>, suit: Suit, kind: Kind, lo: int, hi: int) returns (pushed: seq<Card>)
    requires lo <= hi + 1
    ensures pushed == deck + Run(suit, kind, lo, hi)
  {
    pushed := deck;
    var v := lo;
    while v <= hi
      invariant lo <= v <= hi + 1
      invariant pushed == deck + Run(suit, kind, lo, v - 1)
    {
      assert Run(suit, kind, lo, v) == Run(suit, kind, lo, v - 1) + [Card(suit, v, kind)];
      pushed := pushed + [Card(suit, v, kind)];
      v := v + 1;
    }
  }

  /** The deck of `createDeck` before the shuffle: monsters per black suit, then weapons, then potions. */
  method BuildDeck() returns (deck: seq<Card>)
    ensures deck == OrderedDeck()
  {
    deck := [];
    var suits := [Clubs, Spades];
    var s := 0;
    while s < 2
      invariant 0 <= s <= 2
      invariant s == 1 ==> deck == Run(Clubs, Monster, Low, Ace)
      invariant s == 2 ==> deck == Run(Clubs, Monster, Low, Ace) + Run(Spades, Monster, Low, Ace)
      invariant s == 0 ==> deck == []
    {
      deck := PushRun(deck, suits[s], Monster, Low, Ace);
      s := s + 1;
    }
    deck := PushRun(deck, Diamonds, WeaponCard, Low, RedHigh);
    deck := PushRun(deck, Hearts, Potion, Low, RedHigh);
  }

  /** `createDeck`: the 44 cards, shuffled in place. */
  method CreateDeck(draw: nat -> nat) returns (deck: seq<Card>)
    ensures |deck| == 44
    ensures forall c :: multiset(deck)[c] == if InDeck(c) then 1 else 0
    ensures deck == Shuffling.Shuffled(OrderedDeck(), draw)
  {
    var pushed := BuildDeck();
    var a := new Card[|pushed|](i requires 0 <= i < |pushed| => pushed[i]);
    assert a[..] == pushed;
    Shuffling.Shuffle(a, draw);
    deck := a[..];
    ShuffledDeckCounts(draw);
  }

  /** Shuffling keeps exactly the deck cards, each once. */
  lemma ShuffledDeckCounts(draw: nat -> nat)
    ensures |Shuffling.Shuffled(OrderedDeck(), draw)| == 44
    ensures forall c :: multiset(Shuffling.Shuffled(OrderedDeck(), draw))[c] == if InDeck(c) then 1 else 0
  {
    forall c ensures multiset(OrderedDeck())[c] == if InDeck(c) then 1 else 0 {
      OrderedDeckCounts(c);
    }
    OrderedDeckLength();
    ShuffledCounts(OrderedDeck(), draw);
  }

  /** A shuffle of a sequence holding each deck card once holds each deck card once. */
  lemma ShuffledCounts(o: seq<Card>, draw: nat -> nat)
    requires |o| == 44 && forall c :: multiset(o)[c] == if InDeck(c) then 1 else 0
    ensures |Shuffling.Shuffled(o, draw)| == 44
    ensures forall c :: multiset(Shuffling.Shuffled(o, draw))[c] == if InDeck(c) then 1 else 0
  {
    Shuffling.ShuffledIsPermutation(o, draw);
  }

  // ---------------------------------------------------------------------------
  // Names, face letters, sprite cells

  /** The nine monster tiers, in the order of the monster sprite strip. */
  const TierNames: seq<string> := [
    "Shadow Creeper", "Graveling", "Rat-Bat", "Spined Horror", "Grue",
    "Jack of Spite", "Queen of Sorrow", "King of Ruin", "Primeval Ace"]

  /** The "weighted mapping" of `getAssetData` from a card value to a cell of a 9-cell strip. */
  function CellIndex(v: int): (cell: nat)
    ensures cell < 9
    ensures 2 <= v <= 14 ==> (cell == 0 <==> v <= 3)
    ensures 10 <= v <= 14 ==> cell == v - 6
  {
    if v <= 3 then 0
    else if v <= 5 then 1
    else if v <= 7 then 2
    else if v <= 9 then 3
    else if v == 10 then 4
    else if v == 11 then 5
    else if v == 12 then 6
    else if v == 13 then 7
    else if v == 14 then 8
    else 0
  }

  /** `getMonsterName`: agrees with the sprite cell up to 14, numbered beyond. */
  function MonsterName(v: int): (name: string)
    ensures v <= 14 ==> name == TierNames[CellIndex(v)]
    ensures v > 14 ==> name == "Monster (" + Text.NatToString(v) + ")"
  {
    if v <= 3 then "Shadow Creeper"
    else if v <= 5 then "Graveling"
    else if v <= 7 then "Rat-Bat"
    else if v <= 9 then "Spined Horror"
    else if v == 10 then "Grue"
    else if v == 11 then "Jack of Spite"
    else if v == 12 then "Queen of Sorrow"
    else if v == 13 then "King of Ruin"
    else if v == 14 then "Primeval Ace"
    else "Monster (" + Text.NatToString(v) + ")"
  }

  /** Higher monsters never sit in an earlier cell, up to the ace. */
  lemma CellIndexMonotone(v: int, w: int)
    requires v <= w <= 14
    ensures CellIndex(v) <= CellIndex(w)
  {
  }

  /** What `getDisplayVal` shows: a face letter, or the number itself. */
  datatype Shown = Letter(letter: char) | Number(n: int)

  function DisplayVal(v: int): (shown: Shown)
    ensures shown.Letter? <==> 11 <= v <= 14
  {
    if v == 11 then Letter('J')
    else if v == 12 then Letter('Q')
    else if v == 13 then Letter('K')
    else if v == 14 then Letter('A')
    else Number(v)
  }

  /** The value a shown face stands for. */
  function ShownValue(shown: Shown): int
  {
    match shown
    case Letter(c) => if c == 'J' then 11 else if c == 'Q' then 12 else if c == 'K' then 13 else 14
    case Number(n) => n
  }

  /** The face shown on a card always reads back as its value, so no two values look alike. */
  lemma DisplayValRoundTrip(v: int, w: int)
    ensures ShownValue(DisplayVal(v)) == v
    ensures DisplayVal(v) == DisplayVal(w) ==> v == w
  {
  }

  // ---------------------------------------------------------------------------
  // getAssetData / getUVForCell

  /** The `type` argument of `getAssetData`. */
  datatype AssetType = MonsterAsset | WeaponAsset | PotionAsset | BlockAsset | BonfireAsset | GiftAsset

  datatype AssetFile = ClubStrip | SpadeStrip | DiamondStrip | HeartStrip | BlockStrip | RestImage

  function FileName(f: AssetFile): string
  {
    match f
    case ClubStrip => "club.png"
    case SpadeStrip => "spade.png"
    case DiamondStrip => "diamond.png"
    case HeartStrip => "heart.png"
    case BlockStrip => "block.png"
    case RestImage => "rest_m.png"
  }

  /** `{ file, uv: { u, v: 0 }, isStrip }`; `u` is the horizontal texture offset of the cell. */
  datatype Asset = Asset(file: AssetFile, cell: int, u: real, isStrip: bool)

  /** JavaScript's `%`: the remainder takes the sign of the dividend. */
  function JsRem(a: int, n: int): (r: int)
    requires n > 0
    ensures a >= 0 ==> r == a % n
    ensures a < 0 ==> -n < r <= 0 && r == -((-a) % n)
  {
    if a >= 0 then a % n else -((-a) % n)
  }

  /** `getUVForCell`: cell `k` of a 1x9 strip starts at `k / 9`. */
  function UForCell(cell: int): (u: real)
    ensures 0 <= cell < 9 ==> 0.0 <= u < 1.0
  {
    cell as real / 9.0
  }

  /** `getAssetData(type, value, suit, extra)`; a gift reads the value of its `extra` gift. */
  function AssetData(t: AssetType, value: int, suit: Suit, extra: Option<Gift>): (a: Asset)
    ensures a.isStrip <==> a.file != RestImage
    ensures a.u == UForCell(a.cell)
    ensures t != BlockAsset ==> 0 <= a.cell < 9
  {
    var file :=
      if t == MonsterAsset then (if suit == Clubs then ClubStrip else SpadeStrip)
      else if t == WeaponAsset then DiamondStrip
      else if t == PotionAsset then HeartStrip
      else if t == BlockAsset then BlockStrip
      else if t == BonfireAsset then RestImage
      else if t == GiftAsset && extra.Some? then (if extra.value.WeaponGift? then DiamondStrip else HeartStrip)
      else BlockStrip;
    var v :=
      if t == GiftAsset && extra.Some? then GiftValue(extra.value) else value;
    var cell :=
      if t == BlockAsset then JsRem(value, 9)
      else if t == BonfireAsset then 0
      else CellIndex(v);
    Asset(file, cell, UForCell(cell), file != RestImage)
  }

  /** `extra.val` of a gift. */
  function GiftValue(g: Gift): int
  {
    match g
    case WeaponGift(_, v) => v
    case PotionGift(_, v) => v
    case RepairGift(b) => b
  }

  // ---------------------------------------------------------------------------
  // Floor themes

  datatype Theme = Theme(id: int, name: string, tile: int, color: int)

  const Themes: seq<Theme> := [
    Theme(1, "Dirt", 1, 0x3d2817),
    Theme(2, "Stone", 2, 0x222222),
    Theme(3, "Moss", 3, 0x173d1a),
    Theme(4, "Ancient", 4, 0x3d173d),
    Theme(5, "Magma", 5, 0x3d1717),
    Theme(6, "Ice", 6, 0x173d3d),
    Theme(7, "Abyss", 7, 0x050505),
    Theme(8, "Bone", 8, 0x3d3517),
    Theme(9, "Ruins", 9, 0x282222)]

  /**
   * `getThemeForFloor`: `THEMES[(floor - 1) % 9]` with JavaScript's remainder;
   * a negative index reads `undefined`.
   */
  function ThemeForFloor(floor: int): (theme: Option<Theme>)
    ensures floor >= 1 ==> theme.Some? && theme.value.id == (floor - 1) % 9 + 1
    ensures theme.Some? <==> JsRem(floor - 1, 9) >= 0
    ensures theme.Some? ==> theme.value.tile == theme.value.id && 1 <= theme.value.id <= 9
  {
    var idx := JsRem(floor - 1, 9);
    if idx >= 0 then Some(Themes[idx]) else None
  }

  /** Themes repeat every nine floors. */
  lemma {:induction false} ThemeCycles(floor: int)
    requires floor >= 1
    ensures ThemeForFloor(floor + 9) == ThemeForFloor(floor)
  {
    assert JsRem(floor + 8, 9) == JsRem(floor - 1, 9);
  }

  /** The floor's block texture (`theme.tile - 1`) is a cell of the block strip. */
  lemma FloorBlockCell(floor: int)
    requires floor >= 1
    ensures var a := AssetData(BlockAsset, ThemeForFloor(floor).value.tile - 1, Hearts, None);
      a.cell == ThemeForFloor(floor).value.tile - 1 && 0.0 <= a.u < 1.0
  {
  }
}
