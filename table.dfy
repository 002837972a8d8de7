/** The `Game` aggregate of src/table.rs: where every card lies, the hands as dealt, the
    bidding fields and the queries that judge bids and plays. */
module Table {
  import opened Common
  import opened Cards
  import opened Rulesets
  import opened GameStates
  import opened Trick
  import opened Bidding

  /** Locations: 0 the current trick, 1..4 the hands of seats 0..3, 5..8 the cards won by seats 0..3. */
  function CardsAt(m: map<Card, u8>, l: u8): set<Card> {
    set c | c in m && m[c] == l
  }

  /** `order` lists each of 0..n-1 exactly once. */
  predicate IsPermutation(order: seq<nat>, n: nat) {
    && |order| == n
    && (forall i :: 0 <= i < n ==> order[i] < n)
    && (forall k :: 0 <= k < n ==> k in order)
    && Distinct(order)
  }

  /** The deck after shuffling: the card at position i is the unshuffled card at position order[i]. */
  function Shuffled(order: seq<nat>): (s: seq<Card>)
    requires IsPermutation(order, 32)
    ensures |s| == 32 && Distinct(s) && forall c: Card :: c in s
  {
    FullDeckIsEveryCard();
    var d := FullDeck();
    var s := seq(32, i requires 0 <= i < 32 => d[order[i]]);
    forall c: Card ensures c in s {
      assert c in d;
      var k :| 0 <= k < 32 && d[k] == c;
      assert k in order;
      var i :| 0 <= i < 32 && order[i] == k;
      assert s[i] == c;
    }
    s
  }

  lemma Position(j: int, k: int)
    requires 0 <= k < 4
    ensures (4 * j + k) % 4 == k && (4 * j + k) / 4 == j
  {
  }

  /** The cards dealt to hand location `k + 1`: those at positions k, k + 4, ..., k + 28. */
  function DealtTo(s: seq<Card>, k: nat): (t: seq<Card>)
    requires |s| == 32 && k < 4
    ensures |t| == 8 && forall j :: 0 <= j < 8 ==> t[j] == s[4 * j + k]
  {
    seq(8, j requires 0 <= j < 8 => s[4 * j + k])
  }

  lemma DealtToDistinct(s: seq<Card>, k: nat)
    requires |s| == 32 && Distinct(s) && k < 4
    ensures Distinct(DealtTo(s, k))
  {
    var t := DealtTo(s, k);
    forall i, j | 0 <= i < j < 8 ensures t[i] != t[j] {
      assert 4 * i + k < 4 * j + k;
    }
  }

  /** A card lies at hand location `k + 1` exactly when it is one of `DealtTo(s, k)`. */
  lemma DealtToIsHand(s: seq<Card>, m: map<Card, u8>, k: nat)
    requires |s| == 32 && k < 4
    requires forall c :: c in m <==> c in s
    requires forall n :: 0 <= n < 32 ==> m[s[n]] as int == n % 4 + 1
    ensures CardsAt(m, (k + 1) as u8) == set c | c in DealtTo(s, k)
  {
    var t := DealtTo(s, k);
    forall c | c in CardsAt(m, (k + 1) as u8) ensures c in t {
      var n :| 0 <= n < 32 && s[n] == c;
      var j := n / 4;
      assert n == 4 * j + n % 4;
      assert t[j] == c;
    }
    forall c | c in t ensures c in CardsAt(m, (k + 1) as u8) {
      var j :| 0 <= j < 8 && t[j] == c;
      Position(j, k);
    }
  }

  /** Each hand location receives eight cards. */
  lemma DealtHand(s: seq<Card>, m: map<Card, u8>, k: nat)
    requires |s| == 32 && Distinct(s) && k < 4
    requires forall c :: c in m <==> c in s
    requires forall n :: 0 <= n < 32 ==> m[s[n]] as int == n % 4 + 1
    ensures |CardsAt(m, (k + 1) as u8)| == 8
  {
    DealtToDistinct(s, k);
    DistinctSetSize(DealtTo(s, k));
    DealtToIsHand(s, m, k);
  }

  /** Dealing by position (card n to location n % 4 + 1) puts exactly eight cards in each
      hand and none anywhere else. */
  lemma DealCounts(s: seq<Card>, m: map<Card, u8>)
    requires |s| == 32 && Distinct(s)
    requires forall c :: c in m <==> c in s
    requires forall n :: 0 <= n < 32 ==> m[s[n]] as int == n % 4 + 1
    ensures forall l: u8 :: |CardsAt(m, l)| == if 1 <= l <= 4 then 8 else 0
  {
    forall l: u8 ensures |CardsAt(m, l)| == if 1 <= l <= 4 then 8 else 0 {
      if 1 <= l <= 4 {
        DealtHand(s, m, l as nat - 1);
      } else {
        forall c | c in m ensures m[c] != l {
          var n :| 0 <= n < 32 && s[n] == c;
        }
        assert CardsAt(m, l) == {};
      }
    }
  }

  class Game {
    /** Where each card lies now. */
    var deck: map<Card, u8>
    /** Where each card lay when dealt; never changed after construction. */
    const startingHands: map<Card, u8>
    /** The last and highest ruleset announced. */
    var ruleset: Option<Ruleset>
    /** Never written after construction by any operation of this model. */
    var winner: Option<u8>
    const gameProgress: Progress
    /** The seat to act. */
    var turn: u8
    /** The seat that comes out first; during bidding, the last seat that announced. */
    var vorhand: u8
    var firstCard: Option<Card>

    /** Every card was dealt to a hand, and every card lies somewhere. */
    ghost predicate Valid()
      reads this
    {
      && (forall c: Card :: c in startingHands && 1 <= startingHands[c] <= 4)
      && (forall c: Card :: c in deck && deck[c] <= 8)
    }

    /** The fields the bidding step reads and writes. */
    function BidState(): Bids
      reads this, gameProgress
    {
      Bids(ruleset, turn, vorhand, gameProgress.state)
    }

    /** The first loop of `new_cards`: every colour, and within it every symbol, in enumeration order. */
    static method BuildDeck() returns (deckvec: seq<Card>)
      ensures deckvec == FullDeck()
    {
      deckvec := [];
      for ci := 0 to 4
        invariant deckvec == Deck(AllColors[..ci])
      {
        var color := AllColors[ci];
        for si := 0 to 8
          invariant deckvec == Deck(AllColors[..ci]) + Row(color)[..si]
        {
          deckvec := deckvec + [Card(AllSymbols[si], color)];
        }
        assert AllColors[..ci + 1][..ci] == AllColors[..ci];
        assert Row(color)[..8] == Row(color);
      }
      assert AllColors[..4] == AllColors;
    }

    /** `new_cards`: build the deck colour by colour, shuffle it by `order` (the shuffler of the
        source, given here as a parameter) and deal card n to location n % 4 + 1. */
    static method NewCards(order: seq<nat>) returns (deck: map<Card, u8>)
      requires IsPermutation(order, 32)
      ensures forall c: Card :: c in deck && 1 <= deck[c] <= 4
      ensures forall n :: 0 <= n < 32 ==> deck[Shuffled(order)[n]] as int == n % 4 + 1
      ensures forall l: u8 :: |CardsAt(deck, l)| == if 1 <= l <= 4 then 8 else 0
    {
      var deckvec := BuildDeck();
      deckvec := seq(32, i requires 0 <= i < 32 => deckvec[order[i]]);
      assert deckvec == Shuffled(order);
      deck := map[];
      for n := 0 to 32
        invariant forall c :: c in deck <==> c in deckvec[..n]
        invariant forall k :: 0 <= k < n ==> deck[deckvec[k]] as int == k % 4 + 1
      {
        deck := deck[deckvec[n] := (n % 4 + 1) as u8];
      }
      assert deckvec[..32] == deckvec;
      DealCounts(deckvec, deck);
      forall c: Card ensures c in deck && 1 <= deck[c] <= 4 {
        assert c in deckvec;
        var n :| 0 <= n < 32 && deckvec[n] == c;
      }
    }

    /** `new(dealer)`: deal, copy the deal into the immutable record of starting hands, and let
        the seat after the dealer open the bidding. */
    constructor (dealer: u8, order: seq<nat>)
      requires dealer < 255
      requires IsPermutation(order, 32)
      ensures Valid()
      ensures deck == startingHands
      ensures forall n :: 0 <= n < 32 ==> startingHands[Shuffled(order)[n]] as int == n % 4 + 1
      ensures forall l: u8 :: |CardsAt(startingHands, l)| == if 1 <= l <= 4 then 8 else 0
      ensures ruleset == None && winner == None && firstCard == None
      ensures fresh(gameProgress) && gameProgress.state == AnnouncementPhase
      ensures turn as int == (dealer as int + 1) % 4 && vorhand == turn
    {
      var startingCards := NewCards(order);
      deck := startingCards;
      startingHands := startingCards;
      ruleset := None;
      winner := None;
      gameProgress := new Progress(AnnouncementPhase);
      turn := (dealer + 1) % 4;
      vorhand := (dealer + 1) % 4;
      firstCard := None;
    }

    /** Lines 74-87 of `announce_game`, on whatever state the turn has reached. */
    method SettleRound() returns (r: Result<bool>)
      modifies this, gameProgress
      ensures (r, BidState()) == Settle(old(BidState()))
      ensures deck == old(deck) && winner == old(winner) && firstCard == old(firstCard)
    {
      if turn == vorhand {
        if ruleset == None {
          return Err(RamschNotImplemented);
        }
        var advanced := gameProgress.Advance();
        match advanced
        case Ok(_) =>
          turn := 0;
          return Ok(true);
        case Err(e) =>
          return Err(e);
      }
      return Ok(true);
    }

    /** `announce_game`: in the announcement phase, a valid announcement (a pass included)
        makes the acting seat the announcer, replaces the standing ruleset and moves the turn on. */
    method AnnounceGame(announceRuleset: Option<Ruleset>) returns (r: Result<bool>)
      requires Valid()
      requires gameProgress.state == AnnouncementPhase && AnnouncementIsValid(announceRuleset) ==> turn < 255
      modifies this, gameProgress
      ensures Valid()
      ensures (r, BidState()) == Announce(old(BidState()), old(AnnouncementIsValid(announceRuleset)), announceRuleset)
      ensures deck == old(deck) && winner == old(winner) && firstCard == old(firstCard)
    {
      if gameProgress.state != AnnouncementPhase {
        return Err(WrongPhase);
      }
      if AnnouncementIsValid(announceRuleset) {
        vorhand := turn;
        ruleset := announceRuleset;
      } else {
        return Ok(false);
      }
      turn := turn + 1;
      r := SettleRound();
    }

    /** The bid rank standing: that of the current ruleset, 0 when none stands. */
    function StandingValue(): nat
      reads this
    {
      if ruleset.Some? then ruleset.value.value else 0
    }

    /** Some card at location `l` has colour `color` (the result of `has_color_in_hand`). */
    predicate ColorAt(color: Color, l: u8)
      reads this
    {
      exists c | c in CardsAt(deck, l) :: c.color == color
    }

    /** Some card at location `l` is trump under `r` (the `Ok` result of `has_trump_in_hand`). */
    predicate TrumpAt(r: Ruleset, l: u8)
      reads this
    {
      exists c | c in CardsAt(deck, l) :: r.CardIsTrump(c)
    }

    /** `get_card_owner`: the seat the card was dealt to. */
    function GetCardOwner(card: Card): (r: Result<u8>)
      reads this
      requires Valid()
      ensures r.Ok? && r.value < 4
      ensures r.value as int == startingHands[card] as int - 1
    {
      match if card in startingHands then Some(startingHands[card]) else None
      case Some(location) => Ok(location - 1)
      case None => Err(CardDisappeared)
    }

    /** `announcement_is_valid`. A pass is always valid; a bid must outrank the standing one;
        a bid that calls a sow is invalid for the seat that was dealt the sow and for a seat
        with no card of the sow's colour at location `turn`. */
    function AnnouncementIsValid(announceRuleset: Option<Ruleset>): (ok: bool)
      reads this
      requires Valid()
      ensures announceRuleset.None? ==> ok
      ensures announceRuleset.Some? ==> (ok <==>
        && announceRuleset.value.value > StandingValue()
        && (announceRuleset.value.sow.Some? ==>
              var sow := announceRuleset.value.sow.value;
              && startingHands[sow] as int != turn as int + 1
              && exists c :: c in deck && deck[c] == turn && c.color == sow.color))
    {
      if announceRuleset.None? then true
      else if announceRuleset.value.value <= StandingValue() then false
      else
        var announceSow := announceRuleset.value.sow;
        if announceSow.Some? then
          if GetCardOwner(announceSow.value) == Ok(turn) then false
          else if !ColorAt(announceSow.value.color, turn) then false
          else true
        else true
    }

    /** `get_cards_in_location`: collect the cards whose location is `location`. */
    method GetCardsInLocation(location: u8) returns (hand: set<Card>)
      ensures hand == CardsAt(deck, location)
    {
      hand := {};
      var rest := deck.Keys;
      while rest != {}
        invariant rest <= deck.Keys
        invariant forall c :: c in hand <==> c in deck.Keys - rest && deck[c] == location
        decreases rest
      {
        var c :| c in rest;
        if deck[c] == location {
          hand := hand + {c};
        }
        rest := rest - {c};
      }
    }

    /** `has_color_in_hand`: is there a card of colour `color` at location `hand`? */
    method HasColorInHand(color: Color, hand: u8) returns (b: bool)
      ensures b == ColorAt(color, hand)
    {
      var handCards := GetCardsInLocation(hand);
      while handCards != {}
        invariant handCards <= CardsAt(deck, hand)
        invariant forall c :: c in CardsAt(deck, hand) && c.color == color ==> c in handCards
        decreases handCards
      {
        var card :| card in handCards;
        handCards := handCards - {card};
        if card.color == color {
          return true;
        }
      }
      return false;
    }

    /** `has_trump_in_hand`: fails without a ruleset, else is there a trump at location `hand`? */
    method HasTrumpInHand(hand: u8) returns (r: Result<bool>)
      ensures ruleset.None? <==> r == Err(NoRuleset)
      ensures ruleset.Some? ==> r == Ok(TrumpAt(ruleset.value, hand))
    {
      if ruleset.None? {
        return Err(NoRuleset);
      }
      var handCards := GetCardsInLocation(hand);
      while handCards != {}
        invariant handCards <= CardsAt(deck, hand)
        invariant forall c :: c in CardsAt(deck, hand) && ruleset.value.CardIsTrump(c) ==> c in handCards
        decreases handCards
      {
        var card :| card in handCards;
        handCards := handCards - {card};
        if ruleset.value.CardIsTrump(card) {
          return Ok(true);
        }
      }
      return Ok(false);
    }

    /** `card_is_valid`: may `card` be played now? */
    function CardIsValid(card: Card): (r: Result<bool>)
      reads this
      requires Valid()
      ensures ruleset.None? <==> r == Err(NoRuleset)
      ensures ruleset.Some? ==> r.Ok?
      ensures r.Ok? && startingHands[card] as int != vorhand as int + 1 ==> r == Ok(false)
      ensures ruleset.Some? && startingHands[card] as int == vorhand as int + 1 ==>
        if turn == 0 || firstCard.None? then r == Ok(true)
        else if ruleset.value.CardIsTrump(firstCard.value) then
          (r == Ok(true) <==>
            ruleset.value.CardIsTrump(card) ||
            !exists c :: c in deck && deck[c] == vorhand && ruleset.value.CardIsTrump(c))
        else
          (r == Ok(true) <==>
            card.color == firstCard.value.color ||
            !exists c :: c in deck && deck[c] == vorhand && c.color == firstCard.value.color)
    {
      if ruleset.None? then Err(NoRuleset)
      else if Ok(vorhand) != GetCardOwner(card) then Ok(false)
      else if turn == 0 then Ok(true)
      else if firstCard.Some? then
        if ruleset.value.CardIsTrump(firstCard.value) then
          if ruleset.value.CardIsTrump(card) || !TrumpAt(ruleset.value, vorhand) then Ok(true) else Ok(false)
        else
          if card.color == firstCard.value.color || !ColorAt(firstCard.value.color, vorhand) then Ok(true) else Ok(false)
      else Ok(true)
    }

    /** `determine_round_winner`: fold the cards at location 0 in the order the set yields
        them (`order`), and return the dealt seat of the card left highest. */
    method DetermineRoundWinner(compareCards: Comparator) returns (r: Result<u8>, ghost order: seq<Card>)
      requires Valid()
      requires ruleset.Some? && firstCard.Some? ==> CardsAt(deck, 0) != {}
      ensures ruleset.None? ==> r == Err(NoRuleset)
      ensures ruleset.Some? && firstCard.None? ==> r == Err(RoundNotStarted)
      ensures ruleset.Some? && firstCard.Some? ==>
        && order != [] && Distinct(order)
        && (forall c :: c in order <==> c in deck && deck[c] == 0)
        && var w := HighestCard(compareCards, ruleset.value, firstCard.value, order);
           r.Ok? && r.value < 4 && r.value as int == startingHands[w] as int - 1
    {
      order := [];
      if ruleset.None? {
        return Err(NoRuleset), order;
      }
      if firstCard.None? {
        return Err(RoundNotStarted), order;
      }
      var cardsInStich := GetCardsInLocation(0);
      var highestCard: Option<Card> := None;
      var i := 0;
      while cardsInStich != {}
        invariant cardsInStich <= CardsAt(deck, 0)
        invariant |order| == i && Distinct(order)
        invariant forall c :: c in order <==> c in CardsAt(deck, 0) - cardsInStich
        invariant i == 0 <==> highestCard.None?
        invariant i > 0 ==> highestCard == Some(HighestCard(compareCards, ruleset.value, firstCard.value, order))
        decreases cardsInStich
      {
        var card :| card in cardsInStich;
        cardsInStich := cardsInStich - {card};
        if i == 0 {
          highestCard := Some(card);
        } else {
          HighestCardSnoc(compareCards, ruleset.value, firstCard.value, order, card);
          if compareCards(ruleset.value, card, highestCard.value, firstCard.value) {
            highestCard := Some(card);
          }
        }
        order := order + [card];
        i := i + 1;
      }
      assert order != [] by {
        var c :| c in CardsAt(deck, 0);
        assert c in order;
      }
      if highestCard.value in startingHands {
        r := Ok(startingHands[highestCard.value] - 1);
      } else {
        r := Err(CardDisappeared);
      }
    }

    /** As written, hands are looked up at location = seat index (lines 104, 160, 168), but
        seat s holds its cards at location s + 1. Right after the deal location 0 (the trick)
        is empty, so seat 0 holds no colour and no sow call of seat 0 is ever valid. */
    lemma SeatZeroCannotCallSow(bid: Ruleset)
      requires Valid() && deck == startingHands && turn == 0
      requires bid.sow.Some? && bid.value > StandingValue()
      ensures forall color :: !ColorAt(color, 0)
      ensures !AnnouncementIsValid(Some(bid))
    {
    }

    /** The hand of seat `seat` (0..3): the cards at location seat + 1. */
    function Hand(seat: u8): set<Card>
      reads this
      requires seat < 4
    {
      CardsAt(deck, seat + 1)
    }

    /** Right after the deal, the hand of each seat is exactly the cards dealt to it. */
    lemma DealtHandIsOwnCards(seat: u8)
      requires Valid() && deck == startingHands && seat < 4
      ensures forall c :: c in Hand(seat) <==> GetCardOwner(c) == Ok(seat)
    {
    }

    /** `announcement_is_valid` with the hand of the acting seat looked up at location turn + 1. */
    function AnnouncementIsValidIntended(announceRuleset: Option<Ruleset>): (ok: bool)
      reads this
      requires Valid() && turn < 4
      ensures announceRuleset.None? ==> ok
      ensures announceRuleset.Some? ==> (ok <==>
        && announceRuleset.value.value > StandingValue()
        && (announceRuleset.value.sow.Some? ==>
              var sow := announceRuleset.value.sow.value;
              && GetCardOwner(sow) != Ok(turn)
              && exists c :: c in Hand(turn) && c.color == sow.color))
    {
      if announceRuleset.None? then true
      else if announceRuleset.value.value <= StandingValue() then false
      else
        var announceSow := announceRuleset.value.sow;
        if announceSow.Some? then
          if GetCardOwner(announceSow.value) == Ok(turn) then false
          else if !ColorAt(announceSow.value.color, turn + 1) then false
          else true
        else true
    }

    /** Intended: right after the deal, a high enough sow call by the acting seat is valid
        exactly when the seat was not dealt the sow and was dealt a card of the sow's colour. */
    lemma IntendedSowCallAfterDeal(bid: Ruleset)
      requires Valid() && deck == startingHands && turn < 4
      requires bid.sow.Some? && bid.value > StandingValue()
      ensures AnnouncementIsValidIntended(Some(bid)) <==>
        && GetCardOwner(bid.sow.value) != Ok(turn)
        && exists c :: GetCardOwner(c) == Ok(turn) && c.color == bid.sow.value.color
    {
    }

    /** `card_is_valid` as evidently intended: the card must lie in the hand of seat
        `vorhand` now (not merely have been dealt to it), the first card of a trick is any
        card, and following is judged on the seat's hand at location vorhand + 1. */
    function CardIsValidIntended(card: Card): (r: Result<bool>)
      reads this
      requires Valid() && vorhand < 4
      ensures ruleset.None? <==> r == Err(NoRuleset)
      ensures ruleset.Some? ==> r.Ok?
      ensures r.Ok? && card !in Hand(vorhand) ==> r == Ok(false)
      ensures ruleset.Some? && card in Hand(vorhand) ==>
        if firstCard.None? then r == Ok(true)
        else if ruleset.value.CardIsTrump(firstCard.value) then
          (r == Ok(true) <==>
            ruleset.value.CardIsTrump(card) || !exists c :: c in Hand(vorhand) && ruleset.value.CardIsTrump(c))
        else
          (r == Ok(true) <==>
            card.color == firstCard.value.color || !exists c :: c in Hand(vorhand) && c.color == firstCard.value.color)
    {
      if ruleset.None? then Err(NoRuleset)
      else if deck[card] != vorhand + 1 then Ok(false)
      else if firstCard.None? then Ok(true)
      else if ruleset.value.CardIsTrump(firstCard.value) then
        Ok(ruleset.value.CardIsTrump(card) || !TrumpAt(ruleset.value, vorhand + 1))
      else
        Ok(card.color == firstCard.value.color || !ColorAt(firstCard.value.color, vorhand + 1))
    }

    /** As written, ownership is checked against the deal (line 148): a card of seat `vorhand`
        that already lies in the trick still passes, where the intended check refuses it. */
    lemma PlayedCardStillValid(card: Card)
      requires Valid() && vorhand < 4 && ruleset.Some? && firstCard.None?
      requires startingHands[card] as int == vorhand as int + 1 && deck[card] == 0
      ensures CardIsValid(card) == Ok(true)
      ensures CardIsValidIntended(card) == Ok(false)
    {
    }

    /** As written, `turn == 0` counts as the first card of the trick (line 153): when seat 0
        is to play after a plain colour was led, it may throw off another colour although it
        holds the led colour; the intended check refuses that. */
    lemma SeatZeroSkipsFollowing(card: Card)
      requires Valid() && vorhand < 4 && ruleset.Some? && turn == 0
      requires firstCard.Some? && !ruleset.value.CardIsTrump(firstCard.value)
      requires startingHands[card] as int == vorhand as int + 1 && deck[card] as int == vorhand as int + 1
      requires card.color != firstCard.value.color
      requires exists c :: c in Hand(vorhand) && c.color == firstCard.value.color
      ensures CardIsValid(card) == Ok(true)
      ensures CardIsValidIntended(card) == Ok(false)
    {
    }

    /** As written, lines 160 and 168 look for the led colour (or a trump) at location
        `vorhand`, but the hand of seat `vorhand` lies at location vorhand + 1. A seat whose
        hand holds the led colour may then throw off another colour whenever location
        `vorhand` (another seat's hand) holds none of it; the intended check refuses that. */
    lemma VorhandHandMisread(card: Card)
      requires Valid() && 1 <= vorhand < 4 && ruleset.Some? && turn != 0
      requires firstCard.Some? && !ruleset.value.CardIsTrump(firstCard.value)
      requires startingHands[card] as int == vorhand as int + 1 && deck[card] as int == vorhand as int + 1
      requires card.color != firstCard.value.color
      requires exists c :: c in Hand(vorhand) && c.color == firstCard.value.color
      requires !ColorAt(firstCard.value.color, vorhand)
      ensures CardIsValid(card) == Ok(true)
      ensures CardIsValidIntended(card) == Ok(false)
    {
    }
  }
}
