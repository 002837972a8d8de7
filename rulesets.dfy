/** Game variants and their trump predicate (src/table/rulesets.rs). */
module Rulesets {
  import opened Common
  import opened Cards

  /** A game variant. `value` (the bid rank) and `sow` (the called card) are read by
      src/table.rs:96-98 but are not declared in src/table/rulesets.rs; they are added here. */
  datatype Ruleset = Ruleset(
    trumpColor: Option<Color>,
    trumpSymbols: (Option<Symbol>, Option<Symbol>),
    hasTeams: bool,
    value: nat,
    sow: Option<Card>)
  {
    /** `card_is_trump`: the card has the trump colour or one of the (up to two) trump symbols. */
    predicate CardIsTrump(card: Card) {
      || trumpColor == Some(card.color)
      || trumpSymbols.0 == Some(card.symbol)
      || trumpSymbols.1 == Some(card.symbol)
    }
  }

  /** Herz is trump, and so are all Unter and Ober. */
  const SAUSPIEL: Ruleset := Ruleset(Some(Herz), (Some(Unter), Some(Ober)), true, 1, None)

  /** Only the four Unter are trump. */
  const WENZ: Ruleset := Ruleset(None, (Some(Unter), None), true, 2, None)

  /** Number of trump cards among `cards`. */
  function CountTrumps(r: Ruleset, cards: seq<Card>): (n: nat)
    ensures n <= |cards|
  {
    if cards == [] then 0 else (if r.CardIsTrump(cards[0]) then 1 else 0) + CountTrumps(r, cards[1..])
  }

  lemma {:induction false} CountTrumpsAppend(r: Ruleset, a: seq<Card>, b: seq<Card>)
    ensures CountTrumps(r, a + b) == CountTrumps(r, a) + CountTrumps(r, b)
  {
    if a == [] {
      assert a + b == b;
    } else {
      assert (a + b)[1..] == a[1..] + b;
      CountTrumpsAppend(r, a[1..], b);
    }
  }

  lemma CountTrumpsFrom(r: Ruleset, s: seq<Card>, k: nat)
    requires k < |s|
    ensures CountTrumps(r, s[k..]) == (if r.CardIsTrump(s[k]) then 1 else 0) + CountTrumps(r, s[k + 1..])
  {
  }

  /** Under SAUSPIEL a plain colour has two trumps (its Ober and Unter) and Herz has eight. */
  lemma SauspielRowTrumps(c: Color)
    ensures CountTrumps(SAUSPIEL, Row(c)) == if c == Herz then 8 else 2
  {
    var s := Row(c);
    assert s[8..] == [];
    CountTrumpsFrom(SAUSPIEL, s, 7); CountTrumpsFrom(SAUSPIEL, s, 6); CountTrumpsFrom(SAUSPIEL, s, 5);
    CountTrumpsFrom(SAUSPIEL, s, 4); CountTrumpsFrom(SAUSPIEL, s, 3); CountTrumpsFrom(SAUSPIEL, s, 2);
    CountTrumpsFrom(SAUSPIEL, s, 1); CountTrumpsFrom(SAUSPIEL, s, 0);
  }

  /** Under WENZ every colour has one trump, its Unter. */
  lemma WenzRowTrumps(c: Color)
    ensures CountTrumps(WENZ, Row(c)) == 1
  {
    var s := Row(c);
    assert s[8..] == [];
    CountTrumpsFrom(WENZ, s, 7); CountTrumpsFrom(WENZ, s, 6); CountTrumpsFrom(WENZ, s, 5);
    CountTrumpsFrom(WENZ, s, 4); CountTrumpsFrom(WENZ, s, 3); CountTrumpsFrom(WENZ, s, 2);
    CountTrumpsFrom(WENZ, s, 1); CountTrumpsFrom(WENZ, s, 0);
  }

  /** Number of trumps in the whole deck, colour by colour. */
  lemma FullDeckTrumps(r: Ruleset)
    ensures CountTrumps(r, FullDeck()) ==
      CountTrumps(r, Row(Eichel)) + CountTrumps(r, Row(Gras)) +
      CountTrumps(r, Row(Herz)) + CountTrumps(r, Row(Schelln))
  {
    var d1 := Deck([Eichel]);
    var d2 := Deck([Eichel, Gras]);
    var d3 := Deck([Eichel, Gras, Herz]);
    assert [Eichel, Gras, Herz, Schelln][..3] == [Eichel, Gras, Herz];
    assert [Eichel, Gras, Herz][..2] == [Eichel, Gras];
    assert [Eichel, Gras][..1] == [Eichel];
    assert [Eichel][..0] == [];
    assert d1 == [] + Row(Eichel);
    CountTrumpsAppend(r, [], Row(Eichel));
    CountTrumpsAppend(r, d1, Row(Gras));
    CountTrumpsAppend(r, d2, Row(Herz));
    CountTrumpsAppend(r, d3, Row(Schelln));
  }

  /** A ruleset without trump colour and without trump symbols makes no card trump. */
  lemma NoTrumpWithoutTrumpDefinition(r: Ruleset, card: Card)
    requires r.trumpColor == None && r.trumpSymbols == (None, None)
    ensures !r.CardIsTrump(card)
  {
  }

  /** The order of the two trump-symbol slots does not matter. */
  lemma TrumpSymbolOrderIrrelevant(r: Ruleset, card: Card)
    ensures r.CardIsTrump(card) == r.(trumpSymbols := (r.trumpSymbols.1, r.trumpSymbols.0)).CardIsTrump(card)
  {
  }

  /** Only the trump colour and the trump symbols decide trump; teams, bid value and sow do not. */
  lemma TrumpIgnoresOtherFields(r: Ruleset, teams: bool, value: nat, sow: Option<Card>, card: Card)
    ensures r.CardIsTrump(card) == r.(hasTeams := teams, value := value, sow := sow).CardIsTrump(card)
  {
  }

  /** Under SAUSPIEL the trumps are the Herz cards, the Ober and the Unter: 14 of the 32 cards. */
  lemma SauspielTrumps()
    ensures forall card: Card :: SAUSPIEL.CardIsTrump(card) <==> card.color == Herz || card.symbol in {Ober, Unter}
    ensures CountTrumps(SAUSPIEL, FullDeck()) == 14
  {
    FullDeckTrumps(SAUSPIEL);
    SauspielRowTrumps(Eichel);
    SauspielRowTrumps(Gras);
    SauspielRowTrumps(Herz);
    SauspielRowTrumps(Schelln);
  }

  /** Under WENZ the trumps are exactly the four Unter. */
  lemma WenzTrumps()
    ensures forall card: Card :: WENZ.CardIsTrump(card) <==> card.symbol == Unter
    ensures CountTrumps(WENZ, FullDeck()) == 4
  {
    FullDeckTrumps(WENZ);
    WenzRowTrumps(Eichel);
    WenzRowTrumps(Gras);
    WenzRowTrumps(Herz);
    WenzRowTrumps(Schelln);
  }
}
