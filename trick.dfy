/** The fold of `determine_round_winner` (src/table.rs:204-214): the cards of the trick are
    visited in some order, the first becomes the highest card, and every later card that
    `compare_cards` says beats the highest so far replaces it. */
module Trick {
  import opened Cards
  import opened Rulesets

  /** `ruleset.compare_cards(card, highest, first_card)`: does `card` beat `highest` in a trick
      led by `first_card`? Its body is not part of this model, so it is a parameter. */
  type Comparator = (Ruleset, Card, Card, Card) -> bool

  /** The highest card after visiting `rest`, starting from `highest`. */
  function FoldFrom(beats: Comparator, r: Ruleset, lead: Card, highest: Card, rest: seq<Card>): (w: Card)
    ensures w == highest || w in rest
    decreases rest
  {
    if rest == [] then highest
    else FoldFrom(beats, r, lead, if beats(r, rest[0], highest, lead) then rest[0] else highest, rest[1..])
  }

  /** The card the loop ends with when it visits the trick in the order `order`. */
  function HighestCard(beats: Comparator, r: Ruleset, lead: Card, order: seq<Card>): (w: Card)
    requires order != []
    ensures w in order
  {
    FoldFrom(beats, r, lead, order[0], order[1..])
  }

  /** Visiting one more card compares it with the highest card so far. */
  lemma {:induction false} FoldFromSnoc(beats: Comparator, r: Ruleset, lead: Card, h: Card, rest: seq<Card>, x: Card)
    ensures FoldFrom(beats, r, lead, h, rest + [x]) ==
      var w := FoldFrom(beats, r, lead, h, rest); if beats(r, x, w, lead) then x else w
    decreases rest
  {
    if rest == [] {
      assert ([] + [x])[1..] == [];
    } else {
      assert (rest + [x])[0] == rest[0] && (rest + [x])[1..] == rest[1..] + [x];
      FoldFromSnoc(beats, r, lead, if beats(r, rest[0], h, lead) then rest[0] else h, rest[1..], x);
    }
  }

  lemma HighestCardSnoc(beats: Comparator, r: Ruleset, lead: Card, order: seq<Card>, x: Card)
    requires order != []
    ensures HighestCard(beats, r, lead, order + [x]) ==
      var w := HighestCard(beats, r, lead, order); if beats(r, x, w, lead) then x else w
  {
    assert (order + [x])[0] == order[0] && (order + [x])[1..] == order[1..] + [x];
    FoldFromSnoc(beats, r, lead, order[0], order[1..], x);
  }

  /** For any comparator: the winner is visited at some position k, and no card visited
      after position k beats it. */
  lemma {:induction false} NoLaterCardBeatsWinner(beats: Comparator, r: Ruleset, lead: Card, order: seq<Card>)
    requires order != []
    ensures var w := HighestCard(beats, r, lead, order);
      exists k :: 0 <= k < |order| && order[k] == w &&
        forall j :: k < j < |order| ==> !beats(r, order[j], w, lead)
    decreases |order|
  {
    var w := HighestCard(beats, r, lead, order);
    if |order| == 1 {
      assert order[0] == w;
    } else {
      var init, x := order[..|order| - 1], order[|order| - 1];
      assert order == init + [x];
      HighestCardSnoc(beats, r, lead, init, x);
      var v := HighestCard(beats, r, lead, init);
      if beats(r, x, v, lead) {
        assert order[|order| - 1] == w;
      } else {
        NoLaterCardBeatsWinner(beats, r, lead, init);
        var k :| 0 <= k < |init| && init[k] == v && forall j :: k < j < |init| ==> !beats(r, init[j], v, lead);
        assert order[k] == w;
      }
    }
  }

  /** `beats` orders the cards of `cards` strictly and totally for the given ruleset and lead. */
  ghost predicate StrictTotalOn(beats: Comparator, r: Ruleset, lead: Card, cards: set<Card>) {
    && (forall a, b :: a in cards && b in cards && beats(r, a, b, lead) ==> !beats(r, b, a, lead))
    && (forall a, b :: a in cards && b in cards && a != b ==> beats(r, a, b, lead) || beats(r, b, a, lead))
    && (forall a, b, c :: a in cards && b in cards && c in cards && beats(r, a, b, lead) && beats(r, b, c, lead) ==>
          beats(r, a, c, lead))
  }

  /** The highest card beats every other card of the trick, when `beats` is a strict total order on it. */
  lemma {:induction false} FoldFromBeatsAll(beats: Comparator, r: Ruleset, lead: Card, h: Card, rest: seq<Card>, cards: set<Card>)
    requires h in cards && forall c :: c in rest ==> c in cards
    requires StrictTotalOn(beats, r, lead, cards)
    ensures var w := FoldFrom(beats, r, lead, h, rest);
      (w == h || beats(r, w, h, lead)) && forall c :: c in rest ==> c == w || beats(r, w, c, lead)
    decreases rest
  {
    if rest != [] {
      var x := rest[0];
      var h' := if beats(r, x, h, lead) then x else h;
      FoldFromBeatsAll(beats, r, lead, h', rest[1..], cards);
      var w := FoldFrom(beats, r, lead, h, rest);
      assert w == FoldFrom(beats, r, lead, h', rest[1..]);
      assert w in cards;
      forall c | c in rest ensures c == w || beats(r, w, c, lead) {
        if c != x {
          assert c in rest[1..];
        }
      }
    }
  }

  /** Under a strict total order the highest card beats every other card of the trick. */
  lemma HighestBeatsAll(beats: Comparator, r: Ruleset, lead: Card, order: seq<Card>)
    requires order != []
    requires StrictTotalOn(beats, r, lead, set c | c in order)
    ensures var w := HighestCard(beats, r, lead, order);
      forall c :: c in order ==> c == w || beats(r, w, c, lead)
  {
    var w := HighestCard(beats, r, lead, order);
    FoldFromBeatsAll(beats, r, lead, order[0], order[1..], set c | c in order);
    forall c | c in order ensures c == w || beats(r, w, c, lead) {
      if c != order[0] {
        assert c in order[1..];
      }
    }
  }

  /** Under a strict total order the winner does not depend on the order in which the trick is visited. */
  lemma WinnerIndependentOfOrder(beats: Comparator, r: Ruleset, lead: Card, order1: seq<Card>, order2: seq<Card>)
    requires order1 != [] && order2 != [] && (set c | c in order1) == (set c | c in order2)
    requires StrictTotalOn(beats, r, lead, set c | c in order1)
    ensures HighestCard(beats, r, lead, order1) == HighestCard(beats, r, lead, order2)
  {
    var cards := set c | c in order1;
    var w1, w2 := HighestCard(beats, r, lead, order1), HighestCard(beats, r, lead, order2);
    HighestBeatsAll(beats, r, lead, order1);
    HighestBeatsAll(beats, r, lead, order2);
    assert w1 in cards && w2 in cards;
    assert w2 in order1 && w1 in order2;
  }
}
