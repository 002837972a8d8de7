/** Cards of the 32-card Bavarian deck and their point values (src/table/cards.rs). */
module Cards {
  import opened Common

  /** Declaration order is the order in which `Colors::iter()` enumerates them. */
  datatype Color = Eichel | Gras | Herz | Schelln

  /** Declaration order is the order in which `Symbols::iter()` enumerates them. */
  datatype Symbol = Ass | Zehn | Koenig | Ober | Unter | Neun | Acht | Sieben

  datatype Card = Card(symbol: Symbol, color: Color) {

    /** The point value of the card; it depends on the symbol alone and is never an error. */
    function GetValue(): (r: Result<int>)
      ensures r.Ok?
      ensures 0 <= r.value <= 11
      ensures r.value != 0 <==> symbol in {Ass, Zehn, Koenig, Ober, Unter}
    {
      match symbol
      case Ass => Ok(11)
      case Zehn => Ok(10)
      case Koenig => Ok(4)
      case Ober => Ok(3)
      case Unter => Ok(2)
      case _ => Ok(0)
    }
  }

  /** The point table: Ass 11, Zehn 10, Koenig 4, Ober 3, Unter 2, the rest nothing, in every colour. */
  lemma PointTable(c: Color)
    ensures Card(Ass, c).GetValue() == Ok(11) && Card(Zehn, c).GetValue() == Ok(10)
    ensures Card(Koenig, c).GetValue() == Ok(4) && Card(Ober, c).GetValue() == Ok(3)
    ensures Card(Unter, c).GetValue() == Ok(2)
    ensures Card(Neun, c).GetValue() == Ok(0) && Card(Acht, c).GetValue() == Ok(0)
    ensures Card(Sieben, c).GetValue() == Ok(0)
  {
  }

  /** Two cards of the same symbol are worth the same whatever their colours. */
  lemma ValueIgnoresColor(a: Card, b: Card)
    requires a.symbol == b.symbol
    ensures a.GetValue() == b.GetValue()
  {
  }

  /** The colours and symbols in enumeration order. */
  const AllColors: seq<Color> := [Eichel, Gras, Herz, Schelln]
  const AllSymbols: seq<Symbol> := [Ass, Zehn, Koenig, Ober, Unter, Neun, Acht, Sieben]

  /** Position of a colour and of a symbol in enumeration order. */
  function ColorIndex(c: Color): (i: nat)
    ensures i < 4 && AllColors[i] == c
  {
    match c
    case Eichel => 0
    case Gras => 1
    case Herz => 2
    case Schelln => 3
  }

  function SymbolIndex(s: Symbol): (i: nat)
    ensures i < 8 && AllSymbols[i] == s
  {
    match s
    case Ass => 0
    case Zehn => 1
    case Koenig => 2
    case Ober => 3
    case Unter => 4
    case Neun => 5
    case Acht => 6
    case Sieben => 7
  }

  /** The eight cards of one colour, in symbol order. */
  function Row(c: Color): (r: seq<Card>)
  {
    seq(8, j requires 0 <= j < 8 => Card(AllSymbols[j], c))
  }

  /** The cards the nested loop of `new_cards` pushes for the given colours: colours outer, symbols inner. */
  function Deck(colors: seq<Color>): (r: seq<Card>)
    ensures |r| == 8 * |colors|
  {
    if colors == [] then [] else Deck(colors[..|colors| - 1]) + Row(colors[|colors| - 1])
  }

  /** The unshuffled deck, in the order `new_cards` builds it. */
  function FullDeck(): seq<Card> {
    Deck(AllColors)
  }

  /** Every card of `Deck(colors)` has one of `colors` as its colour, and conversely every
      card of such a colour is in it. */
  lemma {:induction false} DeckMembers(colors: seq<Color>, c: Card)
    ensures c in Deck(colors) <==> c.color in colors
  {
    if colors != [] {
      var init, last := colors[..|colors| - 1], colors[|colors| - 1];
      DeckMembers(init, c);
      assert colors == init + [last];
      if c.color == last {
        assert Row(last)[SymbolIndex(c.symbol)] == c;
      }
    }
  }

  lemma {:induction false} DeckDistinct(colors: seq<Color>)
    requires Distinct(colors)
    ensures Distinct(Deck(colors))
  {
    if colors != [] {
      var init, last := colors[..|colors| - 1], colors[|colors| - 1];
      DeckDistinct(init);
      var a, b := Deck(init), Row(last);
      forall i, j | 0 <= i < j < |a + b| ensures (a + b)[i] != (a + b)[j] {
        if i < |a| && j >= |a| {
          DeckMembers(init, a[i]);
        }
      }
    }
  }

  /** The deck holds 32 distinct cards, and every card of the game is one of them. */
  lemma FullDeckIsEveryCard()
    ensures |FullDeck()| == 32
    ensures Distinct(FullDeck())
    ensures forall c: Card :: c in FullDeck()
  {
    DeckDistinct(AllColors);
    forall c: Card ensures c in FullDeck() {
      DeckMembers(AllColors, c);
      assert AllColors[ColorIndex(c.color)] == c.color;
    }
  }

  /** Sum of the point values of a sequence of cards. */
  function SumValues(cards: seq<Card>): int {
    if cards == [] then 0 else cards[0].GetValue().value + SumValues(cards[1..])
  }

  lemma {:induction false} SumValuesAppend(a: seq<Card>, b: seq<Card>)
    ensures SumValues(a + b) == SumValues(a) + SumValues(b)
  {
    if a == [] {
      assert a + b == b;
    } else {
      assert (a + b)[1..] == a[1..] + b;
      SumValuesAppend(a[1..], b);
    }
  }

  lemma SumValuesFrom(s: seq<Card>, k: nat)
    requires k < |s|
    ensures SumValues(s[k..]) == s[k].GetValue().value + SumValues(s[k + 1..])
  {
  }

  /** Each colour is worth 30 points. */
  lemma RowValue(c: Color)
    ensures SumValues(Row(c)) == 30
  {
    var r := Row(c);
    assert r[8..] == [];
    SumValuesFrom(r, 7); SumValuesFrom(r, 6); SumValuesFrom(r, 5); SumValuesFrom(r, 4);
    SumValuesFrom(r, 3); SumValuesFrom(r, 2); SumValuesFrom(r, 1); SumValuesFrom(r, 0);
  }

  lemma {:induction false} DeckValue(colors: seq<Color>)
    ensures SumValues(Deck(colors)) == 30 * |colors|
  {
    if colors != [] {
      var init, last := colors[..|colors| - 1], colors[|colors| - 1];
      DeckValue(init);
      SumValuesAppend(Deck(init), Row(last));
      RowValue(last);
    }
  }

  /** The 32 cards are worth 120 points together. */
  lemma FullDeckValue()
    ensures SumValues(FullDeck()) == 120
  {
    DeckValue(AllColors);
  }
}
