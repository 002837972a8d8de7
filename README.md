# Schafkopf rules engine — a verified model

This project models the rules core of a four-seat Schafkopf engine written in Rust:

- the 32-card deck (4 colours × 8 symbols) and its point values;
- the rulesets and their trump predicate, with the `SAUSPIEL` and `WENZ` constants;
- two phase machines:
  - the `u8`-coded step machine of `src/table/state.rs`;
  - the `GameState` enum (`AnnouncementPhase`, `PlayPhase`, `Done`) that `Game` actually uses;
- the `Game` aggregate. It holds a card→location map (0 trick, 1..4 hands of seats 0..3, 5..8 cards won by seats 0..3) and an immutable record of the deal. It also covers bidding (`announce_game`), hand queries, play legality (`card_is_valid`) and the trick fold (`determine_round_winner`).

Modules and files:

| file | module | models |
|---|---|---|
| common.dfy | `Common` | Rust's `u8`, `Option`, `Result` and the error texts as variants |
| cards.dfy | `Cards` | src/table/cards.rs, plus the deck order that `new_cards` builds |
| rulesets.dfy | `Rulesets` | src/table/rulesets.rs |
| state.dfy | `State` | src/table/state.rs (class `GameState` over a `u8`) |
| gamestates.dfy | `GameStates` | src/table/gamestate.rs (the enum, and class `Progress` for the `&mut self` cell) |
| trick.dfy | `Trick` | the fold inside `determine_round_winner` |
| bidding.dfy | `Bidding` | `announce_game` as a pure step on the four fields it touches |
| table.dfy | `Table` | `Game` as a class: its fields, methods and queries |

The source's mutable state is held in classes with fields:

- `Game.turn`, `Game.vorhand` and `Game.ruleset` are `var`s that `AnnounceGame` and `SettleRound` update in place;
- `Game.deck` (a `map<Card, u8>`) and `Game.firstCard` are `var`s, as the Rust fields are mutable, but only the constructor assigns them, because no operation of the source moves a card;
- `Game.startingHands` is a `const`, so the deal record cannot change after construction;
- the phase is the `Progress` object that `Game` owns.

The loops of `new_cards`, `get_cards_in_location`, `has_color_in_hand`, `has_trump_in_hand` and `determine_round_winner` are `while`/`for` loops. Each is proved against a specification function. The queries `announcement_is_valid`, `card_is_valid` and `get_card_owner` are functions that read the object.

The `Game` class follows the code as written, defects included. For each defect, the corrected definition sits beside it with the intended property proved (see "## Findings").

## Model

| member | source | states |
|---|---|---|
| `Cards.Card.GetValue` | src/table/cards.rs:29-38 | never an error; the value lies in 0..11 and is non-zero exactly for Ass, Zehn, Koenig, Ober and Unter |
| `Cards.PointTable` | src/table/cards.rs:31-36 | in every colour: Ass 11, Zehn 10, Koenig 4, Ober 3, Unter 2, Neun/Acht/Sieben 0 |
| `Cards.ValueIgnoresColor` | src/table/cards.rs:30 | two cards with the same symbol have the same value whatever their colours |
| `Cards.FullDeckIsEveryCard` | src/table.rs:123-128 | the deck built colour by colour has 32 cards, no card twice, and contains every card |
| `Cards.FullDeckValue` | src/table/cards.rs:29-38 | the values of the 32 cards sum to 120 |
| `Rulesets.Ruleset.CardIsTrump` | src/table/rulesets.rs:10-14 | a card is trump iff its colour is the trump colour or its symbol fills one of the two trump-symbol slots |
| `Rulesets.SAUSPIEL` | src/table/rulesets.rs:17-21 | trump colour Herz, trump symbols Unter and Ober, with teams; bid value 1 and no sow (see "## Left out") |
| `Rulesets.WENZ` | src/table/rulesets.rs:23-27 | no trump colour, Unter as the only trump symbol, with teams; bid value 2 and no sow (see "## Left out") |
| `Rulesets.NoTrumpWithoutTrumpDefinition` | src/table/rulesets.rs:10-14 | with no trump colour and both symbol slots `None`, no card is trump |
| `Rulesets.TrumpSymbolOrderIrrelevant` | src/table/rulesets.rs:12-13 | swapping the two trump-symbol slots changes no card's trump status |
| `Rulesets.TrumpIgnoresOtherFields` | src/table/rulesets.rs:4-14 | `has_teams`, the bid value and the sow have no influence on trump |
| `Rulesets.SauspielTrumps` | src/table/rulesets.rs:17-21 | under SAUSPIEL a card is trump iff it is Herz, an Ober or an Unter; 14 of the 32 cards |
| `Rulesets.WenzTrumps` | src/table/rulesets.rs:23-27 | under WENZ a card is trump iff it is an Unter; 4 of the 32 cards |
| `State.GameState.constructor` | src/table/state.rs:10-12 | the machine starts in state 0 |
| `State.GameState.AnnounceNone` | src/table/state.rs:13-21 | 0→1→2→3→4; every other state unchanged |
| `State.GameState.AnnounceSome` | src/table/state.rs:22-29 | 0, 2 and 3 go to 1; every other state, 1 included, unchanged |
| `State.GameState.PlayCard` | src/table/state.rs:30-37 | 4→5→6→7; every other state, 7 included, unchanged |
| `State.GameState.NextRound` | src/table/state.rs:38-43 | only 7 changes, to 4 |
| `State.GameState.Finish` | src/table/state.rs:44-49 | only 7 changes, to 8 |
| `State.StepInRange` | src/table/state.rs:13-49 | every operation keeps the state within 0..8 |
| `State.StepMonotone` | src/table/state.rs:13-49 | no operation takes a play state back to an announce state; 8 is absorbing |
| `State.RunInRange` | src/table/state.rs:13-49 | every sequence of operations from 0..8 stays within 0..8 |
| `State.RunStaysInPlay` | src/table/state.rs:30-49 | once in 4..8, every sequence stays in 4..8, and 8 is never left |
| `State.DoneOnlyThroughFinish` | src/table/state.rs:44-49 | a run that reaches 8 contains a `Finish` taken in state 7 |
| `GameStates.Progress.Advance` | src/table/gamestate.rs:8-15 | `Ok` exactly in `AnnouncementPhase`, else `Err`; the phase never changes |
| `GameStates.Progress.Finish` | src/table/gamestate.rs:16-23 | `Ok` iff in `PlayPhase` with winner ≤ 3, and then the phase is `Done{winner}`; otherwise `Err` and no change |
| `GameStates.AdvanceNeverChangesPhase` | src/table/gamestate.rs:8-15 | `advance` succeeds iff in `AnnouncementPhase` and leaves every phase as it was |
| `GameStates.FinishOutcome` | src/table/gamestate.rs:16-23 | the success condition and the resulting phase of `finish`, both ways |
| `GameStates.StuckInAnnouncement` | src/table/gamestate.rs:8-23 | from `AnnouncementPhase`, no sequence of `advance`/`finish` calls leaves it |
| `GameStates.DoneIsFinal` | src/table/gamestate.rs:16-23 | `Done` is absorbing, and every reachable `Done` winner lies in 0..3 |
| `GameStates.IntendedAdvanceThenFinish` | src/table/gamestate.rs:10 | with the intended assignment, `advance` then `finish(w)` ends in `Done{w}` |
| `Trick.FoldFrom` | src/table.rs:206-214 | the fold ends on the starting card or on a card it visited |
| `Trick.HighestCard` | src/table.rs:204-214 | the highest card is one of the trick's cards |
| `Trick.HighestCardSnoc` | src/table.rs:211-213 | visiting one more card compares it with the highest card so far and keeps the winner |
| `Trick.NoLaterCardBeatsWinner` | src/table.rs:206-214 | for any comparator, no card visited after the winner beats it |
| `Trick.HighestBeatsAll` | src/table.rs:211 | if `compare_cards` is a strict total order on the trick, the winner beats every other card |
| `Trick.WinnerIndependentOfOrder` | src/table.rs:204-214 | under a strict total order, the winner is the same for every visiting order |
| `Bidding.Settle` | src/table.rs:74-87 | never changes the ruleset, the announcer or the phase (`advance` as written). It fails iff the turn is back at the announcer and there is no ruleset (the Ramsch error) or the phase is not the announcement phase. Success is always `Ok(true)`, and the turn goes to 0 exactly when the round completes successfully |
| `Bidding.Announce` | src/table.rs:60-88 | the phase never changes. The only error is `WrongPhase`, exactly outside the announcement phase. `Ok(false)` exactly for a rejected call. `Ok(true)` leaves the announcement as ruleset, the acting seat as announcer and `turn + 1` as turn |
| `Bidding.AnnounceRejects` | src/table.rs:60-70 | outside `AnnouncementPhase`: `Err`, nothing changes; a rejected announcement: `Ok(false)`, nothing changes |
| `Bidding.AnnounceAccepts` | src/table.rs:65-72 | an accepted call returns `Ok(true)` and makes the acting seat the announcer. The standing ruleset becomes the announcement, the turn becomes `turn + 1` and the phase is unchanged |
| `Bidding.BiddingNeverEnds` | src/table.rs:60-88 | as written, no sequence of calls fails or leaves the announcement phase |
| `Bidding.PassErasesStandingBid` | src/table.rs:65-67 | as written, a pass after a bid resets the standing ruleset to `None` |
| `Bidding.NextSeat` | src/table.rs:72 | the intended next seat lies in 0..3 and is one seat on from `t`, modulo 4 |
| `Bidding.IntendedPassKeepsStandingBid` | src/table.rs:65-67 | intended: a pass keeps the standing ruleset and its announcer |
| `Bidding.IntendedBidThenThreePassesResolves` | src/table.rs:60-88 | intended: a bid and three passes end bidding with that ruleset, the bidder as announcer and the play phase begun |
| `Bidding.IntendedFourPassesAreRamsch` | src/table.rs:74-77 | intended: four passes with nothing standing end in the Ramsch error |
| `Table.Shuffled` | src/table.rs:129 | a permutation of the built deck has 32 cards, none twice, every card present |
| `Table.DealCounts` | src/table.rs:131-134 | dealing card n to location n % 4 + 1 puts exactly 8 cards at each of 1..4 and none elsewhere |
| `Table.Game.BuildDeck` | src/table.rs:123-128 | the nested loop pushes the cards colour by colour, symbol by symbol |
| `Table.Game.NewCards` | src/table.rs:122-136 | every card sits in a hand 1..4; the card at position n goes to n % 4 + 1; 8 per hand, none elsewhere |
| `Table.Game.constructor` | src/table.rs:45-58 | `turn = vorhand = (dealer+1) % 4`, `AnnouncementPhase`, no ruleset, deck equal to the deal record, 8 cards per hand |
| `Table.Game.SettleRound` | src/table.rs:74-87 | the result and the new bidding fields are those of `Bidding.Settle` on the old ones; deck, winner and first card unchanged |
| `Table.Game.AnnounceGame` | src/table.rs:60-88 | the new bidding fields and result are those of `Bidding.Announce` on the old ones; deck and other fields unchanged |
| `Table.Game.GetCardOwner` | src/table.rs:138-143 | the dealt location minus one, always `Ok` and below 4 |
| `Table.Game.AnnouncementIsValid` | src/table.rs:90-110 | a pass is valid. A bid is valid iff it outranks the standing value (0 if none) and, when it names a sow, the acting seat was not dealt the sow and a card of the sow's colour lies at location `turn` |
| `Table.Game.GetCardsInLocation` | src/table.rs:112-120 | returns `CardsAt(deck, location)`, exactly the cards mapped to the location |
| `Table.Game.HasColorInHand` | src/table.rs:180-188 | the result is `ColorAt(color, hand)`: true iff some card at the location has the colour |
| `Table.Game.HasTrumpInHand` | src/table.rs:190-199 | `Err` iff there is no ruleset; else `Ok(TrumpAt(ruleset, hand))`, true iff some card at the location is trump |
| `Table.Game.CardIsValid` | src/table.rs:145-178 | `Err` iff no ruleset, and `Ok` whenever a ruleset is set. `Ok(false)` for a card not dealt to `vorhand`. A card dealt to `vorhand` gives `Ok(true)` when `turn == 0` or no card is led. After a trump lead it gives `Ok(true)` iff it is trump or no trump lies at location `vorhand`. After a colour lead it gives `Ok(true)` iff it has that colour or no card of it lies at location `vorhand` |
| `Table.Game.DetermineRoundWinner` | src/table.rs:201-219 | `Err` with no ruleset or no first card. Otherwise it visits every card at location 0 once, in some order, and returns the dealt seat of the fold's highest card |
| `Table.Game.SeatZeroCannotCallSow` | src/table.rs:98-105 | right after the deal no colour lies at location 0, so seat 0 can call no sow |
| `Table.Game.DealtHandIsOwnCards` | src/table.rs:15-18 | right after the deal, location seat+1 holds exactly the cards dealt to that seat |
| `Table.Game.AnnouncementIsValidIntended` | src/table.rs:90-110 | as `announcement_is_valid`, with the acting seat's hand read at location `turn + 1` |
| `Table.Game.IntendedSowCallAfterDeal` | src/table.rs:98-105 | intended: after the deal, a high enough sow call is valid iff the seat was not dealt the sow but was dealt a card of its colour |
| `Table.Game.CardIsValidIntended` | src/table.rs:145-178 | intended: `Err` iff no ruleset, and `Ok` otherwise. `Ok(false)` for a card not now in `vorhand`'s hand. Any card in that hand leads; after a lead the follow rules are judged on that hand |
| `Table.Game.PlayedCardStillValid` | src/table.rs:147-150 | as written, a dealt card already in the trick is still valid; the intended check refuses it |
| `Table.Game.SeatZeroSkipsFollowing` | src/table.rs:151-155 | as written, seat index 0 counts as the first card, so another colour passes although the led colour is held; the intended check refuses it |
| `Table.Game.VorhandHandMisread` | src/table.rs:160-168 | as written, the follow check reads location `vorhand` instead of the hand at vorhand + 1. Seat `vorhand` may throw off another colour although its hand holds the led colour, when location `vorhand` holds none; the intended check refuses it |

## Left out

- The random shuffle (src/table.rs:129) is a parameter: a permutation `order` of 0..31 that rearranges the built deck.
- The `HashMap`/`HashSet` iteration order (src/table.rs:114, 182, 192, 206) is modelled as an arbitrary choice from a Dafny set. `DetermineRoundWinner` returns the order it used as a ghost value.
- The body of `compare_cards` and the constants `SCHELLEN_SAUSPIEL`, `GRAS_SAUSPIEL` and `EICHEL_SAUSPIEL` (src/table.rs:211, 261-276) are not defined in any file of this model. The comparator is a parameter, so the test `test_compare_cards` is not modelled.
- The rulesets declare no `value` or `sow` fields, although src/table.rs:96-98 reads them. They are added to `Ruleset`. `SAUSPIEL` gets bid value 1 and `WENZ` value 2, both without a sow: this is a modelling choice, since the code gives no values.
- `determine_game_winner` (src/table.rs:221-235) is not modelled. It indexes a 4-element array with locations 5..8, which panics. Its `.enumerate().max()` also picks the highest index rather than the highest score.
- The `teams` field (src/table.rs:21) is never read or written after construction, so it is omitted.
- The Ramsch fallback is modelled only as the `RamschNotImplemented` error that src/table.rs:77 returns.
- src/main.rs is not part of this model. It is a driver loop that calls methods (`set_ruleset`, `play_card`) that do not exist.
- The error messages are modelled as variants of `Common.Error`, not as their text.
- The check "not trump" on the sow colour (TODO at src/table.rs:103) is not in the code, so it is not in the model.
- Table.Game.constructor: requires `dealer < 255`. `dealer + 1` on a `u8` panics at 255 in a debug build, and the model does not capture that panic.
- Table.Game.AnnounceGame: requires `turn < 255` when the call is accepted. `self.turn + 1` on a `u8` panics at 255, and this panic is not modelled. `Bidding.Announce` and `Bidding.RunAnnounce` carry the same bound.
- Table.Game.DetermineRoundWinner: requires a card at location 0 when a ruleset and a first card are set. Otherwise `highest_card.unwrap()` (src/table.rs:215) panics, and that panic is not modelled.
- No operation moves a card or sets `first_card`, because the source has no play operation (src/main.rs calls a `play_card` that does not exist). Every `Game` that `new` and `announce_game` produce has `deck` equal to the deal, an empty trick and no first card. `DetermineRoundWinner`, the follow rules of `CardIsValid` and the findings for src/table.rs:148, 153 and 160-168 are therefore stated for every `Valid()` state, not only for states the shown operations reach.
- `card_is_valid` checks ownership and hand contents for `vorhand` (the seat that comes out first), not for `turn`. This model keeps that as written, in the corrected definition too.

## Findings

| source | as written | input that shows it | evidently intended | confidence | as-written member | corrected member |
|---|---|---|---|---|---|---|
| src/table.rs:66-75 | every accepted call sets `vorhand = turn` and then `turn = turn + 1` (`1 % 4` binds first), so `turn == vorhand` never holds | a fresh game with dealer 0: four passes leave turn 5 and vorhand 4, still in the announcement phase | a round of passes after the last bid ends bidding, and the turn wraps at 4 | not executed | `Bidding.BiddingNeverEnds` | `Bidding.IntendedBidThenThreePassesResolves` |
| src/table.rs:67 | a pass (`None`) is valid and is stored as the standing ruleset | `SAUSPIEL` standing, the next seat passes: the ruleset becomes `None` | a pass keeps the standing bid and its announcer | not executed | `Bidding.PassErasesStandingBid` | `Bidding.IntendedPassKeepsStandingBid` |
| src/table/gamestate.rs:10 | `*self == Self::PlayPhase;` compares and drops the result | `advance()` in `AnnouncementPhase` returns `Ok` and the phase stays `AnnouncementPhase` | assignment, so the play phase begins | not executed | `GameStates.StuckInAnnouncement` | `GameStates.IntendedAdvanceThenFinish` |
| src/table.rs:104 | the hand of seat `turn` is read at location `turn`; hands live at seat + 1 | right after the deal, seat 0 calls a sow while holding its colour: rejected, since location 0 is empty | hand of seat s at location s + 1 | not executed | `Table.Game.SeatZeroCannotCallSow` | `Table.Game.IntendedSowCallAfterDeal` |
| src/table.rs:160-168 | the follow rules look for a trump (line 160) or the led colour (line 168) at location `vorhand`; the seat's hand lies at vorhand + 1 | seat 1 to follow a plain-colour lead, holding that colour, with none of it at location 1 (seat 0's hand): another colour is valid | the follow rules read the hand at vorhand + 1 | not executed | `Table.Game.VorhandHandMisread` | `Table.Game.CardIsValidIntended` |
| src/table.rs:148 | ownership is checked against the deal record, not the card's current location | a card dealt to `vorhand` that already lies in the trick, with no first card: valid | the card must lie in the seat's hand now | not executed | `Table.Game.PlayedCardStillValid` | `Table.Game.CardIsValidIntended` |
| src/table.rs:153 | `turn == 0` is taken as "first card of the trick" (marked TODO in the code) | seat 0 to play after a plain colour was led, holding that colour, plays another colour: valid | only the trick's first card is free | not executed | `Table.Game.SeatZeroSkipsFollowing` | `Table.Game.CardIsValidIntended` |
