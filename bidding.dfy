/** The bidding step of `Game::announce_game` (src/table.rs:60-88) on the four fields it
    touches, once as written and once as evidently intended. Whether the announcement is
    valid is computed by `Game.AnnouncementIsValid` and passed in as `valid`. */
module Bidding {
  import opened Common
  import opened Rulesets
  import opened GameStates

  /** The standing bid, the seat to act, the last accepted announcer and the phase. */
  datatype Bids = Bids(ruleset: Option<Ruleset>, turn: u8, vorhand: u8, phase: GameState)

  /** Lines 74-87: once the turn is back at the last announcer, bidding ends, which without
      a ruleset is the unimplemented Ramsch and otherwise advances the phase and gives the
      turn to seat 0. */
  function Settle(b: Bids): (s: (Result<bool>, Bids))
    ensures s.1.ruleset == b.ruleset && s.1.vorhand == b.vorhand && s.1.phase == b.phase
    ensures s.0.Err? <==> b.turn == b.vorhand && (b.ruleset == None || b.phase != AnnouncementPhase)
    ensures s.0 == Err(RamschNotImplemented) <==> b.turn == b.vorhand && b.ruleset == None
    ensures s.0.Ok? ==> s.0.value
    ensures s.1.turn == if s.0.Ok? && b.turn == b.vorhand then 0 else b.turn
  {
    if b.turn == b.vorhand then
      if b.ruleset == None then (Err(RamschNotImplemented), b)
      else
        var (res, p) := Advanced(b.phase);
        if res.Ok? then (Ok(true), b.(phase := p, turn := 0)) else (Err(res.error), b.(phase := p))
    else (Ok(true), b)
  }

  /** `announce_game` as written. Line 72 `self.turn + 1 % 4` parses as `turn + 1`, which
      overflows a `u8` only at 255. */
  function Announce(b: Bids, valid: bool, a: Option<Ruleset>): (s: (Result<bool>, Bids))
    requires b.phase == AnnouncementPhase && valid ==> b.turn < 255
    ensures s.1.phase == b.phase
    ensures s.0 == Err(WrongPhase) <==> b.phase != AnnouncementPhase
    ensures s.0.Err? ==> s.0 == Err(WrongPhase)
    ensures s.0 == Ok(false) <==> b.phase == AnnouncementPhase && !valid
    ensures s.0.Ok? && s.0.value ==> s.1.ruleset == a && s.1.vorhand == b.turn && s.1.turn == b.turn + 1
  {
    if b.phase != AnnouncementPhase then (Err(WrongPhase), b)
    else if !valid then (Ok(false), b)
    else Settle(b.(vorhand := b.turn, ruleset := a, turn := b.turn + 1))
  }

  /** Outside the announcement phase the call fails and changes nothing; a rejected
      announcement returns `Ok(false)` and changes nothing. */
  lemma AnnounceRejects(b: Bids, valid: bool, a: Option<Ruleset>)
    requires b.phase == AnnouncementPhase && valid ==> b.turn < 255
    ensures b.phase != AnnouncementPhase ==> Announce(b, valid, a) == (Err(WrongPhase), b)
    ensures b.phase == AnnouncementPhase && !valid ==> Announce(b, valid, a) == (Ok(false), b)
  {
  }

  /** As written, an accepted call (a pass included) makes the acting seat the announcer,
      replaces the standing ruleset by the announcement, moves the turn to `turn + 1`
      without wrapping, and never ends the bidding. */
  lemma AnnounceAccepts(b: Bids, a: Option<Ruleset>)
    requires b.phase == AnnouncementPhase && b.turn < 255
    ensures Announce(b, true, a) == (Ok(true), Bids(a, b.turn + 1, b.turn, AnnouncementPhase))
  {
  }

  /** A sequence of calls, each with its validity. */
  function RunAnnounce(b: Bids, calls: seq<(bool, Option<Ruleset>)>): (Result<bool>, Bids)
    requires b.turn as int + |calls| < 256
    decreases calls
  {
    if calls == [] then (Ok(true), b)
    else
      var (res, b') := Announce(b, calls[0].0, calls[0].1);
      if res.Err? then (res, b') else RunAnnounce(b', calls[1..])
  }

  /** As written, no sequence of calls ever ends the bidding: the phase stays the announcement
      phase, no call fails, and the turn only grows. */
  lemma {:induction false} BiddingNeverEnds(b: Bids, calls: seq<(bool, Option<Ruleset>)>)
    requires b.phase == AnnouncementPhase && b.turn as int + |calls| < 256
    ensures RunAnnounce(b, calls).0.Ok?
    ensures RunAnnounce(b, calls).1.phase == AnnouncementPhase
    ensures RunAnnounce(b, calls).1.turn >= b.turn
    decreases calls
  {
    if calls != [] {
      var b' := Announce(b, calls[0].0, calls[0].1).1;
      BiddingNeverEnds(b', calls[1..]);
    }
  }

  /** As written, a pass after a bid erases the standing ruleset. */
  lemma PassErasesStandingBid(b: Bids)
    requires b.phase == AnnouncementPhase && b.turn < 255 && b.ruleset.Some?
    ensures Announce(b, true, None).1.ruleset == None
  {
  }

  /** The seat after `t`, clockwise, with the wrap-around line 72 evidently intends. */
  function NextSeat(t: u8): (n: u8)
    ensures n < 4 && (n as int - t as int - 1) % 4 == 0
  {
    ((t as int + 1) % 4) as u8
  }

  /** Lines 74-87 with the assignment `advance` intends. */
  function SettleIntended(b: Bids): (Result<bool>, Bids) {
    if b.turn == b.vorhand then
      if b.ruleset == None then (Err(RamschNotImplemented), b)
      else
        var (res, p) := AdvancedIntended(b.phase);
        if res.Ok? then (Ok(true), b.(phase := p, turn := 0)) else (Err(res.error), b.(phase := p))
    else (Ok(true), b)
  }

  /** `announce_game` as evidently intended: a pass only moves the turn on, a bid also records
      the bid and its announcer, and the turn wraps around the four seats. */
  function AnnounceIntended(b: Bids, valid: bool, a: Option<Ruleset>): (Result<bool>, Bids) {
    if b.phase != AnnouncementPhase then (Err(WrongPhase), b)
    else if !valid then (Ok(false), b)
    else
      var b' := if a.Some? then b.(vorhand := b.turn, ruleset := a) else b;
      SettleIntended(b'.(turn := NextSeat(b.turn)))
  }

  /** Intended: a pass keeps the standing bid and its announcer. */
  lemma IntendedPassKeepsStandingBid(b: Bids)
    requires b.phase == AnnouncementPhase
    ensures AnnounceIntended(b, true, None).1.ruleset == b.ruleset
    ensures AnnounceIntended(b, true, None).1.vorhand == b.vorhand
  {
  }

  /** Intended: a bid followed by three passes ends the bidding with that bid standing,
      the bidder as announcer and the play phase begun. */
  lemma IntendedBidThenThreePassesResolves(b: Bids, bid: Ruleset)
    requires b.phase == AnnouncementPhase && b.turn < 4
    ensures
      var (r1, b1) := AnnounceIntended(b, true, Some(bid));
      var (r2, b2) := AnnounceIntended(b1, true, None);
      var (r3, b3) := AnnounceIntended(b2, true, None);
      var (r4, b4) := AnnounceIntended(b3, true, None);
      && r1 == r2 == r3 == r4 == Ok(true)
      && b3.phase == AnnouncementPhase
      && b4 == Bids(Some(bid), 0, b.turn, PlayPhase)
  {
  }

  /** Intended: four passes with nothing standing reach the unimplemented Ramsch. */
  lemma IntendedFourPassesAreRamsch(b: Bids)
    requires b.phase == AnnouncementPhase && b.turn < 4 && b.vorhand == b.turn && b.ruleset == None
    ensures
      var (r1, b1) := AnnounceIntended(b, true, None);
      var (r2, b2) := AnnounceIntended(b1, true, None);
      var (r3, b3) := AnnounceIntended(b2, true, None);
      && r1 == r2 == r3 == Ok(true)
      && AnnounceIntended(b3, true, None).0 == Err(RamschNotImplemented)
  {
  }
}
