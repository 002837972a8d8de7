/** The phase of a game as wired into `Game` (src/table/gamestate.rs). */
module GameStates {
  import opened Common

  datatype GameState = AnnouncementPhase | PlayPhase | Done(winner: u8)

  /** `advance` as written: the result, and the phase it leaves behind. Line 10 of the
      source compares (`==`) where it should assign, so the phase never changes. */
  function Advanced(s: GameState): (Result<()>, GameState) {
    if s == AnnouncementPhase then (Ok(()), s) else (Err(CannotAdvance), s)
  }

  /** `advance` as evidently intended: announcing gives way to playing. */
  function AdvancedIntended(s: GameState): (Result<()>, GameState) {
    if s == AnnouncementPhase then (Ok(()), PlayPhase) else (Err(CannotAdvance), s)
  }

  /** `finish(winner)`: the result, and the phase it leaves behind. */
  function Finished(s: GameState, winner: u8): (Result<()>, GameState) {
    if winner <= 3 && winner >= 0 && s == PlayPhase then (Ok(()), Done(winner))
    else (Err(CannotFinish), s)
  }

  /** `advance` succeeds exactly in the announcement phase and, as written, never changes the phase. */
  lemma AdvanceNeverChangesPhase(s: GameState)
    ensures Advanced(s).0.Ok? <==> s == AnnouncementPhase
    ensures Advanced(s).1 == s
  {
  }

  /** `finish(w)` succeeds exactly in the play phase with w in 0..3, and then the game is Done
      with winner w; otherwise it fails and the phase is unchanged. */
  lemma FinishOutcome(s: GameState, w: u8)
    ensures Finished(s, w).0.Ok? <==> s == PlayPhase && w <= 3
    ensures Finished(s, w).0.Ok? ==> Finished(s, w).1 == Done(w)
    ensures Finished(s, w).0.Err? ==> Finished(s, w).1 == s
  {
  }

  /** A sequence of calls: `Some(w)` is `finish(w)`, `None` is `advance()`. */
  function RunCalls(s: GameState, calls: seq<Option<u8>>): GameState
    decreases calls
  {
    if calls == [] then s
    else RunCalls(if calls[0].Some? then Finished(s, calls[0].value).1 else Advanced(s).1, calls[1..])
  }

  function RunCallsIntended(s: GameState, calls: seq<Option<u8>>): GameState
    decreases calls
  {
    if calls == [] then s
    else RunCallsIntended(if calls[0].Some? then Finished(s, calls[0].value).1 else AdvancedIntended(s).1, calls[1..])
  }

  /** As written, a game that starts in the announcement phase stays there whatever is called. */
  lemma {:induction false} StuckInAnnouncement(calls: seq<Option<u8>>)
    ensures RunCalls(AnnouncementPhase, calls) == AnnouncementPhase
    decreases calls
  {
    if calls != [] {
      StuckInAnnouncement(calls[1..]);
    }
  }

  /** Done is absorbing, and every reachable winner is a seat 0..3. */
  lemma {:induction false} DoneIsFinal(s: GameState, calls: seq<Option<u8>>)
    requires s.Done? ==> s.winner <= 3
    ensures s.Done? ==> RunCalls(s, calls) == s && RunCallsIntended(s, calls) == s
    ensures RunCalls(s, calls).Done? ==> RunCalls(s, calls).winner <= 3
    ensures RunCallsIntended(s, calls).Done? ==> RunCallsIntended(s, calls).winner <= 3
    decreases calls
  {
    if calls != [] {
      var t := if calls[0].Some? then Finished(s, calls[0].value).1 else Advanced(s).1;
      var u := if calls[0].Some? then Finished(s, calls[0].value).1 else AdvancedIntended(s).1;
      DoneIsFinal(t, calls[1..]);
      DoneIsFinal(u, calls[1..]);
    }
  }

  /** With the assignment the source intends, advancing then finishing with a seat ends the game. */
  lemma IntendedAdvanceThenFinish(w: u8)
    requires w <= 3
    ensures RunCallsIntended(AnnouncementPhase, [None, Some(w)]) == Done(w)
  {
    var calls: seq<Option<u8>> := [None, Some(w)];
    assert calls[1..] == [Some(w)] && calls[1..][1..] == [];
    assert RunCallsIntended(AnnouncementPhase, calls) == RunCallsIntended(PlayPhase, [Some(w)]);
    assert RunCallsIntended(PlayPhase, [Some(w)]) == RunCallsIntended(Done(w), []);
  }

  /** The mutable phase cell `game_progress`; `advance` and `finish` take it by `&mut self`. */
  class Progress {
    var state: GameState

    constructor (s: GameState)
      ensures state == s
    {
      state := s;
    }

    /** As written: succeeds exactly in the announcement phase, and leaves the phase as it was. */
    method Advance() returns (r: Result<()>)
      modifies this
      ensures r.Ok? <==> old(state) == AnnouncementPhase
      ensures r.Err? ==> r.error == CannotAdvance
      ensures state == old(state)
      ensures (r, state) == Advanced(old(state))
    {
      if state == AnnouncementPhase {
        // the source writes `*self == Self::PlayPhase;`, a comparison whose value is dropped
        r := Ok(());
      } else {
        r := Err(CannotAdvance);
      }
    }

    /** Ends the play phase with a winning seat 0..3; anything else fails without change. */
    method Finish(winner: u8) returns (r: Result<()>)
      modifies this
      ensures r.Ok? <==> old(state) == PlayPhase && winner <= 3
      ensures r.Ok? ==> state == Done(winner)
      ensures r.Err? ==> r.error == CannotFinish && state == old(state)
      ensures (r, state) == Finished(old(state), winner)
    {
      if winner <= 3 && winner >= 0 && state == PlayPhase {
        state := Done(winner);
        r := Ok(());
      } else {
        r := Err(CannotFinish);
      }
    }
  }
}
