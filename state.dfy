/** The older step machine of src/table/state.rs: a single `u8` that walks through
    0 Start, 1..3 Announce1..Announce3, 4..7 Play1..Play4 and 8 Done. */
module State {
  import opened Common

  /** The five operations of the machine. */
  datatype Op = AnnounceNone | AnnounceSome | PlayCard | NextRound | Finish

  /** The state an operation leaves behind (the `match` of each method). */
  function Step(s: u8, op: Op): u8 {
    match op
    case AnnounceNone => if s <= 3 then s + 1 else s
    case AnnounceSome => if s == 0 || s == 2 || s == 3 then 1 else s
    case PlayCard => if 4 <= s <= 6 then s + 1 else s
    case NextRound => if s == 7 then 4 else s
    case Finish => if s == 7 then 8 else s
  }

  /** The state after a sequence of operations. */
  function Run(s: u8, ops: seq<Op>): u8
    decreases ops
  {
    if ops == [] then s else Run(Step(s, ops[0]), ops[1..])
  }

  /** One operation keeps the state within 0..8. */
  lemma StepInRange(s: u8, op: Op)
    requires s <= 8
    ensures Step(s, op) <= 8
  {
  }

  /** A play state (4..7) or Done never goes back to an announce state, and Done is absorbing. */
  lemma StepMonotone(s: u8, op: Op)
    ensures 4 <= s ==> 4 <= Step(s, op)
    ensures Step(8, op) == 8
  {
  }

  /** From any state in 0..8, every run stays within 0..8. */
  lemma {:induction false} RunInRange(s: u8, ops: seq<Op>)
    requires s <= 8
    ensures Run(s, ops) <= 8
    decreases ops
  {
    if ops != [] {
      RunInRange(Step(s, ops[0]), ops[1..]);
    }
  }

  /** Once play has begun (state 4..8) no run returns to announcing, and from Done no run leaves it. */
  lemma {:induction false} RunStaysInPlay(s: u8, ops: seq<Op>)
    requires 4 <= s <= 8
    ensures 4 <= Run(s, ops) <= 8
    ensures s == 8 ==> Run(s, ops) == 8
    decreases ops
  {
    if ops != [] {
      RunStaysInPlay(Step(s, ops[0]), ops[1..]);
    }
  }

  /** Done is reached only by `Finish` from Play4: a run that ends in 8 without starting there
      contains a `Finish` step taken in state 7. */
  lemma {:induction false} DoneOnlyThroughFinish(s: u8, ops: seq<Op>)
    requires s != 8 && Run(s, ops) == 8
    ensures exists i :: 0 <= i < |ops| && ops[i] == Finish && Run(s, ops[..i]) == 7
    decreases ops
  {
    assert ops != [];
    var t := Step(s, ops[0]);
    if t == 8 {
      assert ops[..0] == [];
    } else {
      DoneOnlyThroughFinish(t, ops[1..]);
      var i :| 0 <= i < |ops[1..]| && ops[1..][i] == Finish && Run(t, ops[1..][..i]) == 7;
      assert ops[..i + 1][0] == ops[0] && ops[..i + 1][1..] == ops[1..][..i];
    }
  }

  class GameState {
    var state: u8

    /** `new`: the machine starts in 0. */
    constructor ()
      ensures state == 0
    {
      state := 0;
    }

    /** A pass: 0 -> 1 -> 2 -> 3 -> 4, every other state unchanged. */
    method AnnounceNone()
      modifies this
      ensures old(state) <= 3 ==> state == old(state) + 1
      ensures old(state) > 3 ==> state == old(state)
      ensures state == Step(old(state), Op.AnnounceNone)
    {
      match state
      case 0 => state := 1;
      case 1 => state := 2;
      case 2 => state := 3;
      case 3 => state := 4;
      case _ =>
    }

    /** A bid restarts the round: 0, 2 and 3 go to 1, every other state (1 included) unchanged. */
    method AnnounceSome()
      modifies this
      ensures old(state) in {0, 2, 3} ==> state == 1
      ensures old(state) !in {0, 2, 3} ==> state == old(state)
      ensures state == Step(old(state), Op.AnnounceSome)
    {
      match state
      case 0 => state := 1;
      case 2 => state := 1;
      case 3 => state := 1;
      case _ =>
    }

    /** A card played: 4 -> 5 -> 6 -> 7, every other state (7 included) unchanged. */
    method PlayCard()
      modifies this
      ensures 4 <= old(state) <= 6 ==> state == old(state) + 1
      ensures !(4 <= old(state) <= 6) ==> state == old(state)
      ensures state == Step(old(state), Op.PlayCard)
    {
      match state
      case 4 => state := 5;
      case 5 => state := 6;
      case 6 => state := 7;
      case _ =>
    }

    /** After the fourth card: 7 -> 4, every other state unchanged. */
    method NextRound()
      modifies this
      ensures state == if old(state) == 7 then 4 else old(state)
      ensures state == Step(old(state), Op.NextRound)
    {
      match state
      case 7 => state := 4;
      case _ =>
    }

    /** End of the game: 7 -> 8, every other state unchanged. */
    method Finish()
      modifies this
      ensures state == if old(state) == 7 then 8 else old(state)
      ensures state == Step(old(state), Op.Finish)
    {
      match state
      case 7 => state := 8;
      case _ =>
    }
  }
}
