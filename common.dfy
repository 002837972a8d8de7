/** Small shared vocabulary: Rust's `u8`, `Option` and `Result`, and the error cases of the engine. */
module Common {

  /** Rust's `u8`. Arithmetic that leaves this range panics in a debug build of the source,
      so every operation on it must show that it stays in range. */
  newtype u8 = x: int | 0 <= x < 256

  datatype Option<T> = None | Some(value: T)

  /** The `&'static str` error texts of the source, one variant per distinct message. */
  datatype Error =
    | WrongPhase            // "Attempted to announce a game while not in choosing ruleset phase"
    | RamschNotImplemented  // "Ramsch not implemented yet"
    | CannotAdvance         // "Cannot advance game"
    | CannotFinish          // "Cant finish game"
    | NoRuleset             // "No ruleset has been chosen"
    | CardDisappeared       // "Card has disappeared"
    | RoundNotStarted       // "Attempted to determine winner for round that has not started"

  datatype Result<T> = Ok(value: T) | Err(error: Error)

  /** No element occurs twice. */
  predicate Distinct<T(==)>(s: seq<T>) {
    forall i, j :: 0 <= i < j < |s| ==> s[i] != s[j]
  }

  /** A sequence without repetitions has as many elements as its set. */
  lemma {:induction false} DistinctSetSize<T>(s: seq<T>)
    requires Distinct(s)
    ensures |set x | x in s| == |s|
  {
    if s != [] {
      var init, last := s[..|s| - 1], s[|s| - 1];
      DistinctSetSize(init);
      assert (set x | x in s) == (set x | x in init) + {last};
      assert last !in init;
    }
  }
}
