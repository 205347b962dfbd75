/** Optional values and the failures the engine's Java code raises as exceptions. */
module Outcomes {

  /** A value that may be absent; `None` stands for Java's `null`. */
  datatype Option<+T> = None | Some(value: T)

  /** The result of an operation that returns a value or throws. */
  datatype Result<+R, +E> = Success(value: R) | Failure(error: E)

  /** The result of an operation that returns nothing or throws. */
  datatype Outcome<+E> = Pass | Fail(error: E)

  /** The exceptions the engine throws that are modelled as results. */
  datatype Error =
    | EmptyName         // `substring(0, 1)` on an empty player name
    | NoPlayersAdded    // `getCurrentPlayer` on an empty player list
    | IndexOutOfBounds  // `players.get(currentPlayer)` with a stale turn index
    | DivisionByZero    // turn rotation `% players.size()` with no players
}
