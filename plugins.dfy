/**
 * A game plug-in as the engine sees it: an identity, a fixed grid size and,
 * for each move, the answers to the engine's questions.
 */
module Plugins {
  import opened Grid

  /** A plug-in object; the engine compares plug-ins by reference. */
  class Plugin {
    const gridWidth: nat
    const gridHeight: nat

    constructor (gridWidth: nat, gridHeight: nat)
      ensures this.gridWidth == gridWidth && this.gridHeight == gridHeight
    {
      this.gridWidth := gridWidth;
      this.gridHeight := gridHeight;
    }
  }

  /**
   * What the plug-in answers during one `playMove(x, y)`: `isMoveValid(x, y)`;
   * the `setSquare` calls its `onMovePlayed(x, y)` makes; then `isGameOver()`,
   * `getGameOverMessage()` and `isMoveOver()`.
   */
  datatype MoveReply = MoveReply(
    valid: bool,
    played: seq<SquareWrite>,
    gameOver: bool,
    gameOverMessage: string,
    moveOver: bool)
}
