/** Concrete call sequences on a fresh framework, with their outcomes. */
module Scenarios {
  import opened Outcomes
  import opened Players
  import opened Roster
  import opened Grid
  import opened Plugins
  import opened Notifications
  import opened Framework

  /**
   * Players X and O on a 3 by 3 game: after the first valid, finished move at
   * (0, 0), which the plug-in marks with X, the square shows X and O has the turn.
   */
  method OpeningMove() returns (plugin: Plugin, moveEvents: seq<Event>, cell: Option<string>, current: Result<Player, Error>)
    ensures moveEvents == [
      CalledOnMovePlayed(plugin, 0, 0),
      SquareChanged(0, 0, Some("X")),
      CurrentPlayerChanged(NewPlayer("O")),
      CalledOnNewMove(plugin)]
    ensures cell == Some("X")
    ensures current == Success(NewPlayer("O"))
  {
    var game := new GameFramework();
    plugin := new Plugin(3, 3);
    var _ := game.AddPlayer("X");
    var _ := game.AddPlayer("O");
    game.StartNewGame(plugin);
    var started := game.log;
    var _ := game.PlayMove(0, 0, MoveReply(true, [SquareWrite(0, 0, Some("X"))], false, "", true));
    assert game.log == started + MovePlayedEvents(plugin, 0, 0, [SquareWrite(0, 0, Some("X"))])
      + [CurrentPlayerChanged(NewPlayer("O")), CalledOnNewMove(plugin)];
    moveEvents := game.log[|started|..];
    cell := game.GetSquare(0, 0);
    current := game.GetCurrentPlayer();
  }

  /**
   * Switching from a 3 by 3 plug-in to an 8 by 8 one closes the first exactly
   * once, before the second's new-game notification, and leaves an empty 8 by 8 grid.
   */
  method SwitchPlugins() returns (first: Plugin, second: Plugin, switchEvents: seq<Event>, grid: array2<Option<string>>)
    ensures first != second
    ensures switchEvents == [CalledOnGameClosed(first), NewGame(second), ScheduledOnNewGame(second)]
    ensures fresh(grid) && grid.Length0 == 8 && grid.Length1 == 8
    ensures forall y, x :: 0 <= y < 8 && 0 <= x < 8 ==> grid[y, x] == None
  {
    var game := new GameFramework();
    first := new Plugin(3, 3);
    second := new Plugin(8, 8);
    game.StartNewGame(first);
    var _ := game.PlayMove(1, 1, MoveReply(true, [SquareWrite(1, 1, Some("X"))], false, "", false));
    var before := game.log;
    game.StartNewGame(second);
    switchEvents := game.log[|before|..];
    grid := game.gameGrid;
  }

  /**
   * With X and O registered and O to play, removing O leaves the turn index at 1
   * in a list of one player, so asking for the current player throws.
   */
  method StaleTurnAfterRemoval() returns (current: Result<Player, Error>)
    ensures current == Failure(IndexOutOfBounds)
  {
    var game := new GameFramework();
    var plugin := new Plugin(3, 3);
    var _ := game.AddPlayer("X");
    var _ := game.AddPlayer("O");
    game.StartNewGame(plugin);
    var _ := game.PlayMove(0, 0, MoveReply(true, [], false, "", true));
    assert game.players[FindFirst(game.players, "O")].name == "O";
    game.RemovePlayer("O");
    current := game.GetCurrentPlayer();
  }

  /** The same calls with the corrected removal hand the turn back to X. */
  method TurnKeptAfterRemoval() returns (current: Result<Player, Error>)
    ensures current == Success(NewPlayer("X"))
  {
    var game := new GameFramework();
    var plugin := new Plugin(3, 3);
    var _ := game.AddPlayer("X");
    var _ := game.AddPlayer("O");
    game.StartNewGame(plugin);
    var _ := game.PlayMove(0, 0, MoveReply(true, [], false, "", true));
    assert game.players[FindFirst(game.players, "O")].name == "O";
    game.RemovePlayerKeepingTurn("O");
    current := game.GetCurrentPlayer();
  }
}
