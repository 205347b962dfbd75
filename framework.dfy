/**
 * The turn engine: the player list, the grid bound to the active plug-in,
 * the index of the current player, and the trace of outgoing calls.
 */
module Framework {
  import opened Outcomes
  import opened Players
  import opened Roster
  import opened Turns
  import opened Grid
  import opened Plugins
  import opened Notifications

  class GameFramework {
    var players: seq<Player>
    var currentPlayer: nat
    /** Indexed `[y, x]`: `Length0` rows of `Length1` cells. */
    var gameGrid: array2?<Option<string>>
    var currentPlugin: Plugin?
    /** Everything the engine has told its listener or asked of a plug-in, oldest first. */
    var log: seq<Event>

    /**
     * A grid exists exactly when a plug-in is active, and has that plug-in's size;
     * every player was built by the `Player` constructor. The turn index is not
     * constrained: `removePlayer` can leave it past the end of the list.
     */
    ghost predicate Valid()
      reads this
    {
      (currentPlugin == null <==> gameGrid == null) &&
      (currentPlugin != null ==>
        gameGrid.Length0 == currentPlugin.gridHeight &&
        gameGrid.Length1 == currentPlugin.gridWidth) &&
      (forall i :: 0 <= i < |players| ==> players[i].WellFormed())
    }

    /** The turn index names a player, or is 0 while there are none. */
    ghost predicate TurnInRange()
      reads this
    {
      currentPlayer == 0 || currentPlayer < |players|
    }

    /** Every cell of the grid is empty. */
    ghost predicate Cleared()
      reads this, gameGrid
    {
      gameGrid != null &&
      forall y, x :: 0 <= y < gameGrid.Length0 && 0 <= x < gameGrid.Length1 ==> gameGrid[y, x] == None
    }

    constructor ()
      ensures Valid() && TurnInRange()
      ensures players == [] && currentPlayer == 0
      ensures gameGrid == null && currentPlugin == null && log == []
    {
      players := [];
      currentPlayer := 0;
      gameGrid := null;
      currentPlugin := null;
      log := [];
    }

    /** `registerPlugin`: the plug-in's `onRegister`, then the registered notification. */
    method RegisterPlugin(plugin: Plugin)
      modifies this`log
      ensures log == old(log) + [CalledOnRegister(plugin), PluginRegistered(plugin)]
    {
      log := log + [CalledOnRegister(plugin)];
      NotifyPluginRegistered(plugin);
    }

    /**
     * `startNewGame`: switching plug-ins closes the outgoing one and allocates a
     * grid of the new size; restarting the same plug-in clears the grid it has.
     * Either way the grid ends empty and the first player has the turn.
     */
    method StartNewGame(plugin: Plugin)
      requires Valid()
      modifies this, gameGrid
      ensures Valid() && TurnInRange() && Cleared()
      ensures currentPlugin == plugin
      ensures gameGrid.Length0 == plugin.gridHeight && gameGrid.Length1 == plugin.gridWidth
      ensures players == old(players) && currentPlayer == 0
      ensures old(currentPlugin) == plugin ==>
        gameGrid == old(gameGrid) &&
        log == old(log) + [NewGame(plugin), ScheduledOnNewGame(plugin)]
      ensures old(currentPlugin) != plugin ==>
        fresh(gameGrid) &&
        log == old(log) + ClosingEvents(old(currentPlugin)) + [NewGame(plugin), ScheduledOnNewGame(plugin)]
    {
      if currentPlugin != plugin {
        if currentPlugin != null {
          log := log + [CalledOnGameClosed(currentPlugin)];
        }
        currentPlugin := plugin;
        gameGrid := new Option<string>[plugin.gridHeight, plugin.gridWidth];
      }
      ClearGrid();
      currentPlayer := 0;
      NotifyNewGameStarted(plugin);
      log := log + [ScheduledOnNewGame(plugin)];
    }

    /** The nested loops of `startNewGame` that set every cell to `null`. */
    method ClearGrid()
      requires gameGrid != null
      modifies gameGrid
      ensures Cleared()
    {
      var grid := gameGrid;
      var y := 0;
      while y < grid.Length0
        invariant 0 <= y <= grid.Length0
        invariant forall j, i :: 0 <= j < y && 0 <= i < grid.Length1 ==> grid[j, i] == None
      {
        var x := 0;
        while x < grid.Length1
          invariant 0 <= x <= grid.Length1
          invariant forall j, i :: 0 <= j < y && 0 <= i < grid.Length1 ==> grid[j, i] == None
          invariant forall i :: 0 <= i < x ==> grid[y, i] == None
        {
          grid[y, x] := None;
          x := x + 1;
        }
        y := y + 1;
      }
    }

    /**
     * `addPlayer`: appends one player and reports the new count. An empty name
     * makes the `Player` constructor throw before anything changes.
     */
    method AddPlayer(name: string) returns (r: Outcome<Error>)
      requires Valid()
      modifies this`players, this`log
      ensures Valid()
      ensures old(TurnInRange()) ==> TurnInRange()
      ensures name == [] ==> r == Fail(EmptyName) && players == old(players) && log == old(log)
      ensures name != [] ==>
        r == Pass &&
        players == old(players) + [NewPlayer(name)] &&
        log == old(log) + [FooterTextChanged(NumPlayersFooter(|players|))]
    {
      if name == [] {
        return Fail(EmptyName);
      }
      players := players + [NewPlayer(name)];
      SetFooterText(NumPlayersFooter(|players|));
      r := Pass;
    }

    /**
     * `removePlayer`: takes out the first player called `name`, if any, and
     * reports the count either way. The turn index is left as it was.
     */
    method RemovePlayer(name: string)
      requires Valid()
      modifies this`players, this`log
      ensures Valid()
      ensures players == WithoutFirst(old(players), name)
      ensures currentPlayer == old(currentPlayer)
      ensures log == old(log) + [FooterTextChanged(NumPlayersFooter(|players|))]
    {
      var _ := DetachFirst(name);
      SetFooterText(NumPlayersFooter(|players|));
    }

    /**
     * The corrected `removePlayer`: the same removal and footer, and the turn
     * index adjusted so that it stays in range and, when another player leaves,
     * keeps naming the same player.
     */
    method RemovePlayerKeepingTurn(name: string)
      requires Valid()
      modifies this`players, this`currentPlayer, this`log
      ensures Valid()
      ensures players == WithoutFirst(old(players), name)
      ensures old(TurnInRange()) ==> TurnInRange()
      ensures var i := FindFirst(old(players), name);
        i < |old(players)| && old(currentPlayer) <= |players| ==>
          currentPlayer == AdjustedTurn(old(currentPlayer), i, |players|)
      ensures var i := FindFirst(old(players), name);
        i == |old(players)| || |players| < old(currentPlayer) ==> currentPlayer == old(currentPlayer)
      ensures old(currentPlayer) < |old(players)| && FindFirst(old(players), name) != old(currentPlayer) ==>
        currentPlayer < |players| && players[currentPlayer] == old(players[currentPlayer])
      ensures old(currentPlayer) < |old(players)| && FindFirst(old(players), name) == old(currentPlayer) && |old(players)| > 1 ==>
        players[currentPlayer] == old(players[NextTurn(currentPlayer, |players|)])
      ensures log == old(log) + [FooterTextChanged(NumPlayersFooter(|players|))]
    {
      var before := players;
      var removed := DetachFirst(name);
      if removed < |before| && currentPlayer <= |players| {
        if currentPlayer < |before| && removed != currentPlayer {
          AdjustedTurnKeepsPlayer(before, removed, currentPlayer);
        } else if currentPlayer < |before| && |before| > 1 {
          AdjustedTurnPassesOn(before, currentPlayer);
        }
        currentPlayer := AdjustedTurn(currentPlayer, removed, |players|);
      }
      SetFooterText(NumPlayersFooter(|players|));
    }

    /** The iterator loop of `removePlayer`: finds the first match and removes it. */
    method DetachFirst(name: string) returns (removed: nat)
      requires Valid()
      modifies this`players
      ensures Valid()
      ensures removed == FindFirst(old(players), name)
      ensures players == WithoutFirst(old(players), name)
    {
      WithoutFirstKeepsMembers(players, name);
      removed := 0;
      while removed < |players|
        invariant removed <= |players| && players == old(players)
        invariant forall j :: 0 <= j < removed ==> players[j].name != name
      {
        if players[removed].name == name {
          players := players[..removed] + players[removed + 1..];
          return;
        }
        removed := removed + 1;
      }
    }

    /**
     * `playMove(x, y)`. An invalid move changes nothing and emits nothing.
     * A valid one is played; then a finished game is announced and the same
     * plug-in restarts, or a finished move passes the turn to the next player,
     * or the turn continues. Passing the turn with no players divides by zero.
     */
    method PlayMove(x: int, y: int, reply: MoveReply) returns (r: Outcome<Error>)
      requires Valid() && currentPlugin != null
      requires reply.valid ==>
        forall k :: 0 <= k < |reply.played| ==>
          InGrid(reply.played[k], currentPlugin.gridWidth, currentPlugin.gridHeight)
      modifies this, gameGrid
      ensures Valid() && (old(TurnInRange()) ==> TurnInRange())
      ensures currentPlugin == old(currentPlugin) && players == old(players)
      ensures gameGrid == old(gameGrid)
      ensures !reply.valid ==> r == Pass && unchanged(this) && unchanged(gameGrid)
      ensures reply.valid && reply.gameOver ==>
        r == Pass && Cleared() && currentPlayer == 0 &&
        log == old(log) + MovePlayedEvents(currentPlugin, x, y, reply.played) +
               [GameEnded(reply.gameOverMessage), NewGame(currentPlugin), ScheduledOnNewGame(currentPlugin)]
      ensures reply.valid && !reply.gameOver ==>
        forall j, i :: 0 <= j < gameGrid.Length0 && 0 <= i < gameGrid.Length1 ==>
          gameGrid[j, i] == Overwritten(reply.played, i, j, old(gameGrid[j, i]))
      ensures reply.valid && !reply.gameOver && reply.moveOver && |players| > 0 ==>
        r == Pass && currentPlayer == NextTurn(old(currentPlayer), |players|) &&
        log == old(log) + MovePlayedEvents(currentPlugin, x, y, reply.played) +
               [CurrentPlayerChanged(players[currentPlayer]), CalledOnNewMove(currentPlugin)]
      ensures reply.valid && !reply.gameOver && reply.moveOver && |players| == 0 ==>
        r == Fail(DivisionByZero) && currentPlayer == old(currentPlayer) &&
        log == old(log) + MovePlayedEvents(currentPlugin, x, y, reply.played)
      ensures reply.valid && !reply.gameOver && !reply.moveOver ==>
        r == Pass && currentPlayer == old(currentPlayer) &&
        log == old(log) + MovePlayedEvents(currentPlugin, x, y, reply.played)
    {
      if !reply.valid {
        return Pass;
      }
      var plugin := currentPlugin;
      OnMovePlayed(x, y, reply.played);
      if reply.gameOver {
        NotifyGameEnded(reply.gameOverMessage);
        StartNewGame(plugin);
      } else if reply.moveOver {
        if |players| == 0 {
          return Fail(DivisionByZero);
        }
        currentPlayer := NextTurn(currentPlayer, |players|);
        var notified := NotifyPlayerChanged();
        log := log + [CalledOnNewMove(plugin)];
      }
      r := Pass;
    }

    /** The plug-in's `onMovePlayed(x, y)`: its `setSquare` calls, in order. */
    method OnMovePlayed(x: int, y: int, played: seq<SquareWrite>)
      requires Valid() && currentPlugin != null
      requires forall k :: 0 <= k < |played| ==>
        InGrid(played[k], currentPlugin.gridWidth, currentPlugin.gridHeight)
      modifies this`log, gameGrid
      ensures log == old(log) + MovePlayedEvents(currentPlugin, x, y, played)
      ensures forall j, i :: 0 <= j < gameGrid.Length0 && 0 <= i < gameGrid.Length1 ==>
        gameGrid[j, i] == Overwritten(played, i, j, old(gameGrid[j, i]))
    {
      log := log + [CalledOnMovePlayed(currentPlugin, x, y)];
      var k := 0;
      while k < |played|
        invariant 0 <= k <= |played|
        invariant log == old(log) + [CalledOnMovePlayed(currentPlugin, x, y)] + SquareEvents(played[..k])
        invariant forall j, i :: 0 <= j < gameGrid.Length0 && 0 <= i < gameGrid.Length1 ==>
          gameGrid[j, i] == Overwritten(played[..k], i, j, old(gameGrid[j, i]))
      {
        assert played[..k + 1][..k] == played[..k];
        SetSquare(played[k].x, played[k].y, played[k].value);
        k := k + 1;
      }
      assert played[..k] == played;
    }

    /**
     * `getCurrentPlayer`: throws on an empty list, and also when a removal has
     * left the turn index past the end of the list.
     */
    method GetCurrentPlayer() returns (r: Result<Player, Error>)
      ensures r == Failure(NoPlayersAdded) <==> |players| == 0
      ensures r.Success? <==> currentPlayer < |players|
      ensures r.Success? ==> r.value == players[currentPlayer]
      ensures 0 < |players| <= currentPlayer ==> r == Failure(IndexOutOfBounds)
    {
      if |players| == 0 {
        return Failure(NoPlayersAdded);
      }
      if currentPlayer >= |players| {
        return Failure(IndexOutOfBounds);
      }
      r := Success(players[currentPlayer]);
    }

    /** `getPlayers`: a value copy, so the caller cannot alter the engine's list. */
    method GetPlayers() returns (ps: seq<Player>)
      ensures ps == players
    {
      ps := players;
    }

    /** `getSquare(x, y)`: the cell in column `x` of row `y`. */
    method GetSquare(x: int, y: int) returns (v: Option<string>)
      requires gameGrid != null && 0 <= y < gameGrid.Length0 && 0 <= x < gameGrid.Length1
      ensures v == gameGrid[y, x]
    {
      v := gameGrid[y, x];
    }

    /** `setSquare(x, y, v)`: writes that one cell and reports it. */
    method SetSquare(x: int, y: int, v: Option<string>)
      requires gameGrid != null && 0 <= y < gameGrid.Length0 && 0 <= x < gameGrid.Length1
      modifies this`log, gameGrid
      ensures gameGrid[y, x] == v
      ensures forall j, i :: 0 <= j < gameGrid.Length0 && 0 <= i < gameGrid.Length1 && (j != y || i != x) ==>
        gameGrid[j, i] == old(gameGrid[j, i])
      ensures log == old(log) + [SquareChanged(x, y, v)]
    {
      gameGrid[y, x] := v;
      NotifySquareChanged(x, y, v);
    }

    /** `setFooterText`. */
    method SetFooterText(text: string)
      modifies this`log
      ensures log == old(log) + [FooterTextChanged(text)]
    {
      NotifyFooterChanged(text);
    }

    method NotifyPluginRegistered(plugin: Plugin)
      modifies this`log
      ensures log == old(log) + [PluginRegistered(plugin)]
    {
      log := log + [PluginRegistered(plugin)];
    }

    method NotifyNewGameStarted(plugin: Plugin)
      modifies this`log
      ensures log == old(log) + [NewGame(plugin)]
    {
      log := log + [NewGame(plugin)];
    }

    /** Reports the current player, which it reads through `getCurrentPlayer`. */
    method NotifyPlayerChanged() returns (r: Outcome<Error>)
      modifies this`log
      ensures currentPlayer < |players| ==>
        r == Pass && log == old(log) + [CurrentPlayerChanged(players[currentPlayer])]
      ensures |players| <= currentPlayer ==> r.Fail? && log == old(log)
    {
      var current := GetCurrentPlayer();
      if current.Failure? {
        return Fail(current.error);
      }
      log := log + [CurrentPlayerChanged(current.value)];
      r := Pass;
    }

    method NotifyGameEnded(message: string)
      modifies this`log
      ensures log == old(log) + [GameEnded(message)]
    {
      log := log + [GameEnded(message)];
    }

    /** The listener receives the cell's text, or `null` for an empty cell. */
    method NotifySquareChanged(x: int, y: int, v: Option<string>)
      modifies this`log
      ensures log == old(log) + [SquareChanged(x, y, v)]
    {
      log := log + [SquareChanged(x, y, v)];
    }

    method NotifyFooterChanged(text: string)
      modifies this`log
      ensures log == old(log) + [FooterTextChanged(text)]
    {
      log := log + [FooterTextChanged(text)];
    }
  }
}
