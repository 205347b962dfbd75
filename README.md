# TileGameFramework turn engine in Dafny

This project models the core of a pluggable tile-game framework. The engine, `GameFrameworkImpl`, owns the shared state of a game session:

- the list of players, in insertion order;
- a `height × width` grid of optional strings, indexed `gameGrid[y][x]`;
- the index of the current player;
- the active game plug-in.

The engine leaves every rule decision to the plug-in. It reports each visible change to a single `GameChangeListener`.

The model is split by source concept:

- `Players` (`players.dfy`): `Player` as an immutable value. The symbol is the first character of the name, and the constructor needs a non-empty name.
- `Outcomes` (`outcomes.dfy`): `Option` stands for Java's `null`. `Result` and `Outcome` carry the exceptions that are modelled as results, listed in `Error`. The `NullPointerException` and `ArrayIndexOutOfBoundsException` cases are preconditions instead (see Left out).
- `Decimal` (`decimal.dfy`): the decimal text Java's string concatenation produces for a non-negative `int`, and its inverse.
- `Roster` (`roster.dfy`): the player list as a value. It defines which player `removePlayer` takes out and the footer text that reports the player count.
- `Turns` (`turns.dfy`): cyclic turn rotation. It also holds the turn adjustment used by the corrected removal (see Findings).
- `Grid` (`grid.dfy`): a `setSquare` call as a value, and the value a cell holds after a run of such calls.
- `Plugins` (`plugins.dfy`): a plug-in object with a reference identity and a fixed grid size. `MoveReply` holds the plug-in's answers during one `playMove`: `isMoveValid`, the `setSquare` calls its `onMovePlayed` makes, `isGameOver`, `getGameOverMessage` and `isMoveOver`.
- `Notifications` (`notifications.dfy`): one entry of the engine's outgoing trace. An entry is either a listener notification or a call into the plug-in.
- `Framework` (`framework.dfy`): the class `GameFramework`.
  - Fields: `players: seq<Player>`, `currentPlayer`, `gameGrid: array2?<Option<string>>`, `currentPlugin: Plugin?` and `log: seq<Event>`.
  - `log` records every listener notification and every plug-in callback that can have effects (`onRegister`, `onGameClosed`, `onMovePlayed`, `onNewMove`, and the scheduling of the deferred start-up callbacks). The engine's queries to the plug-in (`getGridWidth`, `getGridHeight`, `isMoveValid`, `isGameOver`, `isMoveOver`, `getGameOverMessage`) leave no entry.
  - Each Java method that changes state is a Dafny method with `modifies` and an `ensures` that states the whole new state and the entries appended to `log`. The getters are methods that change nothing. `getNumPlayersFooter` is the function `Roster.NumPlayersFooter`.
  - `startNewGame` clears the grid with the source's nested loops, which carry loop invariants.
- `Scenarios` (`scenarios.dfy`): concrete call sequences on a fresh engine, with their outcomes proved.

In these places the code does not do what a reader might expect, and the model follows the code:

- `addPlayer` does not always succeed. An empty name makes `new Player(name)` throw before the list changes.
- `getCurrentPlayer` has two failure modes. It throws `IllegalStateException` on an empty list. It also throws `IndexOutOfBoundsException` when a removal has left the turn index past the end of the list.
- `playMove` divides by zero when a move finishes while no players are registered.
- One would expect the turn index to name a player whenever there are players. The code does not keep that: only `removePlayer` breaks it. `TurnInRange` states the invariant, and every other operation is proved to preserve it.

## Model

| member | source | states |
|---|---|---|
| `Players.NewPlayer` | src/framework/Player.java:12-15 | a player needs a non-empty name, keeps that name, and its symbol is the one-character prefix of the name |
| `Players.Player.GetName` | src/framework/Player.java:18-20 | `getName` of a constructed player is a non-empty name whose first character is the symbol |
| `Players.Player.GetSymbol` | src/framework/Player.java:23-25 | `getSymbol` of a constructed player is one character long and a prefix of the name |
| `Players.NameRoundTrip` | src/framework/Player.java:12-20 | `getName` returns exactly the name given to the constructor |
| `Players.SymbolIsFirstCharacter` | src/framework/Player.java:12-25 | `getSymbol` returns the symbol fixed at construction, the name's first character |
| `Decimal.DecimalString` | src/framework/GameFrameworkImpl.java:101-103 | the count's text is a non-empty digit string that begins with `0` only for zero |
| `Decimal.ParseDecimalInverts` | src/framework/GameFrameworkImpl.java:101-103 | reading the count's text back gives the count |
| `Decimal.DecimalStringInjective` | src/framework/GameFrameworkImpl.java:101-103 | different counts have different texts |
| `Roster.FindFirst` | src/framework/GameFrameworkImpl.java:88-95 | the iterator loop stops at the first player with the given name; the index equals the list length exactly when there is none |
| `Roster.WithoutFirst` | src/framework/GameFrameworkImpl.java:87-97 | the list after `removePlayer` is one shorter when some player has the name, and unchanged otherwise |
| `Roster.WithoutFirstIsRemoveFirstNamed` | src/framework/GameFrameworkImpl.java:87-97 | the removal by index agrees with an independent recursive definition that drops the first matching player |
| `Roster.RemovesExactlyOne` | src/framework/GameFrameworkImpl.java:87-97 | with no match the list is unchanged; otherwise it is one shorter, the players before the match are unchanged, and the players after it move down one place |
| `Roster.RemovalIsPermutation` | src/framework/GameFrameworkImpl.java:87-97 | the remaining players plus the removed one are exactly the players before |
| `Roster.WithoutFirstKeepsMembers` | src/framework/GameFrameworkImpl.java:87-97 | a removal introduces no player |
| `Roster.AddThenRemove` | src/framework/GameFrameworkImpl.java:78-97 | adding a new name and then removing that name gives back the original list |
| `Roster.AppendDoesNotAffectRemoval` | src/framework/GameFrameworkImpl.java:78-97 | a later addition does not change which player a removal takes out |
| `Roster.NumPlayersFooter` | src/framework/GameFrameworkImpl.java:99-105 | `getNumPlayersFooter` starts with the count's decimal text; it is `1 player added.` exactly when the count is 1, and otherwise ends in ` players added.` |
| `Roster.FooterReportsCount` | src/framework/GameFrameworkImpl.java:99-105 | the footer text begins with the player count, which can be read back from it |
| `Roster.FooterWording` | src/framework/GameFrameworkImpl.java:99-105 | the text is `1 player added.` for one player and ends in ` players added.` for every other count, zero included |
| `Turns.NextTurn` | src/framework/GameFrameworkImpl.java:120 | the next index is in range: one more, or back to 0 after the last player |
| `Turns.AdvanceIsOffset` | src/framework/GameFrameworkImpl.java:119-122 | k finished moves from a valid index move it forward by k, modulo the player count |
| `Turns.FullRound` | src/framework/GameFrameworkImpl.java:119-122 | every player gets the turn within one round, and the turn returns to the starting player after a full round |
| `Turns.AdjustedTurn` | src/framework/GameFrameworkImpl.java:87-97 | the corrected index after a removal stays inside the shortened list |
| `Turns.AdjustedTurnKeepsPlayer` | src/framework/GameFrameworkImpl.java:87-97 | with the correction, removing another player keeps the same player current |
| `Turns.AdjustedTurnPassesOn` | src/framework/GameFrameworkImpl.java:87-97 | with the correction, removing the current player hands the turn to the player who would have been next |
| `Grid.UntouchedCellKeeps` | src/framework/GameFrameworkImpl.java:148-151 | a cell that no `setSquare` call addresses keeps its value |
| `Grid.LastWriteWins` | src/framework/GameFrameworkImpl.java:148-151 | a cell holds the value of the last `setSquare` call that addresses it |
| `Plugins.Plugin.constructor` | src/framework/GamePlugin.java:17-22 | a plug-in's grid width and height are fixed for its lifetime |
| `Notifications.SquareEvents` | src/framework/GameFrameworkImpl.java:148-151 | a run of `setSquare` calls emits one square-changed notification per call, in order, with the call's coordinates and value |
| `Framework.GameFramework.constructor` | src/framework/GameFrameworkImpl.java:19-21 | a new engine has no players, no plug-in, no grid and an empty trace |
| `Framework.GameFramework.RegisterPlugin` | src/framework/GameFrameworkImpl.java:35-38 | the plug-in's `onRegister` is called and then one plugin-registered notification is emitted |
| `Framework.GameFramework.StartNewGame` | src/framework/GameFrameworkImpl.java:44-72 | the grid has the plug-in's size, every cell is empty and the first player has the turn. The same plug-in keeps its grid object. A different plug-in gets a fresh grid, and the outgoing plug-in, if any, is closed exactly once. Then one new-game notification is emitted, followed by one entry recording that the deferred start-up callbacks were scheduled |
| `Framework.GameFramework.ClearGrid` | src/framework/GameFrameworkImpl.java:57-62 | after the nested loops every cell of the grid is empty |
| `Framework.GameFramework.AddPlayer` | src/framework/GameFrameworkImpl.java:78-81 | exactly one player with that name is appended and one footer notification with the new count is emitted; an empty name throws and changes nothing |
| `Framework.GameFramework.RemovePlayer` | src/framework/GameFrameworkImpl.java:87-97 | the first player with that name is removed and the turn index is left as it was; one footer notification is emitted, also when nobody matched |
| `Framework.GameFramework.RemovePlayerKeepingTurn` | src/framework/GameFrameworkImpl.java:87-97 | the corrected removal: the same list and footer. After a removal the index is `AdjustedTurn` of the old one, and it is unchanged when nobody matched. It stays in range, keeps naming the same player when another player leaves, and names the cyclic successor when the current player leaves |
| `Framework.GameFramework.DetachFirst` | src/framework/GameFrameworkImpl.java:88-95 | the iterator loop removes exactly the first player with the given name |
| `Framework.GameFramework.PlayMove` | src/framework/GameFrameworkImpl.java:113-125 | an invalid move changes nothing and emits nothing. A valid move replays the plug-in's writes; then one of three things happens. A finished game emits game-ended and restarts the same plug-in on the same, now empty, grid with player 0. A finished move advances the turn cyclically, emits one player-changed notification naming the new current player, and calls `onNewMove`; with no players it throws division by zero instead. Otherwise the turn is unchanged |
| `Framework.GameFramework.OnMovePlayed` | src/framework/GameFrameworkImpl.java:115 | the plug-in's move callback is recorded and its writes land in the grid, each with its own notification |
| `Framework.GameFramework.GetCurrentPlayer` | src/framework/GameFrameworkImpl.java:130-135 | fails with no-players exactly when the list is empty, fails with an index error when the index is stale, and otherwise returns the player at the turn index |
| `Framework.GameFramework.GetPlayers` | src/framework/GameFrameworkImpl.java:138-140 | returns the player list as a value, which the caller cannot use to change the engine |
| `Framework.GameFramework.GetSquare` | src/framework/GameFrameworkImpl.java:143-145 | returns the cell in column x of row y |
| `Framework.GameFramework.SetSquare` | src/framework/GameFrameworkImpl.java:148-151 | only cell [y][x] changes, to the given value, so a following `GetSquare(x, y)` returns it; one square-changed notification is emitted |
| `Framework.GameFramework.SetFooterText` | src/framework/GameFrameworkImpl.java:154-156 | emits one footer notification with the text |
| `Framework.GameFramework.NotifyPluginRegistered` | src/framework/GameFrameworkImpl.java:160-162 | appends one plugin-registered notification |
| `Framework.GameFramework.NotifyNewGameStarted` | src/framework/GameFrameworkImpl.java:164-166 | appends one new-game notification |
| `Framework.GameFramework.NotifyPlayerChanged` | src/framework/GameFrameworkImpl.java:168-170 | appends one notification naming the current player, or emits nothing and fails when the index names no player |
| `Framework.GameFramework.NotifyGameEnded` | src/framework/GameFrameworkImpl.java:172-174 | appends one game-ended notification with the plug-in's message |
| `Framework.GameFramework.NotifySquareChanged` | src/framework/GameFrameworkImpl.java:176-179 | appends one square-changed notification carrying the cell's value, `None` (Java `null`) for an empty cell |
| `Framework.GameFramework.NotifyFooterChanged` | src/framework/GameFrameworkImpl.java:181-183 | appends one footer notification |
| `Scenarios.OpeningMove` | src/framework/GameFrameworkImpl.java:113-123 | with players X and O on a 3 by 3 game, a valid finished first move at (0, 0) shows X there and emits one square-changed and one player-changed notification, and the latter names O |
| `Scenarios.SwitchPlugins` | src/framework/GameFrameworkImpl.java:44-66 | switching from a 3 by 3 to an 8 by 8 plug-in closes the first exactly once, before the second's new-game notification, and leaves an empty 8 by 8 grid |
| `Scenarios.StaleTurnAfterRemoval` | src/framework/GameFrameworkImpl.java:87-135 | removing the player whose turn it is, when that player is last in the list, makes `getCurrentPlayer` throw |
| `Scenarios.TurnKeptAfterRemoval` | src/framework/GameFrameworkImpl.java:87-135 | the same calls with the corrected removal hand the turn to the first player |

## Left out

- `setGameChangeListener` (src/framework/GameFrameworkImpl.java:27-29) is not modelled. The trace `log` stands for the one listener, so a missing (`null`) listener is not modelled.
- The deferred `onNewGame` and `onNewMove` callbacks (src/framework/GameFrameworkImpl.java:68-71) are recorded only as a `ScheduledOnNewGame` entry after the new-game notification. What they do when they later run on the UI thread is not modelled. That they read `currentPlugin` at that later time is not modelled either.
- The effects of plug-in callbacks on the engine are limited to the `setSquare` calls of `onMovePlayed`. `onRegister`, `onNewMove` and `onGameClosed` are recorded as calls only. A plug-in that calls `addPlayer`, `removePlayer` or `setFooterText` from a callback is not modelled.
- The plug-in's answers are opaque. They are parameters of `PlayMove` (a `MoveReply`) rather than computed from plug-in state. The plug-in's `getGameName` is not used by the engine and is not modelled.
- Framework.GameFramework.PlayMove: requires an active plug-in, because `playMove` before the first `startNewGame` throws `NullPointerException`. It also requires the plug-in's writes to lie inside the grid: out-of-range writes throw `ArrayIndexOutOfBoundsException`, and plug-ins are trusted not to make them.
- Framework.GameFramework.GetSquare and Framework.GameFramework.SetSquare: require an allocated grid and in-range coordinates. The source does not guard either; a violation throws `NullPointerException` or `ArrayIndexOutOfBoundsException`.
- Framework.GameFramework.ClearGrid loops over the grid's own dimensions rather than the plug-in's. The two are equal by the `Valid` invariant.
- `Object.toString` in `notifySquareChanged` is the identity, because the grid holds strings.
- Integers are unbounded. The turn index and the player count are `nat`. `currentPlayer + 1` could overflow a 32-bit `int` only with more than 2^31 - 1 players, and that wrap-around is not modelled.
- Java strings are sequences of UTF-16 code units; here they are `seq<char>`. A name that begins with a surrogate pair gets the whole character as its symbol here, but half of it in Java.
- `Player` is a value here, while the Java class defines no `equals` and so has reference identity. Two players with the same name and symbol are one value in `CurrentPlayerChanged` and `GetCurrentPlayer`. The engine never compares players by reference, so only that distinction is lost.
- A `null` player name (a `NullPointerException` in the `Player` constructor) is not modelled.
- The Swing start-up in src/main/Main.java, the click adapter in src/gui/SquareListener.java and the concrete rule-set plug-ins are not part of this model.

## Findings

| source | as written | input that shows it | evidently intended | confidence | as-written member | corrected member |
|---|---|---|---|---|---|---|
| src/framework/GameFrameworkImpl.java:87-97 | `removePlayer` never updates `currentPlayer` | players X and O with O to play (`currentPlayer == 1`), then `removePlayer("O")`: the index is 1 in a one-player list, and `getCurrentPlayer` throws `IndexOutOfBoundsException` | the turn index stays in range, and keeps naming the same player when someone else leaves | not executed; high | `Scenarios.StaleTurnAfterRemoval` | `Framework.GameFramework.RemovePlayerKeepingTurn` |

`Framework.GameFramework.RemovePlayer` models `removePlayer` as written. The corrected `RemovePlayerKeepingTurn` does the same removal and adjusts the index with `Turns.AdjustedTurn`. Its contract shows that it preserves `TurnInRange`, like every other operation, and keeps the current player when another player leaves. `Scenarios.TurnKeptAfterRemoval` applies the same call sequence to it and proves that the first player gets the turn.
