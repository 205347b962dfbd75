/**
 * The trace of the engine's outgoing calls: notifications to its
 * `GameChangeListener` and callbacks into the active plug-in, in order.
 */
module Notifications {
  import opened Outcomes
  import opened Players
  import opened Grid
  import opened Plugins

  datatype Event =
    // GameChangeListener notifications
    | PluginRegistered(plugin: Plugin)
    | NewGame(plugin: Plugin)
    | CurrentPlayerChanged(player: Player)
    | FooterTextChanged(text: string)
    | SquareChanged(x: int, y: int, shown: Option<string>)
    | GameEnded(message: string)
    // GamePlugin callbacks
    | CalledOnRegister(plugin: Plugin)
    | CalledOnGameClosed(plugin: Plugin)
    | CalledOnMovePlayed(plugin: Plugin, x: int, y: int)
    | CalledOnNewMove(plugin: Plugin)
    // onNewGame and onNewMove, deferred to the UI thread
    | ScheduledOnNewGame(plugin: Plugin)

  /** The square-changed notifications a run of `setSquare` calls emits, one per call. */
  function SquareEvents(writes: seq<SquareWrite>): (events: seq<Event>)
    ensures |events| == |writes|
    ensures forall k :: 0 <= k < |writes| ==>
      events[k] == SquareChanged(writes[k].x, writes[k].y, writes[k].value)
  {
    if writes == [] then []
    else
      var w := writes[|writes| - 1];
      SquareEvents(writes[..|writes| - 1]) + [SquareChanged(w.x, w.y, w.value)]
  }

  /** What a valid move emits before the engine consults the plug-in again. */
  function MovePlayedEvents(plugin: Plugin, x: int, y: int, played: seq<SquareWrite>): seq<Event>
  {
    [CalledOnMovePlayed(plugin, x, y)] + SquareEvents(played)
  }

  /** The closing callback a plug-in switch sends to the outgoing plug-in, if any. */
  function ClosingEvents(outgoing: Plugin?): seq<Event>
  {
    if outgoing == null then [] else [CalledOnGameClosed(outgoing)]
  }
}
