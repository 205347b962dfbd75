/** The cells of the game grid and the effect of a run of `setSquare` calls on one cell. */
module Grid {
  import opened Outcomes

  /** One `setSquare(x, y, value)` call. */
  datatype SquareWrite = SquareWrite(x: int, y: int, value: Option<string>)

  /** Whether `w` addresses a cell of a `width` by `height` grid. */
  predicate InGrid(w: SquareWrite, width: nat, height: nat) {
    0 <= w.x < width && 0 <= w.y < height
  }

  predicate Targets(w: SquareWrite, x: int, y: int) {
    w.x == x && w.y == y
  }

  /** The value of cell (x, y) after the writes, in order, on a cell that held `before`. */
  function Overwritten(writes: seq<SquareWrite>, x: int, y: int, before: Option<string>): (v: Option<string>)
  {
    if writes == [] then before
    else if Targets(writes[|writes| - 1], x, y) then writes[|writes| - 1].value
    else Overwritten(writes[..|writes| - 1], x, y, before)
  }

  /** A cell no write addresses keeps its value. */
  lemma {:induction false} UntouchedCellKeeps(writes: seq<SquareWrite>, x: int, y: int, before: Option<string>)
    requires forall k :: 0 <= k < |writes| ==> !Targets(writes[k], x, y)
    ensures Overwritten(writes, x, y, before) == before
  {
    if writes != [] {
      UntouchedCellKeeps(writes[..|writes| - 1], x, y, before);
    }
  }

  /** A cell holds the value of the last write that addresses it. */
  lemma {:induction false} LastWriteWins(writes: seq<SquareWrite>, k: nat, before: Option<string>)
    requires k < |writes|
    requires forall j :: k < j < |writes| ==> !Targets(writes[j], writes[k].x, writes[k].y)
    ensures Overwritten(writes, writes[k].x, writes[k].y, before) == writes[k].value
  {
    if k < |writes| - 1 {
      LastWriteWins(writes[..|writes| - 1], k, before);
    }
  }
}
