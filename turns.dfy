/**
 * Turn order: the index of the current player moves cyclically through the
 * player list. Java's `%` truncates toward zero, Dafny's is Euclidean; both
 * agree here because the index is never negative and the count is positive.
 */
module Turns {
  import opened Players

  /** The index after a finished move: the next player, wrapping to the first. */
  function NextTurn(current: nat, count: nat): (next: nat)
    requires count > 0
    ensures next < count
    ensures current + 1 < count ==> next == current + 1
    ensures current + 1 == count ==> next == 0
  {
    (current + 1) % count
  }

  /** The index after `moves` finished moves. */
  function Advance(current: nat, count: nat, moves: nat): (next: nat)
    requires count > 0
  {
    if moves == 0 then current else NextTurn(Advance(current, count, moves - 1), count)
  }

  /** From a valid index, `moves` finished moves step the index forward by `moves`, cyclically. */
  lemma {:induction false} AdvanceIsOffset(current: nat, count: nat, moves: nat)
    requires current < count
    ensures Advance(current, count, moves) == (current + moves) % count
  {
    if moves == 0 {
      ModUnique(current, count, 0, current);
    } else {
      AdvanceIsOffset(current, count, moves - 1);
      ModSuccessor(current + moves - 1, count);
    }
  }

  /** Stepping a number by one steps its remainder by one, cyclically. */
  lemma ModSuccessor(a: nat, n: nat)
    requires n > 0
    ensures (a + 1) % n == (a % n + 1) % n
  {
    var q, r := a / n, a % n;
    assert a == q * n + r;
    if r + 1 < n {
      ModUnique(r + 1, n, 0, r + 1);
      ModUnique(a + 1, n, q, r + 1);
    } else {
      ModUnique(r + 1, n, 1, 0);
      DistributeOne(q, n);
      ModUnique(a + 1, n, q + 1, 0);
    }
  }

  lemma DistributeOne(q: int, n: int)
    ensures (q + 1) * n == q * n + n
  {
  }

  /** After one full round every player has had the turn and it is back where it started. */
  lemma FullRound(current: nat, count: nat, player: nat)
    requires current < count && player < count
    ensures Advance(current, count, count) == current
    ensures var moves := if current <= player then player - current else count - current + player;
      moves < count && Advance(current, count, moves) == player
  {
    AdvanceIsOffset(current, count, count);
    ModUnique(current + count, count, 1, current);
    var moves := if current <= player then player - current else count - current + player;
    AdvanceIsOffset(current, count, moves);
    if player < current {
      ModUnique(current + moves, count, 1, player);
    } else {
      ModUnique(current + moves, count, 0, player);
    }
  }

  lemma MulAtLeast(d: int, n: int)
    requires d >= 1 && n > 0
    ensures d * n >= n
  {
    assert d * n == (d - 1) * n + n;
  }

  /** Quotient and remainder are unique. */
  lemma ModUnique(a: int, n: int, q: int, r: int)
    requires n > 0 && 0 <= r < n && a == q * n + r
    ensures a % n == r && a / n == q
  {
    var q', r' := a / n, a % n;
    assert a == q' * n + r';
    assert (q - q') * n == r' - r by {
      assert (q - q') * n == q * n - q' * n;
    }
    if q > q' {
      MulAtLeast(q - q', n);
    } else if q < q' {
      MulAtLeast(q' - q, n);
    }
  }

  /**
   * The turn index a removal would leave if it kept the same player current:
   * one lower when an earlier player left, unchanged when a later one left,
   * and, when the current player left, the player who followed.
   * `remaining` is the length of the list after the removal.
   */
  function AdjustedTurn(current: nat, removed: nat, remaining: nat): (next: nat)
    requires current <= remaining && removed <= remaining
    ensures remaining > 0 ==> next < remaining
  {
    if removed < current then current - 1
    else if current < remaining then current
    else 0
  }

  /** Removing another player leaves the same player current. */
  lemma AdjustedTurnKeepsPlayer(ps: seq<Player>, removed: nat, current: nat)
    requires removed < |ps| && current < |ps| && removed != current
    ensures var rest := ps[..removed] + ps[removed + 1..];
      rest[AdjustedTurn(current, removed, |rest|)] == ps[current]
  {
  }

  /** Removing the current player hands the turn to the player who would have played next. */
  lemma AdjustedTurnPassesOn(ps: seq<Player>, current: nat)
    requires current < |ps| && |ps| > 1
    ensures var rest := ps[..current] + ps[current + 1..];
      rest[AdjustedTurn(current, current, |rest|)] == ps[NextTurn(current, |ps|)]
  {
  }
}
