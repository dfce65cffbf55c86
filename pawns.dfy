/**
 * The pawn record the board stores (santorinai/pawn.py is not part of this
 * model; its shape is read off its uses in santorinai/board.py) and the
 * numbering rule of `Board.__init__`.
 */
module Pawns {
  import opened Wrappers
  import opened Positions

  /**
   * A pawn: its unique `number` (1..2n), its `order` among its owner's two
   * pawns (1 or 2), its owner `player_number`, and its cell, `None` while unplaced.
   */
  datatype Pawn = Pawn(number: int, order: int, playerNumber: int, pos: Option<Pos>)

  /** `pawn.move(position)` (and `pawn.pos = position`): only the cell changes. */
  function MoveTo(p: Pawn, to: Pos): Pawn {
    p.(pos := Some(to))
  }

  /** Owner of pawn number `k` in an `n`-player game: `(k - 1) % n + 1`. */
  function PlayerOfPawn(n: int, k: int): int
    requires n >= 1
  {
    (k - 1) % n + 1
  }

  /** Order of pawn number `k` among its owner's pawns: `(k - 1) // n + 1`. */
  function OrderOfPawn(n: int, k: int): int
    requires n >= 1
  {
    (k - 1) / n + 1
  }

  /**
   * Pawns 1..n are the first pawns of players 1..n, pawns n+1..2n their
   * second pawns.
   */
  lemma PawnAssignment(n: int, k: int)
    requires n >= 1 && 1 <= k <= 2 * n
    ensures PlayerOfPawn(n, k) == if k <= n then k else k - n
    ensures OrderOfPawn(n, k) == if k <= n then 1 else 2
  {
    if k <= n {
      DivModOf(k - 1, n, 0);
    } else {
      DivModOf(k - 1, n, 1);
    }
  }

  /** Euclidean division of `q * n + r` by `n`, for a remainder `r` in `0..n-1`. */
  lemma DivModOf(j: int, n: int, q: int)
    requires n >= 1 && 0 <= j - q * n < n
    ensures j / n == q && j % n == j - q * n
  {
    var a, m := j / n, j % n;
    assert j == a * n + m && 0 <= m < n;
    assert (a - q) * n == j - q * n - m;
    MulSign(a - q, n);
  }

  /** A non-zero multiple of `n` is at least `n` away from zero. */
  lemma MulSign(d: int, n: int)
    requires n >= 1
    ensures d >= 1 ==> d * n >= n
    ensures d <= -1 ==> d * n <= -n
  {
    if d >= 1 {
      assert d * n == n + (d - 1) * n;
    } else if d <= -1 {
      assert d * n == -n + (d + 1) * n;
    }
  }

  /** Every player 1..n owns exactly the two pawns numbered `p` and `p + n`. */
  lemma OwnedPawns(n: int, p: int, k: int)
    requires n >= 1 && 1 <= p <= n && 1 <= k <= 2 * n
    ensures PlayerOfPawn(n, k) == p <==> k == p || k == p + n
    ensures PlayerOfPawn(n, k) == p ==> OrderOfPawn(n, k) == (if k == p then 1 else 2)
  {
    PawnAssignment(n, k);
  }

  /** The pawn list `Board.__init__` builds: pawn `i + 1` at index `i`, all unplaced. */
  function InitialPawns(n: int): (ps: seq<Pawn>)
    requires n >= 1
    ensures |ps| == 2 * n
    ensures forall i :: 0 <= i < |ps| ==> ps[i].pos == None && 1 <= ps[i].playerNumber <= n
  {
    seq(2 * n, i requires 0 <= i < 2 * n => NewPawn(n, i + 1))
  }

  /** `Pawn(pawn_number, pawn_order, player_number)` as built in `Board.__init__`. */
  function NewPawn(n: int, k: int): (p: Pawn)
    requires n >= 1 && 1 <= k <= 2 * n
    ensures p.number == k && p.pos == None
    ensures 1 <= p.playerNumber <= n && (p.order == 1 || p.order == 2)
  {
    PawnAssignment(n, k);
    Pawn(k, OrderOfPawn(n, k), PlayerOfPawn(n, k), None)
  }
}
