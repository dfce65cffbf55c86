/**
 * Cells of the 5x5 Santorini board and the geometry the rules use:
 * `is_position_within_board` and `is_position_adjacent` of santorinai/board.py.
 */
module Positions {

  /** `board_size`: the board is BoardSize x BoardSize. */
  const BoardSize := 5

  /** A coordinate pair `(x, y)`; the board is indexed `board[x][y]`. */
  datatype Pos = Pos(x: int, y: int)

  /** `is_position_within_board`. */
  predicate InBoard(p: Pos) {
    0 <= p.x < BoardSize && 0 <= p.y < BoardSize
  }

  function Abs(n: int): nat {
    if n < 0 then -n else n
  }

  /** The Chebyshev distance: the larger of the row and column differences. */
  function Chebyshev(p: Pos, q: Pos): nat {
    var dx, dy := Abs(p.x - q.x), Abs(p.y - q.y);
    if dx < dy then dy else dx
  }

  /** `is_position_adjacent`: the eight neighbours of a cell, never the cell itself. */
  function Adjacent(p: Pos, q: Pos): (r: bool)
    ensures r <==> Chebyshev(p, q) == 1
    ensures r ==> p != q
  {
    Abs(p.x - q.x) <= 1 && Abs(p.y - q.y) <= 1 && (p.x != q.x || p.y != q.y)
  }

  /** Adjacency does not depend on the order of its arguments. */
  lemma AdjacentSymmetric(p: Pos, q: Pos)
    ensures Adjacent(p, q) == Adjacent(q, p)
  {
  }
}
