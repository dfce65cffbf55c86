/**
 * The enumerations of santorinai/board.py as functions: the cells a pawn may
 * move to (`get_possible_movement_positions`), build on
 * (`get_possible_building_positions`), and the (move, build) pairs
 * (`get_possible_movement_and_building_positions`). Each function follows the
 * loops of board.py, so the order of the result is board.py's order.
 */
module Enumeration {
  import opened Wrappers
  import opened Positions
  import opened Pawns
  import opened Rules

  /**
   * The cells `is_move_possible` accepts as targets from `s`: the legality
   * predicate, which `MoveVerdict` matches by its contract.
   */
  function MoveAccepts(st: State, s: Pos): Pos -> bool {
    q => ValidGrid(st.grid) && LegalMove(st, s, q)
  }

  /**
   * The cells `is_build_possible` accepts as targets from `s`: the legality
   * predicate, which `BuildVerdict` matches by its contract.
   */
  function BuildAccepts(st: State, s: Pos): Pos -> bool {
    q => ValidGrid(st.grid) && LegalBuild(st, s, q)
  }

  /**
   * Cells `(x, y)` that `accept` admits, for `y` from `s.y - 1` up to
   * `yEnd - 1`, skipping `s` itself: one pass of the inner loop over the
   * offsets `-1..1` around `s`, in absolute coordinates.
   */
  function RowScan(accept: Pos -> bool, s: Pos, x: int, yEnd: int): seq<Pos>
    requires s.y - 1 <= yEnd <= s.y + 2
    decreases yEnd - s.y
  {
    if yEnd == s.y - 1 then []
    else
      var q := Pos(x, yEnd - 1);
      RowScan(accept, s, x, yEnd - 1) + if q == s || !accept(q) then [] else [q]
  }

  /** The rows `x` from `s.x - 1` up to `xEnd - 1` of the neighbourhood scan: the outer loop. */
  function RingScan(accept: Pos -> bool, s: Pos, xEnd: int): seq<Pos>
    requires s.x - 1 <= xEnd <= s.x + 2
    decreases xEnd - s.x
  {
    if xEnd == s.x - 1 then [] else RingScan(accept, s, xEnd - 1) + RowScan(accept, s, xEnd - 1, s.y + 2)
  }

  /** The full scan of the eight neighbours of `s`. */
  function Neighbours(accept: Pos -> bool, s: Pos): seq<Pos> {
    RingScan(accept, s, s.x + 2)
  }

  /** A cell an unplaced pawn may be put on: not a dome, no pawn on it. */
  predicate FreeCell(st: State, q: Pos)
    requires ValidGrid(st.grid)
  {
    InBoard(q) && Height(st.grid, q) != Dome && !PawnOn(st.pawns, q)
  }

  /** Free cells `(x, y)` for `y` in `0 .. yEnd - 1`. */
  function ColumnScan(st: State, x: int, yEnd: int): seq<Pos>
    requires ValidGrid(st.grid) && 0 <= x < BoardSize && 0 <= yEnd <= BoardSize
  {
    if yEnd == 0 then []
    else ColumnScan(st, x, yEnd - 1) + if FreeCell(st, Pos(x, yEnd - 1)) then [Pos(x, yEnd - 1)] else []
  }

  /** Free cells with `x` in `0 .. xEnd - 1`, column by column. */
  function BoardScan(st: State, xEnd: int): seq<Pos>
    requires ValidGrid(st.grid) && 0 <= xEnd <= BoardSize
  {
    if xEnd == 0 then [] else BoardScan(st, xEnd - 1) + ColumnScan(st, xEnd - 1, |st.grid|)
  }

  /** `get_possible_movement_positions`. */
  function MovementPositions(st: State, p: Pawn): seq<Pos>
    requires ValidGrid(st.grid)
  {
    match p.pos
    case None => BoardScan(st, |st.grid|)
    case Some(s) => Neighbours(MoveAccepts(st, s), s)
  }

  /** `get_possible_building_positions`: nothing for an unplaced pawn. */
  function BuildingPositions(st: State, p: Pawn): seq<Pos>
    requires ValidGrid(st.grid)
  {
    match p.pos
    case None => []
    case Some(s) => Neighbours(BuildAccepts(st, s), s)
  }

  /** A candidate play: where the pawn goes, and where it builds (`None` when it is only being placed). */
  type MoveBuild = (Pos, Option<Pos>)

  /** The board with pawn `k` moved to `m`, as it is while the builds after that move are listed. */
  function MovedPawn(st: State, k: int, m: Pos): State
    requires 0 <= k < |st.pawns|
  {
    st.(pawns := st.pawns[k := MoveTo(st.pawns[k], m)])
  }

  /** The pairs `(m, b)` for every build `b` of pawn `k` once it stands on `m`. */
  function BuildsAfter(st: State, k: int, m: Pos): seq<MoveBuild>
    requires ValidGrid(st.grid) && 0 <= k < |st.pawns|
  {
    var moved := MovedPawn(st, k, m);
    var builds := BuildingPositions(moved, moved.pawns[k]);
    seq(|builds|, i requires 0 <= i < |builds| => (m, Some(builds[i])))
  }

  /** The pairs for each move of `moves` in turn. */
  function PairsAfter(st: State, k: int, moves: seq<Pos>): seq<MoveBuild>
    requires ValidGrid(st.grid) && 0 <= k < |st.pawns|
  {
    if moves == [] then []
    else PairsAfter(st, k, moves[..|moves| - 1]) + BuildsAfter(st, k, moves[|moves| - 1])
  }

  /** `get_possible_movement_and_building_positions` for pawn `st.pawns[k]`. */
  function MovesAndBuilds(st: State, k: int): seq<MoveBuild>
    requires ValidGrid(st.grid) && 0 <= k < |st.pawns|
  {
    var p := st.pawns[k];
    var moves := MovementPositions(st, p);
    if p.pos.None? then seq(|moves|, i requires 0 <= i < |moves| => (moves[i], None))
    else PairsAfter(st, k, moves)
  }

  // ---------------------------------------------------------------------
  // What the enumerations contain
  // ---------------------------------------------------------------------

  /** Row-major order on cells: `x` first, then `y`. */
  predicate Before(p: Pos, q: Pos) {
    p.x < q.x || (p.x == q.x && p.y < q.y)
  }

  /** Strictly increasing in row-major order, hence without duplicates. */
  predicate Increasing(cs: seq<Pos>) {
    forall i, j :: 0 <= i < j < |cs| ==> Before(cs[i], cs[j])
  }

  /** A row scan keeps exactly the admitted cells of its row seen so far, the centre skipped. */
  lemma {:induction false} RowScanMembers(accept: Pos -> bool, s: Pos, x: int, yEnd: int)
    requires s.y - 1 <= yEnd <= s.y + 2
    ensures forall q :: q in RowScan(accept, s, x, yEnd) <==>
      q.x == x && s.y - 1 <= q.y < yEnd && q != s && accept(q)
    decreases yEnd - s.y
  {
    if yEnd != s.y - 1 {
      RowScanMembers(accept, s, x, yEnd - 1);
    }
  }

  lemma {:induction false} RowScanIncreasing(accept: Pos -> bool, s: Pos, x: int, yEnd: int)
    requires s.y - 1 <= yEnd <= s.y + 2
    ensures Increasing(RowScan(accept, s, x, yEnd))
    decreases yEnd - s.y
  {
    if yEnd != s.y - 1 {
      var rest := RowScan(accept, s, x, yEnd - 1);
      RowScanIncreasing(accept, s, x, yEnd - 1);
      RowScanMembers(accept, s, x, yEnd - 1);
      var q := Pos(x, yEnd - 1);
      forall i | 0 <= i < |rest| ensures Before(rest[i], q) {
        assert rest[i] in rest;
      }
    }
  }

  lemma {:induction false} RowScanLength(accept: Pos -> bool, s: Pos, x: int, yEnd: int)
    requires s.y - 1 <= yEnd <= s.y + 2
    ensures |RowScan(accept, s, x, yEnd)| <= yEnd - s.y + 1 - (if x == s.x && yEnd > s.y then 1 else 0)
    decreases yEnd - s.y
  {
    if yEnd != s.y - 1 {
      RowScanLength(accept, s, x, yEnd - 1);
    }
  }

  /** Two increasing runs, the first entirely before the second, concatenate to an increasing run. */
  lemma ConcatIncreasing(left: seq<Pos>, right: seq<Pos>, bound: int)
    requires Increasing(left) && Increasing(right)
    requires forall p :: p in left ==> p.x < bound
    requires forall q :: q in right ==> q.x == bound
    ensures Increasing(left + right)
  {
    forall i, j | 0 <= i < j < |left + right|
      ensures Before((left + right)[i], (left + right)[j])
    {
      if j < |left| {
        assert (left + right)[i] == left[i] && (left + right)[j] == left[j];
      } else if i >= |left| {
        assert (left + right)[i] == right[i - |left|];
        assert (left + right)[j] == right[j - |left|];
      } else {
        assert (left + right)[i] == left[i] && left[i] in left;
        assert (left + right)[j] == right[j - |left|] && right[j - |left|] in right;
      }
    }
  }

  /** The neighbourhood scan keeps exactly the admitted cells of the rows done so far, the centre skipped. */
  lemma {:induction false} RingScanMembers(accept: Pos -> bool, s: Pos, xEnd: int)
    requires s.x - 1 <= xEnd <= s.x + 2
    ensures forall q :: q in RingScan(accept, s, xEnd) <==>
      && s.x - 1 <= q.x < xEnd && s.y - 1 <= q.y <= s.y + 1
      && q != s
      && accept(q)
    decreases xEnd - s.x
  {
    if xEnd != s.x - 1 {
      RingScanMembers(accept, s, xEnd - 1);
      RowScanMembers(accept, s, xEnd - 1, s.y + 2);
    }
  }

  lemma {:induction false} RingScanIncreasing(accept: Pos -> bool, s: Pos, xEnd: int)
    requires s.x - 1 <= xEnd <= s.x + 2
    ensures Increasing(RingScan(accept, s, xEnd))
    decreases xEnd - s.x
  {
    if xEnd != s.x - 1 {
      var left, right := RingScan(accept, s, xEnd - 1), RowScan(accept, s, xEnd - 1, s.y + 2);
      RingScanIncreasing(accept, s, xEnd - 1);
      RingScanRows(accept, s, xEnd - 1);
      RowScanIncreasing(accept, s, xEnd - 1, s.y + 2);
      RowScanRow(accept, s, xEnd - 1, s.y + 2);
      ConcatIncreasing(left, right, xEnd - 1);
    }
  }

  /** Every cell of a row scan lies on that row. */
  lemma {:induction false} RowScanRow(accept: Pos -> bool, s: Pos, x: int, yEnd: int)
    requires s.y - 1 <= yEnd <= s.y + 2
    ensures forall q :: q in RowScan(accept, s, x, yEnd) ==> q.x == x
    decreases yEnd - s.y
  {
    if yEnd != s.y - 1 {
      RowScanRow(accept, s, x, yEnd - 1);
    }
  }

  /** Every cell of a partial neighbourhood scan lies on a row already done. */
  lemma {:induction false} RingScanRows(accept: Pos -> bool, s: Pos, xEnd: int)
    requires s.x - 1 <= xEnd <= s.x + 2
    ensures forall q :: q in RingScan(accept, s, xEnd) ==> q.x < xEnd
    decreases xEnd - s.x
  {
    if xEnd != s.x - 1 {
      RingScanRows(accept, s, xEnd - 1);
      RowScanRow(accept, s, xEnd - 1, s.y + 2);
    }
  }

  lemma {:induction false} RingScanLength(accept: Pos -> bool, s: Pos, xEnd: int)
    requires s.x - 1 <= xEnd <= s.x + 2
    ensures |RingScan(accept, s, xEnd)| <= 3 * (xEnd - s.x + 1) - (if xEnd > s.x then 1 else 0)
    decreases xEnd - s.x
  {
    if xEnd != s.x - 1 {
      RingScanLength(accept, s, xEnd - 1);
      RowScanLength(accept, s, xEnd - 1, s.y + 2);
    }
  }

  lemma {:induction false} ColumnScanContents(st: State, x: int, yEnd: int)
    requires ValidGrid(st.grid) && 0 <= x < BoardSize && 0 <= yEnd <= BoardSize
    ensures forall q :: q in ColumnScan(st, x, yEnd) <==> q.x == x && 0 <= q.y < yEnd && FreeCell(st, q)
    ensures Increasing(ColumnScan(st, x, yEnd))
  {
    if yEnd != 0 {
      ColumnScanContents(st, x, yEnd - 1);
    }
  }

  lemma {:induction false} BoardScanContents(st: State, xEnd: int)
    requires ValidGrid(st.grid) && 0 <= xEnd <= BoardSize
    ensures forall q :: q in BoardScan(st, xEnd) <==> q.x < xEnd && FreeCell(st, q)
    ensures Increasing(BoardScan(st, xEnd))
  {
    if xEnd != 0 {
      BoardScanContents(st, xEnd - 1);
      ColumnScanContents(st, xEnd - 1, |st.grid|);
      ConcatIncreasing(BoardScan(st, xEnd - 1), ColumnScan(st, xEnd - 1, |st.grid|), xEnd - 1);
    }
  }

  /** The scan with `is_move_possible` lists exactly the legal moves, at most eight, in row-major order. */
  lemma MoveScan(st: State, s: Pos)
    requires ValidGrid(st.grid)
    ensures forall q :: q in Neighbours(MoveAccepts(st, s), s) <==> LegalMove(st, s, q)
    ensures Increasing(Neighbours(MoveAccepts(st, s), s)) && |Neighbours(MoveAccepts(st, s), s)| <= 8
  {
    NeighboursContents(MoveAccepts(st, s), s);
  }

  /** The scan with `is_build_possible` lists exactly the legal builds, at most eight, in row-major order. */
  lemma BuildScan(st: State, s: Pos)
    requires ValidGrid(st.grid)
    ensures forall q :: q in Neighbours(BuildAccepts(st, s), s) <==> LegalBuild(st, s, q)
    ensures Increasing(Neighbours(BuildAccepts(st, s), s)) && |Neighbours(BuildAccepts(st, s), s)| <= 8
  {
    NeighboursContents(BuildAccepts(st, s), s);
  }

  /** The neighbourhood scan keeps exactly the admitted neighbours, at most eight, in row-major order. */
  lemma NeighboursContents(accept: Pos -> bool, s: Pos)
    ensures forall q :: q in Neighbours(accept, s) <==> Adjacent(s, q) && accept(q)
    ensures Increasing(Neighbours(accept, s)) && |Neighbours(accept, s)| <= 8
  {
    NeighboursMembers(accept, s);
    RingScanIncreasing(accept, s, s.x + 2);
    RingScanLength(accept, s, s.x + 2);
  }

  lemma NeighboursMembers(accept: Pos -> bool, s: Pos)
    ensures forall q :: q in Neighbours(accept, s) <==> Adjacent(s, q) && accept(q)
  {
    var ns := Neighbours(accept, s);
    RingScanMembers(accept, s, s.x + 2);
    forall q
      ensures q in ns <==> Adjacent(s, q) && accept(q)
    {
      NeighbourBox(s, q);
    }
  }

  /** The neighbours of `s` are the cells of the 3x3 box around it other than `s`. */
  lemma NeighbourBox(s: Pos, q: Pos)
    ensures Adjacent(s, q) <==> s.x - 1 <= q.x < s.x + 2 && s.y - 1 <= q.y <= s.y + 1 && q != s
  {
  }

  /**
   * For a placed pawn: exactly the legal moves, at most eight, in scan order
   * without duplicates. For an unplaced pawn: exactly the board cells that
   * are neither a dome nor occupied.
   */
  lemma MovementPositionsSpec(st: State, p: Pawn)
    requires ValidGrid(st.grid)
    ensures p.pos.Some? ==> forall q :: q in MovementPositions(st, p) <==> LegalMove(st, p.pos.value, q)
    ensures p.pos.Some? ==> |MovementPositions(st, p)| <= 8
    ensures p.pos.None? ==> forall q :: q in MovementPositions(st, p) <==> FreeCell(st, q)
    ensures Increasing(MovementPositions(st, p))
    ensures forall q :: q in MovementPositions(st, p) ==> InBoard(q)
  {
    match p.pos
    case None =>
      BoardScanContents(st, |st.grid|);
    case Some(s) =>
      MoveScan(st, s);
  }

  /** Exactly the legal builds of a placed pawn, at most eight, in scan order; none for an unplaced pawn. */
  lemma BuildingPositionsSpec(st: State, p: Pawn)
    requires ValidGrid(st.grid)
    ensures p.pos.Some? ==> forall q :: q in BuildingPositions(st, p) <==> LegalBuild(st, p.pos.value, q)
    ensures p.pos.None? ==> BuildingPositions(st, p) == []
    ensures Increasing(BuildingPositions(st, p)) && |BuildingPositions(st, p)| <= 8
  {
    if p.pos.Some? {
      BuildScan(st, p.pos.value);
    }
  }

  lemma {:induction false} PairsAfterContents(st: State, k: int, moves: seq<Pos>)
    requires ValidGrid(st.grid) && 0 <= k < |st.pawns|
    ensures forall m, b :: (m, b) in PairsAfter(st, k, moves) <==>
      m in moves && b.Some? && b.value in BuildingPositions(MovedPawn(st, k, m), MovedPawn(st, k, m).pawns[k])
  {
    if moves != [] {
      var init, last := moves[..|moves| - 1], moves[|moves| - 1];
      PairsAfterContents(st, k, init);
      assert moves == init + [last];
      var moved := MovedPawn(st, k, last);
      var builds := BuildingPositions(moved, moved.pawns[k]);
      forall m, b ensures (m, b) in BuildsAfter(st, k, last) <==> m == last && b.Some? && b.value in builds {
        if m == last && b.Some? && b.value in builds {
          var i :| 0 <= i < |builds| && builds[i] == b.value;
          assert BuildsAfter(st, k, last)[i] == (m, b);
        }
      }
    }
  }

  /**
   * For a placed pawn at `s`: `(m, b)` is listed exactly when moving from `s`
   * to `m` is legal and building on `b` is legal once the pawn stands on `m`
   * (so its old cell counts as free). For an unplaced pawn: the placement
   * cells, each paired with `None`.
   */
  lemma MovesAndBuildsSpec(st: State, k: int)
    requires ValidGrid(st.grid) && 0 <= k < |st.pawns|
    ensures st.pawns[k].pos.Some? ==> forall m, b :: (m, b) in MovesAndBuilds(st, k) <==>
      && LegalMove(st, st.pawns[k].pos.value, m)
      && b.Some? && LegalBuild(MovedPawn(st, k, m), m, b.value)
    ensures st.pawns[k].pos.None? ==> forall m, b :: (m, b) in MovesAndBuilds(st, k) <==>
      FreeCell(st, m) && b == None
  {
    var p := st.pawns[k];
    MovementPositionsSpec(st, p);
    if p.pos.Some? {
      PairsAfterContents(st, k, MovementPositions(st, p));
      forall m, b ensures (m, b) in MovesAndBuilds(st, k) <==>
        LegalMove(st, p.pos.value, m) && b.Some? && LegalBuild(MovedPawn(st, k, m), m, b.value)
      {
        var moved := MovedPawn(st, k, m);
        BuildingPositionsSpec(moved, moved.pawns[k]);
      }
    } else {
      var moves := MovementPositions(st, p);
      forall m, b ensures (m, b) in MovesAndBuilds(st, k) <==> m in moves && b == None {
        if m in moves && b == None {
          var i :| 0 <= i < |moves| && moves[i] == m;
          assert MovesAndBuilds(st, k)[i] == (m, b);
        }
      }
    }
  }
}
