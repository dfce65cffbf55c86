/**
 * The Santorini rules of santorinai/board.py over a value snapshot of the
 * board: the grid of heights, the board invariant, and the check chains of
 * `is_move_possible` and `is_build_possible` with the legality predicates
 * they decide. The class in board.dfy keeps the same data in mutable fields.
 */
module Rules {
  import opened Wrappers
  import opened Positions
  import opened Pawns

  /** The heights `board[x][y]`: 0 empty, 1..3 tower levels. */
  type Grid = seq<seq<int>>

  /** Height 4 is a terminated tower (a dome). */
  const Dome := 4
  /** Moving onto a level-3 tower wins. */
  const WinningLevel := 3

  predicate ValidGrid(g: Grid) {
    && |g| == BoardSize
    && (forall x :: 0 <= x < BoardSize ==> |g[x]| == BoardSize)
    && (forall x, y :: 0 <= x < BoardSize && 0 <= y < BoardSize ==> 0 <= g[x][y] <= Dome)
  }

  function Height(g: Grid, p: Pos): (h: int)
    requires ValidGrid(g) && InBoard(p)
    ensures 0 <= h <= Dome
  {
    g[p.x][p.y]
  }

  /** The empty board `Board.__init__` starts from. */
  function EmptyGrid(): (g: Grid)
    ensures ValidGrid(g)
    ensures forall p :: InBoard(p) ==> Height(g, p) == 0
  {
    seq(BoardSize, _ => seq(BoardSize, _ => 0))
  }

  /** Everything a `Board` holds. */
  datatype State = State(
    grid: Grid,
    pawns: seq<Pawn>,
    nbPlayers: int,
    playerTurn: int,
    turnNumber: int,
    winner: Option<int>)

  /** `is_pawn_on_position`. */
  predicate PawnOn(ps: seq<Pawn>, q: Pos) {
    exists i :: 0 <= i < |ps| && ps[i].pos == Some(q)
  }

  /** Pawn `i + 1` sits at index `i` and has the owner and order `Board.__init__` gave it. */
  predicate WellNumbered(ps: seq<Pawn>, n: int)
    requires n >= 1
  {
    && |ps| == 2 * n
    && forall i :: 0 <= i < |ps| ==>
         && ps[i].number == i + 1
         && ps[i].playerNumber == PlayerOfPawn(n, i + 1)
         && ps[i].order == OrderOfPawn(n, i + 1)
  }

  /** Placed pawns stand on the board, never two on one cell. */
  predicate Apart(ps: seq<Pawn>) {
    && (forall i :: 0 <= i < |ps| && ps[i].pos.Some? ==> InBoard(ps[i].pos.value))
    && (forall i, j :: 0 <= i < j < |ps| && ps[i].pos.Some? ==> ps[i].pos != ps[j].pos)
  }

  /** The invariant every `Board` keeps. */
  predicate ValidState(st: State) {
    && ValidGrid(st.grid)
    && st.nbPlayers >= 1
    && WellNumbered(st.pawns, st.nbPlayers)
    && Apart(st.pawns)
    && 1 <= st.playerTurn <= st.nbPlayers
    && st.turnNumber >= 1
    && (st.winner.Some? ==> 1 <= st.winner.value <= st.nbPlayers)
  }

  /** The board `Board(n)` creates. */
  function InitialState(n: int): (st: State)
    requires n >= 1
    ensures ValidState(st) && st.nbPlayers == n
    ensures st.playerTurn == 1 && st.turnNumber == 1 && st.winner == None
    ensures forall p :: InBoard(p) ==> Height(st.grid, p) == 0
    ensures forall i :: 0 <= i < |st.pawns| ==> st.pawns[i].pos == None
  {
    State(EmptyGrid(), InitialPawns(n), n, 1, 1, None)
  }

  // ---------------------------------------------------------------------
  // Legality of a move and of a build
  // ---------------------------------------------------------------------

  /** Why a move or a build is refused; the first failing check decides. */
  datatype Verdict =
    | Possible
    | FromOutside   // the start cell is off the board
    | ToOutside     // the target cell is off the board
    | SamePosition  // start and target coincide
    | OntoDome      // the target is a terminated tower
    | TooHigh       // the target is more than one level above the start (moves only)
    | TooFar        // the target is not adjacent
    | OntoPawn      // a pawn stands on the target

  /** A legal move, stated as one conjunction. */
  predicate LegalMove(st: State, s: Pos, e: Pos)
    requires ValidGrid(st.grid)
  {
    && InBoard(s) && InBoard(e) && s != e
    && Height(st.grid, e) != Dome
    && Height(st.grid, e) <= Height(st.grid, s) + 1
    && Adjacent(s, e)
    && !PawnOn(st.pawns, e)
  }

  /** A legal build: no condition on the height difference. */
  predicate LegalBuild(st: State, s: Pos, e: Pos)
    requires ValidGrid(st.grid)
  {
    && InBoard(s) && InBoard(e) && s != e
    && Height(st.grid, e) != Dome
    && Adjacent(s, e)
    && !PawnOn(st.pawns, e)
  }

  /**
   * `is_move_possible`: the chain of checks, in the order of
   * santorinai/board.py; each refusal is given exactly when its check is the
   * first to fail.
   */
  function MoveVerdict(st: State, s: Pos, e: Pos): (v: Verdict)
    requires ValidGrid(st.grid)
    ensures v == Possible <==> LegalMove(st, s, e)
    ensures v == FromOutside <==> !InBoard(s)
    ensures v == ToOutside <==> InBoard(s) && !InBoard(e)
    ensures v == SamePosition <==> InBoard(s) && InBoard(e) && s == e
    ensures v == OntoDome <==> InBoard(s) && InBoard(e) && s != e && Height(st.grid, e) == Dome
    ensures v == TooHigh <==>
      && InBoard(s) && InBoard(e) && s != e && Height(st.grid, e) != Dome
      && Height(st.grid, e) > Height(st.grid, s) + 1
    ensures v == TooFar <==>
      && InBoard(s) && InBoard(e) && s != e && Height(st.grid, e) != Dome
      && Height(st.grid, e) <= Height(st.grid, s) + 1 && !Adjacent(s, e)
    ensures v == OntoPawn <==>
      && InBoard(s) && InBoard(e) && s != e && Height(st.grid, e) != Dome
      && Height(st.grid, e) <= Height(st.grid, s) + 1 && Adjacent(s, e) && PawnOn(st.pawns, e)
  {
    if !InBoard(s) then FromOutside
    else if !InBoard(e) then ToOutside
    else if s == e then SamePosition
    else if Height(st.grid, e) == Dome then OntoDome
    else if Height(st.grid, e) - Height(st.grid, s) > 1 then TooHigh
    else if !Adjacent(s, e) then TooFar
    else if PawnOn(st.pawns, e) then OntoPawn
    else Possible
  }

  /**
   * `is_build_possible`: the chain of checks, in the order of
   * santorinai/board.py; each refusal is given exactly when its check is the
   * first to fail, and no height difference is checked.
   */
  function BuildVerdict(st: State, s: Pos, e: Pos): (v: Verdict)
    requires ValidGrid(st.grid)
    ensures v == Possible <==> LegalBuild(st, s, e)
    ensures v != TooHigh
    ensures v == FromOutside <==> !InBoard(s)
    ensures v == ToOutside <==> InBoard(s) && !InBoard(e)
    ensures v == SamePosition <==> InBoard(s) && InBoard(e) && s == e
    ensures v == OntoDome <==> InBoard(s) && InBoard(e) && s != e && Height(st.grid, e) == Dome
    ensures v == TooFar <==>
      InBoard(s) && InBoard(e) && s != e && Height(st.grid, e) != Dome && !Adjacent(s, e)
    ensures v == OntoPawn <==>
      && InBoard(s) && InBoard(e) && s != e && Height(st.grid, e) != Dome
      && Adjacent(s, e) && PawnOn(st.pawns, e)
  {
    if !InBoard(s) then FromOutside
    else if !InBoard(e) then ToOutside
    else if s == e then SamePosition
    else if Height(st.grid, e) == Dome then OntoDome
    else if !Adjacent(s, e) then TooFar
    else if PawnOn(st.pawns, e) then OntoPawn
    else Possible
  }
}
