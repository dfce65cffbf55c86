/**
 * The `Board` class of santorinai/board.py: the grid of heights, the pawns
 * and the turn bookkeeping held in mutable fields. Every method is proved to
 * compute the function of module Rules, Enumeration or Transaction that
 * states the corresponding rule, through the snapshot `Model()`.
 */
module GameBoard {
  import opened Wrappers
  import opened Positions
  import opened Pawns
  import opened Rules
  import opened Enumeration
  import opened Transaction

  class Board {
    const nbPlayers: int
    /** Pawn `k` is `pawns[k - 1]`; a pawn object of board.py is its index here. */
    var pawns: seq<Pawn>
    var grid: Grid
    var winnerPlayerNumber: Option<int>
    var turnNumber: int
    var playerTurn: int

    /** The value this board holds. */
    function Model(): State
      reads this
    {
      State(grid, pawns, nbPlayers, playerTurn, turnNumber, winnerPlayerNumber)
    }

    ghost predicate Valid()
      reads this
    {
      ValidState(Model())
    }

    /** `Board(number_of_players)`: `2n` unplaced pawns numbered 1..2n, an empty grid, player 1 to play. */
    constructor(numberOfPlayers: int)
      requires numberOfPlayers >= 1
      ensures Model() == InitialState(numberOfPlayers)
      ensures Valid()
    {
      nbPlayers := numberOfPlayers;
      var ps: seq<Pawn> := [];
      var pawnNumber := 1;
      while pawnNumber <= 2 * numberOfPlayers
        invariant 1 <= pawnNumber <= 2 * numberOfPlayers + 1
        invariant ps == InitialPawns(numberOfPlayers)[..pawnNumber - 1]
      {
        var playerNumber := (pawnNumber - 1) % numberOfPlayers + 1;
        var pawnOrder := (pawnNumber - 1) / numberOfPlayers + 1;
        ps := ps + [Pawn(pawnNumber, pawnOrder, playerNumber, None)];
        pawnNumber := pawnNumber + 1;
      }
      pawns := ps;
      grid := EmptyGrid();
      winnerPlayerNumber := None;
      turnNumber := 1;
      playerTurn := 1;
    }

    /** `is_pawn_on_position`. */
    method IsPawnOnPosition(position: Pos) returns (found: bool)
      ensures found <==> PawnOn(pawns, position)
    {
      var i := 0;
      while i < |pawns|
        invariant 0 <= i <= |pawns|
        invariant forall j :: 0 <= j < i ==> pawns[j].pos != Some(position)
      {
        if pawns[i].pos == Some(position) {
          return true;
        }
        i := i + 1;
      }
      return false;
    }

    /** `is_move_possible`: the verdict of board.py's chain of checks. */
    method IsMovePossible(start: Pos, end: Pos) returns (v: Verdict)
      requires ValidGrid(grid)
      ensures v == MoveVerdict(Model(), start, end)
    {
      if !InBoard(start) {
        return FromOutside;
      }
      if !InBoard(end) {
        return ToOutside;
      }
      if start == end {
        return SamePosition;
      }
      var startLevel := grid[start.x][start.y];
      var endLevel := grid[end.x][end.y];
      if endLevel == 4 {
        return OntoDome;
      }
      if endLevel - startLevel > 1 {
        return TooHigh;
      }
      if !Adjacent(start, end) {
        return TooFar;
      }
      var occupied := IsPawnOnPosition(end);
      if occupied {
        return OntoPawn;
      }
      return Possible;
    }

    /** `is_build_possible`: the verdict of board.py's chain of checks. */
    method IsBuildPossible(builder: Pos, target: Pos) returns (v: Verdict)
      requires ValidGrid(grid)
      ensures v == BuildVerdict(Model(), builder, target)
    {
      if !InBoard(builder) {
        return FromOutside;
      }
      if !InBoard(target) {
        return ToOutside;
      }
      if builder == target {
        return SamePosition;
      }
      if grid[target.x][target.y] == 4 {
        return OntoDome;
      }
      if !Adjacent(builder, target) {
        return TooFar;
      }
      var occupied := IsPawnOnPosition(target);
      if occupied {
        return OntoPawn;
      }
      return Possible;
    }

    /** `get_player_pawns`. */
    method GetPlayerPawns(playerNumber: int) returns (result: seq<Pawn>)
      ensures result == PlayerPawns(pawns, playerNumber)
    {
      result := [];
      var i := 0;
      while i < |pawns|
        invariant 0 <= i <= |pawns|
        invariant result == PlayerPawns(pawns[..i], playerNumber)
      {
        assert pawns[..i + 1][..i] == pawns[..i];
        if pawns[i].playerNumber == playerNumber {
          result := result + [pawns[i]];
        }
        i := i + 1;
      }
      assert pawns[..i] == pawns;
    }

    /** `get_player_pawn`: pawn `p` (order 1) or pawn `p + n` (order 2) of player `p`. */
    method GetPlayerPawn(playerNumber: int, pawnNumber: int) returns (pawn: Pawn)
      requires Valid() && 1 <= playerNumber <= nbPlayers && 1 <= pawnNumber <= 2
      ensures pawn == pawns[if pawnNumber == 1 then playerNumber - 1 else playerNumber - 1 + nbPlayers]
      ensures pawn.playerNumber == playerNumber && pawn.order == pawnNumber
    {
      ghost var st := Model();
      assert ValidState(st);
      var owned := GetPlayerPawns(playerNumber);
      TwoPawnsEach(st, playerNumber);
      pawn := owned[pawnNumber - 1];
    }

    /** `get_playing_pawn`. */
    method GetPlayingPawn(pawnNumber: int) returns (pawn: Option<Pawn>)
      requires Valid()
      ensures pawn == PlayingPawn(Model(), pawnNumber)
    {
      if pawnNumber < 1 || pawnNumber > 2 {
        return None;
      }
      ghost var st := Model();
      assert ValidState(st);
      var owned := GetPlayerPawns(playerTurn);
      TwoPawnsEach(st, playerTurn);
      return Some(owned[pawnNumber - 1]);
    }

    /** `get_first_unplaced_player_pawn`; board.py's implicit `None` when every pawn is placed. */
    method GetFirstUnplacedPlayerPawn(playerNumber: int) returns (pawn: Option<Pawn>)
      ensures pawn == FirstUnplaced(pawns, playerNumber)
    {
      var i := 0;
      while i < |pawns|
        invariant 0 <= i <= |pawns|
        invariant FirstUnplaced(pawns[i..], playerNumber) == FirstUnplaced(pawns, playerNumber)
      {
        assert pawns[i..][1..] == pawns[i + 1..];
        if pawns[i].playerNumber == playerNumber && pawns[i].pos.None? {
          return Some(pawns[i]);
        }
        i := i + 1;
      }
      return None;
    }

    /** `get_possible_movement_positions`. */
    method GetPossibleMovementPositions(pawn: Pawn) returns (moves: seq<Pos>)
      requires ValidGrid(grid)
      ensures moves == MovementPositions(Model(), pawn)
    {
      if pawn.pos.None? {
        moves := FreeCells();
      } else {
        moves := NeighbourScan(pawn.pos.value, true);
      }
    }

    /** `get_possible_building_positions`. */
    method GetPossibleBuildingPositions(pawn: Pawn) returns (builds: seq<Pos>)
      requires ValidGrid(grid)
      ensures builds == BuildingPositions(Model(), pawn)
    {
      if pawn.pos.None? {
        return [];
      }
      builds := NeighbourScan(pawn.pos.value, false);
    }

    /** The placement branch of `get_possible_movement_positions`: every free cell, column by column. */
    method FreeCells() returns (cells: seq<Pos>)
      requires ValidGrid(grid)
      ensures cells == BoardScan(Model(), |grid|)
    {
      cells := [];
      var x := 0;
      while x < BoardSize
        invariant 0 <= x <= BoardSize
        invariant cells == BoardScan(Model(), x)
      {
        var y := 0;
        while y < BoardSize
          invariant 0 <= y <= BoardSize
          invariant cells == BoardScan(Model(), x) + ColumnScan(Model(), x, y)
        {
          var occupied := IsPawnOnPosition(Pos(x, y));
          if grid[x][y] != 4 && !occupied {
            cells := cells + [Pos(x, y)];
          }
          y := y + 1;
        }
        x := x + 1;
      }
    }

    /** The two nested loops over the eight neighbours of `s`, keeping the moves (or the builds) the board accepts. */
    method NeighbourScan(s: Pos, moving: bool) returns (cells: seq<Pos>)
      requires ValidGrid(grid)
      ensures cells == Neighbours(if moving then MoveAccepts(Model(), s) else BuildAccepts(Model(), s), s)
    {
      ghost var accept := if moving then MoveAccepts(Model(), s) else BuildAccepts(Model(), s);
      cells := [];
      var dx := -1;
      while dx < 2
        invariant -1 <= dx <= 2
        invariant cells == RingScan(accept, s, s.x + dx)
      {
        var row := NeighbourRow(s, s.x + dx, moving);
        cells := cells + row;
        dx := dx + 1;
      }
    }

    /** The inner loop: neighbours `(x, s.y + dy)` for `dy` in -1..1, skipping `s` itself. */
    method NeighbourRow(s: Pos, x: int, moving: bool) returns (row: seq<Pos>)
      requires ValidGrid(grid)
      ensures row == RowScan(if moving then MoveAccepts(Model(), s) else BuildAccepts(Model(), s), s, x, s.y + 2)
    {
      ghost var accept := if moving then MoveAccepts(Model(), s) else BuildAccepts(Model(), s);
      row := [];
      var dy := -1;
      while dy < 2
        invariant -1 <= dy <= 2
        invariant row == RowScan(accept, s, x, s.y + dy)
      {
        if !(x == s.x && dy == 0) {
          var q := Pos(x, s.y + dy);
          var ok := Accepted(s, q, moving);
          if ok {
            row := row + [q];
          }
        }
        dy := dy + 1;
      }
    }

    /** The test of the inner loop: `is_move_possible` (or `is_build_possible`) answers `True`. */
    method Accepted(s: Pos, q: Pos, moving: bool) returns (ok: bool)
      requires ValidGrid(grid)
      ensures ok == (if moving then MoveAccepts(Model(), s) else BuildAccepts(Model(), s))(q)
    {
      var v;
      if moving {
        v := IsMovePossible(s, q);
      } else {
        v := IsBuildPossible(s, q);
      }
      ok := v == Possible;
    }

    /** `is_everyone_stuck`. */
    method IsEveryoneStuck() returns (stuck: bool)
      requires ValidGrid(grid)
      ensures stuck == EveryoneStuck(Model())
    {
      var i := 0;
      while i < |pawns|
        invariant 0 <= i <= |pawns|
        invariant forall j :: 0 <= j < i ==> |MovementPositions(Model(), pawns[j])| == 0
      {
        var moves := GetPossibleMovementPositions(pawns[i]);
        if |moves| > 0 {
          assert !EveryoneStuck(Model());
          return false;
        }
        i := i + 1;
      }
      return true;
    }

    /** `is_game_over` (its implicit `None` is the `false` answer). */
    method IsGameOver() returns (over: bool)
      requires ValidGrid(grid)
      ensures over == GameOver(Model())
    {
      if winnerPlayerNumber.Some? {
        return true;
      }
      over := IsEveryoneStuck();
    }

    /** `next_turn`. */
    method NextTurn()
      modifies this
      ensures Model() == AdvanceTurn(old(Model()))
    {
      playerTurn := playerTurn + 1;
      if playerTurn > nbPlayers {
        playerTurn := 1;
      }
      turnNumber := turnNumber + 1;
    }

    /**
     * `get_possible_movement_and_building_positions`. board.py moves the
     * pawn onto each candidate cell to list the builds from there and then
     * moves it back: the board ends as it started.
     */
    method GetPossibleMovementAndBuildingPositions(pawn: Pawn) returns (plays: seq<MoveBuild>)
      requires ValidGrid(grid) && 1 <= pawn.number <= |pawns| && pawns[pawn.number - 1] == pawn
      modifies this
      ensures Model() == old(Model())
      ensures plays == MovesAndBuilds(old(Model()), pawn.number - 1)
    {
      ghost var st := Model();
      var k := pawn.number - 1;
      if pawn.pos.None? {
        var spawns := GetPossibleMovementPositions(pawn);
        return seq(|spawns|, i requires 0 <= i < |spawns| => (spawns[i], None));
      }
      var originalPosition := pawn.pos.value;
      var moves := GetPossibleMovementPositions(pawn);
      plays := BuildsAfterMoves(k, moves);
      MoveBack(st.pawns, pawns, k);
      pawns := pawns[k := MoveTo(pawns[k], originalPosition)];
    }

    /**
     * The loop of `get_possible_movement_and_building_positions` over the
     * moves: pawn `k` is moved onto each of them in turn and its builds listed.
     * It is left on the last one (or where it was, when there is none).
     */
    method BuildsAfterMoves(k: int, moves: seq<Pos>) returns (plays: seq<MoveBuild>)
      requires ValidGrid(grid) && 0 <= k < |pawns|
      modifies this
      ensures unchanged(this`grid, this`winnerPlayerNumber, this`turnNumber, this`playerTurn)
      ensures |pawns| == |old(pawns)| && pawns == old(pawns)[k := pawns[k]] && pawns[k] == old(pawns)[k].(pos := pawns[k].pos)
      ensures plays == PairsAfter(old(Model()), k, moves)
    {
      ghost var st := Model();
      ghost var pawn := pawns[k];
      plays := [];
      var i := 0;
      while i < |moves|
        invariant 0 <= i <= |moves|
        invariant grid == st.grid && winnerPlayerNumber == st.winner
        invariant turnNumber == st.turnNumber && playerTurn == st.playerTurn
        invariant |pawns| == |st.pawns| && pawns == st.pawns[k := pawns[k]] && pawns[k] == pawn.(pos := pawns[k].pos)
        invariant plays == PairsAfter(st, k, moves[..i])
      {
        ghost var before := Model();
        var pairs := MoveAndListBuilds(k, moves[i]);
        assert MovedPawn(before, k, moves[i]) == MovedPawn(st, k, moves[i]);
        plays := plays + pairs;
        assert moves[..i + 1][..i] == moves[..i];
        i := i + 1;
      }
      assert moves[..i] == moves;
    }

    /** One pass of the loop of `get_possible_movement_and_building_positions`: `pawn.move(move)`, then its builds. */
    method MoveAndListBuilds(k: int, move: Pos) returns (pairs: seq<MoveBuild>)
      requires ValidGrid(grid) && 0 <= k < |pawns|
      modifies this
      ensures pawns == old(pawns)[k := MoveTo(old(pawns)[k], move)]
      ensures unchanged(this`grid, this`winnerPlayerNumber, this`turnNumber, this`playerTurn)
      ensures pairs == BuildsAfter(old(Model()), k, move)
    {
      ghost var moved := MovedPawn(Model(), k, move);
      pawns := pawns[k := MoveTo(pawns[k], move)];
      assert Model() == moved;
      var builds := GetPossibleBuildingPositions(pawns[k]);
      pairs := [];
      var j := 0;
      while j < |builds|
        invariant 0 <= j <= |builds|
        invariant |pairs| == j && forall i :: 0 <= i < j ==> pairs[i] == (move, Some(builds[i]))
      {
        pairs := pairs + [(move, Some(builds[j]))];
        j := j + 1;
      }
    }

    /** `place_pawn`: the player to move puts their first unplaced pawn on a free cell, and the turn passes. */
    method PlacePawn(position: Pos) returns (outcome: Outcome)
      requires Valid()
      modifies this
      ensures (Model(), outcome) == Place(old(Model()), position)
      ensures Valid()
    {
      ghost var st := Model();
      PlaceKeepsValid(st, position);
      var over := IsGameOver();
      if over {
        return Refused(GameIsOver);
      }
      var unplaced := GetFirstUnplacedPlayerPawn(playerTurn);
      if unplaced.None? {
        return Refused(AllPawnsPlaced);
      }
      if !InBoard(position) {
        return Refused(OutOfBounds);
      }
      var occupied := IsPawnOnPosition(position);
      if occupied {
        return Refused(PositionOccupied);
      }
      FirstUnplacedOnBoard(st, playerTurn);
      var k := unplaced.value.number - 1;
      assert Place(st, position) == (AdvanceTurn(MovedPawn(st, k, position)), Done(PawnPlaced));
      pawns := pawns[k := MoveTo(pawns[k], position)];
      NextTurn();
      return Done(PawnPlaced);
    }

    /**
     * `play_move`: pawn `pawnNumber` (1 or 2) of the player to move goes to
     * `movePosition` and builds on `buildPosition`. A refused play leaves the
     * board unchanged, and every play keeps it valid.
     */
    method PlayMove(pawnNumber: int, movePosition: Pos, buildPosition: Option<Pos>) returns (outcome: Outcome)
      requires Valid()
      modifies this
      ensures (Model(), outcome) == Play(old(Model()), pawnNumber, movePosition, buildPosition)
      ensures Valid()
    {
      var refusal, pawn := CheckPlay(pawnNumber, movePosition);
      if refusal.Some? {
        return Refused(refusal.value);
      }
      outcome := MoveThenBuildOnBoard(pawn.value, movePosition, buildPosition);
    }

    /** The checks of `play_move` before the move, in order, and the playing pawn they fetch. */
    method CheckPlay(pawnNumber: int, movePosition: Pos) returns (refusal: Option<Rejection>, pawn: Option<Pawn>)
      requires Valid()
      ensures refusal == PlayRefusal(Model(), pawnNumber, movePosition)
      ensures refusal.None? ==> pawn == PlayingPawn(Model(), pawnNumber)
      ensures refusal.None? ==>
        && pawn.Some? && 1 <= pawn.value.number <= |pawns| && pawns[pawn.value.number - 1] == pawn.value
        && pawn.value.pos.Some? && InBoard(movePosition)
    {
      if pawnNumber < 1 || pawnNumber > 2 {
        return Some(BadPawnNumber), None;
      }
      var unplaced := GetFirstUnplacedPlayerPawn(playerTurn);
      if unplaced.Some? {
        return Some(PawnsNotPlaced), None;
      }
      pawn := GetPlayingPawn(pawnNumber);
      var over := IsGameOver();
      if over {
        return Some(GameIsOver), pawn;
      }
      var possibleMoves := GetPossibleMovementPositions(pawn.value);
      if |possibleMoves| == 0 {
        return Some(PawnIsStuck), pawn;
      }
      if !InBoard(movePosition) {
        return Some(OutOfBounds), pawn;
      }
      FirstUnplacedSpec(pawns, playerTurn);
      refusal := None;
    }

    /** The move and build phase of `play_move`, with the move reversed when the build is refused. */
    method MoveThenBuildOnBoard(pawn: Pawn, movePosition: Pos, buildPosition: Option<Pos>) returns (outcome: Outcome)
      requires Valid() && 1 <= pawn.number <= |pawns| && pawns[pawn.number - 1] == pawn
      requires pawn.pos.Some? && InBoard(movePosition)
      modifies this
      ensures (Model(), outcome) == MoveThenBuild(old(Model()), pawn, movePosition, buildPosition)
    {
      ghost var st := Model();
      var why := IsMovePossible(pawn.pos.value, movePosition);
      if why != Possible {
        return Refused(IllegalMove(why));
      }
      var k := pawn.number - 1;
      pawns := pawns[k := MoveTo(pawns[k], movePosition)];
      assert Model() == MovedPawn(st, k, movePosition);
      if grid[movePosition.x][movePosition.y] == 3 {
        winnerPlayerNumber := Some(pawns[k].playerNumber);
        return Done(ReachedTop);
      }
      outcome := BuildOrUndo(st, pawn, movePosition, buildPosition);
    }

    /**
     * After a move that did not reach the top: build on `buildPosition`, or put
     * the pawn back on its cell when the build is refused.
     */
    method BuildOrUndo(ghost st: State, pawn: Pawn, movePosition: Pos, buildPosition: Option<Pos>) returns (outcome: Outcome)
      requires ValidState(st) && 1 <= pawn.number <= |st.pawns| && st.pawns[pawn.number - 1] == pawn
      requires pawn.pos.Some? && InBoard(movePosition)
      requires MoveVerdict(st, pawn.pos.value, movePosition) == Possible
      requires Height(st.grid, movePosition) != WinningLevel
      requires Model() == MovedPawn(st, pawn.number - 1, movePosition)
      modifies this
      ensures (Model(), outcome) == MoveThenBuild(st, pawn, movePosition, buildPosition)
    {
      var k := pawn.number - 1;
      if !PositionValid(buildPosition) {
        pawns := pawns[k := pawns[k].(pos := pawn.pos)];
        assert pawns == st.pawns;
        return Refused(PositionCheck(buildPosition).value);
      }
      var buildWhy := IsBuildPossible(pawns[k].pos.value, buildPosition.value);
      if buildWhy != Possible {
        pawns := pawns[k := pawns[k].(pos := pawn.pos)];
        assert pawns == st.pawns;
        return Refused(IllegalBuild(buildWhy));
      }
      var b := buildPosition.value;
      grid := grid[b.x := grid[b.x][b.y := grid[b.x][b.y] + 1]];
      assert grid == Raise(st.grid, b);
      ghost var built := Built(st, k, movePosition, b);
      assert Model() == built;
      outcome := EndPlay(pawns[k].playerNumber);
      assert MoveThenBuild(st, pawn, movePosition, buildPosition) == EndOfPlay(built, pawn.playerNumber);
    }

    /** The end of `play_move` after the build: the two stuck checks and the turn change. */
    method EndPlay(player: int) returns (outcome: Outcome)
      requires ValidGrid(grid)
      modifies this
      ensures (Model(), outcome) == EndOfPlay(old(Model()), player)
    {
      var stuck := IsEveryoneStuck();
      if stuck {
        winnerPlayerNumber := Some(player);
        return Done(NoOneCanPlay);
      }
      NextTurn();
      var nextPlayerPawns := GetPlayerPawns(playerTurn);
      var nextPlayerStuck := AllStuck(nextPlayerPawns);
      if nextPlayerStuck {
        winnerPlayerNumber := Some(player);
        return Done(NextPlayerStuck);
      }
      return Done(MovePlayed);
    }

    /** The loop of `play_move` that looks for a pawn of `ps` with a movement position. */
    method AllStuck(ps: seq<Pawn>) returns (stuck: bool)
      requires ValidGrid(grid)
      ensures stuck == NoneCanMove(Model(), ps)
    {
      var i := 0;
      while i < |ps|
        invariant 0 <= i <= |ps|
        invariant forall j :: 0 <= j < i ==> |MovementPositions(Model(), ps[j])| == 0
      {
        var moves := GetPossibleMovementPositions(ps[i]);
        if |moves| > 0 {
          assert !NoneCanMove(Model(), ps);
          return false;
        }
        i := i + 1;
      }
      return true;
    }

    /** `copy`: a new board holding the same grid, pawns and turn fields. */
    method Copy() returns (copy: Board)
      requires Valid()
      ensures fresh(copy) && copy.Model() == Model() && copy.Valid()
    {
      copy := new Board(nbPlayers);
      var x := 0;
      while x < BoardSize
        invariant 0 <= x <= BoardSize
        invariant |copy.grid| == BoardSize && forall i :: 0 <= i < BoardSize ==> |copy.grid[i]| == BoardSize
        invariant forall i :: 0 <= i < x ==> copy.grid[i] == grid[i]
      {
        var y := 0;
        while y < BoardSize
          invariant 0 <= y <= BoardSize
          invariant |copy.grid| == BoardSize && forall i :: 0 <= i < BoardSize ==> |copy.grid[i]| == BoardSize
          invariant forall i :: 0 <= i < x ==> copy.grid[i] == grid[i]
          invariant forall j :: 0 <= j < y ==> copy.grid[x][j] == grid[x][j]
        {
          copy.grid := copy.grid[x := copy.grid[x][y := grid[x][y]]];
          y := y + 1;
        }
        assert copy.grid[x] == grid[x];
        x := x + 1;
      }
      assert copy.grid == grid;
      copy.pawns := pawns;
      copy.turnNumber := turnNumber;
      copy.playerTurn := playerTurn;
      copy.winnerPlayerNumber := winnerPlayerNumber;
    }
  }

  /** Moving a pawn that only changed cell back to its original cell restores the pawn list. */
  lemma MoveBack(original: seq<Pawn>, ps: seq<Pawn>, k: int)
    requires 0 <= k < |original| && original[k].pos.Some?
    requires |ps| == |original| && ps == original[k := ps[k]] && ps[k] == original[k].(pos := ps[k].pos)
    ensures ps[k := MoveTo(ps[k], original[k].pos.value)] == original
  {
  }
}
