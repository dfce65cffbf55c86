/**
 * Pawn lookups, turn bookkeeping and the two state-changing operations of
 * santorinai/board.py (`place_pawn` and `play_move`) as functions from a
 * board snapshot to the new snapshot and the reported outcome.
 */
module Transaction {
  import opened Wrappers
  import opened Positions
  import opened Pawns
  import opened Rules
  import opened Enumeration

  // ---------------------------------------------------------------------
  // Pawn lookups
  // ---------------------------------------------------------------------

  /** `get_player_pawns`: the player's pawns in board order. */
  function PlayerPawns(ps: seq<Pawn>, player: int): seq<Pawn> {
    if ps == [] then []
    else
      var last := ps[|ps| - 1];
      PlayerPawns(ps[..|ps| - 1], player) + if last.playerNumber == player then [last] else []
  }

  lemma {:induction false} PlayerPawnsPrefix(ps: seq<Pawn>, n: int, player: int, i: int)
    requires n >= 1 && WellNumbered(ps, n) && 1 <= player <= n && 0 <= i <= |ps|
    ensures PlayerPawns(ps[..i], player) ==
      (if player - 1 < i then [ps[player - 1]] else []) + (if player - 1 + n < i then [ps[player - 1 + n]] else [])
  {
    if i > 0 {
      PlayerPawnsPrefix(ps, n, player, i - 1);
      assert ps[..i][..i - 1] == ps[..i - 1];
      OwnedPawns(n, player, i);
    }
  }

  /** `get_player_pawns` keeps exactly the pawns the player owns. */
  lemma {:induction false} PlayerPawnsMembers(ps: seq<Pawn>, player: int)
    ensures forall p :: p in PlayerPawns(ps, player) <==> p in ps && p.playerNumber == player
  {
    if ps != [] {
      PlayerPawnsMembers(ps[..|ps| - 1], player);
      assert ps == ps[..|ps| - 1] + [ps[|ps| - 1]];
    }
  }

  /** Under the numbering of `Board.__init__`, player `p` owns exactly pawns `p` and `p + n`, in that order. */
  lemma TwoPawnsEach(st: State, player: int)
    requires ValidState(st) && 1 <= player <= st.nbPlayers
    ensures PlayerPawns(st.pawns, player) == [st.pawns[player - 1], st.pawns[player - 1 + st.nbPlayers]]
    ensures st.pawns[player - 1].order == 1 && st.pawns[player - 1 + st.nbPlayers].order == 2
  {
    PlayerPawnsPrefix(st.pawns, st.nbPlayers, player, |st.pawns|);
    assert st.pawns[..|st.pawns|] == st.pawns;
    OwnedPawns(st.nbPlayers, player, player);
    OwnedPawns(st.nbPlayers, player, player + st.nbPlayers);
  }

  /** `get_player_pawn`: pawn `pawnNumber` (1 or 2) of a player. */
  function PlayerPawn(st: State, player: int, pawnNumber: int): (p: Pawn)
    requires ValidState(st) && 1 <= player <= st.nbPlayers && 1 <= pawnNumber <= 2
    ensures p == st.pawns[if pawnNumber == 1 then player - 1 else player - 1 + st.nbPlayers]
    ensures p.playerNumber == player && p.order == pawnNumber
  {
    TwoPawnsEach(st, player);
    PlayerPawns(st.pawns, player)[pawnNumber - 1]
  }

  /** `get_playing_pawn`: `None` unless the pawn number is 1 or 2. */
  function PlayingPawn(st: State, pawnNumber: int): (r: Option<Pawn>)
    requires ValidState(st)
    ensures r.Some? <==> 1 <= pawnNumber <= 2
    ensures r.Some? ==> 1 <= r.value.number <= |st.pawns| && r.value == st.pawns[r.value.number - 1]
    ensures r.Some? ==> r.value.playerNumber == st.playerTurn && r.value.order == pawnNumber
  {
    if pawnNumber < 1 || pawnNumber > 2 then None
    else Some(PlayerPawn(st, st.playerTurn, pawnNumber))
  }

  /** `get_first_unplaced_player_pawn`. */
  function FirstUnplaced(ps: seq<Pawn>, player: int): Option<Pawn> {
    if ps == [] then None
    else if ps[0].playerNumber == player && ps[0].pos.None? then Some(ps[0])
    else FirstUnplaced(ps[1..], player)
  }

  /** The first pawn of the player that has no cell yet; `None` exactly when all of them are placed. */
  lemma {:induction false} FirstUnplacedSpec(ps: seq<Pawn>, player: int)
    ensures FirstUnplaced(ps, player).None? <==>
      forall i :: 0 <= i < |ps| && ps[i].playerNumber == player ==> ps[i].pos.Some?
    ensures FirstUnplaced(ps, player).Some? ==>
      exists i :: (0 <= i < |ps|
        && FirstUnplaced(ps, player) == Some(ps[i])
        && ps[i].playerNumber == player && ps[i].pos.None?
        && forall j :: 0 <= j < i && ps[j].playerNumber == player ==> ps[j].pos.Some?)
  {
    if ps != [] {
      FirstUnplacedSpec(ps[1..], player);
      if !(ps[0].playerNumber == player && ps[0].pos.None?) {
        if FirstUnplaced(ps, player).Some? {
          var i :| 0 <= i < |ps[1..]| && FirstUnplaced(ps[1..], player) == Some(ps[1..][i])
            && ps[1..][i].playerNumber == player && ps[1..][i].pos.None?
            && forall j :: 0 <= j < i && ps[1..][j].playerNumber == player ==> ps[1..][j].pos.Some?;
          assert ps[i + 1] == ps[1..][i];
          forall j | 0 <= j < i + 1 && ps[j].playerNumber == player ensures ps[j].pos.Some? {
            if j > 0 { assert ps[j] == ps[1..][j - 1]; }
          }
        } else {
          forall i | 0 <= i < |ps| && ps[i].playerNumber == player ensures ps[i].pos.Some? {
            if i > 0 { assert ps[i] == ps[1..][i - 1]; }
          }
        }
      } else {
        assert FirstUnplaced(ps, player) == Some(ps[0]);
      }
    }
  }

  /** On a valid board the unplaced pawn found is the board's pawn number `number`. */
  lemma FirstUnplacedOnBoard(st: State, player: int)
    requires ValidState(st)
    ensures FirstUnplaced(st.pawns, player).Some? ==>
      var p := FirstUnplaced(st.pawns, player).value;
      1 <= p.number <= |st.pawns| && st.pawns[p.number - 1] == p && p.pos.None? && p.playerNumber == player
  {
    FirstUnplacedSpec(st.pawns, player);
  }

  // ---------------------------------------------------------------------
  // Turns
  // ---------------------------------------------------------------------

  /** The player after `t` among players `1..n`. */
  function NextPlayer(t: int, n: int): int {
    if t + 1 > n then 1 else t + 1
  }

  /** `next_turn`. */
  function AdvanceTurn(st: State): State {
    st.(playerTurn := NextPlayer(st.playerTurn, st.nbPlayers), turnNumber := st.turnNumber + 1)
  }

  /** The player whose turn it is after `k` calls of `next_turn`, starting at `t`. */
  function AfterTurns(t: int, n: int, k: nat): int {
    if k == 0 then t else NextPlayer(AfterTurns(t, n, k - 1), n)
  }

  /**
   * `next_turn` cycles through players 1..n: the turn comes back to `t`
   * after exactly `n` steps and not before.
   */
  lemma {:induction false} TurnsCycle(t: int, n: int, k: nat)
    requires 1 <= t <= n && k <= n
    ensures AfterTurns(t, n, k) == if t + k <= n then t + k else t + k - n
    ensures 1 <= AfterTurns(t, n, k) <= n
    ensures AfterTurns(t, n, k) == t <==> k == 0 || k == n
  {
    if k > 0 {
      TurnsCycle(t, n, k - 1);
    }
  }

  /** After `k` completed turns the turn number has grown by exactly `k`. */
  function AfterTurnsState(st: State, k: nat): (r: State)
    ensures r.turnNumber == st.turnNumber + k
    ensures r.playerTurn == AfterTurns(st.playerTurn, st.nbPlayers, k)
    ensures r == st.(playerTurn := r.playerTurn, turnNumber := r.turnNumber)
  {
    if k == 0 then st else AdvanceTurn(AfterTurnsState(st, k - 1))
  }

  // ---------------------------------------------------------------------
  // End of game
  // ---------------------------------------------------------------------

  /** None of the pawns `ps` has a movement position. */
  predicate NoneCanMove(st: State, ps: seq<Pawn>)
    requires ValidGrid(st.grid)
  {
    forall j :: 0 <= j < |ps| ==> |MovementPositions(st, ps[j])| == 0
  }

  /** `is_everyone_stuck`: no pawn on the board has a movement position. */
  predicate EveryoneStuck(st: State)
    requires ValidGrid(st.grid)
  {
    NoneCanMove(st, st.pawns)
  }

  /** `is_game_over`. */
  predicate GameOver(st: State)
    requires ValidGrid(st.grid)
  {
    st.winner.Some? || EveryoneStuck(st)
  }

  /** The check in `play_move` that no pawn of `player` can move. */
  predicate PlayerStuck(st: State, player: int)
    requires ValidGrid(st.grid)
  {
    NoneCanMove(st, PlayerPawns(st.pawns, player))
  }

  // ---------------------------------------------------------------------
  // The transactions
  // ---------------------------------------------------------------------

  /** The `False` answers of `place_pawn` and `play_move`, one per message. */
  datatype Rejection =
    | BadPawnNumber         // the pawn number is not 1 or 2
    | PawnsNotPlaced        // the player still has a pawn to place
    | GameIsOver
    | PawnIsStuck           // the chosen pawn has no movement position
    | NotATuple             // `is_position_valid`: the position is not a tuple (a missing build)
    | OutOfBounds           // `is_position_valid`: the position is not within the board bounds
    | IllegalMove(why: Verdict)
    | IllegalBuild(why: Verdict)
    | AllPawnsPlaced
    | PositionOccupied

  /** The `True` answers, one per message. */
  datatype Success =
    | PawnPlaced
    | ReachedTop            // the pawn moved onto a level-3 tower
    | NoOneCanPlay          // after the build every pawn is stuck
    | NextPlayerStuck       // after the turn change the next player cannot move
    | MovePlayed

  datatype Outcome = Done(how: Success) | Refused(why: Rejection)

  /** `is_position_valid` once Dafny's types rule out non-tuples of non-integers: `None` is not a tuple. */
  predicate PositionValid(pos: Option<Pos>) {
    pos.Some? && InBoard(pos.value)
  }

  /** The refusal `is_position_valid` answers, one per message, or `None` for a valid position. */
  function PositionCheck(pos: Option<Pos>): (r: Option<Rejection>)
    ensures r.None? <==> PositionValid(pos)
    ensures r == Some(NotATuple) <==> pos.None?
    ensures r == Some(OutOfBounds) <==> pos.Some? && !InBoard(pos.value)
  {
    match pos
    case None => Some(NotATuple)
    case Some(p) => if InBoard(p) then None else Some(OutOfBounds)
  }

  /** Raising the tower on `b` by one level (`self.board[x][y] += 1`). */
  function Raise(g: Grid, b: Pos): (r: Grid)
    requires ValidGrid(g) && InBoard(b) && Height(g, b) < Dome
    ensures ValidGrid(r)
    ensures Height(r, b) == Height(g, b) + 1
    ensures forall q :: InBoard(q) && q != b ==> Height(r, q) == Height(g, q)
  {
    g[b.x := g[b.x][b.y := g[b.x][b.y] + 1]]
  }

  /** `place_pawn`. */
  function Place(st: State, position: Pos): (r: (State, Outcome))
    requires ValidState(st)
    ensures r.1.Refused? ==> r.0 == st
    ensures r.1.Done? ==> r.1.how == PawnPlaced && r.0.grid == st.grid
  {
    if GameOver(st) then (st, Refused(GameIsOver))
    else
      FirstUnplacedOnBoard(st, st.playerTurn);
      match FirstUnplaced(st.pawns, st.playerTurn)
      case None => (st, Refused(AllPawnsPlaced))
      case Some(pawn) =>
        if !InBoard(position) then (st, Refused(OutOfBounds))
        else if PawnOn(st.pawns, position) then (st, Refused(PositionOccupied))
        else (AdvanceTurn(MovedPawn(st, pawn.number - 1, position)), Done(PawnPlaced))
  }

  /**
   * The checks `play_move` makes before it moves anything, in board.py's
   * order; the result is the first that fails.
   */
  function PlayRefusal(st: State, pawnNumber: int, move: Pos): (r: Option<Rejection>)
    requires ValidState(st)
    ensures r.None? <==>
      && 1 <= pawnNumber <= 2 && FirstUnplaced(st.pawns, st.playerTurn).None? && !GameOver(st)
      && |MovementPositions(st, PlayingPawn(st, pawnNumber).value)| != 0 && InBoard(move)
  {
    if pawnNumber < 1 || pawnNumber > 2 then Some(BadPawnNumber)
    else if FirstUnplaced(st.pawns, st.playerTurn).Some? then Some(PawnsNotPlaced)
    else if GameOver(st) then Some(GameIsOver)
    else if |MovementPositions(st, PlayingPawn(st, pawnNumber).value)| == 0 then Some(PawnIsStuck)
    else if !InBoard(move) then Some(OutOfBounds)
    else None
  }

  /**
   * `play_move`. A refused play leaves the board as it was (board.py moves
   * the pawn and moves it back when the build is refused).
   */
  function Play(st: State, pawnNumber: int, move: Pos, build: Option<Pos>): (r: (State, Outcome))
    requires ValidState(st)
    ensures r.1.Refused? ==> r.0 == st
    ensures r.1.Done? ==> r.1.how != PawnPlaced
    ensures ValidState(r.0)
  {
    match PlayRefusal(st, pawnNumber, move)
    case Some(why) => (st, Refused(why))
    case None =>
      FirstUnplacedSpec(st.pawns, st.playerTurn);
      MoveThenBuild(st, PlayingPawn(st, pawnNumber).value, move, build)
  }

  /** The move and build phase of `play_move`, once the pawn, the game and the move cell are checked. */
  function MoveThenBuild(st: State, pawn: Pawn, move: Pos, build: Option<Pos>): (r: (State, Outcome))
    requires ValidState(st) && 1 <= pawn.number <= |st.pawns| && st.pawns[pawn.number - 1] == pawn
    requires pawn.pos.Some? && InBoard(move)
    ensures r.1.Refused? ==> r.0 == st
    ensures r.1.Done? ==> r.1.how != PawnPlaced
    ensures ValidState(r.0)
  {
    var why := MoveVerdict(st, pawn.pos.value, move);
    if why != Possible then (st, Refused(IllegalMove(why)))
    else
      MoveKeepsValid(st, pawn.number - 1, move);
      var moved := MovedPawn(st, pawn.number - 1, move);
      var player := pawn.playerNumber;
      if Height(st.grid, move) == WinningLevel then (moved.(winner := Some(player)), Done(ReachedTop))
      else if !PositionValid(build) then (st, Refused(PositionCheck(build).value))
      else
        var buildWhy := BuildVerdict(moved, move, build.value);
        if buildWhy != Possible then (st, Refused(IllegalBuild(buildWhy)))
        else
          BuildBranchValid(st, pawn.number - 1, move, build.value);
          EndOfPlay(moved.(grid := Raise(st.grid, build.value)), player)
  }

  /** The board once pawn `k` has moved to `m` and built on `b`, before the stuck checks. */
  function Built(st: State, k: int, m: Pos, b: Pos): State
    requires ValidGrid(st.grid) && 0 <= k < |st.pawns| && InBoard(b) && Height(st.grid, b) < Dome
  {
    MovedPawn(st, k, m).(grid := Raise(st.grid, b))
  }

  /**
   * A move and build `play_move` accepts for `pawn`: a legal move, then,
   * unless the move reached level 3, a legal build from the new cell.
   */
  predicate LegalPlay(st: State, pawn: Pawn, move: Pos, build: Option<Pos>)
    requires ValidGrid(st.grid) && 1 <= pawn.number <= |st.pawns|
  {
    && pawn.pos.Some? && LegalMove(st, pawn.pos.value, move)
    && (|| Height(st.grid, move) == WinningLevel
        || (build.Some? && LegalBuild(MovedPawn(st, pawn.number - 1, move), move, build.value)))
  }

  /** The end of `play_move` after the build: the two stuck checks, and the turn change. */
  function EndOfPlay(built: State, player: int): (r: (State, Outcome))
    requires ValidGrid(built.grid)
    ensures r.1.Done? && r.1.how != PawnPlaced && r.1.how != ReachedTop
  {
    if EveryoneStuck(built) then (built.(winner := Some(player)), Done(NoOneCanPlay))
    else
      var next := AdvanceTurn(built);
      if PlayerStuck(next, next.playerTurn) then (next.(winner := Some(player)), Done(NextPlayerStuck))
      else (next, Done(MovePlayed))
  }

  // ---------------------------------------------------------------------
  // What the transactions preserve and change
  // ---------------------------------------------------------------------

  /** Putting a pawn on a free cell of the board keeps the board valid. */
  lemma MoveKeepsValid(st: State, k: int, m: Pos)
    requires ValidState(st) && 0 <= k < |st.pawns| && InBoard(m) && !PawnOn(st.pawns, m)
    ensures ValidState(MovedPawn(st, k, m))
  {
    var ps := MovedPawn(st, k, m).pawns;
    forall i, j | 0 <= i < j < |ps| && ps[i].pos.Some? ensures ps[i].pos != ps[j].pos {
      if i == k {
        assert ps[j] == st.pawns[j];
      } else if j == k {
        assert ps[i] == st.pawns[i];
      }
    }
  }

  /** The player of `next_turn` stays within 1..n. */
  lemma AdvanceKeepsValid(st: State)
    requires ValidState(st)
    ensures ValidState(AdvanceTurn(st))
  {
  }

  /** `place_pawn` keeps the board valid. */
  lemma PlaceKeepsValid(st: State, position: Pos)
    requires ValidState(st)
    ensures ValidState(Place(st, position).0)
  {
    FirstUnplacedOnBoard(st, st.playerTurn);
    var p := FirstUnplaced(st.pawns, st.playerTurn);
    if !GameOver(st) && p.Some? && InBoard(position) && !PawnOn(st.pawns, position) {
      MoveKeepsValid(st, p.value.number - 1, position);
    }
  }

  /**
   * `place_pawn` puts the player's first unplaced pawn on a free board cell and
   * passes the turn; in every other case nothing changes.
   */
  lemma PlaceEffects(st: State, position: Pos)
    requires ValidState(st)
    ensures var (after, outcome) := Place(st, position);
      && (outcome.Refused? ==> after == st)
      && (outcome.Done? <==>
            !GameOver(st) && FirstUnplaced(st.pawns, st.playerTurn).Some?
            && InBoard(position) && !PawnOn(st.pawns, position))
      && (outcome.Done? ==>
            var p := FirstUnplaced(st.pawns, st.playerTurn).value;
            && 1 <= p.number <= |st.pawns| && p.playerNumber == st.playerTurn && p.pos.None?
            && after.pawns == st.pawns[p.number - 1 := MoveTo(p, position)]
            && after.playerTurn == NextPlayer(st.playerTurn, st.nbPlayers)
            && after.turnNumber == st.turnNumber + 1
            && after.grid == st.grid && after.winner == st.winner)
  {
    var placed := Place(st, position);
    FirstUnplacedOnBoard(st, st.playerTurn);
    var over := GameOver(st);
    var unplaced := FirstUnplaced(st.pawns, st.playerTurn);
    if over {
      assert placed == (st, Refused(GameIsOver));
    } else if unplaced.None? {
      assert placed == (st, Refused(AllPawnsPlaced));
    } else if !InBoard(position) {
      assert placed == (st, Refused(OutOfBounds));
    } else if PawnOn(st.pawns, position) {
      assert placed == (st, Refused(PositionOccupied));
    } else {
      var p := unplaced.value;
      assert placed == (AdvanceTurn(MovedPawn(st, p.number - 1, position)), Done(PawnPlaced));
    }
  }

  /** The end of a play changes only the winner and the turn fields. */
  lemma EndOfPlayEffects(built: State, player: int)
    requires ValidState(built) && 1 <= player <= built.nbPlayers
    ensures var (after, outcome) := EndOfPlay(built, player);
      && ValidState(after)
      && after.grid == built.grid && after.pawns == built.pawns
      && (outcome.how == NoOneCanPlay ==>
            after.playerTurn == built.playerTurn && after.turnNumber == built.turnNumber)
      && (outcome.how != NoOneCanPlay ==>
            after.playerTurn == NextPlayer(built.playerTurn, built.nbPlayers)
            && after.turnNumber == built.turnNumber + 1)
      && after.winner == if outcome.how == MovePlayed then built.winner else Some(player)
    ensures EndOfPlay(built, player).1.how == NoOneCanPlay <==> EveryoneStuck(built)
    ensures EndOfPlay(built, player).1.how == NextPlayerStuck <==>
      !EveryoneStuck(built) && PlayerStuck(AdvanceTurn(built), NextPlayer(built.playerTurn, built.nbPlayers))
    ensures EndOfPlay(built, player).1.how == MovePlayed <==>
      !EveryoneStuck(built) && !PlayerStuck(AdvanceTurn(built), NextPlayer(built.playerTurn, built.nbPlayers))
  {
    AdvanceKeepsValid(built);
  }

  /**
   * The move and build phase: a legal move; onto a level-3 tower the mover's
   * player wins and nothing else happens; otherwise a legal build from the new
   * cell raises that cell, and only that cell, by one level.
   */
  lemma MoveThenBuildEffects(st: State, pawn: Pawn, move: Pos, build: Option<Pos>)
    requires ValidState(st) && 1 <= pawn.number <= |st.pawns| && st.pawns[pawn.number - 1] == pawn
    requires pawn.pos.Some? && InBoard(move)
    ensures var (after, outcome) := MoveThenBuild(st, pawn, move, build);
      && ValidState(after)
      && (outcome.Done? ==>
        && LegalMove(st, pawn.pos.value, move)
        && after.pawns == st.pawns[pawn.number - 1 := MoveTo(pawn, move)]
        && (outcome.how == ReachedTop <==> Height(st.grid, move) == WinningLevel)
        && (outcome.how == ReachedTop ==>
              after == MovedPawn(st, pawn.number - 1, move).(winner := Some(pawn.playerNumber)))
        && (outcome.how != ReachedTop ==>
              && build.Some? && LegalBuild(MovedPawn(st, pawn.number - 1, move), move, build.value)
              && (forall q :: InBoard(q) ==>
                   Height(after.grid, q) == Height(st.grid, q) + (if q == build.value then 1 else 0))
              && (outcome.how == NoOneCanPlay ==>
                   after.playerTurn == st.playerTurn && after.turnNumber == st.turnNumber)
              && (outcome.how != NoOneCanPlay ==>
                   after.playerTurn == NextPlayer(st.playerTurn, st.nbPlayers)
                   && after.turnNumber == st.turnNumber + 1)
              && after.winner == (if outcome.how == MovePlayed then st.winner else Some(pawn.playerNumber))
              && var built := Built(st, pawn.number - 1, move, build.value);
              && (outcome.how == NoOneCanPlay <==> EveryoneStuck(built))
              && (outcome.how == NextPlayerStuck <==>
                    !EveryoneStuck(built) && PlayerStuck(AdvanceTurn(built), NextPlayer(st.playerTurn, st.nbPlayers)))
              && (outcome.how == MovePlayed <==>
                    !EveryoneStuck(built) && !PlayerStuck(AdvanceTurn(built), NextPlayer(st.playerTurn, st.nbPlayers)))))
  {
    var k := pawn.number - 1;
    var player := pawn.playerNumber;
    var why := MoveVerdict(st, pawn.pos.value, move);
    if why == Possible {
      MoveKeepsValid(st, k, move);
      var moved := MovedPawn(st, k, move);
      if Height(st.grid, move) == WinningLevel {
        assert MoveThenBuild(st, pawn, move, build) == (moved.(winner := Some(player)), Done(ReachedTop));
      } else if PositionValid(build) && BuildVerdict(moved, move, build.value) == Possible {
        BuildPhaseEffects(st, pawn, move, build.value);
      }
    }
  }

  /** `MoveThenBuild` on a legal move below level 3 and a legal build is the end of play on the built board. */
  lemma BuildPhaseEffects(st: State, pawn: Pawn, move: Pos, b: Pos)
    requires ValidState(st) && 1 <= pawn.number <= |st.pawns| && st.pawns[pawn.number - 1] == pawn
    requires pawn.pos.Some? && LegalMove(st, pawn.pos.value, move) && Height(st.grid, move) != WinningLevel
    requires LegalBuild(MovedPawn(st, pawn.number - 1, move), move, b)
    ensures MoveThenBuild(st, pawn, move, Some(b)) ==
      EndOfPlay(Built(st, pawn.number - 1, move, b), pawn.playerNumber)
    ensures var (after, outcome) := MoveThenBuild(st, pawn, move, Some(b));
      && after.pawns == st.pawns[pawn.number - 1 := MoveTo(pawn, move)]
      && outcome.how != ReachedTop
      && (forall q :: InBoard(q) ==> Height(after.grid, q) == Height(st.grid, q) + (if q == b then 1 else 0))
      && (outcome.how == NoOneCanPlay ==>
            after.playerTurn == st.playerTurn && after.turnNumber == st.turnNumber)
      && (outcome.how != NoOneCanPlay ==>
            after.playerTurn == NextPlayer(st.playerTurn, st.nbPlayers) && after.turnNumber == st.turnNumber + 1)
      && after.winner == (if outcome.how == MovePlayed then st.winner else Some(pawn.playerNumber))
      && var built := Built(st, pawn.number - 1, move, b);
      && (outcome.how == NoOneCanPlay <==> EveryoneStuck(built))
      && (outcome.how == NextPlayerStuck <==>
            !EveryoneStuck(built) && PlayerStuck(AdvanceTurn(built), NextPlayer(st.playerTurn, st.nbPlayers)))
      && (outcome.how == MovePlayed <==>
            !EveryoneStuck(built) && !PlayerStuck(AdvanceTurn(built), NextPlayer(st.playerTurn, st.nbPlayers)))
  {
    var k := pawn.number - 1;
    MoveKeepsValid(st, k, move);
    assert MoveVerdict(st, pawn.pos.value, move) == Possible;
    assert BuildVerdict(MovedPawn(st, k, move), move, b) == Possible;
    assert MoveThenBuild(st, pawn, move, Some(b)) == EndOfPlay(Built(st, k, move, b), pawn.playerNumber);
    BuildBranchEffects(st, k, move, b);
  }

  /** The accepted build branch of `play_move`: pawn `k` moved to `m`, then built on `b`. */
  lemma BuildBranchEffects(st: State, k: int, m: Pos, b: Pos)
    requires ValidState(st) && 0 <= k < |st.pawns| && InBoard(m) && !PawnOn(st.pawns, m)
    requires InBoard(b) && Height(st.grid, b) < Dome
    ensures var built := Built(st, k, m, b);
      var (after, outcome) := EndOfPlay(built, st.pawns[k].playerNumber);
      && ValidState(after)
      && after.pawns == st.pawns[k := MoveTo(st.pawns[k], m)]
      && outcome.how != ReachedTop
      && (forall q :: InBoard(q) ==> Height(after.grid, q) == Height(st.grid, q) + (if q == b then 1 else 0))
      && (outcome.how == NoOneCanPlay ==>
            after.playerTurn == st.playerTurn && after.turnNumber == st.turnNumber)
      && (outcome.how != NoOneCanPlay ==>
            after.playerTurn == NextPlayer(st.playerTurn, st.nbPlayers) && after.turnNumber == st.turnNumber + 1)
      && after.winner == (if outcome.how == MovePlayed then st.winner else Some(st.pawns[k].playerNumber))
      && (outcome.how == NoOneCanPlay <==> EveryoneStuck(built))
      && (outcome.how == NextPlayerStuck <==>
            !EveryoneStuck(built) && PlayerStuck(AdvanceTurn(built), NextPlayer(st.playerTurn, st.nbPlayers)))
      && (outcome.how == MovePlayed <==>
            !EveryoneStuck(built) && !PlayerStuck(AdvanceTurn(built), NextPlayer(st.playerTurn, st.nbPlayers)))
  {
    MoveKeepsValid(st, k, m);
    BuiltEffects(st, k, m, b);
    var built := Built(st, k, m, b);
    EndOfPlayEffects(built, st.pawns[k].playerNumber);
  }

  /** The accepted build branch of `play_move` keeps the board valid. */
  lemma BuildBranchValid(st: State, k: int, m: Pos, b: Pos)
    requires ValidState(st) && 0 <= k < |st.pawns| && InBoard(m) && !PawnOn(st.pawns, m)
    requires InBoard(b) && Height(st.grid, b) < Dome
    ensures ValidState(EndOfPlay(Built(st, k, m, b), st.pawns[k].playerNumber).0)
  {
    MoveKeepsValid(st, k, m);
    BuiltEffects(st, k, m, b);
    AdvanceKeepsValid(Built(st, k, m, b));
  }

  /** The board after a legal move of pawn `k` to `m` and a build on `b`. */
  lemma BuiltEffects(st: State, k: int, m: Pos, b: Pos)
    requires ValidState(st) && 0 <= k < |st.pawns| && InBoard(m) && !PawnOn(st.pawns, m)
    requires ValidState(MovedPawn(st, k, m)) && InBoard(b) && Height(st.grid, b) < Dome
    ensures var built := MovedPawn(st, k, m).(grid := Raise(st.grid, b));
      && ValidState(built)
      && forall q :: InBoard(q) ==>
           Height(built.grid, q) == Height(st.grid, q) + (if q == b then 1 else 0)
  {
  }

  /**
   * What an accepted `play_move` did: the game was not over and the playing
   * pawn of the player whose turn it was made a legal move; every winner it
   * declares is that player.
   */
  lemma PlayEffects(st: State, pawnNumber: int, move: Pos, build: Option<Pos>)
    requires ValidState(st)
    ensures var (after, outcome) := Play(st, pawnNumber, move, build);
      outcome.Done? ==>
        && outcome.how != PawnPlaced
        && 1 <= pawnNumber <= 2 && !GameOver(st)
        && FirstUnplaced(st.pawns, st.playerTurn).None?
        && var pawn := PlayingPawn(st, pawnNumber).value;
        && pawn.pos.Some? && LegalMove(st, pawn.pos.value, move)
        && after.pawns == st.pawns[pawn.number - 1 := MoveTo(pawn, move)]
        && after.winner == (if outcome.how == MovePlayed then None else Some(st.playerTurn))
  {
    var played := Play(st, pawnNumber, move, build);
    match PlayRefusal(st, pawnNumber, move)
    case Some(why) =>
      assert played == (st, Refused(why));
    case None =>
      FirstUnplacedSpec(st.pawns, st.playerTurn);
      var pawn := PlayingPawn(st, pawnNumber).value;
      assert played == MoveThenBuild(st, pawn, move, build);
      MoveThenBuildEffects(st, pawn, move, build);
  }

  /**
   * After a legal move below level 3, `play_move` refuses a missing build
   * position as not a tuple and an off-board one as out of bounds, and
   * reverses the move.
   */
  lemma BuildPositionRefusals(st: State, pawn: Pawn, move: Pos, build: Option<Pos>)
    requires ValidState(st) && 1 <= pawn.number <= |st.pawns| && st.pawns[pawn.number - 1] == pawn
    requires pawn.pos.Some? && LegalMove(st, pawn.pos.value, move) && Height(st.grid, move) != WinningLevel
    ensures build.None? ==> MoveThenBuild(st, pawn, move, build) == (st, Refused(NotATuple))
    ensures build.Some? && !InBoard(build.value) ==>
      MoveThenBuild(st, pawn, move, build) == (st, Refused(OutOfBounds))
  {
  }

  /** The move and build phase accepts exactly the legal plays of `pawn`. */
  lemma MoveThenBuildAccepts(st: State, pawn: Pawn, move: Pos, build: Option<Pos>)
    requires ValidState(st) && 1 <= pawn.number <= |st.pawns| && st.pawns[pawn.number - 1] == pawn
    requires pawn.pos.Some? && InBoard(move)
    ensures MoveThenBuild(st, pawn, move, build).1.Done? <==> LegalPlay(st, pawn, move, build)
  {
    if LegalMove(st, pawn.pos.value, move) && Height(st.grid, move) != WinningLevel {
      MoveKeepsValid(st, pawn.number - 1, move);
    }
  }

  /**
   * `play_move` accepts a play exactly when none of its preliminary checks
   * fails and the playing pawn's move and build are legal.
   */
  lemma PlayAccepts(st: State, pawnNumber: int, move: Pos, build: Option<Pos>)
    requires ValidState(st)
    ensures Play(st, pawnNumber, move, build).1.Done? <==>
      && PlayRefusal(st, pawnNumber, move).None?
      && LegalPlay(st, PlayingPawn(st, pawnNumber).value, move, build)
  {
    match PlayRefusal(st, pawnNumber, move)
    case Some(why) =>
    case None =>
      FirstUnplacedSpec(st.pawns, st.playerTurn);
      MoveThenBuildAccepts(st, PlayingPawn(st, pawnNumber).value, move, build);
  }

  /**
   * The remark in `play_move` that a build is always possible after a move:
   * building back on the cell the pawn just left is legal, provided that cell
   * is not a dome (only `place_pawn` could have put a pawn on one).
   */
  lemma BuildBackOnVacatedCell(st: State, k: int, m: Pos)
    requires ValidState(st) && 0 <= k < |st.pawns| && st.pawns[k].pos.Some?
    requires Height(st.grid, st.pawns[k].pos.value) != Dome
    requires LegalMove(st, st.pawns[k].pos.value, m)
    ensures LegalBuild(MovedPawn(st, k, m), m, st.pawns[k].pos.value)
  {
    AdjacentSymmetric(st.pawns[k].pos.value, m);
  }
}
