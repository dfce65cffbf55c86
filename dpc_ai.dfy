/**
 * The example AI player `PlayerDPC1` of
 * santorinai/player_examples/dpc_ai_1.py: its read-only helpers over a board
 * (ally, enemies, winning moves, the height sum under its own pawns) and its
 * `play_move`, which numbers every (pawn, move, build) play, evaluates each
 * on a copy of the board, and then chooses nothing.
 */
module DpcAi {
  import opened Wrappers
  import opened Positions
  import opened Pawns
  import opened Rules
  import opened Enumeration
  import opened Transaction
  import opened GameBoard

  // ---------------------------------------------------------------------
  // Ally and enemies
  // ---------------------------------------------------------------------

  /** Another pawn of the same player. */
  predicate IsAlly(p: Pawn, our: Pawn) {
    p.number != our.number && p.playerNumber == our.playerNumber
  }

  /** `get_ally_pawn`, scanning the board's pawns from index `i` on: the first ally, or `None`. */
  function AllyFrom(ps: seq<Pawn>, our: Pawn, i: nat): (r: Option<Pawn>)
    requires i <= |ps|
    ensures r.None? <==> forall j :: i <= j < |ps| ==> !IsAlly(ps[j], our)
    ensures r.Some? ==> exists j :: (i <= j < |ps| && ps[j] == r.value && IsAlly(ps[j], our)
      && forall l :: i <= l < j ==> !IsAlly(ps[l], our))
    decreases |ps| - i
  {
    if i == |ps| then None
    else if IsAlly(ps[i], our) then Some(ps[i])
    else AllyFrom(ps, our, i + 1)
  }

  /** On a board of `Board(n)`, the ally of pawn `k + 1` is the owner's other pawn: `k + 1 ± n`. */
  lemma AllyInGame(st: State, k: int)
    requires ValidState(st) && 0 <= k < |st.pawns|
    ensures AllyFrom(st.pawns, st.pawns[k], 0) ==
      Some(st.pawns[if k < st.nbPlayers then k + st.nbPlayers else k - st.nbPlayers])
  {
    var n := st.nbPlayers;
    var other := if k < n then k + n else k - n;
    var p := PlayerOfPawn(n, k + 1);
    PawnAssignment(n, k + 1);
    OwnedPawns(n, p, k + 1);
    OwnedPawns(n, p, other + 1);
    forall l | 0 <= l < |st.pawns| && IsAlly(st.pawns[l], st.pawns[k]) ensures l == other {
      OwnedPawns(n, p, l + 1);
    }
    OnlyAlly(st.pawns, st.pawns[k], 0, other);
  }

  /** When index `j` holds the only ally from `i` on, the scan finds it. */
  lemma {:induction false} OnlyAlly(ps: seq<Pawn>, our: Pawn, i: nat, j: int)
    requires i <= j < |ps| && IsAlly(ps[j], our)
    requires forall l :: i <= l < |ps| && IsAlly(ps[l], our) ==> l == j
    ensures AllyFrom(ps, our, i) == Some(ps[j])
    decreases |ps| - i
  {
    if i < j {
      OnlyAlly(ps, our, i + 1, j);
    }
  }

  /** `get_enemy_pawns`: the pawns owned by another player, in board order. */
  function Enemies(ps: seq<Pawn>, our: Pawn): seq<Pawn> {
    if ps == [] then []
    else
      var last := ps[|ps| - 1];
      Enemies(ps[..|ps| - 1], our) + if last.playerNumber != our.playerNumber then [last] else []
  }

  /**
   * The enemies are exactly the pawns another player owns, and together with
   * `get_player_pawns` of our owner they account for every pawn.
   */
  lemma {:induction false} EnemiesSplit(ps: seq<Pawn>, our: Pawn)
    ensures forall p :: p in Enemies(ps, our) <==> p in ps && p.playerNumber != our.playerNumber
    ensures |Enemies(ps, our)| + |PlayerPawns(ps, our.playerNumber)| == |ps|
  {
    if ps != [] {
      EnemiesSplit(ps[..|ps| - 1], our);
      assert ps == ps[..|ps| - 1] + [ps[|ps| - 1]];
    }
  }

  /** In an `n`-player game every pawn faces the `2n - 2` pawns of the other players. */
  lemma EnemiesInGame(st: State, k: int)
    requires ValidState(st) && 0 <= k < |st.pawns|
    ensures |Enemies(st.pawns, st.pawns[k])| == 2 * st.nbPlayers - 2
  {
    PawnAssignment(st.nbPlayers, k + 1);
    EnemiesSplit(st.pawns, st.pawns[k]);
    TwoPawnsEach(st, st.pawns[k].playerNumber);
  }

  // ---------------------------------------------------------------------
  // Winning moves
  // ---------------------------------------------------------------------

  /** The cells of `cells` standing at the winning level, in their order. */
  function AtTop(g: Grid, cells: seq<Pos>): seq<Pos>
    requires ValidGrid(g) && forall q :: q in cells ==> InBoard(q)
  {
    if cells == [] then []
    else
      var last := cells[|cells| - 1];
      AtTop(g, cells[..|cells| - 1]) + if Height(g, last) == WinningLevel then [last] else []
  }

  /** The filter keeps exactly the level-3 cells and keeps them in row-major order. */
  lemma {:induction false} AtTopContents(g: Grid, cells: seq<Pos>)
    requires ValidGrid(g) && forall q :: q in cells ==> InBoard(q)
    ensures forall q :: q in AtTop(g, cells) <==> q in cells && Height(g, q) == WinningLevel
    ensures Increasing(cells) ==> Increasing(AtTop(g, cells))
  {
    if cells != [] {
      var init, last := cells[..|cells| - 1], cells[|cells| - 1];
      assert cells == init + [last];
      AtTopContents(g, init);
      if Increasing(cells) {
        var front := AtTop(g, init);
        forall i | 0 <= i < |front| ensures Before(front[i], last) {
          assert front[i] in front;
          var j :| 0 <= j < |init| && init[j] == front[i];
        }
      }
    }
  }

  /** `get_winning_moves`: the movement positions of `pawn` on a level-3 tower. */
  function WinningMoves(st: State, pawn: Pawn): seq<Pos>
    requires ValidGrid(st.grid)
  {
    MovementPositionsSpec(st, pawn);
    AtTop(st.grid, MovementPositions(st, pawn))
  }

  /**
   * During the play phase, playing a winning move of a pawn of the player to
   * move wins the game for that player, whatever the build.
   */
  lemma WinningMoveWins(st: State, pawnNumber: int, move: Pos, build: Option<Pos>)
    requires ValidState(st) && 1 <= pawnNumber <= 2 && !GameOver(st)
    requires FirstUnplaced(st.pawns, st.playerTurn).None?
    requires move in WinningMoves(st, PlayingPawn(st, pawnNumber).value)
    ensures Play(st, pawnNumber, move, build).1 == Done(ReachedTop)
    ensures Play(st, pawnNumber, move, build).0.winner == Some(st.playerTurn)
  {
    var pawn := PlayingPawn(st, pawnNumber).value;
    FirstUnplacedSpec(st.pawns, st.playerTurn);
    assert pawn.pos.Some?;
    MovementPositionsSpec(st, pawn);
    AtTopContents(st.grid, MovementPositions(st, pawn));
    assert LegalMove(st, pawn.pos.value, move);
    assert Play(st, pawnNumber, move, build) == MoveThenBuild(st, pawn, move, build);
  }

  // ---------------------------------------------------------------------
  // Height sum
  // ---------------------------------------------------------------------

  /**
   * `get_pawns_added_heights` over the pawns `ps`: the sum of the heights
   * under them, or `None` when one of them is unplaced (indexing the grid
   * with an unplaced pawn's `None` coordinates raises a `TypeError`).
   */
  function HeightSum(g: Grid, ps: seq<Pawn>): (r: Option<int>)
    requires ValidGrid(g) && forall p :: p in ps && p.pos.Some? ==> InBoard(p.pos.value)
    ensures r.Some? <==> forall i :: 0 <= i < |ps| ==> ps[i].pos.Some?
    ensures r.Some? ==> 0 <= r.value <= Dome * |ps|
  {
    if ps == [] then Some(0)
    else
      var init, last := ps[..|ps| - 1], ps[|ps| - 1];
      assert forall p :: p in init ==> p in ps;
      var front := HeightSum(g, init);
      if front.None? || last.pos.None? then None
      else Some(front.value + Height(g, last.pos.value))
  }

  /** `get_pawns_added_heights` on a board holding `st`: the sum under `player`'s pawns. */
  function OwnHeightSum(st: State, player: int): Option<int>
    requires ValidState(st)
  {
    PlayerPawnsMembers(st.pawns, player);
    HeightSum(st.grid, PlayerPawns(st.pawns, player))
  }

  /** On a valid board, the sum for a player whose pawns are placed is the heights under their two pawns. */
  lemma HeightSumOfPlayer(st: State, player: int)
    requires ValidState(st) && 1 <= player <= st.nbPlayers
    requires st.pawns[player - 1].pos.Some? && st.pawns[player - 1 + st.nbPlayers].pos.Some?
    ensures OwnHeightSum(st, player) ==
        Some(Height(st.grid, st.pawns[player - 1].pos.value)
           + Height(st.grid, st.pawns[player - 1 + st.nbPlayers].pos.value))
  {
    TwoPawnsEach(st, player);
    assert OwnHeightSum(st, player) == HeightSum(st.grid, PlayerPawns(st.pawns, player));
    var a, b := st.pawns[player - 1], st.pawns[player - 1 + st.nbPlayers];
    assert [a, b][..1] == [a] && [a][..0] == [];
  }

  // ---------------------------------------------------------------------
  // play_move: numbering and evaluating every play
  // ---------------------------------------------------------------------

  /** An entry of `dic_play_ids`: the pawn's number and its (move, build) pair. */
  datatype PlayId = PlayId(pawnNumber: int, move: Pos, build: Option<Pos>)

  /** Why `play_move` raises. */
  datatype Crash =
    | UnboundId     // `start = id + 1` runs before any play was numbered
    | UnplacedPawn  // the height sum reads the grid at an unplaced pawn's coordinates

  /**
   * The loop of `play_move` so far: the ids handed out (entry `i` has id `i`)
   * and the value of the one `sum_height` entry every id's evaluation shares,
   * or the exception that ended it.
   */
  datatype Run = Running(ids: seq<PlayId>, sumHeight: Option<int>) | Crashed(why: Crash)

  /** Pawn `p` is the board's pawn at index `p.number - 1`. */
  predicate Listed(st: State, p: Pawn) {
    1 <= p.number <= |st.pawns| && st.pawns[p.number - 1] == p
  }

  predicate AllListed(st: State, ps: seq<Pawn>) {
    forall i :: 0 <= i < |ps| ==> Listed(st, ps[i])
  }

  /** On a valid board, the pawns `get_player_pawns` returns are the board's own pawns, by number. */
  lemma OwnPawnsListed(st: State, player: int)
    requires ValidState(st)
    ensures AllListed(st, PlayerPawns(st.pawns, player))
  {
    PlayerPawnsMembers(st.pawns, player);
    var ps := PlayerPawns(st.pawns, player);
    forall i | 0 <= i < |ps| ensures Listed(st, ps[i]) {
      assert ps[i] in ps;
      var j :| 0 <= j < |st.pawns| && st.pawns[j] == ps[i];
    }
  }

  /** `board.get_possible_movement_and_building_positions(pawn)`. */
  function PawnPlays(st: State, pawn: Pawn): seq<MoveBuild>
    requires ValidGrid(st.grid) && Listed(st, pawn)
  {
    MovesAndBuilds(st, pawn.number - 1)
  }

  /**
   * The plays each pawn of the board `st` offers. `play_move` asks only
   * about the board's own pawns; any other pawn is given no play.
   */
  function PlaysOn(st: State): Pawn -> seq<MoveBuild>
    requires ValidGrid(st.grid)
  {
    p => if Listed(st, p) then PawnPlays(st, p) else []
  }

  /**
   * The evaluation of one play: `play_move(pawnNumber, move, build)` on a
   * copy of the board, then the height sum under `player`'s pawns there.
   */
  function Evaluation(st: State, player: int, pawnNumber: int, play: MoveBuild): Option<int>
    requires ValidState(st)
  {
    OwnHeightSum(Play(st, pawnNumber, play.0, play.1).0, player)
  }

  /** The inner loop over the plays of pawn `number`, continuing from `start`. */
  function RunPlays(st: State, player: int, number: int, plays: seq<MoveBuild>, start: Run): Run
    requires ValidState(st)
  {
    if plays == [] then start
    else
      match RunPlays(st, player, number, plays[..|plays| - 1], start)
      case Crashed(why) => Crashed(why)
      case Running(ids, _) =>
        var play := plays[|plays| - 1];
        var e := Evaluation(st, player, number, play);
        if e.None? then Crashed(UnplacedPawn) else Running(ids + [PlayId(number, play.0, play.1)], e)
  }

  /**
   * The outer loop over the pawns `ps`, pawn `p` offering the plays
   * `playsOf(p)`; after each pawn, `start = id + 1` needs some id.
   */
  function RunPawns(st: State, player: int, ps: seq<Pawn>, playsOf: Pawn -> seq<MoveBuild>): Run
    requires ValidState(st)
  {
    if ps == [] then Running([], None)
    else
      var init, last := ps[..|ps| - 1], ps[|ps| - 1];
      var r := RunPlays(st, player, last.number, playsOf(last), RunPawns(st, player, init, playsOf));
      if r.Running? && |r.ids| == 0 then Crashed(UnboundId) else r
  }

  /** `play_move` of player `player` on a board holding `st`. */
  function AiRun(st: State, player: int): Run
    requires ValidState(st)
  {
    RunPawns(st, player, PlayerPawns(st.pawns, player), PlaysOn(st))
  }

  /** The plays of pawn `number` tagged with it, in enumeration order. */
  function Tagged(number: int, plays: seq<MoveBuild>): seq<PlayId> {
    seq(|plays|, i requires 0 <= i < |plays| => PlayId(number, plays[i].0, plays[i].1))
  }

  lemma TaggedSnoc(number: int, plays: seq<MoveBuild>)
    requires plays != []
    ensures var play := plays[|plays| - 1];
      Tagged(number, plays) == Tagged(number, plays[..|plays| - 1]) + [PlayId(number, play.0, play.1)]
  {
  }

  /** Every play of every pawn of `ps`, pawn after pawn: what `dic_play_ids` lists. */
  function Catalogue(ps: seq<Pawn>, playsOf: Pawn -> seq<MoveBuild>): seq<PlayId> {
    if ps == [] then []
    else
      var init, last := ps[..|ps| - 1], ps[|ps| - 1];
      Catalogue(init, playsOf) + Tagged(last.number, playsOf(last))
  }

  /** The catalogue of the player's own pawns on the board `st`. */
  function PlayerCatalogue(st: State, player: int): seq<PlayId>
    requires ValidGrid(st.grid)
  {
    Catalogue(PlayerPawns(st.pawns, player), PlaysOn(st))
  }

  /**
   * The inner loop either passes on a crash it started from, raises on an
   * unplaced pawn, or appends the pawn's plays to the ids.
   */
  lemma {:induction false} RunPlaysShape(st: State, player: int, number: int, plays: seq<MoveBuild>, start: Run)
    requires ValidState(st)
    ensures start.Crashed? ==> RunPlays(st, player, number, plays, start) == start
    ensures start.Running? ==>
      var r := RunPlays(st, player, number, plays, start);
      r == Crashed(UnplacedPawn) || (r.Running? && r.ids == start.ids + Tagged(number, plays))
  {
    if plays != [] {
      var init := plays[..|plays| - 1];
      RunPlaysShape(st, player, number, init, start);
      var r := RunPlays(st, player, number, init, start);
      if r.Running? {
        var play := plays[|plays| - 1];
        var e := Evaluation(st, player, number, play);
        if e.Some? {
          assert RunPlays(st, player, number, plays, start) == Running(r.ids + [PlayId(number, play.0, play.1)], e);
          TaggedSnoc(number, plays);
        }
      }
    }
  }

  /** When it does not raise, `play_move` hands out ids 0, 1, 2, … to the plays of the catalogue, in order. */
  lemma {:induction false} RunIds(st: State, player: int, ps: seq<Pawn>, playsOf: Pawn -> seq<MoveBuild>)
    requires ValidState(st)
    ensures RunPawns(st, player, ps, playsOf).Running? ==> RunPawns(st, player, ps, playsOf).ids == Catalogue(ps, playsOf)
  {
    if ps != [] {
      var init, last := ps[..|ps| - 1], ps[|ps| - 1];
      RunIds(st, player, init, playsOf);
      RunPlaysShape(st, player, last.number, playsOf(last), RunPawns(st, player, init, playsOf));
    }
  }

  /** The catalogue of a prefix of the pawns is a prefix of the catalogue. */
  lemma {:induction false} CataloguePrefix(ps: seq<Pawn>, playsOf: Pawn -> seq<MoveBuild>, i: int)
    requires 0 <= i <= |ps|
    ensures Catalogue(ps[..i], playsOf) <= Catalogue(ps, playsOf)
    decreases |ps| - i
  {
    if i < |ps| {
      CataloguePrefix(ps, playsOf, i + 1);
      assert ps[..i + 1][..i] == ps[..i];
    } else {
      assert ps[..i] == ps;
    }
  }

  /** One more pawn: the catalogue grows by that pawn's tagged plays. */
  lemma CatalogueStep(ps: seq<Pawn>, playsOf: Pawn -> seq<MoveBuild>, j: int)
    requires 0 <= j < |ps|
    ensures Catalogue(ps[..j + 1], playsOf) == Catalogue(ps[..j], playsOf) + Tagged(ps[j].number, playsOf(ps[j]))
  {
    assert ps[..j + 1][..j] == ps[..j] && ps[..j + 1][j] == ps[j];
  }

  /**
   * Consecutive numbering: the play number `t` of the pawn at position `j`
   * of `ps` has id `c + t`, where `c` counts the plays of the pawns before it.
   */
  lemma CatalogueNumbering(ps: seq<Pawn>, playsOf: Pawn -> seq<MoveBuild>, j: int, t: int)
    requires 0 <= j < |ps| && 0 <= t < |playsOf(ps[j])|
    ensures var c := |Catalogue(ps[..j], playsOf)|;
      var play := playsOf(ps[j])[t];
      c + t < |Catalogue(ps, playsOf)| && Catalogue(ps, playsOf)[c + t] == PlayId(ps[j].number, play.0, play.1)
  {
    CataloguePrefix(ps, playsOf, j + 1);
    CatalogueStep(ps, playsOf, j);
    var before, tagged := Catalogue(ps[..j], playsOf), Tagged(ps[j].number, playsOf(ps[j]));
    assert (before + tagged)[|before| + t] == tagged[t];
  }

  /** One more pawn of the outer loop: its inner loop, then the check that some id is bound. */
  lemma RunPawnsStep(st: State, player: int, ps: seq<Pawn>, playsOf: Pawn -> seq<MoveBuild>, i: int)
    requires ValidState(st)
    requires 0 <= i < |ps|
    ensures var r := RunPlays(st, player, ps[i].number, playsOf(ps[i]), RunPawns(st, player, ps[..i], playsOf));
      RunPawns(st, player, ps[..i + 1], playsOf) == if r.Running? && |r.ids| == 0 then Crashed(UnboundId) else r
  {
    assert ps[..i + 1][..i] == ps[..i] && ps[..i + 1][i] == ps[i];
  }

  /** Once the loop has raised, it stays raised: a crash after pawn `i` is the crash of the whole loop. */
  lemma {:induction false} CrashPersists(st: State, player: int, ps: seq<Pawn>, playsOf: Pawn -> seq<MoveBuild>, i: int)
    requires ValidState(st)
    requires 0 <= i <= |ps|
    ensures RunPawns(st, player, ps[..i], playsOf).Crashed? ==>
      RunPawns(st, player, ps, playsOf) == RunPawns(st, player, ps[..i], playsOf)
    decreases |ps| - i
  {
    if i < |ps| {
      CrashPersists(st, player, ps, playsOf, i + 1);
      var init := ps[..i + 1][..i];
      assert init == ps[..i];
      var last := ps[..i + 1][i];
      RunPlaysShape(st, player, last.number, playsOf(last), RunPawns(st, player, init, playsOf));
    } else {
      assert ps[..i] == ps;
    }
  }

  /** A crash within the inner loop is a crash of the whole inner loop. */
  lemma {:induction false} PlaysCrashPersists(st: State, player: int, number: int, plays: seq<MoveBuild>, j: int, start: Run)
    requires ValidState(st) && 0 <= j <= |plays|
    ensures RunPlays(st, player, number, plays[..j], start).Crashed? ==>
      RunPlays(st, player, number, plays, start) == RunPlays(st, player, number, plays[..j], start)
    decreases |plays| - j
  {
    if j < |plays| {
      PlaysCrashPersists(st, player, number, plays, j + 1, start);
      assert plays[..j + 1][..j] == plays[..j];
    } else {
      assert plays[..j] == plays;
    }
  }

  /** `play_move` raises `UnboundLocalError` exactly when the player's first pawn has no play. */
  lemma {:induction false} UnboundExactly(st: State, player: int, ps: seq<Pawn>, playsOf: Pawn -> seq<MoveBuild>)
    requires ValidState(st)
    requires |ps| > 0
    ensures RunPawns(st, player, ps, playsOf) == Crashed(UnboundId) <==> |playsOf(ps[0])| == 0
  {
    var init, last := ps[..|ps| - 1], ps[|ps| - 1];
    var before := RunPawns(st, player, init, playsOf);
    RunPlaysShape(st, player, last.number, playsOf(last), before);
    if |ps| == 1 {
      assert last == ps[0];
    } else {
      UnboundExactly(st, player, init, playsOf);
      assert init[0] == ps[0];
    }
  }

  /**
   * In the play phase (all of the player's pawns placed) no evaluation can
   * raise: `play_move` never moves a pawn off the board.
   */
  lemma EvaluationDefined(st: State, player: int, pawnNumber: int, play: MoveBuild)
    requires ValidState(st) && FirstUnplaced(st.pawns, player).None?
    ensures Evaluation(st, player, pawnNumber, play).Some?
  {
    PlayEffects(st, pawnNumber, play.0, play.1);
    var after := Play(st, pawnNumber, play.0, play.1).0;
    FirstUnplacedSpec(st.pawns, player);
    PlayerPawnsMembers(after.pawns, player);
    var mine := PlayerPawns(after.pawns, player);
    forall i | 0 <= i < |mine| ensures mine[i].pos.Some? {
      var j :| 0 <= j < |after.pawns| && after.pawns[j] == mine[i];
    }
  }

  /** Without an unplaced pawn of the player, the inner loop does not raise `TypeError`. */
  lemma {:induction false} PlaysNoTypeError(st: State, player: int, number: int, plays: seq<MoveBuild>, start: Run)
    requires ValidState(st) && FirstUnplaced(st.pawns, player).None?
    requires start != Crashed(UnplacedPawn)
    ensures RunPlays(st, player, number, plays, start) != Crashed(UnplacedPawn)
  {
    if plays != [] {
      PlaysNoTypeError(st, player, number, plays[..|plays| - 1], start);
      EvaluationDefined(st, player, number, plays[|plays| - 1]);
    }
  }

  /** Without an unplaced pawn of the player, the outer loop does not raise `TypeError`. */
  lemma {:induction false} PawnsNoTypeError(st: State, player: int, ps: seq<Pawn>, playsOf: Pawn -> seq<MoveBuild>)
    requires ValidState(st) && FirstUnplaced(st.pawns, player).None?
    ensures RunPawns(st, player, ps, playsOf) != Crashed(UnplacedPawn)
  {
    if ps != [] {
      var init, last := ps[..|ps| - 1], ps[|ps| - 1];
      PawnsNoTypeError(st, player, init, playsOf);
      PlaysNoTypeError(st, player, last.number, playsOf(last), RunPawns(st, player, init, playsOf));
    }
  }

  /** Once the player's pawns are all placed, the loops return exactly when the first pawn has a play. */
  lemma PlayPhaseRun(st: State, player: int, ps: seq<Pawn>, playsOf: Pawn -> seq<MoveBuild>)
    requires ValidState(st) && FirstUnplaced(st.pawns, player).None?
    requires |ps| > 0
    ensures RunPawns(st, player, ps, playsOf).Running? <==> |playsOf(ps[0])| > 0
  {
    var r := RunPawns(st, player, ps, playsOf);
    PawnsNoTypeError(st, player, ps, playsOf);
    UnboundExactly(st, player, ps, playsOf);
    match r
    case Running(_, _) =>
    case Crashed(why) =>
      assert why == UnboundId;
  }

  /** The first pawn `get_player_pawns` lists is pawn number `player`. */
  lemma FirstOwnPawn(st: State, player: int)
    requires ValidState(st) && 1 <= player <= st.nbPlayers
    ensures |PlayerPawns(st.pawns, player)| > 0 && PlayerPawns(st.pawns, player)[0] == st.pawns[player - 1]
    ensures st.pawns[player - 1].number == player
  {
    TwoPawnsEach(st, player);
  }

  /**
   * In the play phase, `play_move` of player `player` returns exactly when
   * their first pawn has a play, and then it has numbered the whole catalogue.
   */
  lemma AiRunInPlayPhase(st: State, player: int)
    requires ValidState(st) && 1 <= player <= st.nbPlayers
    requires FirstUnplaced(st.pawns, player).None?
    ensures AiRun(st, player).Running? <==> |MovesAndBuilds(st, player - 1)| > 0
    ensures AiRun(st, player).Running? ==> AiRun(st, player).ids == PlayerCatalogue(st, player)
  {
    var ps, playsOf := PlayerPawns(st.pawns, player), PlaysOn(st);
    FirstOwnPawn(st, player);
    assert Listed(st, ps[0]);
    assert playsOf(ps[0]) == MovesAndBuilds(st, player - 1);
    PlayPhaseRun(st, player, ps, playsOf);
    RunIds(st, player, ps, playsOf);
  }

  // ---------------------------------------------------------------------
  // The player
  // ---------------------------------------------------------------------

  /** What `play_move` gives back: a (move, build) choice, or the exception it raises. */
  datatype Reply = Chosen(move: Option<Pos>, build: Option<Pos>) | Raised(why: Crash)

  class PlayerDPC1 {
    const playerNumber: int

    constructor(playerNumber: int)
      ensures this.playerNumber == playerNumber
    {
      this.playerNumber := playerNumber;
    }

    /** `get_ally_pawn`. */
    method GetAllyPawn(board: Board, ourPawn: Pawn) returns (ally: Option<Pawn>)
      ensures ally == AllyFrom(board.pawns, ourPawn, 0)
    {
      var ps := board.pawns;
      var i := 0;
      while i < |ps|
        invariant 0 <= i <= |ps|
        invariant AllyFrom(ps, ourPawn, 0) == AllyFrom(ps, ourPawn, i)
      {
        if ps[i].number != ourPawn.number && ps[i].playerNumber == ourPawn.playerNumber {
          return Some(ps[i]);
        }
        i := i + 1;
      }
      return None;
    }

    /** `get_enemy_pawns`. */
    method GetEnemyPawns(board: Board, ourPawn: Pawn) returns (enemies: seq<Pawn>)
      ensures enemies == Enemies(board.pawns, ourPawn)
    {
      var ps := board.pawns;
      enemies := [];
      var i := 0;
      while i < |ps|
        invariant 0 <= i <= |ps|
        invariant enemies == Enemies(ps[..i], ourPawn)
      {
        assert ps[..i + 1][..i] == ps[..i];
        if ps[i].playerNumber != ourPawn.playerNumber {
          enemies := enemies + [ps[i]];
        }
        i := i + 1;
      }
      assert ps[..i] == ps;
    }

    /** `get_winning_moves`. */
    method GetWinningMoves(board: Board, pawn: Pawn) returns (winning: seq<Pos>)
      requires ValidGrid(board.grid)
      ensures winning == WinningMoves(board.Model(), pawn)
    {
      var available := board.GetPossibleMovementPositions(pawn);
      MovementPositionsSpec(board.Model(), pawn);
      winning := [];
      var i := 0;
      while i < |available|
        invariant 0 <= i <= |available|
        invariant forall q :: q in available[..i] ==> q in available
        invariant winning == AtTop(board.grid, available[..i])
      {
        var pos := available[i];
        assert pos in available;
        assert available[..i + 1][..i] == available[..i];
        if board.grid[pos.x][pos.y] == 3 {
          winning := winning + [pos];
        }
        i := i + 1;
      }
      assert available[..i] == available;
    }

    /** `get_pawns_added_heights`; `None` stands for the `TypeError` an unplaced pawn causes. */
    method GetPawnsAddedHeights(board: Board) returns (sum: Option<int>)
      requires board.Valid()
      ensures sum == OwnHeightSum(board.Model(), playerNumber)
    {
      var ps := board.GetPlayerPawns(playerNumber);
      PlayerPawnsMembers(board.pawns, playerNumber);
      var sumHeights := 0;
      var i := 0;
      while i < |ps|
        invariant 0 <= i <= |ps|
        invariant forall p :: p in ps[..i] ==> p in ps
        invariant HeightSum(board.grid, ps[..i]) == Some(sumHeights)
      {
        var pawn := ps[i];
        assert ps[..i + 1][..i] == ps[..i];
        if pawn.pos.None? {
          assert HeightSum(board.grid, ps).None?;
          return None;
        }
        sumHeights := sumHeights + board.grid[pawn.pos.value.x][pawn.pos.value.y];
        i := i + 1;
      }
      assert ps[..i] == ps;
      return Some(sumHeights);
    }

    /**
     * `play_move`: numbers every play of its pawns, evaluates each on a copy
     * of the board, and answers `(None, None)`. The ids and the shared
     * `sum_height` it computed are returned beside the reply.
     */
    method PlayMove(board: Board) returns (reply: Reply, playIds: seq<PlayId>, sumHeight: Option<int>)
      requires board.Valid()
      modifies board
      ensures board.Model() == old(board.Model())
      ensures var r := AiRun(old(board.Model()), playerNumber);
        && (r.Crashed? ==> reply == Raised(r.why))
        && (r.Running? ==> reply == Chosen(None, None) && playIds == r.ids && sumHeight == r.sumHeight)
    {
      var ps := board.GetPlayerPawns(playerNumber);
      OwnPawnsListed(board.Model(), playerNumber);
      assert AiRun(board.Model(), playerNumber) == RunPawns(board.Model(), playerNumber, ps, PlaysOn(board.Model()));
      reply, playIds, sumHeight := PlayPawns(board, ps);
    }

    /** The outer loop of `play_move`, over the pawns `ps` of the player. */
    method PlayPawns(board: Board, ps: seq<Pawn>) returns (reply: Reply, playIds: seq<PlayId>, sumHeight: Option<int>)
      requires board.Valid() && AllListed(board.Model(), ps)
      modifies board
      ensures board.Model() == old(board.Model())
      ensures var r := RunPawns(old(board.Model()), playerNumber, ps, PlaysOn(old(board.Model())));
        && (r.Crashed? ==> reply == Raised(r.why))
        && (r.Running? ==> reply == Chosen(None, None) && playIds == r.ids && sumHeight == r.sumHeight)
    {
      ghost var st := board.Model();
      assert ValidState(st);
      ghost var playsOf := PlaysOn(st);
      playIds, sumHeight := [], None;
      var i := 0;
      while i < |ps|
        invariant 0 <= i <= |ps|
        invariant board.Model() == st
        invariant RunPawns(st, playerNumber, ps[..i], playsOf) == Running(playIds, sumHeight)
      {
        var stop;
        stop, playIds, sumHeight := PlayPawn(board, ps, i, playIds, sumHeight);
        if stop.Some? {
          CrashPersists(st, playerNumber, ps, playsOf, i + 1);
          return Raised(stop.value), playIds, sumHeight;
        }
        i := i + 1;
      }
      assert ps[..i] == ps;
      reply := Chosen(None, None);
    }

    /**
     * Pawn `ps[i]` in the outer loop: its plays, each numbered and evaluated,
     * then the `start = id + 1` that needs some id; `stop` is the exception raised.
     */
    method PlayPawn(board: Board, ps: seq<Pawn>, i: int, ids: seq<PlayId>, sum: Option<int>)
      returns (stop: Option<Crash>, playIds: seq<PlayId>, sumHeight: Option<int>)
      requires board.Valid() && 0 <= i < |ps| && Listed(board.Model(), ps[i])
      requires RunPawns(board.Model(), playerNumber, ps[..i], PlaysOn(board.Model())) == Running(ids, sum)
      modifies board
      ensures board.Model() == old(board.Model())
      ensures var r := RunPawns(old(board.Model()), playerNumber, ps[..i + 1], PlaysOn(old(board.Model())));
        && (stop.None? ==> r == Running(playIds, sumHeight))
        && (stop.Some? ==> r == Crashed(stop.value))
    {
      ghost var st := board.Model();
      assert ValidState(st);
      ghost var playsOf := PlaysOn(st);
      var pawn := ps[i];
      var plays := board.GetPossibleMovementAndBuildingPositions(pawn);
      assert plays == playsOf(pawn);
      var crashed;
      crashed, playIds, sumHeight := EvaluatePlays(board, pawn.number, plays, Running(ids, sum), ids, sum);
      RunPawnsStep(st, playerNumber, ps, playsOf, i);
      if crashed {
        stop := Some(UnplacedPawn);
      } else if |playIds| == 0 {
        stop := Some(UnboundId);
      } else {
        stop := None;
      }
    }

    /**
     * The inner loop of `play_move` over the plays of pawn `number`: each play
     * gets the next id and is evaluated on a copy of the board.
     */
    method EvaluatePlays(board: Board, number: int, plays: seq<MoveBuild>, ghost start: Run,
                         ids: seq<PlayId>, sum: Option<int>)
      returns (crashed: bool, playIds: seq<PlayId>, sumHeight: Option<int>)
      requires board.Valid() && start == Running(ids, sum)
      ensures var r := RunPlays(board.Model(), playerNumber, number, plays, start);
        && (crashed <==> r.Crashed?)
        && (crashed ==> r == Crashed(UnplacedPawn))
        && (!crashed ==> r == Running(playIds, sumHeight))
    {
      ghost var st := board.Model();
      playIds, sumHeight := ids, sum;
      var j := 0;
      while j < |plays|
        invariant 0 <= j <= |plays|
        invariant RunPlays(st, playerNumber, number, plays[..j], start) == Running(playIds, sumHeight)
      {
        var play := plays[j];
        assert plays[..j + 1][..j] == plays[..j];
        playIds := playIds + [PlayId(number, play.0, play.1)];
        var copy := board.Copy();
        var _ := copy.PlayMove(number, play.0, play.1);
        var s := GetPawnsAddedHeights(copy);
        if s.None? {
          PlaysCrashPersists(st, playerNumber, number, plays, j + 1, start);
          return true, playIds, sumHeight;
        }
        sumHeight := s;
        j := j + 1;
      }
      assert plays[..j] == plays;
      crashed := false;
    }
  }
}
