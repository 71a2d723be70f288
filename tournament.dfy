/** Engine-against-engine matches: playing one game out under a ply cap,
    classifying the finished game into a result and a draw reason, and
    tallying a series of games. The random endgame start positions are
    parameters (one per game); the CSV log is the sequence of game records
    a run returns, and console output is not modelled. */
module Tournament {
  import opened Rules
  import opened Engine

  datatype DrawReason = MoveLimit | InsufficientMaterial | Stalemate | Threefold | FiftyMove | OtherDraw

  /** What a game reports: result 1 (White won), 0 (draw) or -1 (Black
      won), the piece counts of the start position, the plies played and
      the draw reason (None for a decisive game). */
  datatype GameRecord = GameRecord(result: int, whiteCount: nat, blackCount: nat, moves: nat, reason: Option<DrawReason>)

  /** The errors a run can raise. */
  datatype Failure = KeyError(name: string) | ValueError | ZeroDivisionError

  datatype Result<T> = Ok(value: T) | Err(error: Failure)

  /** The strategy names the scripts can look up. */
  const SearchNames: set<string> := {"minimax", "alphabeta", "iddfs", "mcts", "random"}

  /** The game loop has stopped: the game is over or the ply cap is
      reached. */
  predicate Finished(q: Pos, moves: int, maxMoves: int) {
    IsGameOver(q) || moves >= maxMoves
  }

  // ---------------------------------------------------------------------------
  // Adjudication

  /** The result and draw reason of a game that stopped in position `q`
      after `moves` plies: checkmate decides it for the side not to move;
      otherwise it is a draw, by the move limit when the cap was hit with
      the game still on, and else by the first of stalemate, insufficient
      material, a fifty-move claim, a threefold claim, or another reason. */
  function Adjudicate(q: Pos, moves: int, maxMoves: int): (int, Option<DrawReason>) {
    if IsCheckmate(q) then (if q.turn == Black then 1 else -1, None)
    else if moves >= maxMoves && !IsGameOver(q) then (0, Some(MoveLimit))
    else if IsStalemate(q) then (0, Some(Stalemate))
    else if q.insufficient then (0, Some(InsufficientMaterial))
    else if q.canClaimFifty then (0, Some(FiftyMove))
    else if q.canClaimThreefold then (0, Some(Threefold))
    else (0, Some(OtherDraw))
  }

  /** Only checkmate is decisive, it is won by the side that delivered it,
      and a decisive game has no draw reason while a drawn one always has
      one. */
  lemma AdjudicateDecisive(q: Pos, moves: int, maxMoves: int)
    ensures var (result, reason) := Adjudicate(q, moves, maxMoves);
      (result == 1 <==> IsCheckmate(q) && q.turn == Black)
      && (result == -1 <==> IsCheckmate(q) && q.turn == White)
      && (result == 0 <==> !IsCheckmate(q))
      && (reason.None? <==> result != 0)
  {
  }

  /** Each draw reason holds exactly when its condition applies and none
      ranked before it does. */
  lemma AdjudicateReasonOrder(q: Pos, moves: int, maxMoves: int)
    ensures var reason := Adjudicate(q, moves, maxMoves).1;
      var limit := moves >= maxMoves && !IsGameOver(q);
      (reason == Some(MoveLimit) <==> limit)
      && (reason == Some(Stalemate) <==> !limit && IsStalemate(q))
      && (reason == Some(InsufficientMaterial) <==> !IsCheckmate(q) && !limit && !IsStalemate(q) && q.insufficient)
      && (reason == Some(FiftyMove) <==>
            !IsCheckmate(q) && !limit && !IsStalemate(q) && !q.insufficient && q.canClaimFifty)
      && (reason == Some(Threefold) <==>
            !IsCheckmate(q) && !limit && !IsStalemate(q) && !q.insufficient && !q.canClaimFifty && q.canClaimThreefold)
  {
  }

  /** In a finished game a fifty-move, threefold or other draw reason is
      only ever given to a game that ended by an automatic draw (the
      seventy-five-move rule or fivefold repetition): a claimable draw does
      not stop the loop, so it is reported only when the game was over
      anyway. */
  lemma ClaimReasonsNeedAutomaticDraw(q: Pos, moves: int, maxMoves: int)
    requires Finished(q, moves, maxMoves)
    ensures var reason := Adjudicate(q, moves, maxMoves).1;
      reason in {Some(FiftyMove), Some(Threefold), Some(OtherDraw)} ==>
        q.automaticDraw && !q.insufficient && !IsStalemate(q) && !IsCheckmate(q)
  {
  }

  // ---------------------------------------------------------------------------
  // Playing a game

  /** Let the two strategies move in turn until the game is over or
      `maxMoves` plies have been attempted. A ply whose search finds no
      move still counts. Looking up an unknown strategy name fails. */
  method PlayOut(engine: ChessEngine, whiteAlgo: string, blackAlgo: string, maxMoves: int)
    returns (moves: nat, unknown: Option<string>)
    requires engine.Valid()
    modifies engine, engine.board
    ensures engine.Valid() && engine.board == old(engine.board)
    ensures moves == 0 || moves <= maxMoves
    ensures Reaches(old(engine.board.state), engine.board.state)
    ensures IsGameOver(old(engine.board.state)) ==> moves == 0 && engine.board.state == old(engine.board.state)
    ensures unknown.None? ==> Finished(engine.board.state, moves, maxMoves)
    ensures unknown.Some? ==> unknown.value !in SearchNames && (unknown.value == whiteAlgo || unknown.value == blackAlgo)
  {
    moves := 0;
    while !IsGameOver(engine.board.state) && moves < maxMoves
      invariant engine.Valid() && engine.board == old(engine.board)
      invariant moves == 0 || moves <= maxMoves
      invariant Reaches(old(engine.board.state), engine.board.state)
      invariant IsGameOver(old(engine.board.state)) ==> moves == 0 && engine.board.state == old(engine.board.state)
      decreases maxMoves - moves
    {
      var name := if engine.board.turn == White then whiteAlgo else blackAlgo;
      if name !in SearchNames {
        return moves, Some(name);
      }
      ghost var p := engine.board.state;
      var found := engine.FindBestMove(name);
      if found.Some? {
        var (fr, fc, tr, tc, _) := found.value;
        var m := Move(RCToSquare(fr, fc), RCToSquare(tr, tc), AutoPromotion(p.grid, RCToSquare(fr, fc), RCToSquare(tr, tc)));
        ReachesStep(old(engine.board.state), p, MoveIndex(p.children, m));
      }
      moves := moves + 1;
    }
    unknown := None;
  }

  /** One game from start position `start`, adjudicated where the loop
      stopped (`final`). */
  method PlaySingleGame(start: Pos, whiteAlgo: string, blackAlgo: string, maxMoves: int)
    returns (r: Result<GameRecord>, ghost final: Pos)
    ensures r.Ok? ==>
      var g := r.value;
      Finished(final, g.moves, maxMoves)
      && Reaches(start, final) && (IsGameOver(start) ==> g.moves == 0 && final == start)
      && (g.moves == 0 || g.moves <= maxMoves)
      && (g.result, g.reason) == Adjudicate(final, g.moves, maxMoves)
      && g.whiteCount == PiecesBelow(start.grid, White, 64)
      && g.blackCount == PiecesBelow(start.grid, Black, 64)
    ensures r.Err? ==>
      r.error.KeyError? && r.error.name !in SearchNames
      && (r.error.name == whiteAlgo || r.error.name == blackAlgo)
  {
    var engine := new ChessEngine(start);
    var white, black := engine.CountPieces();
    var moves, unknown := PlayOut(engine, whiteAlgo, blackAlgo, maxMoves);
    var q := engine.board.state;
    final := q;
    if unknown.Some? {
      return Err(KeyError(unknown.value)), final;
    }
    var (result, reason) := Adjudicate(q, moves, maxMoves);
    r := Ok(GameRecord(result, white, black, moves, reason));
  }

  // ---------------------------------------------------------------------------
  // Tallies

  /** Wins, draws and total plies over a series of games. */
  datatype Scoreboard = Scoreboard(whiteWins: nat, blackWins: nat, draws: nat, totalMoves: nat)

  /** The loop's update for one game: a White win, a Black win, or else a
      draw, and its plies added to the total. */
  function AddGame(s: Scoreboard, g: GameRecord): Scoreboard {
    if g.result == 1 then s.(whiteWins := s.whiteWins + 1, totalMoves := s.totalMoves + g.moves)
    else if g.result == -1 then s.(blackWins := s.blackWins + 1, totalMoves := s.totalMoves + g.moves)
    else s.(draws := s.draws + 1, totalMoves := s.totalMoves + g.moves)
  }

  predicate IsDraw(g: GameRecord) {
    g.result != 1 && g.result != -1
  }

  function CountResult(games: seq<GameRecord>, result: int): nat {
    if games == [] then 0
    else CountResult(games[..|games| - 1], result) + (if games[|games| - 1].result == result then 1 else 0)
  }

  function CountDraws(games: seq<GameRecord>): nat {
    if games == [] then 0
    else CountDraws(games[..|games| - 1]) + (if IsDraw(games[|games| - 1]) then 1 else 0)
  }

  function TotalMoves(games: seq<GameRecord>): nat {
    if games == [] then 0 else TotalMoves(games[..|games| - 1]) + games[|games| - 1].moves
  }

  /** The scoreboard of a series: games won by each side, the rest as
      draws, and the plies played. */
  function ScoreOf(games: seq<GameRecord>): Scoreboard {
    Scoreboard(CountResult(games, 1), CountResult(games, -1), CountDraws(games), TotalMoves(games))
  }

  /** Adding a game to a series updates its scoreboard as the loop does. */
  lemma ScoreOfStep(games: seq<GameRecord>, g: GameRecord)
    ensures ScoreOf(games + [g]) == AddGame(ScoreOf(games), g)
  {
    assert (games + [g])[..|games|] == games;
  }

  /** Every game is counted exactly once, as a White win, a Black win or a
      draw. */
  lemma {:induction false} ScoreOfCounts(games: seq<GameRecord>)
    ensures var s := ScoreOf(games);
      s.whiteWins + s.blackWins + s.draws == |games|
  {
    if games != [] {
      ScoreOfCounts(games[..|games| - 1]);
    }
  }

  /** The draw-reason counters of the draw-reason script. */
  datatype ReasonCounts = ReasonCounts(moveLimit: nat, insufficient: nat, stalemate: nat,
                                       threefold: nat, fifty: nat, other: nat)

  function Sum6(c: ReasonCounts): nat {
    c.moveLimit + c.insufficient + c.stalemate + c.threefold + c.fifty + c.other
  }

  /** The counter a draw goes to: its reason, or "other" when it has none. */
  function Bucket(g: GameRecord): DrawReason {
    if g.reason.Some? then g.reason.value else OtherDraw
  }

  function CountBucket(games: seq<GameRecord>, b: DrawReason): nat {
    if games == [] then 0
    else CountBucket(games[..|games| - 1], b)
         + (if IsDraw(games[|games| - 1]) && Bucket(games[|games| - 1]) == b then 1 else 0)
  }

  /** The draws of a series counted by reason; decisive games are not
      counted. */
  function ReasonsOf(games: seq<GameRecord>): ReasonCounts {
    ReasonCounts(CountBucket(games, MoveLimit), CountBucket(games, InsufficientMaterial),
                 CountBucket(games, Stalemate), CountBucket(games, Threefold),
                 CountBucket(games, FiftyMove), CountBucket(games, OtherDraw))
  }

  /** The loop's update for one game's draw reason. */
  function AddReason(c: ReasonCounts, g: GameRecord): ReasonCounts {
    if !IsDraw(g) then c
    else match Bucket(g)
      case MoveLimit => c.(moveLimit := c.moveLimit + 1)
      case InsufficientMaterial => c.(insufficient := c.insufficient + 1)
      case Stalemate => c.(stalemate := c.stalemate + 1)
      case Threefold => c.(threefold := c.threefold + 1)
      case FiftyMove => c.(fifty := c.fifty + 1)
      case OtherDraw => c.(other := c.other + 1)
  }

  /** Adding a game to a series updates its reason counters as the loop
      does. */
  lemma ReasonsOfStep(games: seq<GameRecord>, g: GameRecord)
    ensures ReasonsOf(games + [g]) == AddReason(ReasonsOf(games), g)
  {
    assert (games + [g])[..|games|] == games;
  }

  /** The six draw-reason counters add up to the draws. */
  lemma {:induction false} ReasonsSumToDraws(games: seq<GameRecord>)
    ensures Sum6(ReasonsOf(games)) == ScoreOf(games).draws
  {
    if games != [] {
      ReasonsSumToDraws(games[..|games| - 1]);
    }
  }

  /** The mean game length, as the script divides it: an error when no
      game was played. */
  function Average(totalMoves: nat, games: int): Result<real> {
    if games == 0 then Err(ZeroDivisionError) else Ok(totalMoves as real / games as real)
  }

  /** A run's summary: the scoreboard, the draw reasons and the mean
      length. */
  datatype Summary = Summary(score: Scoreboard, reasons: ReasonCounts, averageMoves: real)

  /** The game loop of a run: game g from `starts[g - 1]`, each capped at
      100 plies, logged in `rows` and tallied as it is played. Stops at the
      first unknown strategy name. */
  method PlayGames(starts: seq<Pos>, whiteAlgo: string, blackAlgo: string, games: int)
    returns (rows: seq<GameRecord>, score: Scoreboard, reasons: ReasonCounts, failure: Option<Failure>)
    requires games <= |starts|
    ensures score == ScoreOf(rows) && reasons == ReasonsOf(rows)
    ensures failure.None? ==> |rows| == (if games > 0 then games else 0)
    ensures failure.Some? ==> games > 0 && failure.value.KeyError? && failure.value.name !in SearchNames
    ensures forall i :: 0 <= i < |rows| ==> rows[i].moves <= 100
  {
    score := Scoreboard(0, 0, 0, 0);
    reasons := ReasonCounts(0, 0, 0, 0, 0, 0);
    rows := [];
    var g := 1;
    while g <= games
      invariant 1 <= g <= (if games > 0 then games + 1 else 1) && |rows| == g - 1
      invariant score == ScoreOf(rows) && reasons == ReasonsOf(rows)
      invariant forall i :: 0 <= i < |rows| ==> rows[i].moves <= 100
    {
      var game, _ := PlaySingleGame(starts[g - 1], whiteAlgo, blackAlgo, 100);
      if game.Err? {
        return rows, score, reasons, Some(game.error);
      }
      ScoreOfStep(rows, game.value);
      ReasonsOfStep(rows, game.value);
      rows := rows + [game.value];
      score := AddGame(score, game.value);
      reasons := AddReason(reasons, game.value);
      g := g + 1;
    }
    failure := None;
  }

  /** Play and tally a run of `games` games; `rows` are the logged games in
      order. The mean length divides by the number of games, so a run of
      no games fails. The reason counters are those of the logged games, so
      they add up to the draws (ReasonsSumToDraws). */
  method RunMatchup(starts: seq<Pos>, whiteAlgo: string, blackAlgo: string, games: int)
    returns (r: Result<Summary>, rows: seq<GameRecord>)
    requires games <= |starts|
    ensures r.Ok? ==>
      |rows| == (if games > 0 then games else 0)
      && r.value.score == ScoreOf(rows) && r.value.reasons == ReasonsOf(rows)
      && r.value.score.whiteWins + r.value.score.blackWins + r.value.score.draws == |rows|
      && Ok(r.value.averageMoves) == Average(TotalMoves(rows), games)
      && (forall i :: 0 <= i < |rows| ==> rows[i].moves <= 100)
    ensures games == 0 ==> r == Err(ZeroDivisionError)
    ensures r.Err? && r.error.KeyError? ==> r.error.name !in SearchNames
  {
    var score, reasons, failure;
    rows, score, reasons, failure := PlayGames(starts, whiteAlgo, blackAlgo, games);
    if failure.Some? {
      return Err(failure.value), rows;
    }
    ScoreOfCounts(rows);
    var average := Average(score.totalMoves, games);
    if average.Err? {
      return Err(average.error), rows;
    }
    r := Ok(Summary(score, reasons, average.value));
  }
}
