/** The first tournament script: the same game loop, but a game is scored
    only by checkmate (every other ending is a plain draw with no reason),
    and a run tallies wins, draws and the mean length. The random endgame
    start positions are parameters, one per game. */
module BasicTournament {
  import opened Rules
  import opened Engine
  import opened Tournament

  /** The result of a game that stopped in `q`: a win for the side that
      delivered checkmate, a draw otherwise. */
  function BasicResult(q: Pos): int {
    if IsCheckmate(q) then (if q.turn == Black then 1 else -1) else 0
  }

  /** The first script scores every game as the draw-reason script does;
      it only drops the reason. */
  lemma BasicAgreesWithAdjudicate(q: Pos, moves: int, maxMoves: int)
    ensures BasicResult(q) == Adjudicate(q, moves, maxMoves).0
    ensures BasicResult(q) != 0 <==> IsCheckmate(q)
  {
  }

  /** One game from `start`: the loop, then the checkmate test on the
      position where it stopped (`final`). The record carries no draw
      reason. */
  method PlaySingleGameBasic(start: Pos, whiteAlgo: string, blackAlgo: string, maxMoves: int)
    returns (r: Result<GameRecord>, ghost final: Pos)
    ensures r.Ok? ==>
      var g := r.value;
      Finished(final, g.moves, maxMoves)
      && Reaches(start, final) && (IsGameOver(start) ==> g.moves == 0 && final == start)
      && (g.moves == 0 || g.moves <= maxMoves)
      && g.result == BasicResult(final)
      && (g.result == 1 <==> IsCheckmate(final) && final.turn == Black)
      && (g.result == -1 <==> IsCheckmate(final) && final.turn == White)
      && g.reason.None?
      && g.whiteCount == PiecesBelow(start.grid, White, 64)
      && g.blackCount == PiecesBelow(start.grid, Black, 64)
    ensures r.Err? ==>
      r.error.KeyError? && r.error.name !in SearchNames
      && (r.error.name == whiteAlgo || r.error.name == blackAlgo)
  {
    var engine := new ChessEngine(start);
    var white, black := engine.CountPieces();
    var moves, unknown := PlayOut(engine, whiteAlgo, blackAlgo, maxMoves);
    var q := engine.board.state;
    final := q;
    if unknown.Some? {
      return Err(KeyError(unknown.value)), final;
    }
    r := Ok(GameRecord(BasicResult(q), white, black, moves, None));
  }

  /** Play and tally `games` games, game g from `starts[g - 1]`, each capped
      at 100 plies. The mean length divides by the number of games, so a
      run of no games fails. */
  method RunMatchupBasic(starts: seq<Pos>, whiteAlgo: string, blackAlgo: string, games: int)
    returns (r: Result<(Scoreboard, real)>, rows: seq<GameRecord>)
    requires games <= |starts|
    ensures r.Ok? ==>
      |rows| == (if games > 0 then games else 0)
      && r.value.0 == ScoreOf(rows)
      && Ok(r.value.1) == Average(TotalMoves(rows), games)
      && (forall i :: 0 <= i < |rows| ==> rows[i].reason.None? && rows[i].moves <= 100)
    ensures games == 0 ==> r == Err(ZeroDivisionError)
    ensures r.Err? && r.error.KeyError? ==> games > 0 && r.error.name !in SearchNames
  {
    var score := Scoreboard(0, 0, 0, 0);
    rows := [];
    var g := 1;
    while g <= games
      invariant 1 <= g <= (if games > 0 then games + 1 else 1) && |rows| == g - 1
      invariant score == ScoreOf(rows)
      invariant forall i :: 0 <= i < |rows| ==> rows[i].reason.None? && rows[i].moves <= 100
    {
      var game, _ := PlaySingleGameBasic(starts[g - 1], whiteAlgo, blackAlgo, 100);
      if game.Err? {
        return Err(game.error), rows;
      }
      ScoreOfStep(rows, game.value);
      rows := rows + [game.value];
      score := AddGame(score, game.value);
      g := g + 1;
    }
    var average := Average(score.totalMoves, games);
    if average.Err? {
      return Err(average.error), rows;
    }
    r := Ok((score, average.value));
  }
}
