/** The fixed-position tournament: every matchup replays the same shared
    list of start positions (game g starts from position g - 1, cycling
    when there are more games than positions), and the draw reasons are
    counted in a table keyed by reason, decisive games under the key None.
    Loading the positions from a file is not modelled: the list is a
    parameter, already parsed. */
module FixedTournament {
  import opened Rules
  import opened Engine
  import opened Tournament

  /** One game from the given start position. Besides the game record it
      reports the start position it was played from. */
  method PlaySingleGameFixed(start: Pos, whiteAlgo: string, blackAlgo: string, maxMoves: int)
    returns (r: Result<GameRecord>, used: Pos, ghost final: Pos)
    ensures used == start
    ensures r.Ok? ==>
      var g := r.value;
      Finished(final, g.moves, maxMoves)
      && Reaches(start, final) && (IsGameOver(start) ==> g.moves == 0 && final == start)
      && (g.moves == 0 || g.moves <= maxMoves)
      && (g.result, g.reason) == Adjudicate(final, g.moves, maxMoves)
      && Consistent(g)
      && g.whiteCount == PiecesBelow(start.grid, White, 64)
      && g.blackCount == PiecesBelow(start.grid, Black, 64)
    ensures r.Err? ==>
      r.error.KeyError? && r.error.name !in SearchNames
      && (r.error.name == whiteAlgo || r.error.name == blackAlgo)
  {
    r, final := PlaySingleGame(start, whiteAlgo, blackAlgo, maxMoves);
    if r.Ok? {
      AdjudicateDecisive(final, r.value.moves, maxMoves);
    }
    used := start;
  }

  /** A record as adjudication produces it: a result of 1, 0 or -1, and a
      draw reason exactly when the result is a draw. */
  predicate Consistent(g: GameRecord) {
    (g.result == 1 || g.result == 0 || g.result == -1) && (g.reason.None? <==> g.result != 0)
  }

  // ---------------------------------------------------------------------------
  // The draw table

  /** The keys of the draw table: the six draw reasons and None. */
  const TableKeys: seq<Option<DrawReason>> :=
    [Some(MoveLimit), Some(InsufficientMaterial), Some(Stalemate), Some(Threefold),
     Some(FiftyMove), Some(OtherDraw), None]

  /** The table a run starts with: every key present, every count zero. */
  const EmptyTable: map<Option<DrawReason>, nat> := map k | k in TableKeys :: 0

  /** Every reason a game can report is a key of the table. */
  lemma EveryReasonIsKey(k: Option<DrawReason>)
    ensures k in TableKeys
  {
    match k
    case None => assert TableKeys[6] == k;
    case Some(d) =>
      match d {
        case MoveLimit => assert TableKeys[0] == k;
        case InsufficientMaterial => assert TableKeys[1] == k;
        case Stalemate => assert TableKeys[2] == k;
        case Threefold => assert TableKeys[3] == k;
        case FiftyMove => assert TableKeys[4] == k;
        case OtherDraw => assert TableKeys[5] == k;
      }
  }

  /** The number of games of a series that report reason `k`. */
  function CountReason(games: seq<GameRecord>, k: Option<DrawReason>): nat {
    if games == [] then 0
    else CountReason(games[..|games| - 1], k) + (if games[|games| - 1].reason == k then 1 else 0)
  }

  /** The draw table of a series: each key maps to the games reporting it. */
  function DrawTable(games: seq<GameRecord>): map<Option<DrawReason>, nat> {
    map k | k in TableKeys :: CountReason(games, k)
  }

  /** The sum of the table's seven entries. */
  function TableTotal(t: map<Option<DrawReason>, nat>): nat
    requires forall k :: k in TableKeys ==> k in t
  {
    t[Some(MoveLimit)] + t[Some(InsufficientMaterial)] + t[Some(Stalemate)] + t[Some(Threefold)]
    + t[Some(FiftyMove)] + t[Some(OtherDraw)] + t[None]
  }

  /** The loop's update of the table: one more game with reason `k`
      (a missing key counts from 0). */
  function Bump(t: map<Option<DrawReason>, nat>, k: Option<DrawReason>): map<Option<DrawReason>, nat> {
    t[k := (if k in t then t[k] else 0) + 1]
  }

  /** Adding a game to a series adds one to the entry of its reason, as the
      loop does, and leaves the other entries as they were. */
  lemma DrawTableStep(games: seq<GameRecord>, g: GameRecord)
    ensures g.reason in DrawTable(games)
    ensures DrawTable(games + [g]) == Bump(DrawTable(games), g.reason)
  {
    EveryReasonIsKey(g.reason);
    assert (games + [g])[..|games|] == games;
    var t, t' := DrawTable(games), DrawTable(games + [g]);
    assert t'.Keys == Bump(t, g.reason).Keys;
    forall k | k in t'
      ensures t'[k] == Bump(t, g.reason)[k]
    {
    }
  }

  /** Every game lands in exactly one entry, so the table adds up to the
      number of games. */
  lemma {:induction false} DrawTableTotal(games: seq<GameRecord>)
    ensures TableTotal(DrawTable(games)) == |games|
  {
    if games != [] {
      var prefix := games[..|games| - 1];
      DrawTableTotal(prefix);
      EveryReasonIsKey(games[|games| - 1].reason);
    }
  }

  /** When every record is consistent, the None entry counts exactly the
      decisive games, and the six reason entries the draws. */
  lemma {:induction false} DrawTableNoneIsDecisive(games: seq<GameRecord>)
    requires forall i :: 0 <= i < |games| ==> Consistent(games[i])
    ensures DrawTable(games)[None] == ScoreOf(games).whiteWins + ScoreOf(games).blackWins
    ensures TableTotal(DrawTable(games)) - DrawTable(games)[None] == ScoreOf(games).draws
  {
    if games != [] {
      var prefix := games[..|games| - 1];
      assert forall i :: 0 <= i < |prefix| ==> prefix[i] == games[i];
      DrawTableNoneIsDecisive(prefix);
    }
    DrawTableTotal(games);
    ScoreOfCounts(games);
  }

  // ---------------------------------------------------------------------------
  // A run

  /** The start position of game g (counting from 1). */
  function StartOf(fens: seq<Pos>, g: int): Pos
    requires fens != [] && g >= 1
  {
    fens[(g - 1) % |fens|]
  }

  /** The game loop of a fixed-position run, tallying as it goes. Stops at
      the first unknown strategy name. */
  method PlayGamesFixed(fens: seq<Pos>, whiteAlgo: string, blackAlgo: string, games: int)
    returns (rows: seq<GameRecord>, used: seq<Pos>, score: Scoreboard,
             table: map<Option<DrawReason>, nat>, failure: Option<Failure>)
    requires fens != []
    ensures |used| == |rows| && forall i :: 0 <= i < |used| ==> used[i] == StartOf(fens, i + 1)
    ensures score == ScoreOf(rows) && table == DrawTable(rows)
    ensures failure.None? ==> |rows| == (if games > 0 then games else 0)
    ensures failure.Some? ==> games > 0 && failure.value.KeyError? && failure.value.name !in SearchNames
    ensures forall i :: 0 <= i < |rows| ==> Consistent(rows[i]) && rows[i].moves <= 100
  {
    score := Scoreboard(0, 0, 0, 0);
    table := EmptyTable;
    rows, used := [], [];
    var g := 1;
    while g <= games
      invariant 1 <= g <= (if games > 0 then games + 1 else 1) && |rows| == g - 1 && |used| == |rows|
      invariant forall i :: 0 <= i < |used| ==> used[i] == StartOf(fens, i + 1)
      invariant score == ScoreOf(rows) && table == DrawTable(rows)
      invariant forall i :: 0 <= i < |rows| ==> Consistent(rows[i]) && rows[i].moves <= 100
    {
      var game, start, _ := PlaySingleGameFixed(StartOf(fens, g), whiteAlgo, blackAlgo, 100);
      if game.Err? {
        return rows, used, score, table, Some(game.error);
      }
      var record := game.value;
      ScoreOfStep(rows, record);
      DrawTableStep(rows, record);
      rows, used := rows + [record], used + [start];
      score := AddGame(score, record);
      table := Bump(table, record.reason);
      g := g + 1;
    }
    failure := None;
  }

  /** A fixed-position run's summary: the scoreboard, the mean length and
      the draw table. */
  datatype FixedSummary = FixedSummary(score: Scoreboard, averageMoves: real,
                                       drawTable: map<Option<DrawReason>, nat>)

  /** Play and tally `games` games over the shared positions `fens`. An
      empty list of positions fails before any game; otherwise the mean
      length divides by the number of games, so a run of no games fails
      too. */
  method RunMatchupFixed(fens: seq<Pos>, whiteAlgo: string, blackAlgo: string, games: int)
    returns (r: Result<FixedSummary>, rows: seq<GameRecord>, used: seq<Pos>)
    ensures fens == [] ==> r == Err(ValueError)
    ensures fens != [] && games == 0 ==> r == Err(ZeroDivisionError)
    ensures r.Ok? ==>
      fens != []
      && |rows| == (if games > 0 then games else 0)
      && |used| == |rows| && (forall i :: 0 <= i < |used| ==> used[i] == fens[i % |fens|])
      && r.value.score == ScoreOf(rows) && r.value.drawTable == DrawTable(rows)
      && Ok(r.value.averageMoves) == Average(TotalMoves(rows), games)
      && (forall i :: 0 <= i < |rows| ==> Consistent(rows[i]) && rows[i].moves <= 100)
    ensures r.Err? && r.error.KeyError? ==> r.error.name !in SearchNames
  {
    if fens == [] {
      return Err(ValueError), [], [];
    }
    var score, table, failure;
    rows, used, score, table, failure := PlayGamesFixed(fens, whiteAlgo, blackAlgo, games);
    if failure.Some? {
      return Err(failure.value), rows, used;
    }
    var average := Average(score.totalMoves, games);
    if average.Err? {
      return Err(average.error), rows, used;
    }
    r := Ok(FixedSummary(score, average.value, table));
  }
}
