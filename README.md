# A verified model of a small chess AI

This project models the decision-making core of a Python chess program and
proves properties of the model in Dafny. The program consists of:

- game-tree searches: minimax, alpha-beta with a quiescence search,
  iterative deepening, and Monte Carlo tree search (MCTS);
- a static evaluator;
- an engine wrapper that keeps a board and its move and capture histories;
- the clock and click handling of its desktop window;
- three engine-against-engine tournament scripts.

The chess rules library the program relies on is replaced by a game-tree
oracle. `Rules.Pos` is a position with:

- its 64 squares and the side to move;
- the flags the library would compute (check, insufficient material, an
  automatic draw, claimable fifty-move and threefold draws);
- the mobility count with the side to move switched;
- its legal moves in generation order, each with a capture flag, its
  notation and the position it leads to.

Checkmate, stalemate and game over are derived from the check flag and the
move list. `Rules.Board` is a class holding the current position and a stack
of (position, move) frames. `Push` and `Pop` work on that stack as the
library's push and pop do.

Modules, one file each:

- `Scores`: scores extended with ±infinity, their order, min, max, negation
  and clamping.
- `Rules`: the oracle and the board.
- `Evaluator`: the static evaluation (`ai/evaluation.py`). Every term is a
  function. Every loop of the program is a method proved equal to that
  function.
- `Search`: minimax, alpha-beta, quiescence and iterative deepening
  (`ai/search_algorithms.py`). Each is both a specification function and a
  board method. The method pushes and pops moves as the program does, and
  is proved to return the function's value and to leave the board exactly
  as it found it. The central theorem is about windows. When the leaves at
  the horizon have no captures, alpha-beta clamped to its window equals
  minimax clamped to the same window. With the full window it returns
  minimax's score and move.
- `MonteCarlo`: MCTS, with the tree stored as an arena of nodes that refer
  to one another by index. The UCT choice and the random rollout moves are
  nondeterministic choices. Preserved invariants cover links between
  nodes, the split between expanded and untried moves, and visit
  conservation.
- `Engine`: the wrapper class (`engine/chess_engine.py`):
  - coordinates and the board grid;
  - legal destinations;
  - making and undoing moves over the four history lists;
  - material, mating material and piece counts;
  - the search dispatch.
- `Gui`: the window's clock tick and flag adjudication, time formatting,
  click-to-square mapping, click selection, new game, undo and square
  colouring (`ui/gui.py`).
- `Tournament`, `FixedTournament`, `BasicTournament`: the three tournament
  scripts. Each plays games under a 100-ply cap, adjudicates the finished
  game, and tallies results, draw reasons and the mean game length.

Some quirks of the program are modelled as written:

- The quiescence search is fail-hard negamax over an evaluation that is
  positive for White, with no side-to-move sign.
- The king-opposition term carries no colour sign.
- `make_move` reads the captured piece from the destination square, so an
  en passant capture records no captured piece.
- `undo_last_move` removes the first equal code from the White capture
  list, and otherwise from the Black one.

The start positions come from a random endgame generator or from a file.
They are parameters here: one position per game, already parsed.

## Model

| member | source | states |
|---|---|---|
| Evaluator.MaterialBalance | ai/evaluation.py:219-227 | the material loop returns White's piece values minus Black's (pawn 1, knight and bishop 3, rook 5, queen 9, king 0) |
| Evaluator.MajorsAreCounted | ai/evaluation.py:12-15 | the queen-and-rook counter equals the number of squares holding a queen or rook of either colour |
| Evaluator.GamePhase | ai/evaluation.py:10-21 | endgame exactly when at most two queens and rooks remain, opening exactly when six or more remain, middlegame otherwise |
| Evaluator.Mobility | ai/evaluation.py:28-38 | counts the legal moves of the requested colour, which for the side to move is the legal-move count, and restores the side to move and the board |
| Evaluator.CheckIsolated | ai/evaluation.py:58-66 | a pawn is isolated exactly when no friendly pawn stands on an adjacent file |
| Evaluator.CheckPassed | ai/evaluation.py:69-86 | a pawn is passed exactly when no enemy pawn on the same or an adjacent file stands ahead of it (higher rank for White, lower for Black) |
| Evaluator.ScorePawns | ai/evaluation.py:46-88 | the three pawn loops compute -0.2 per extra pawn on a file, -0.3 per isolated pawn and +0.5 per passed pawn |
| Evaluator.PawnStructure | ai/evaluation.py:45-88 | the pawn-structure term of a colour is that score over its own and the enemy's pawns |
| Evaluator.PawnStructureBounds | ai/evaluation.py:45-88 | the pawn term is 0 with no pawns and never exceeds 0.5 per pawn |
| Evaluator.PassedCount | ai/evaluation.py:69-86 | at most one passed pawn is counted per pawn examined |
| Evaluator.NoPawnsNoExtra | ai/evaluation.py:52-55 | with no pawns no file holds an extra pawn |
| Evaluator.CentreDistance | ai/evaluation.py:112 | a square's Manhattan distance to the centre lies in [1, 7] |
| Evaluator.OffCentre | ai/evaluation.py:112 | a file or rank index lies between 0.5 and 3.5 from the centre line |
| Evaluator.KingSafety | ai/evaluation.py:95-114 | 0 without a king; outside the endgame -0.5 exactly when the king is off its home rank, else 0.2 or 0; in the endgame within [-2.1, -0.3] |
| Evaluator.Distance | ai/evaluation.py:135-139 | the kings' Manhattan distance is at most 14 and 0 only for the same square |
| Evaluator.KingOpposition | ai/evaluation.py:121-142 | 0 outside the endgame or with a king missing, otherwise within [-1.6, 1.0] |
| Evaluator.EdgeDistance | ai/evaluation.py:165-169 | a square's distance to the nearest edge lies in [0, 3] |
| Evaluator.Pressure | ai/evaluation.py:160-181 | one colour's pressure lies in [0, 1.2] and is positive only when it owns a queen or rook and the enemy king is present |
| Evaluator.EndgamePressureOf | ai/evaluation.py:149-183 | 0 outside the endgame and within [-1.2, 1.2] |
| Evaluator.EndgamePressure | ai/evaluation.py:149-183 | the loop over both colours adds White's pressure and subtracts Black's |
| Evaluator.Evaluate | ai/evaluation.py:213-249 | 9999 when Black is mated, -9999 when White is mated, 0 on stalemate, otherwise material + 0.1 x mobility difference + pawn and king-safety differences + king opposition + endgame pressure; the board is restored |
| Search.Minimax | ai/search_algorithms.py:12-42 | returns the minimax score and move of the starting position (the evaluation and no move at depth 0 or game over) and leaves the board state and move stack as found |
| Search.MinimaxFinite | ai/search_algorithms.py:12-42 | minimax never returns an infinite score |
| Search.MinimaxBest | ai/search_algorithms.py:18-42 | at a live node the result is the score and move of some child k: no child beats it, and every earlier child is strictly worse (first-seen tie-break) |
| Search.MinimaxLoopMonotone | ai/search_algorithms.py:25-27 | the running best never gets worse: it never falls at a maximising node and never rises at a minimising one |
| Search.QuiescenceValue | ai/search_algorithms.py:177-198 | with alpha <= beta the value lies in [alpha, beta] and is at least the stand-pat score clamped to the window |
| Search.QLoopIsCaptureFold | ai/search_algorithms.py:185-198 | the move loop skips every non-capture: it equals a fold over the capture moves alone |
| Search.QuiescenceOnlyCaptures | ai/search_algorithms.py:177-198 | beta when stand-pat >= beta, otherwise the fold over the captures from max(alpha, stand-pat) |
| Search.QuiescenceQuiet | ai/search_algorithms.py:180-183 | with no capture moves the value is beta when stand-pat >= beta, else max(alpha, stand-pat) |
| Search.Quiescence | ai/search_algorithms.py:177-198 | returns the quiescence value and leaves the board state and move stack as found |
| Search.CaptureSearch | ai/search_algorithms.py:185-198 | returns the value of the capture loop and leaves the board state and move stack as found |
| Search.ABTraceScores | ai/search_algorithms.py:57-68 | each recorded probe's score is the alpha-beta value of the move at that index, searched with the probe's window |
| Search.ABTraceShaped | ai/search_algorithms.py:57-87 | the trace of searched moves is non-empty at a live node, never longer than the move list, and ends early only at a probe whose score closes the window |
| Search.ShapedSteps | ai/search_algorithms.py:70-87 | the first probe has the given window; every probe before the last leaves the window open and hands the next probe the window it narrowed |
| Search.ShapedNarrows | ai/search_algorithms.py:70-87 | alpha only rises at a maximising node (beta stays) and beta only falls at a minimising one (alpha stays), each window taking in every earlier score |
| Search.ABLoopIsBestOf | ai/search_algorithms.py:55-89 | the alpha-beta loop equals a first-best fold over the scores of exactly the moves it searched |
| Search.BestOfNoneBetter | ai/search_algorithms.py:70-76 | no searched move's score strictly beats the fold's result |
| Search.BestOfFirstSeen | ai/search_algorithms.py:70-76 | the fold's result is the starting best, or the score and move of some searched move that every earlier searched move is strictly worse than |
| Search.ABLoopBest | ai/search_algorithms.py:55-89 | among the moves searched before the cutoff, none beats the result, which is the best in hand or the first searched move reaching the best score |
| Search.AlphaBetaProbes | ai/search_algorithms.py:57-68 | the score recorded for each searched move is that move's alpha-beta value one ply shallower, with the window of its step |
| Search.AlphaBetaSearched | ai/search_algorithms.py:55-89 | at a live node the first move is searched with the given window, each later one with the window left by the one before, and the search stops early only at a move whose score closes the window |
| Search.AlphaBetaNarrows | ai/search_algorithms.py:70-87 | the window seen by each searched move only narrows and takes in every score found before it |
| Search.AlphaBetaBest | ai/search_algorithms.py:55-89 | the result is (worst, no move) or the first searched move reaching the best score, and no searched move beats it |
| Search.QuiescenceFinite | ai/search_algorithms.py:177-198 | in an open window (alpha < beta) quiescence returns a finite score |
| Search.AlphaBetaLive | ai/search_algorithms.py:49-89 | in an open window alpha-beta returns a finite score and, where the game goes on and depth > 0, a legal move |
| Search.AlphaBeta | ai/search_algorithms.py:49-89 | returns the alpha-beta score and move (quiescence and no move at depth 0 or game over) and leaves the board as found |
| Search.AlphaBetaClamp | ai/search_algorithms.py:49-89 | for alpha < beta and capture-free horizon leaves, alpha-beta and minimax agree once clamped to [alpha, beta] |
| Search.AlphaBetaFullWindow | ai/search_algorithms.py:49-89 | with the full window and capture-free horizon leaves, alpha-beta returns minimax's score and move |
| Search.IterativeDeepening | ai/search_algorithms.py:165-170 | None below depth 1, otherwise the move of a full-window alpha-beta search at the last depth for the side to move; the board is restored |
| Search.IterativeDeepeningIsMinimax | ai/search_algorithms.py:165-170 | with capture-free horizon leaves it returns the minimax move of the deepest depth, and None exactly when the game is over |
| MonteCarlo.NewNode | ai/search_algorithms.py:98-104 | a new node has every legal move untried, no children, no visits and value 0 |
| MonteCarlo.SearchTree.Select | ai/search_algorithms.py:134-136 | selection stops at a node with an untried move or with no children |
| MonteCarlo.SearchTree.Expand | ai/search_algorithms.py:138-145 | pops the last untried move, appends its child node after the parent's children, and keeps the tree invariants with a rollout pending at the new node |
| MonteCarlo.SearchTree.Backpropagate | ai/search_algorithms.py:150-154 | every node on the path from the node to the root gains one visit and the result in its value, every other node keeps its visits and value, and the tree's shape is unchanged |
| MonteCarlo.OnPathBelow | ai/search_algorithms.py:150-154 | the parent chain only climbs: every node on a node's path to the root has an index no larger |
| MonteCarlo.BackpropPath | ai/search_algorithms.py:151-154 | one loop step adds the visit and the result to the current node and passes on to its parent, which is on the path too |
| MonteCarlo.ExpandLinked | ai/search_algorithms.py:139-145 | expansion keeps parents and children consistent |
| MonteCarlo.ExpandExpanded | ai/search_algorithms.py:139-145 | expansion keeps children + untried equal to the node's legal moves |
| MonteCarlo.ExpandCounted | ai/search_algorithms.py:139-148 | expansion keeps every node's visits equal to its children's visits plus its own rollouts |
| MonteCarlo.BackpropCounted | ai/search_algorithms.py:151-154 | each backpropagation step keeps visit conservation and \|value\| <= visits |
| MonteCarlo.Simulate | ai/search_algorithms.py:114-124 | the rollout ends in a game-over position reachable from the start; 1 exactly when the colour that is not the root's is mated, -1 exactly when the root colour is mated, 0 otherwise |
| MonteCarlo.MostVisited | ai/search_algorithms.py:156 | the first root child with the most visits |
| MonteCarlo.Visited | ai/search_algorithms.py:131-154 | in a valid tree every non-root node has been visited |
| MonteCarlo.Mcts | ai/search_algorithms.py:127-157 | the root has exactly `simulations` visits, which its children's visits sum to when it has a legal move; every non-root node has a visit; the move is legal and leads to the first most-visited root child |
| Engine.CoordinatesRoundTrip | engine/chess_engine.py:110-126 | square to (row, col) and back is the identity, and so is (row, col) to square and back for 0 <= row, col < 8 |
| Engine.SquareToRCInjective | engine/chess_engine.py:110-120 | distinct squares have distinct screen coordinates |
| Engine.PieceCodeInjective | engine/chess_engine.py:137-139 | different pieces have different two-letter codes |
| Engine.ChessEngine.Reset | engine/chess_engine.py:29-52 | a fresh board on the given position and all four histories empty |
| Engine.ChessEngine.GetBoard | engine/chess_engine.py:128-140 | an 8x8 grid whose cell at each square's (row, col) holds that square's colour and kind letters, or "" when it is empty |
| Engine.DestinationsAreMoves | engine/chess_engine.py:154-159 | (row, col) is listed exactly when some legal move goes from the square to it |
| Engine.ChessEngine.GetLegalMovesFrom | engine/chess_engine.py:144-159 | [] for an empty square or a piece of the side not to move, otherwise the destinations of the legal moves from the square |
| Engine.MoveIndexFindsLegal | engine/chess_engine.py:181-183 | the lookup finds a move exactly when it is legal |
| Engine.ChessEngine.MakeMove | engine/chess_engine.py:161-206 | nothing changes and None is returned for an empty square or an illegal queen-promoting move; otherwise the move is pushed, its notation returned and appended, and the captured code appended to the capture stack and to the mover's list exactly when the target was occupied |
| Engine.RemoveFirst | engine/chess_engine.py:219-222 | removing the first equal entry removes one copy as a multiset |
| Engine.UndoAfterRecord | engine/chess_engine.py:208-224 | undoing a recorded move restores the notation and capture stacks exactly, the capture lists as multisets, and keeps each list to one colour |
| Engine.ChessEngine.UndoLastMove | engine/chess_engine.py:208-224 | None and no change with no move made; otherwise the board pops its last move and the histories are unrecorded |
| Engine.ChessEngine.GetMaterialBalance | engine/chess_engine.py:255-261 | White's piece values minus Black's |
| Engine.MatingMaterialOnSquares | engine/chess_engine.py:272-296 | mating material exactly when the side has a pawn, rook or queen, two bishops on distinct squares, or a bishop and a knight |
| Engine.ChessEngine.HasMatingMaterial | engine/chess_engine.py:272-296 | returns that predicate for the side's pieces |
| Engine.PiecesPartition | engine/chess_engine.py:384-388 | White's and Black's piece counts add up to the number of occupied squares |
| Engine.ChessEngine.CountPieces | engine/chess_engine.py:384-388 | the number of White and of Black pieces, together the occupied squares |
| Engine.Lower | engine/chess_engine.py:320 | the method name is lower-cased letter by letter |
| Engine.ChessEngine.ChooseMove | engine/chess_engine.py:320-348 | on a live position every strategy yields a legal move, for minimax, alpha-beta and iterative deepening the one of the search's value function, and the board is back where it was |
| Engine.ChessEngine.FindBestMove | engine/chess_engine.py:300-380 | None and no change when the game is over; on a live position whose legal moves replay with the queen promotion, a move is always reported; a reported move is legal and played: the board moves to the position it leads to, its frame is pushed, and its notation, captured piece and mover are recorded in the histories; for minimax, alpha-beta and iterative deepening it is the search's move replayed with automatic queen promotion |
| Engine.EngineImportFails | engine/chess_engine.py:4-10 | the first name the engine imports that the search module lacks is `iddfs_alphabeta_move` |
| Gui.NatString | ui/gui.py:297 | a number below 100 prints as its one or two decimal digits |
| Gui.Pad2 | ui/gui.py:297 | a number below 100 prints as exactly two digits |
| Gui.FormatTimeRoundTrip | ui/gui.py:294-297 | for 0 <= s < 6000 the text is five characters with ':' in the middle and parses back to s |
| Gui.TickCountsDown | ui/gui.py:303-311 | a stopped clock does not change; a running tick takes one second from the side to move only while it is positive, so clocks never go negative |
| Gui.TickFlags | ui/gui.py:313-337 | the timer stops exactly when a clock reaches 0; the flagged side loses only if the opponent has mating material, and both clocks at 0 is a draw |
| Gui.ChessGui.FlagFall | ui/gui.py:314-337 | stops the timer and records the verdict for the two clocks and both sides' mating material |
| Gui.ChessGui.OnTick | ui/gui.py:303-341 | the clocks become the tick of the old clocks for the side to move; the verdict changes only when a flag falls; selection and log are untouched |
| Gui.SquareSize | ui/gui.py:384-391 | squares are at least 40 pixels |
| Gui.ChessGui.constructor | ui/gui.py:23-78 | both clocks at the initial minutes x 60, the timer running unless the start position is already over, no verdict, and the square size of the canvas |
| Gui.ChessGui.DrawBoard | ui/gui.py:375-513 | the square size follows the canvas, the status shows the engine's own text again, the timer stops when the game is over, and nothing else changes |
| Gui.CoordsFromEvent | ui/gui.py:519-533 | a returned square has row and column in [0, 8) |
| Gui.InsideIsSomeSquare | ui/gui.py:528-531 | the floor division lands in [0, 8) exactly when the pixel lies within the board's width |
| Gui.CoordsFromEventIsCell | ui/gui.py:519-533 | a square is returned exactly when the click lies inside the board, and the click lies inside that square's pixel cell |
| Gui.ShadePriority | ui/gui.py:426-442 | king in check beats the selected square, which beats a legal target, which beats the last-move squares, which beat the light/dark parity colour |
| Gui.ChessGui.SelectOrClear | ui/gui.py:547-554 | clicking one's own piece selects it with its legal destinations, anything else clears the selection |
| Gui.ChessGui.PlayTo | ui/gui.py:560-568 | the selection is cleared; when a piece stands on the selected square and the move to (row, col) with automatic queen promotion is legal, that move is played (new position, pushed frame, recorded histories) and becomes the last move and a new log line; otherwise board, histories, last move and log are unchanged |
| Gui.ChessGui.ClickSquare | ui/gui.py:547-575 | a move is made exactly when a piece was selected, the clicked square differs from it, is in the legal list, and the move there can be played; it is then played as in PlayTo; the new selection is cleared after a click on the selected square or a destination, and otherwise is the clicked square exactly when it shows a piece of the side to move, with its destinations (none when cleared) |
| Gui.ChessGui.OnCanvasClick | ui/gui.py:535-577 | nothing changes when the game is over or the click is off the board; otherwise a move is made exactly as ClickSquare makes one on the clicked square (played, logged, last move), the selection and destinations are those ClickSquare leaves for the piece on that square of the board, the clock times are untouched, and the redraw stops the timer when the click ended the game |
| Gui.ChessGui.OnNewGame | ui/gui.py:588-603 | a fresh board on the new position, both clocks at the initial minutes x 60, timer running unless the new position is already over, selection, targets, last move, verdict and log cleared |
| Gui.ChessGui.OnUndo | ui/gui.py:605-618 | with no move made, nothing changes (board, stack, histories, selection, log, clocks, verdict, square size); otherwise the board returns to the position before the last move, the stack loses its last frame, the histories are unrecorded, the last log line dropped, selection, last move and verdict cleared and the timer running exactly when the game is not over |
| Tournament.AdjudicateDecisive | tournament/ai_vs_ai_draw_reasons.py:38-43 | only checkmate is decisive: 1 when Black is mated, -1 when White is mated, and a reason exactly for draws |
| Tournament.AdjudicateReasonOrder | tournament/ai_vs_ai_draw_reasons.py:45-67 | move limit when capped with the game still on, otherwise the first of stalemate, insufficient material, fifty-move, threefold, other |
| Tournament.ClaimReasonsNeedAutomaticDraw | tournament/ai_vs_ai_draw_reasons.py:31-65 | a finished game given a fifty-move, threefold or other reason ended by an automatic draw, since claimable draws do not stop the loop |
| Tournament.PlayOut | tournament/ai_vs_ai_draw_reasons.py:31-36 | the engine's new position is reached from its old one by legal moves, no ply is played from a finished position, and the loop stops when the game is over or after at most max_moves plies; an unknown strategy name fails the lookup |
| Tournament.PlaySingleGame | tournament/ai_vs_ai_draw_reasons.py:15-67 | the record is the adjudication of the position where the loop stopped, which is reached from the start by legal moves (the start itself, after no plies, when the start is already over), with at most max_moves plies and the start position's piece counts |
| Tournament.ScoreOfStep | tournament/ai_vs_ai_draw_reasons.py:115-122 | one more game updates wins, draws and total plies as the loop does |
| Tournament.ScoreOfCounts | tournament/ai_vs_ai_draw_reasons.py:117-122 | White wins + Black wins + draws equals the number of games |
| Tournament.ReasonsOfStep | tournament/ai_vs_ai_draw_reasons.py:121-134 | one more game updates the six reason counters as the loop does |
| Tournament.ReasonsSumToDraws | tournament/ai_vs_ai_draw_reasons.py:121-134 | the six draw-reason counters sum to the draws |
| Tournament.PlayGames | tournament/ai_vs_ai_draw_reasons.py:105-134 | the tallies are those of the logged games, one per game played, each at most 100 plies |
| Tournament.RunMatchup | tournament/ai_vs_ai_draw_reasons.py:70-192 | wins + draws equal the games, the counters are those of the games, and the mean length is total plies / games, failing for no games |
| FixedTournament.PlaySingleGameFixed | tournament/ai_vs_ai_fixed.py:39-114 | returns the start position it was given; the game is adjudicated on a position reached from that start (the start itself, after no plies, when it is already over): checkmate gives ±1 and no reason, otherwise 0 with the first applicable reason |
| FixedTournament.EveryReasonIsKey | tournament/ai_vs_ai_fixed.py:143-151 | every reason a game reports, None included, is a key of the draw table |
| FixedTournament.DrawTableStep | tournament/ai_vs_ai_fixed.py:195 | one more game adds one to its reason's entry and leaves the other entries alone |
| FixedTournament.DrawTableTotal | tournament/ai_vs_ai_fixed.py:143-195 | the seven entries, None included, sum to the number of games |
| FixedTournament.DrawTableNoneIsDecisive | tournament/ai_vs_ai_fixed.py:186-195 | the None entry counts exactly the decisive games, the other six the draws |
| FixedTournament.PlayGamesFixed | tournament/ai_vs_ai_fixed.py:168-195 | game g starts from position (g - 1) mod the number of positions; the scoreboard and table are those of the games |
| FixedTournament.RunMatchupFixed | tournament/ai_vs_ai_fixed.py:120-243 | ValueError with no positions, ZeroDivisionError with no games, otherwise cyclic start positions, scoreboard, draw table and total plies / games |
| BasicTournament.BasicAgreesWithAdjudicate | tournament/ai_vs_ai.py:36-43 | the result is the draw-reason script's result: nonzero exactly for checkmate |
| BasicTournament.PlaySingleGameBasic | tournament/ai_vs_ai.py:15-43 | at most max_moves plies from the start to a position reached from it by legal moves (no plies when the start is already over); there 1 exactly when Black is mated, -1 exactly when White is mated, 0 otherwise |
| BasicTournament.RunMatchupBasic | tournament/ai_vs_ai.py:46-95 | wins and draws are those of the games played, and the mean length is total plies / games, failing for no games |

## Left out

- The rules library: move generation, legality, check, checkmate,
  stalemate, insufficient material, claimable draws, notation and FEN
  parsing. These are fields of the oracle position `Rules.Pos`, not
  computations.
- Randomness: the random endgame generator, the "random" strategy and the
  rollout moves are nondeterministic choices. Start positions are
  parameters.
- MonteCarlo.SearchTree.Select: the UCT formula (floating-point square root
  and logarithm) is not modelled. Selection may descend to any child, so
  the contract does not say which child UCT picks.
- MonteCarlo.Mcts: returns None where the program's `max` over an empty
  child list raises. This happens with no iterations or no legal move, and
  the engine never calls it that way.
- Floating point: the evaluation weights, scores and mean game lengths are
  exact reals. Rounding and the one-decimal formatting are not modelled.
- Engine.ChessEngine.HasMatingMaterial: takes a colour, where the program
  takes "w" or "b" and treats any other string as Black.
- Engine.Lower: lower-cases ASCII letters only.
- Engine.ChessEngine.FindBestMove: the promotion retry is proved
  unreachable, because it retries the very move that was just rejected. Its
  missing history update and late notation therefore never run. For MCTS
  and the random strategy the contract promises only a legal move. That a
  live position always yields a move rests on Engine.Replayable, a chess
  fact about promotions that the oracle position does not enforce.
- Engine.ChessEngine.GetBoard: the contract is stated per square rather
  than per (row, col). The two are equivalent by Engine.CoordinatesRoundTrip.
- The engine's `get_piece_list`, `get_status`, `get_captures`,
  `get_static_evaluation` and the pieces column of the tournament logs. They
  only format data for display.
- Gui: the status texts are modelled as a `FlagVerdict` value. It holds
  the flag verdict until the next redraw puts the engine's status back;
  the engine's own status text is not modelled.
- Gui: tkinter drawing, layout, themes, piece sets, the move-log widget
  (kept as a list of lines), the material display and the `root.after`
  scheduling are not modelled. The same holds for `on_ai_move` and the
  start menu.
- Tournament: CSV writing, console output and `load_fens_from_csv` are not
  modelled. A run returns its logged games instead. An unknown strategy
  name is a `KeyError` result.
- Tournament.RunMatchup: the six reason counters summing to the draws is
  proved as Tournament.ReasonsSumToDraws rather than restated in the
  method's contract.
- The analysis pipeline, the test-data generators and the dead `pst_bonus`
  term are not modelled.

## Findings

| source | as written | input that shows it | evidently intended | confidence | as-written member | corrected member |
|---|---|---|---|---|---|---|
| engine/chess_engine.py:8 | imports `iddfs_alphabeta_move` from the search module, which defines no such name | any import of the engine module: the from-import fails at that name | "iddfs" runs `iterative_deepening` to depth 4 | not executed | Engine.EngineImportFails | Engine.ChessEngine.FindBestMove |
