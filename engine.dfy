/** The engine wrapper the user interface and the tournaments drive: square
    and screen-coordinate conversion, the board as a grid of piece codes,
    legal destinations, making and taking back moves with the four parallel
    history lists, material and mating-material questions, and the dispatch
    to the searches. */
module Engine {
  import opened Rules
  import opened Scores
  import opened Evaluator
  import opened Search
  import opened MonteCarlo

  // ---------------------------------------------------------------------------
  // Coordinates and piece codes

  /** Screen row (0 at the top, rank 8) and column (file) of a square. */
  function SquareToRC(sq: Square): (rc: (int, int))
    ensures 0 <= rc.0 < 8 && 0 <= rc.1 < 8
  {
    (7 - Rank(sq), File(sq))
  }

  /** The square at screen row `row` and column `col`. */
  function RCToSquare(row: int, col: int): (sq: int)
    ensures 0 <= row < 8 && 0 <= col < 8 ==> 0 <= sq < 64
  {
    (7 - row) * 8 + col
  }

  /** The conversions are inverse to each other on the board. */
  lemma CoordinatesRoundTrip(sq: Square, row: int, col: int)
    ensures RCToSquare(SquareToRC(sq).0, SquareToRC(sq).1) == sq
    ensures 0 <= row < 8 && 0 <= col < 8 ==>
      0 <= RCToSquare(row, col) < 64 && SquareToRC(RCToSquare(row, col)) == (row, col)
  {
    if 0 <= row < 8 && 0 <= col < 8 {
      var sq' := RCToSquare(row, col);
      assert sq' == (7 - row) * 8 + col;
      assert Rank(sq') == 7 - row && File(sq') == col;
    }
  }

  /** Distinct squares sit at distinct screen coordinates. */
  lemma SquareToRCInjective()
    ensures forall a: Square, b: Square :: SquareToRC(a) == SquareToRC(b) ==> a == b
  {
    forall a: Square, b: Square | SquareToRC(a) == SquareToRC(b)
      ensures a == b
    {
      CoordinatesRoundTrip(a, 0, 0);
      CoordinatesRoundTrip(b, 0, 0);
    }
  }

  function ColorLetter(c: Color): char {
    if c == White then 'w' else 'b'
  }

  function KindLetter(k: Kind): char {
    match k
    case Pawn => 'P'
    case Knight => 'N'
    case Bishop => 'B'
    case Rook => 'R'
    case Queen => 'Q'
    case King => 'K'
  }

  /** The two-letter code of a piece, colour then kind, such as "wP". */
  function PieceCode(pc: Piece): (code: string)
    ensures |code| == 2 && code[0] == ColorLetter(pc.color) && code[1] == KindLetter(pc.kind)
  {
    [ColorLetter(pc.color), KindLetter(pc.kind)]
  }

  /** Codes tell pieces apart. */
  lemma PieceCodeInjective(a: Piece, b: Piece)
    ensures PieceCode(a) == PieceCode(b) ==> a == b
  {
    if PieceCode(a) == PieceCode(b) {
      assert PieceCode(a)[0] == PieceCode(b)[0] && PieceCode(a)[1] == PieceCode(b)[1];
    }
  }

  /** What the grid shows for a square: the piece code or "". */
  function Cell(g: Grid, sq: Square): string {
    match g[sq]
    case None => ""
    case Some(pc) => PieceCode(pc)
  }

  // ---------------------------------------------------------------------------
  // Legal destinations

  /** The screen coordinates of the destinations of the moves in `cs` that
      leave `sq`, in generation order. */
  function Destinations(cs: seq<Child>, sq: Square): seq<(int, int)> {
    if cs == [] then []
    else
      var rest := Destinations(cs[..|cs| - 1], sq);
      var m := cs[|cs| - 1].move;
      if m.from == sq then rest + [SquareToRC(m.to)] else rest
  }

  /** A destination is listed exactly when some legal move goes there from
      `sq`. */
  lemma {:induction false} DestinationsAreMoves(cs: seq<Child>, sq: Square, rc: (int, int))
    ensures rc in Destinations(cs, sq)
        <==> exists i :: 0 <= i < |cs| && cs[i].move.from == sq && SquareToRC(cs[i].move.to) == rc
  {
    if cs != [] {
      var front := cs[..|cs| - 1];
      DestinationsAreMoves(front, sq, rc);
      if rc in Destinations(front, sq) {
        var i :| 0 <= i < |front| && front[i].move.from == sq && SquareToRC(front[i].move.to) == rc;
        assert cs[i] == front[i];
      }
      if exists i :: 0 <= i < |cs| && cs[i].move.from == sq && SquareToRC(cs[i].move.to) == rc {
        var i :| 0 <= i < |cs| && cs[i].move.from == sq && SquareToRC(cs[i].move.to) == rc;
        if i < |front| {
          assert front[i] == cs[i];
        }
      }
    }
  }

  // ---------------------------------------------------------------------------
  // Moves and the history lists

  /** The promotion the wrapper adds on its own: a queen, for a pawn moving
      to the last rank. */
  function AutoPromotion(g: Grid, from: Square, to: Square): Option<Kind> {
    match g[from]
    case None => None
    case Some(pc) =>
      if pc.kind == Pawn && ((pc.color == White && Rank(to) == 7) || (pc.color == Black && Rank(to) == 0))
      then Some(Queen) else None
  }

  /** The index of the first legal move equal to `m`, or |cs| when none is. */
  function MoveIndex(cs: seq<Child>, m: Move): (k: nat)
    ensures k <= |cs|
    ensures k < |cs| ==> cs[k].move == m
    ensures forall j :: 0 <= j < k ==> cs[j].move != m
  {
    if cs == [] then 0
    else if cs[0].move == m then 0
    else 1 + MoveIndex(cs[1..], m)
  }

  /** A move index is found exactly for the legal moves. */
  lemma MoveIndexFindsLegal(p: Pos, m: Move)
    ensures MoveIndex(p.children, m) < |p.children| <==> m in LegalMoves(p)
  {
    if m in LegalMoves(p) {
      var i :| 0 <= i < |p.children| && LegalMoves(p)[i] == m;
      assert p.children[i].move == m;
    }
  }

  /** `s` without its first `x`, as Python's `list.remove`. */
  function RemoveFirst(s: seq<string>, x: string): (r: seq<string>)
    requires x in s
    ensures multiset(r) == multiset(s) - multiset{x}
    ensures |r| == |s| - 1
  {
    if s[0] == x then
      assert s == [s[0]] + s[1..];
      s[1..]
    else
      assert s == [s[0]] + s[1..];
      [s[0]] + RemoveFirst(s[1..], x)
  }

  /** The four lists the wrapper keeps beside the board. */
  datatype Histories = Histories(
    moves: seq<string>,
    whiteCaptures: seq<string>,
    blackCaptures: seq<string>,
    captures: seq<Option<string>>)

  /** The histories after a move with notation `san`, capturing `captured`,
      by a `mover` piece. */
  function Record(h: Histories, san: string, captured: Option<string>, mover: Color): Histories {
    Histories(
      h.moves + [san],
      if captured.Some? && mover == White then h.whiteCaptures + [captured.value] else h.whiteCaptures,
      if captured.Some? && mover == Black then h.blackCaptures + [captured.value] else h.blackCaptures,
      h.captures + [captured])
  }

  /** Whether the wrapper can play from `from` to `to` on `p`: a piece
      stands on `from`, and the move with the wrapper's own promotion is
      legal. */
  predicate CanPlay(p: Pos, from: Square, to: Square) {
    p.grid[from].Some? && Move(from, to, AutoPromotion(p.grid, from, to)) in LegalMoves(p)
  }

  /** The board and histories after the wrapper plays from `from` to `to` on
      `p` (board position, move stack and histories before: `p`, `stack`,
      `h`; after: `state'`, `stack'`, `h'`). The board moves to the position
      the move leads to, its frame is pushed, and the histories record the
      move's notation, the piece standing on `to` and the mover's colour. */
  predicate Played(p: Pos, stack: seq<Frame>, h: Histories, from: Square, to: Square,
                   state': Pos, stack': seq<Frame>, h': Histories)
  {
    var m := Move(from, to, AutoPromotion(p.grid, from, to));
    var k := MoveIndex(p.children, m);
    p.grid[from].Some? && k < |p.children|
    && state' == p.children[k].next
    && stack' == stack + [Frame(p, m)]
    && h' == Record(h, p.children[k].san,
                    if p.grid[to].Some? then Some(PieceCode(p.grid[to].value)) else None,
                    p.grid[from].value.color)
  }

  /** The histories after taking a move back: the last notation and capture
      entry are popped (when there are any), and the captured code leaves the
      White list if it is there, otherwise the Black list. */
  function Unrecord(h: Histories): Histories {
    var captured := if |h.captures| > 0 then h.captures[|h.captures| - 1] else None;
    var moves := if |h.moves| > 0 then h.moves[..|h.moves| - 1] else h.moves;
    var captures := if |h.captures| > 0 then h.captures[..|h.captures| - 1] else h.captures;
    if captured.Some? && captured.value in h.whiteCaptures then
      Histories(moves, RemoveFirst(h.whiteCaptures, captured.value), h.blackCaptures, captures)
    else if captured.Some? && captured.value in h.blackCaptures then
      Histories(moves, h.whiteCaptures, RemoveFirst(h.blackCaptures, captured.value), captures)
    else Histories(moves, h.whiteCaptures, h.blackCaptures, captures)
  }

  /** Every entry of `s` is a code of colour letter `letter`. */
  predicate AllOfColour(s: seq<string>, letter: char) {
    forall i :: 0 <= i < |s| ==> |s[i]| > 0 && s[i][0] == letter
  }

  /** White's list holds Black pieces and Black's list holds White pieces. */
  predicate CapturesSorted(h: Histories) {
    AllOfColour(h.whiteCaptures, 'b') && AllOfColour(h.blackCaptures, 'w')
  }

  lemma {:induction false} RemoveFirstKeepsColour(s: seq<string>, x: string, letter: char)
    requires x in s && AllOfColour(s, letter)
    ensures AllOfColour(RemoveFirst(s, x), letter)
  {
    if s[0] != x {
      RemoveFirstKeepsColour(s[1..], x, letter);
      var r := RemoveFirst(s, x);
      assert r == [s[0]] + RemoveFirst(s[1..], x);
      forall i | 0 <= i < |r|
        ensures |r[i]| > 0 && r[i][0] == letter
      {
        if i > 0 {
          assert r[i] == RemoveFirst(s[1..], x)[i - 1];
        }
      }
    }
  }

  /** A code whose colour letter is not `letter` is not in a list of such
      codes. */
  lemma ColourExcludes(s: seq<string>, x: string, letter: char)
    requires AllOfColour(s, letter) && |x| > 0 && x[0] != letter
    ensures x !in s
  {
  }

  /** Taking back a move that captured an enemy piece restores the notation
      and capture stacks exactly and each capture list as a multiset (the
      removed entry is the first equal one, not necessarily the last). The
      colour split of the capture lists is a precondition here and is not
      part of ChessEngine.Valid(): no engine method states that it holds. */
  lemma UndoAfterRecord(h: Histories, san: string, captured: Option<string>, mover: Color)
    requires CapturesSorted(h)
    requires captured.Some? ==> |captured.value| > 0 && captured.value[0] == ColorLetter(Other(mover))
    ensures var u := Unrecord(Record(h, san, captured, mover));
      u.moves == h.moves && u.captures == h.captures
      && multiset(u.whiteCaptures) == multiset(h.whiteCaptures)
      && multiset(u.blackCaptures) == multiset(h.blackCaptures)
      && CapturesSorted(u)
  {
    var r := Record(h, san, captured, mover);
    assert r.moves[..|r.moves| - 1] == h.moves;
    assert r.captures[..|r.captures| - 1] == h.captures;
    if captured.Some? {
      var c := captured.value;
      if mover == White {
        assert c == r.whiteCaptures[|h.whiteCaptures|];
        assert AllOfColour(r.whiteCaptures, 'b');
        RemoveFirstKeepsColour(r.whiteCaptures, c, 'b');
      } else {
        assert c == r.blackCaptures[|h.blackCaptures|];
        ColourExcludes(h.whiteCaptures, c, 'b');
        assert AllOfColour(r.blackCaptures, 'w');
        RemoveFirstKeepsColour(r.blackCaptures, c, 'w');
      }
    }
  }

  // ---------------------------------------------------------------------------
  // Material questions

  /** How many `c` pieces stand on squares `< n`. */
  function PiecesBelow(g: Grid, c: Color, n: nat): (r: nat)
    requires n <= 64
    ensures r <= n
  {
    if n == 0 then 0
    else PiecesBelow(g, c, n - 1) + (if g[n - 1].Some? && g[n - 1].value.color == c then 1 else 0)
  }

  /** Both colours' counts add up to the occupied squares. */
  lemma {:induction false} PiecesPartition(g: Grid, n: nat)
    requires n <= 64
    ensures PiecesBelow(g, White, n) + PiecesBelow(g, Black, n) == |set sq | 0 <= sq < n && g[sq].Some?|
  {
    if n > 0 {
      PiecesPartition(g, n - 1);
      var below := set sq | 0 <= sq < n - 1 && g[sq].Some?;
      if g[n - 1].Some? {
        assert (set sq | 0 <= sq < n && g[sq].Some?) == below + {n - 1};
      } else {
        assert (set sq | 0 <= sq < n && g[sq].Some?) == below;
      }
    }
  }

  /** The mating-material rule on piece counts: a pawn, rook or queen, two
      bishops, or a bishop and a knight. */
  function MatingMaterial(g: Grid, c: Color): bool {
    var pawns := |PieceSquares(g, c, Pawn)|;
    var rooks := |PieceSquares(g, c, Rook)|;
    var queens := |PieceSquares(g, c, Queen)|;
    var bishops := |PieceSquares(g, c, Bishop)|;
    var knights := |PieceSquares(g, c, Knight)|;
    pawns > 0 || rooks > 0 || queens > 0 || bishops >= 2 || (bishops >= 1 && knights >= 1)
  }

  /** The rule read on squares: enough material exactly when a pawn, rook
      or queen stands somewhere, or bishops on two squares, or a bishop and
      a knight. */
  lemma MatingMaterialOnSquares(g: Grid, c: Color)
    ensures MatingMaterial(g, c) <==>
      (exists sq: Square :: g[sq] == Some(Piece(c, Pawn)) || g[sq] == Some(Piece(c, Rook)) || g[sq] == Some(Piece(c, Queen)))
      || (exists a: Square, b: Square :: a != b && g[a] == Some(Piece(c, Bishop)) && g[b] == Some(Piece(c, Bishop)))
      || (exists a: Square, b: Square :: g[a] == Some(Piece(c, Bishop)) && g[b] == Some(Piece(c, Knight)))
  {
    var bishops := PieceSquares(g, c, Bishop);
    var knights := PieceSquares(g, c, Knight);
    if |bishops| >= 2 {
      assert bishops[0] < bishops[1] && bishops[0] in bishops && bishops[1] in bishops;
    }
    if exists a: Square, b: Square :: a != b && g[a] == Some(Piece(c, Bishop)) && g[b] == Some(Piece(c, Bishop)) {
      var a: Square, b: Square :| a != b && g[a] == Some(Piece(c, Bishop)) && g[b] == Some(Piece(c, Bishop));
      assert a in bishops && b in bishops;
      var i :| 0 <= i < |bishops| && bishops[i] == a;
      var j :| 0 <= j < |bishops| && bishops[j] == b;
      assert i != j;
    }
    if exists a: Square, b: Square :: g[a] == Some(Piece(c, Bishop)) && g[b] == Some(Piece(c, Knight)) {
      var a: Square, b: Square :| g[a] == Some(Piece(c, Bishop)) && g[b] == Some(Piece(c, Knight));
      assert a in bishops && b in knights;
    }
    if |knights| >= 1 {
      assert knights[0] in knights;
    }
    if |bishops| >= 1 {
      assert bishops[0] in bishops;
    }
    forall k | k in {Pawn, Rook, Queen}
      ensures |PieceSquares(g, c, k)| > 0 <==> exists sq: Square :: g[sq] == Some(Piece(c, k))
    {
      if |PieceSquares(g, c, k)| > 0 {
        assert PieceSquares(g, c, k)[0] in PieceSquares(g, c, k);
      }
      if exists sq: Square :: g[sq] == Some(Piece(c, k)) {
        var sq: Square :| g[sq] == Some(Piece(c, k));
        assert sq in PieceSquares(g, c, k);
      }
    }
  }

  // ---------------------------------------------------------------------------
  // Search choice

  /** ASCII lower case. */
  function Lower(s: string): (r: string)
    ensures |r| == |s|
    ensures forall i :: 0 <= i < |s| ==> r[i] == (if 'A' <= s[i] <= 'Z' then (s[i] as int + 32) as char else s[i])
  {
    if s == [] then []
    else [if 'A' <= s[0] <= 'Z' then (s[0] as int + 32) as char else s[0]] + Lower(s[1..])
  }

  /** The search a method name selects: an empty name means alpha-beta, and
      an unrecognised one a random legal move. */
  datatype Strategy = MinimaxDepth3 | AlphaBetaDepth4 | DeepeningTo4 | MctsWith300 | RandomMove

  function StrategyOf(name: string): Strategy {
    var m := if name == "" then "alphabeta" else Lower(name);
    if m == "minimax" then MinimaxDepth3
    else if m == "iddfs" then DeepeningTo4
    else if m == "mcts" then MctsWith300
    else if m == "alphabeta" then AlphaBetaDepth4
    else RandomMove
  }

  /** The move the deterministic searches choose for the side to move. */
  function SearchChoice(p: Pos, s: Strategy): Option<Move>
    requires s == MinimaxDepth3 || s == AlphaBetaDepth4 || s == DeepeningTo4
  {
    match s
    case MinimaxDepth3 => MinimaxValue(p, 3, p.turn == White).move
    case AlphaBetaDepth4 => AlphaBetaValue(p, 4, NegInf, PosInf, p.turn == White).move
    case DeepeningTo4 => IterativeDeepeningMove(p, 4)
  }

  /** The wrapper re-creates a search's move with its own promotion rule. */
  function Replayed(g: Grid, m: Move): Move {
    Move(m.from, m.to, AutoPromotion(g, m.from, m.to))
  }

  /** The chess facts the wrapper's replay relies on: every legal move starts
      on an occupied square, and the same squares with the wrapper's own
      promotion make a legal move too (a pawn reaching the last rank may
      always become a queen, and any other move carries no promotion). */
  ghost predicate Replayable(p: Pos) {
    forall m :: m in LegalMoves(p) ==> p.grid[m.from].Some? && Replayed(p.grid, m) in LegalMoves(p)
  }

  /** The names bound at the top level of the search module (its own imports
      and its definitions), and the names the engine module imports from it. */
  const SearchModuleNames: set<string> :=
    {"chess", "random", "math", "evaluate",
     "minimax", "alpha_beta", "MCTSNode", "simulate", "mcts", "iterative_deepening", "quiescence"}
  const EngineImports: seq<string> :=
    ["minimax", "alpha_beta", "iterative_deepening", "iddfs_alphabeta_move", "mcts"]

  /** The first imported name the module does not define, if any: the name a
      from-import stops at. */
  function FirstMissing(imports: seq<string>, defined: set<string>): (r: Option<string>)
    ensures r.None? <==> forall i :: 0 <= i < |imports| ==> imports[i] in defined
    ensures r.Some? ==> r.value in imports && r.value !in defined
  {
    if imports == [] then None
    else if imports[0] !in defined then Some(imports[0])
    else
      var r := FirstMissing(imports[1..], defined);
      assert forall i :: 1 <= i < |imports| ==> imports[i] == imports[1..][i - 1];
      r
  }

  /** As written, the engine's import of the search module stops at
      `iddfs_alphabeta_move`, which the search module never defines, so
      loading the engine module fails before any strategy can run. The
      wrapper below plays "iddfs" with `iterative_deepening` to depth 4
      instead. */
  lemma EngineImportFails()
    ensures FirstMissing(EngineImports, SearchModuleNames) == Some("iddfs_alphabeta_move")
  {
    assert EngineImports[0] in SearchModuleNames && EngineImports[1] in SearchModuleNames;
    assert EngineImports[2] in SearchModuleNames && EngineImports[3] !in SearchModuleNames;
    assert EngineImports[1..][1..][1..][0] == "iddfs_alphabeta_move";
  }

  // ---------------------------------------------------------------------------
  // The wrapper

  class ChessEngine {
    var board: Board
    var moveHistory: seq<string>
    var whiteCaptures: seq<string>
    var blackCaptures: seq<string>
    var captureHistory: seq<Option<string>>

    /** The board is consistent and the notation and capture stacks have one
        entry per move made. */
    ghost predicate Valid()
      reads this, board
    {
      board.Valid() && |moveHistory| == |board.stack| && |captureHistory| == |board.stack|
    }

    function History(): Histories
      reads this
    {
      Histories(moveHistory, whiteCaptures, blackCaptures, captureHistory)
    }

    /** A wrapper on position `p` (the standard start, a random endgame or a
        loaded position) with empty histories. */
    constructor (p: Pos)
      ensures Valid() && fresh(board) && board.state == p && board.stack == []
      ensures History() == Histories([], [], [], [])
    {
      board := new Board(p);
      moveHistory, whiteCaptures, blackCaptures, captureHistory := [], [], [], [];
    }

    /** Start over from position `p` with a fresh board and cleared lists. */
    method Reset(p: Pos)
      modifies this
      ensures Valid() && fresh(board) && board.state == p && board.stack == []
      ensures History() == Histories([], [], [], [])
    {
      board := new Board(p);
      moveHistory, whiteCaptures, blackCaptures, captureHistory := [], [], [], [];
    }

    /** The 8x8 grid of piece codes, row 0 at the top: every square's code
        (or "") sits at the square's screen coordinates, which cover the grid
        one to one (CoordinatesRoundTrip). */
    method GetBoard() returns (grid: array2<string>)
      ensures fresh(grid) && grid.Length0 == 8 && grid.Length1 == 8
      ensures forall s: Square :: grid[SquareToRC(s).0, SquareToRC(s).1] == Cell(board.state.grid, s)
    {
      grid := new string[8, 8]((r, c) => "");
      var g := board.state.grid;
      SquareToRCInjective();
      for sq := 0 to 64
        invariant forall s: Square :: grid[SquareToRC(s).0, SquareToRC(s).1] == (if s < sq then Cell(g, s) else "")
      {
        var (row, col) := SquareToRC(sq);
        grid[row, col] := Cell(g, sq);
        forall s: Square
          ensures grid[SquareToRC(s).0, SquareToRC(s).1] == (if s < sq + 1 then Cell(g, s) else "")
        {
          if s != sq {
            assert SquareToRC(s) != (row, col);
          }
        }
      }
    }

    /** The screen destinations of the legal moves from the square at
        (row, col): none for an empty square or a piece of the side not to
        move. */
    method GetLegalMovesFrom(row: int, col: int) returns (moves: seq<(int, int)>)
      requires 0 <= row < 8 && 0 <= col < 8 && board.Valid()
      ensures var sq := RCToSquare(row, col);
        0 <= sq < 64
        && moves == match board.state.grid[sq]
                    case None => []
                    case Some(pc) => if pc.color != board.state.turn then [] else Destinations(board.state.children, sq)
    {
      CoordinatesRoundTrip(0, row, col);
      var sq := RCToSquare(row, col);
      var p := board.state;
      if p.grid[sq].None? {
        return [];
      }
      var pc := p.grid[sq].value;
      if (pc.color == White && board.turn != White) || (pc.color == Black && board.turn != Black) {
        return [];
      }
      moves := [];
      for i := 0 to |p.children|
        invariant moves == Destinations(p.children[..i], sq)
      {
        assert p.children[..i + 1][..i] == p.children[..i];
        var mv := p.children[i].move;
        if mv.from == sq {
          moves := moves + [SquareToRC(mv.to)];
        }
      }
      assert p.children[..|p.children|] == p.children;
    }

    /** Make the move from (fromRow, fromCol) to (toRow, toCol), promoting a
        pawn to a queen on the last rank. None, with nothing changed, for an
        empty square or an illegal move; otherwise the move's notation, with
        the histories recording it. */
    method MakeMove(fromRow: int, fromCol: int, toRow: int, toCol: int) returns (san: Option<string>)
      requires 0 <= fromRow < 8 && 0 <= fromCol < 8 && 0 <= toRow < 8 && 0 <= toCol < 8
      requires Valid()
      modifies this, board
      ensures Valid() && board == old(board)
      ensures var from := RCToSquare(fromRow, fromCol);
        var to := RCToSquare(toRow, toCol);
        var p := old(board.state);
        0 <= from < 64 && 0 <= to < 64
        && if p.grid[from].None? || Move(from, to, AutoPromotion(p.grid, from, to)) !in LegalMoves(p) then
             san.None? && board.state == p && board.stack == old(board.stack) && History() == old(History())
           else
             var m := Move(from, to, AutoPromotion(p.grid, from, to));
             var k := MoveIndex(p.children, m);
             k < |p.children|
             && san == Some(p.children[k].san)
             && board.state == p.children[k].next
             && board.stack == old(board.stack) + [Frame(p, m)]
             && History() == Record(old(History()), p.children[k].san,
                                    if p.grid[to].Some? then Some(PieceCode(p.grid[to].value)) else None,
                                    p.grid[from].value.color)
    {
      CoordinatesRoundTrip(0, fromRow, fromCol);
      CoordinatesRoundTrip(0, toRow, toCol);
      var from := RCToSquare(fromRow, fromCol);
      var to := RCToSquare(toRow, toCol);
      var p := board.state;
      if p.grid[from].None? {
        return None;
      }
      var piece := p.grid[from].value;
      var move := Move(from, to, AutoPromotion(p.grid, from, to));
      MoveIndexFindsLegal(p, move);
      var k := MoveIndex(p.children, move);
      if k == |p.children| {
        return None;
      }
      var captured: Option<string> := None;
      if p.grid[to].Some? {
        captured := Some(PieceCode(p.grid[to].value));
      }
      var notation := p.children[k].san;
      board.Push(k);
      captureHistory := captureHistory + [captured];
      if captured.Some? {
        if piece.color == White {
          whiteCaptures := whiteCaptures + [captured.value];
        } else {
          blackCaptures := blackCaptures + [captured.value];
        }
      }
      moveHistory := moveHistory + [notation];
      return Some(notation);
    }

    /** Take back the last move: None, with nothing changed, when no move
        was made; otherwise the popped notation, with the board and the
        histories unwound. */
    method UndoLastMove() returns (undone: Option<string>)
      requires Valid()
      modifies this, board
      ensures Valid() && board == old(board)
      ensures old(board.stack) == [] ==>
        undone.None? && board.state == old(board.state) && board.stack == [] && History() == old(History())
      ensures old(board.stack) != [] ==>
        var n := |old(board.stack)|;
        board.state == old(board.stack)[n - 1].before
        && board.stack == old(board.stack)[..n - 1]
        && undone == Some(old(moveHistory)[n - 1])
        && History() == Unrecord(old(History()))
    {
      if |board.stack| == 0 {
        return None;
      }
      var _ := board.Pop();
      undone := None;
      if |moveHistory| > 0 {
        undone := Some(moveHistory[|moveHistory| - 1]);
        moveHistory := moveHistory[..|moveHistory| - 1];
      }
      var captured: Option<string> := None;
      if |captureHistory| > 0 {
        captured := captureHistory[|captureHistory| - 1];
        captureHistory := captureHistory[..|captureHistory| - 1];
      }
      if captured.Some? {
        if captured.value in whiteCaptures {
          whiteCaptures := RemoveFirst(whiteCaptures, captured.value);
        } else if captured.value in blackCaptures {
          blackCaptures := RemoveFirst(blackCaptures, captured.value);
        }
      }
    }

    /** White's material minus Black's. */
    method GetMaterialBalance() returns (score: int)
      ensures score == SideMaterial(board.state.grid, White) - SideMaterial(board.state.grid, Black)
    {
      score := MaterialBalance(board.state.grid);
    }

    /** Whether colour `c` keeps enough material to mate. */
    method HasMatingMaterial(c: Color) returns (enough: bool)
      ensures enough == MatingMaterial(board.state.grid, c)
    {
      var g := board.state.grid;
      var pawns := |PieceSquares(g, c, Pawn)|;
      var rooks := |PieceSquares(g, c, Rook)|;
      var queens := |PieceSquares(g, c, Queen)|;
      var bishops := |PieceSquares(g, c, Bishop)|;
      var knights := |PieceSquares(g, c, Knight)|;
      if pawns > 0 || rooks > 0 || queens > 0 {
        return true;
      }
      if bishops >= 2 {
        return true;
      }
      if bishops >= 1 && knights >= 1 {
        return true;
      }
      return false;
    }

    /** The number of White and of Black pieces. */
    method CountPieces() returns (white: nat, black: nat)
      ensures white == PiecesBelow(board.state.grid, White, 64)
      ensures black == PiecesBelow(board.state.grid, Black, 64)
      ensures white + black == |set sq | 0 <= sq < 64 && board.state.grid[sq].Some?|
    {
      var g := board.state.grid;
      white, black := 0, 0;
      for sq := 0 to 64
        invariant white == PiecesBelow(g, White, sq) && black == PiecesBelow(g, Black, sq)
      {
        if g[sq].Some? {
          if g[sq].value.color == White {
            white := white + 1;
          } else {
            black := black + 1;
          }
        }
      }
      PiecesPartition(g, 64);
    }

    /** Choose a move with the named search and play it through MakeMove.
        None when the game is over or the chosen move cannot be played;
        otherwise the screen coordinates of the move and its notation. */
    method FindBestMove(name: string) returns (result: Option<(int, int, int, int, string)>)
      requires Valid()
      modifies this, board
      ensures Valid() && board == old(board)
      ensures IsGameOver(old(board.state)) ==>
        result.None? && board.state == old(board.state) && board.stack == old(board.stack) && History() == old(History())
      ensures result.None? ==> board.state == old(board.state) && board.stack == old(board.stack) && History() == old(History())
      ensures !IsGameOver(old(board.state)) && Replayable(old(board.state)) ==> result.Some?
      ensures result.Some? ==>
        var p := old(board.state);
        var (fr, fc, tr, tc, san) := result.value;
        0 <= fr < 8 && 0 <= fc < 8 && 0 <= tr < 8 && 0 <= tc < 8 &&
        var m := Move(RCToSquare(fr, fc), RCToSquare(tr, tc), AutoPromotion(p.grid, RCToSquare(fr, fc), RCToSquare(tr, tc)));
        !IsGameOver(p)
        && m in LegalMoves(p)
        && Played(p, old(board.stack), old(History()), m.from, m.to, board.state, board.stack, History())
        && san == p.children[MoveIndex(p.children, m)].san
        && (StrategyOf(name) in {MinimaxDepth3, AlphaBetaDepth4, DeepeningTo4} ==>
              SearchChoice(p, StrategyOf(name)).Some?
              && Replayed(p.grid, SearchChoice(p, StrategyOf(name)).value) == m)
    {
      var p := board.state;
      if IsGameOver(p) {
        return None;
      }
      var legal := LegalMoves(p);
      if |legal| == 0 {
        return None;
      }
      var best := ChooseMove(StrategyOf(name));
      var from := best.from;
      var to := best.to;
      var promotion := AutoPromotion(p.grid, from, to);
      CoordinatesRoundTrip(from, 0, 0);
      CoordinatesRoundTrip(to, 0, 0);
      var (fromRow, fromCol) := SquareToRC(from);
      var (toRow, toCol) := SquareToRC(to);
      var san := MakeMove(fromRow, fromCol, toRow, toCol);
      if san.None? && promotion.Some? {
        var retry := Move(from, to, promotion);
        if retry in LegalMoves(board.state) {
          assert false;
        }
      }
      assert Replayable(p) ==> san.Some? by {
        if Replayable(p) {
          assert p.grid[from].Some? && Replayed(p.grid, best) in LegalMoves(p);
        }
      }
      if san.None? {
        return None;
      }
      return Some((fromRow, fromCol, toRow, toCol, san.value));
    }

    /** The move the strategy picks on a position where the game goes on:
        always a legal one, and for the deterministic searches the move of
        the search's own value function. The board is back where it was. */
    method ChooseMove(strategy: Strategy) returns (best: Move)
      requires Valid() && !IsGameOver(board.state)
      modifies board
      ensures Valid() && board.state == old(board.state) && board.stack == old(board.stack)
      ensures best in LegalMoves(old(board.state))
      ensures strategy in {MinimaxDepth3, AlphaBetaDepth4, DeepeningTo4} ==>
        SearchChoice(old(board.state), strategy) == Some(best)
    {
      var p := board.state;
      var legal := LegalMoves(p);
      var maximizing := board.turn == White;
      var chosen: Option<Move>;
      match strategy {
        case MinimaxDepth3 =>
          var _, m := Minimax(board, 3, maximizing);
          chosen := m;
          MinimaxBest(p, 3, maximizing);
        case DeepeningTo4 =>
          chosen := IterativeDeepening(board, 4);
          AlphaBetaLive(p, 4, NegInf, PosInf, maximizing);
        case MctsWith300 =>
          LiveHasMoves(p);
          var m, _ := Mcts(board, 300);
          chosen := m;
        case AlphaBetaDepth4 =>
          var _, m := AlphaBeta(board, 4, NegInf, PosInf, maximizing);
          chosen := m;
          AlphaBetaLive(p, 4, NegInf, PosInf, maximizing);
        case RandomMove =>
          LiveHasMoves(p);
          var k :| 0 <= k < |legal|;
          chosen := Some(legal[k]);
      }
      best := chosen.value;
    }
  }
}
