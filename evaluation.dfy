/** The static evaluator: a score positive for White, built from material,
    mobility, pawn structure, king safety, king opposition and endgame
    pressure, with fixed values for checkmate and stalemate. */
module Evaluator {
  import opened Rules

  /** Piece values in pawns. */
  function PieceValue(k: Kind): int {
    match k
    case Pawn => 1
    case Knight => 3
    case Bishop => 3
    case Rook => 5
    case Queen => 9
    case King => 0
  }

  // ---------------------------------------------------------------------------
  // Material

  /** The value of the `c` pieces on squares `< n`. */
  function SideMaterialBelow(g: Grid, c: Color, n: nat): nat
    requires n <= 64
  {
    if n == 0 then 0
    else SideMaterialBelow(g, c, n - 1)
         + (if g[n - 1].Some? && g[n - 1].value.color == c then PieceValue(g[n - 1].value.kind) else 0)
  }

  /** The value of all `c` pieces on the board. */
  function SideMaterial(g: Grid, c: Color): nat {
    SideMaterialBelow(g, c, 64)
  }

  /** The material loop: each White piece adds its value, each Black piece
      subtracts it, so the total is White's material minus Black's. */
  method MaterialBalance(g: Grid) returns (score: int)
    ensures score == SideMaterial(g, White) - SideMaterial(g, Black)
  {
    score := 0;
    var sq := 0;
    while sq < 64
      invariant 0 <= sq <= 64
      invariant score == SideMaterialBelow(g, White, sq) - SideMaterialBelow(g, Black, sq)
    {
      if g[sq].Some? {
        var piece := g[sq].value;
        var val := PieceValue(piece.kind);
        if piece.color == White {
          score := score + val;
        } else {
          score := score - val;
        }
      }
      sq := sq + 1;
    }
  }

  // ---------------------------------------------------------------------------
  // Game phase

  datatype Phase = Opening | Middlegame | Endgame

  predicate IsMajor(x: Option<Piece>) {
    x.Some? && (x.value.kind == Queen || x.value.kind == Rook)
  }

  /** The number of queens and rooks, of either colour, on squares `< n`. */
  function MajorsBelow(g: Grid, n: nat): nat
    requires n <= 64
  {
    if n == 0 then 0 else MajorsBelow(g, n - 1) + (if IsMajor(g[n - 1]) then 1 else 0)
  }

  function MajorSquares(g: Grid, n: nat): set<int>
    requires n <= 64
  {
    set sq | 0 <= sq < n && IsMajor(g[sq])
  }

  /** The count is the number of squares holding a queen or a rook. */
  lemma {:induction false} MajorsAreCounted(g: Grid, n: nat)
    requires n <= 64
    ensures MajorsBelow(g, n) == |MajorSquares(g, n)|
  {
    if n > 0 {
      MajorsAreCounted(g, n - 1);
      if IsMajor(g[n - 1]) {
        assert MajorSquares(g, n) == MajorSquares(g, n - 1) + {n - 1};
        assert n - 1 !in MajorSquares(g, n - 1);
      } else {
        assert MajorSquares(g, n) == MajorSquares(g, n - 1);
      }
    }
  }

  /** Six or more queens and rooks: opening; three to five: middlegame;
      at most two: endgame. */
  function PhaseOf(g: Grid): Phase {
    var majors := MajorsBelow(g, 64);
    if majors >= 6 then Opening else if majors >= 3 then Middlegame else Endgame
  }

  /** The counting loop over the piece map, then the classification. */
  method GamePhase(g: Grid) returns (phase: Phase)
    ensures phase == PhaseOf(g)
    ensures phase == Endgame <==> |MajorSquares(g, 64)| <= 2
    ensures phase == Opening <==> |MajorSquares(g, 64)| >= 6
  {
    var totalMajor := 0;
    var sq := 0;
    while sq < 64
      invariant 0 <= sq <= 64
      invariant totalMajor == MajorsBelow(g, sq)
    {
      if IsMajor(g[sq]) {
        totalMajor := totalMajor + 1;
      }
      sq := sq + 1;
    }
    MajorsAreCounted(g, 64);
    if totalMajor >= 6 {
      phase := Opening;
    } else if totalMajor >= 3 {
      phase := Middlegame;
    } else {
      phase := Endgame;
    }
  }

  // ---------------------------------------------------------------------------
  // Mobility

  /** The number of legal moves of colour `c` in `p`. */
  function MobilityOf(p: Pos, c: Color): nat {
    if c == p.turn then |p.children| else p.toggledMoveCount
  }

  /** Mobility overwrites the side to move with `c`, counts the legal moves,
      and puts the original side to move back. */
  method Mobility(board: Board, c: Color) returns (count: nat)
    requires board.Valid()
    modifies board
    ensures board.Valid()
    ensures board.state == old(board.state) && board.stack == old(board.stack)
    ensures count == MobilityOf(board.state, c)
    ensures c == board.state.turn ==> count == |LegalMoves(board.state)|
  {
    var originalTurn := board.turn;
    board.turn := c;
    count := board.MoveCount();
    board.turn := originalTurn;
  }

  // ---------------------------------------------------------------------------
  // Pawn structure

  /** How many of `pawns` stand on file `f`. */
  function FileCount(pawns: seq<Square>, f: int): nat {
    if pawns == [] then 0
    else FileCount(pawns[..|pawns| - 1], f) + (if File(pawns[|pawns| - 1]) == f then 1 else 0)
  }

  /** Pawns beyond the first on each of the files `< nf`. */
  function ExtraOnFiles(pawns: seq<Square>, nf: nat): nat {
    if nf == 0 then 0
    else
      var count := FileCount(pawns, nf - 1);
      ExtraOnFiles(pawns, nf - 1) + (if count > 1 then count - 1 else 0)
  }

  predicate Adjacent(a: Square, b: Square) {
    File(b) == File(a) - 1 || File(b) == File(a) + 1
  }

  /** No friendly pawn on an adjacent file. */
  predicate IsIsolated(pawns: seq<Square>, sq: Square) {
    forall k :: 0 <= k < |pawns| ==> !Adjacent(sq, pawns[k])
  }

  /** How many of the first `n` pawns are isolated. */
  function IsolatedCount(pawns: seq<Square>, n: nat): nat
    requires n <= |pawns|
  {
    if n == 0 then 0
    else IsolatedCount(pawns, n - 1) + (if IsIsolated(pawns, pawns[n - 1]) then 1 else 0)
  }

  /** An enemy pawn on `e` stops a `c` pawn on `sq`: it stands on the same or
      an adjacent file, on a rank ahead of it from `c`'s side. */
  predicate Stops(c: Color, sq: Square, e: Square) {
    -1 <= File(e) - File(sq) <= 1
    && (if c == White then Rank(e) > Rank(sq) else Rank(e) < Rank(sq))
  }

  predicate IsPassed(c: Color, sq: Square, enemy: seq<Square>) {
    forall k :: 0 <= k < |enemy| ==> !Stops(c, sq, enemy[k])
  }

  /** How many of the first `n` pawns of `own` are passed. */
  function PassedCount(c: Color, own: seq<Square>, enemy: seq<Square>, n: nat): (r: nat)
    requires n <= |own|
    ensures r <= n
  {
    if n == 0 then 0
    else PassedCount(c, own, enemy, n - 1) + (if IsPassed(c, own[n - 1], enemy) then 1 else 0)
  }

  lemma {:induction false} NoPawnsNoExtra(nf: nat)
    ensures ExtraOnFiles([], nf) == 0
  {
    if nf > 0 {
      NoPawnsNoExtra(nf - 1);
    }
  }

  /** Pawn structure is 0 without pawns, and never more than 0.5 per pawn. */
  lemma PawnStructureBounds(g: Grid, c: Color)
    ensures PawnStructureOf(g, c) <= 0.5 * |PieceSquares(g, c, Pawn)| as real
    ensures PieceSquares(g, c, Pawn) == [] ==> PawnStructureOf(g, c) == 0.0
  {
    NoPawnsNoExtra(8);
  }

  /** The inner loop of the isolated-pawn test: no pawn of `pawns` stands on
      a file next to `sq`'s. */
  method CheckIsolated(pawns: seq<Square>, sq: Square) returns (isolated: bool)
    ensures isolated <==> forall k :: 0 <= k < |pawns| ==> !Adjacent(sq, pawns[k])
  {
    var file := File(sq);
    var neighbours := {file - 1, file + 1};
    isolated := true;
    var j := 0;
    while j < |pawns|
      invariant 0 <= j <= |pawns|
      invariant isolated <==> forall k :: 0 <= k < j ==> !Adjacent(sq, pawns[k])
    {
      if File(pawns[j]) in neighbours {
        isolated := false;
      }
      j := j + 1;
    }
  }

  /** The inner loop of the passed-pawn test, stopping at the first enemy pawn
      that stands in the way. */
  method CheckPassed(c: Color, sq: Square, enemy: seq<Square>) returns (isPassed: bool)
    ensures isPassed <==> forall k :: 0 <= k < |enemy| ==> !Stops(c, sq, enemy[k])
  {
    var file := File(sq);
    var rank := Rank(sq);
    isPassed := true;
    var j := 0;
    while j < |enemy|
      invariant 0 <= j <= |enemy|
      invariant isPassed
      invariant forall k :: 0 <= k < j ==> !Stops(c, sq, enemy[k])
    {
      var otherFile := File(enemy[j]);
      var otherRank := Rank(enemy[j]);
      if -1 <= otherFile - file <= 1 {
        if (c == White && otherRank > rank) || (c == Black && otherRank < rank) {
          isPassed := false;
          break;
        }
      }
      j := j + 1;
    }
  }

  /** The pawn-structure term over the pawn lists, -0.2 per extra pawn on a
      file, -0.3 per isolated pawn, +0.5 per passed pawn. */
  function PawnScore(c: Color, pawns: seq<Square>, enemy: seq<Square>): real {
    -0.2 * ExtraOnFiles(pawns, 8) as real
    - 0.3 * IsolatedCount(pawns, |pawns|) as real
    + 0.5 * PassedCount(c, pawns, enemy, |pawns|) as real
  }

  /** The pawn-structure score of colour `c`. */
  function PawnStructureOf(g: Grid, c: Color): real {
    PawnScore(c, PieceSquares(g, c, Pawn), PieceSquares(g, Other(c), Pawn))
  }

  /** The three loops of the pawn-structure term, as the evaluator runs them. */
  method PawnStructure(g: Grid, c: Color) returns (score: real)
    ensures score == PawnStructureOf(g, c)
  {
    var pawns := PieceSquares(g, c, Pawn);
    var enemy := PieceSquares(g, Other(c), Pawn);
    score := ScorePawns(c, pawns, enemy);
  }

  /** The doubled, isolated and passed loops over the pawn lists. */
  method ScorePawns(c: Color, pawns: seq<Square>, enemy: seq<Square>) returns (score: real)
    ensures score == PawnScore(c, pawns, enemy)
  {
    score := 0.0;

    // doubled pawns
    var f := 0;
    while f < 8
      invariant 0 <= f <= 8
      invariant score == -0.2 * ExtraOnFiles(pawns, f) as real
    {
      var count := FileCount(pawns, f);
      if count > 1 {
        score := score - 0.2 * (count - 1) as real;
      }
      f := f + 1;
    }
    var doubled := score;

    // isolated pawns
    var i := 0;
    while i < |pawns|
      invariant 0 <= i <= |pawns|
      invariant score == doubled - 0.3 * IsolatedCount(pawns, i) as real
    {
      var isolated := CheckIsolated(pawns, pawns[i]);
      if isolated {
        score := score - 0.3;
      }
      i := i + 1;
    }
    var structural := score;

    // passed pawns
    i := 0;
    while i < |pawns|
      invariant 0 <= i <= |pawns|
      invariant score == structural + 0.5 * PassedCount(c, pawns, enemy, i) as real
    {
      var isPassed := CheckPassed(c, pawns[i], enemy);
      if isPassed {
        score := score + 0.5;
      }
      i := i + 1;
    }
  }

  // ---------------------------------------------------------------------------
  // King safety, opposition and endgame pressure

  function Abs(x: real): real {
    if x < 0.0 then -x else x
  }

  lemma OffCentre(k: int)
    requires 0 <= k < 8
    ensures 0.5 <= Abs(k as real - 3.5) <= 3.5
  {
    assert k <= 3 || k >= 4;
  }

  /** |file - 3.5| + |rank - 3.5|. */
  function CentreDistance(sq: Square): (d: real)
    ensures 1.0 <= d <= 7.0
  {
    OffCentre(File(sq));
    OffCentre(Rank(sq));
    Abs(File(sq) as real - 3.5) + Abs(Rank(sq) as real - 3.5)
  }

  function HomeRank(c: Color): int {
    if c == White then 0 else 7
  }

  /** Outside the endgame a king off its home rank costs 0.5 and a king on
      the b or g file of its home rank earns 0.2; in the endgame the king
      loses 0.3 per unit of distance from the centre. No king: 0. */
  function KingSafety(g: Grid, c: Color): (r: real)
    ensures KingSquare(g, c).None? ==> r == 0.0
    ensures PhaseOf(g) == Endgame && KingSquare(g, c).Some? ==> -2.1 <= r <= -0.3
    ensures PhaseOf(g) != Endgame ==> r == -0.5 || r == 0.2 || r == 0.0
    ensures PhaseOf(g) != Endgame ==>
      (r == -0.5 <==> KingSquare(g, c).Some? && Rank(KingSquare(g, c).value) != HomeRank(c))
  {
    match KingSquare(g, c)
    case None => 0.0
    case Some(king) =>
      var rank := Rank(king);
      var file := File(king);
      if PhaseOf(g) != Endgame then
        if rank != HomeRank(c) then -0.5
        else if file == 1 || file == 6 then 0.2
        else 0.0
      else
        -(CentreDistance(king) * 0.3)
  }

  function IntAbs(x: int): nat {
    if x < 0 then -x else x
  }

  /** Manhattan distance between two squares. */
  function Distance(a: Square, b: Square): (d: nat)
    ensures d <= 14
    ensures d == 0 <==> a == b
  {
    SquareIsFileAndRank(a);
    SquareIsFileAndRank(b);
    IntAbs(Rank(a) - Rank(b)) + IntAbs(File(a) - File(b))
  }

  /** In the endgame, with both kings present, (6 - king distance) * 0.2,
      added for White without a colour sign; 0 otherwise. */
  function KingOpposition(g: Grid): (r: real)
    ensures PhaseOf(g) != Endgame ==> r == 0.0
    ensures KingSquare(g, White).None? || KingSquare(g, Black).None? ==> r == 0.0
    ensures -1.6 <= r <= 1.0
  {
    if PhaseOf(g) != Endgame then 0.0
    else
      var wk := KingSquare(g, White);
      var bk := KingSquare(g, Black);
      if wk.None? || bk.None? then 0.0
      else
        var dist := Distance(wk.value, bk.value);
        (6 - dist) as real * 0.2
  }

  /** Distance from a square to the nearest board edge, 0..3. */
  function EdgeDistance(sq: Square): (d: int)
    ensures 0 <= d <= 3
  {
    var rank := Rank(sq);
    var file := File(sq);
    var m1 := if rank < 7 - rank then rank else 7 - rank;
    var m2 := if file < 7 - file then file else 7 - file;
    if m1 < m2 then m1 else m2
  }

  predicate HasHeavy(g: Grid, c: Color) {
    |PieceSquares(g, c, Queen)| > 0 || |PieceSquares(g, c, Rook)| > 0
  }

  /** The pull colour `c` exerts on the enemy king towards an edge: with a
      queen or rook and an enemy king present, (3 - edge distance) * 0.4. */
  function Pressure(g: Grid, c: Color): (r: real)
    ensures 0.0 <= r <= 1.2
    ensures r > 0.0 ==> HasHeavy(g, c) && KingSquare(g, Other(c)).Some?
  {
    match KingSquare(g, Other(c))
    case None => 0.0
    case Some(king) =>
      if HasHeavy(g, c) then (3 - EdgeDistance(king)) as real * 0.4 else 0.0
  }

  /** White's pressure minus Black's in the endgame, 0 before it. */
  function EndgamePressureOf(g: Grid): (r: real)
    ensures PhaseOf(g) != Endgame ==> r == 0.0
    ensures -1.2 <= r <= 1.2
  {
    if PhaseOf(g) != Endgame then 0.0 else Pressure(g, White) - Pressure(g, Black)
  }

  /** The loop over both colours, adding White's pressure and subtracting
      Black's. */
  method EndgamePressure(g: Grid) returns (score: real)
    ensures score == EndgamePressureOf(g)
  {
    var phase := GamePhase(g);
    if phase != Endgame {
      return 0.0;
    }
    score := 0.0;
    for i := 0 to 2
      invariant score == (if i >= 1 then Pressure(g, White) else 0.0)
                         - (if i >= 2 then Pressure(g, Black) else 0.0)
    {
      var c := if i == 0 then White else Black;
      match KingSquare(g, Other(c))
      case None =>
      case Some(kingSq) =>
        var distEdge := EdgeDistance(kingSq);
        var hasHeavy := |PieceSquares(g, c, Queen)| > 0 || |PieceSquares(g, c, Rook)| > 0;
        if hasHeavy {
          if c == White {
            score := score + (3 - distEdge) as real * 0.4;
          } else {
            score := score - (3 - distEdge) as real * 0.4;
          }
        }
    }
  }

  // ---------------------------------------------------------------------------
  // The evaluation

  /** The score of a non-terminal position. */
  function Heuristic(p: Pos): real {
    (SideMaterial(p.grid, White) - SideMaterial(p.grid, Black)) as real
    + 0.1 * (MobilityOf(p, White) as real - MobilityOf(p, Black) as real)
    + PawnStructureOf(p.grid, White) - PawnStructureOf(p.grid, Black)
    + KingSafety(p.grid, White) - KingSafety(p.grid, Black)
    + KingOpposition(p.grid)
    + EndgamePressureOf(p.grid)
  }

  /** 9999 when Black is mated, -9999 when White is mated, 0 on stalemate, and
      the heuristic sum otherwise (other draws are not special-cased). */
  function Evaluation(p: Pos): real {
    if IsCheckmate(p) then (if p.turn == Black then 9999.0 else -9999.0)
    else if IsStalemate(p) then 0.0
    else Heuristic(p)
  }

  /** evaluate_position, reading the board and restoring its side to move. */
  method Evaluate(board: Board) returns (score: real)
    requires board.Valid()
    modifies board
    ensures board.Valid()
    ensures board.state == old(board.state) && board.stack == old(board.stack)
    ensures score == Evaluation(board.state)
  {
    var p := board.state;
    if IsCheckmate(p) {
      return if board.turn == Black then 9999.0 else -9999.0;
    }
    if IsStalemate(p) {
      return 0.0;
    }
    var material := MaterialBalance(p.grid);
    score := material as real;
    var whiteMoves := Mobility(board, White);
    var blackMoves := Mobility(board, Black);
    score := score + 0.1 * (whiteMoves as real - blackMoves as real);
    var whitePawns := PawnStructure(p.grid, White);
    var blackPawns := PawnStructure(p.grid, Black);
    score := score + whitePawns;
    score := score - blackPawns;
    score := score + KingSafety(p.grid, White);
    score := score - KingSafety(p.grid, Black);
    score := score + KingOpposition(p.grid);
    var pressure := EndgamePressure(p.grid);
    score := score + pressure;
  }
}
