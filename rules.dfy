/** The rules engine the searches consult, reduced to what they ask of it.

    A position carries its piece placement, the side to move, the facts the
    rules engine reports about it (check, insufficient material, the automatic
    and the claimable draws) and its legal moves in generation order, each
    paired with the position it leads to. A position is therefore a finite
    game tree: every question the core asks (legal moves, push, pop,
    is_game_over, is_checkmate, is_stalemate, is_capture, side to move) is
    answered by this value, and recursion over it is structural. */
module Rules {

  datatype Option<T> = None | Some(value: T)

  datatype Color = White | Black

  function Other(c: Color): Color {
    if c == White then Black else White
  }

  datatype Kind = Pawn | Knight | Bishop | Rook | Queen | King

  datatype Piece = Piece(color: Color, kind: Kind)

  /** Squares are numbered a1 = 0, b1 = 1, ..., h8 = 63. */
  type Square = x: int | 0 <= x < 64

  /** The contents of the 64 squares. */
  type Grid = g: seq<Option<Piece>> | |g| == 64 witness seq(64, _ => None)

  /** File 0..7 (a..h) of a square. */
  function File(sq: Square): int {
    sq % 8
  }

  /** Rank 0..7 (1..8) of a square. */
  function Rank(sq: Square): int {
    sq / 8
  }

  /** The square on `file` and `rank`. */
  function SquareAt(file: int, rank: int): (sq: Square)
    requires 0 <= file < 8 && 0 <= rank < 8
    ensures File(sq) == file && Rank(sq) == rank
  {
    rank * 8 + file
  }

  lemma SquareIsFileAndRank(sq: Square)
    ensures 0 <= File(sq) < 8 && 0 <= Rank(sq) < 8
    ensures SquareAt(File(sq), Rank(sq)) == sq
  {
  }

  datatype Move = Move(from: Square, to: Square, promotion: Option<Kind>)

  /** One legal move, whether the rules engine calls it a capture, its
      standard algebraic notation in the position it is played from, and the
      position it leads to. */
  datatype Child = Child(move: Move, capture: bool, san: string, next: Pos)

  /** `toggledMoveCount` is the number of legal moves the rules engine
      generates when the side to move is overwritten with the other colour. */
  datatype Pos = Pos(
    grid: Grid,
    turn: Color,
    inCheck: bool,
    insufficient: bool,
    automaticDraw: bool,
    canClaimFifty: bool,
    canClaimThreefold: bool,
    toggledMoveCount: nat,
    children: seq<Child>)

  /** The legal moves in generation order. */
  function LegalMoves(p: Pos): (moves: seq<Move>)
    ensures |moves| == |p.children|
    ensures forall i :: 0 <= i < |p.children| ==> moves[i] == p.children[i].move
  {
    seq(|p.children|, i requires 0 <= i < |p.children| => p.children[i].move)
  }

  predicate IsCheckmate(p: Pos) {
    p.inCheck && |p.children| == 0
  }

  predicate IsStalemate(p: Pos) {
    !p.inCheck && |p.children| == 0
  }

  /** Game over without a claim: mate, stalemate, insufficient material, or an
      automatic draw (seventy-five moves, fivefold repetition). */
  predicate IsGameOver(p: Pos) {
    IsCheckmate(p) || IsStalemate(p) || p.insufficient || p.automaticDraw
  }

  lemma LiveHasMoves(p: Pos)
    requires !IsGameOver(p)
    ensures |p.children| > 0
  {
  }

  /** Position `q` is reached from `p` by legal moves. */
  ghost predicate Reaches(p: Pos, q: Pos)
    decreases p
  {
    p == q || exists i :: 0 <= i < |p.children| && Reaches(p.children[i].next, q)
  }

  /** One more legal move from a reached position is still reached. */
  lemma {:induction false} ReachesStep(p: Pos, q: Pos, i: nat)
    requires Reaches(p, q) && i < |q.children|
    ensures Reaches(p, q.children[i].next)
    decreases p
  {
    if p == q {
      assert Reaches(q.children[i].next, q.children[i].next);
    } else {
      var k :| 0 <= k < |p.children| && Reaches(p.children[k].next, q);
      ReachesStep(p.children[k].next, q, i);
    }
  }

  /** The square of the `c` king among squares `< n`, the highest one. */
  function KingBelow(g: Grid, c: Color, n: nat): (r: Option<Square>)
    requires n <= 64
    ensures r.Some? ==> r.value < n && g[r.value] == Some(Piece(c, King))
    ensures r.Some? ==> forall s :: r.value < s < n ==> g[s] != Some(Piece(c, King))
    ensures r.None? ==> forall s :: 0 <= s < n ==> g[s] != Some(Piece(c, King))
  {
    if n == 0 then None
    else if g[n - 1] == Some(Piece(c, King)) then Some(n - 1)
    else KingBelow(g, c, n - 1)
  }

  /** The king square of colour `c` (the highest-numbered one, as the rules
      engine reports it), or None when that king is absent. */
  function KingSquare(g: Grid, c: Color): Option<Square> {
    KingBelow(g, c, 64)
  }

  /** The squares holding a `c` piece of kind `k` among squares `< n`, in
      ascending order. */
  function SquaresBelow(g: Grid, c: Color, k: Kind, n: nat): (r: seq<Square>)
    requires n <= 64
    ensures forall i, j :: 0 <= i < j < |r| ==> r[i] < r[j]
    ensures forall s :: s in r <==> 0 <= s < n && g[s] == Some(Piece(c, k))
  {
    if n == 0 then []
    else
      var below := SquaresBelow(g, c, k, n - 1);
      if g[n - 1] == Some(Piece(c, k)) then
        assert forall i :: 0 <= i < |below| ==> below[i] in below;
        below + [n - 1]
      else below
  }

  /** The rules engine's set of squares with a `c` piece of kind `k`. */
  function PieceSquares(g: Grid, c: Color, k: Kind): seq<Square> {
    SquaresBelow(g, c, k, 64)
  }

  /** A move made and the position it was made from. */
  datatype Frame = Frame(before: Pos, move: Move)

  /** The mutable board: the current position, the side-to-move field (which
      the evaluator overwrites and restores) and the stack of moves made. */
  class Board {
    var state: Pos
    var turn: Color
    var stack: seq<Frame>

    /** Outside a turn override, the side-to-move field is the position's. */
    ghost predicate Valid()
      reads this
    {
      turn == state.turn
    }

    constructor (p: Pos)
      ensures Valid() && state == p && stack == []
    {
      state := p;
      turn := p.turn;
      stack := [];
    }

    /** The moves made so far, oldest first. */
    function MoveStack(): (moves: seq<Move>)
      reads this
      ensures |moves| == |stack|
      ensures forall i :: 0 <= i < |stack| ==> moves[i] == stack[i].move
    {
      seq(|stack|, i requires 0 <= i < |stack| reads this => stack[i].move)
    }

    /** The number of legal moves generated for the side-to-move field as it
        stands. */
    function MoveCount(): nat
      reads this
    {
      if turn == state.turn then |state.children| else state.toggledMoveCount
    }

    /** Play the legal move with index `i` in generation order. */
    method Push(i: nat)
      requires Valid() && i < |state.children|
      modifies this
      ensures Valid()
      ensures state == old(state).children[i].next
      ensures stack == old(stack) + [Frame(old(state), old(state).children[i].move)]
    {
      var child := state.children[i];
      stack := stack + [Frame(state, child.move)];
      state := child.next;
      turn := state.turn;
    }

    /** Take back the last move and return it. */
    method Pop() returns (m: Move)
      requires |stack| > 0
      modifies this
      ensures Valid()
      ensures state == old(stack)[|old(stack)| - 1].before
      ensures stack == old(stack)[..|old(stack)| - 1]
      ensures m == old(stack)[|old(stack)| - 1].move
    {
      var top := stack[|stack| - 1];
      stack := stack[..|stack| - 1];
      state := top.before;
      turn := state.turn;
      m := top.move;
    }
  }
}
