/** The depth-limited searches: plain minimax, alpha-beta with a quiescence
    search at the horizon, and iterative deepening over alpha-beta.

    Each search is given twice: a function that states what it returns, and
    a method over the shared `Board` that pushes and pops moves the way the
    program does and is proved to return that function's value and to leave
    the board as it found it. */
module Search {
  import opened Rules
  import opened Scores
  import opened Evaluator

  /** A score and the move that reached it (None at a leaf). */
  datatype Scored = Scored(score: Score, move: Option<Move>)

  /** The starting best value of a node: -inf when maximising, +inf when
      minimising. */
  function Worst(maximizing: bool): Score {
    if maximizing then NegInf else PosInf
  }

  /** `s` strictly beats `best` for the side to choose (the strict `>` and `<`
      that keep the first best move on a tie). */
  predicate Improves(maximizing: bool, s: Score, best: Score) {
    if maximizing then Lt(best, s) else Lt(s, best)
  }

  // ---------------------------------------------------------------------------
  // Minimax

  /** The value of plain minimax. */
  function MinimaxValue(p: Pos, depth: nat, maximizing: bool): Scored
    decreases depth, 1
  {
    if depth == 0 || IsGameOver(p) then Scored(Fin(Evaluation(p)), None)
    else MinimaxLoop(p, depth, maximizing, 0, Scored(Worst(maximizing), None))
  }

  /** The move loop of minimax from the move with index `i` on, `best` being
      the best so far. */
  function MinimaxLoop(p: Pos, depth: nat, maximizing: bool, i: nat, best: Scored): Scored
    requires depth > 0 && i <= |p.children|
    decreases depth, 0, |p.children| - i
  {
    if i == |p.children| then best
    else
      var s := MinimaxValue(p.children[i].next, depth - 1, !maximizing).score;
      var best' := if Improves(maximizing, s, best.score) then Scored(s, Some(p.children[i].move)) else best;
      MinimaxLoop(p, depth, maximizing, i + 1, best')
  }

  /** The minimax value of the move with index `i`. */
  function ChildValue(p: Pos, depth: nat, maximizing: bool, i: nat): Score
    requires depth > 0 && i < |p.children|
  {
    MinimaxValue(p.children[i].next, depth - 1, !maximizing).score
  }

  /** Minimax values are always finite: a leaf is evaluated, and an inner
      node has a legal move whose finite value beats the infinite start. */
  lemma {:induction false} MinimaxFinite(p: Pos, depth: nat, maximizing: bool)
    ensures MinimaxValue(p, depth, maximizing).score.Fin?
    decreases depth, 1
  {
    if depth > 0 && !IsGameOver(p) {
      LiveHasMoves(p);
      MinimaxLoopFinite(p, depth, maximizing, 0, Scored(Worst(maximizing), None));
    }
  }

  lemma {:induction false} MinimaxLoopFinite(p: Pos, depth: nat, maximizing: bool, i: nat, best: Scored)
    requires depth > 0 && i <= |p.children|
    requires best.score.Fin? || (best.score == Worst(maximizing) && i < |p.children|)
    ensures MinimaxLoop(p, depth, maximizing, i, best).score.Fin?
    decreases depth, 0, |p.children| - i
  {
    if i < |p.children| {
      MinimaxFinite(p.children[i].next, depth - 1, !maximizing);
      var s := MinimaxValue(p.children[i].next, depth - 1, !maximizing).score;
      var best' := if Improves(maximizing, s, best.score) then Scored(s, Some(p.children[i].move)) else best;
      MinimaxLoopFinite(p, depth, maximizing, i + 1, best');
    }
  }

  /** The move with index `k` is the first-seen best among the moves with
      index `< i`, and `best` holds it. */
  ghost predicate FirstBestAt(p: Pos, depth: nat, maximizing: bool, i: nat, best: Scored, k: nat)
    requires depth > 0 && i <= |p.children|
  {
    k < i
    && best.move == Some(p.children[k].move)
    && best.score == ChildValue(p, depth, maximizing, k)
    && (forall j :: 0 <= j < k ==> Improves(maximizing, best.score, ChildValue(p, depth, maximizing, j)))
    && (forall j :: 0 <= j < i ==> !Improves(maximizing, ChildValue(p, depth, maximizing, j), best.score))
  }

  /** One step of the minimax loop keeps the first-seen best. */
  lemma FirstBestStep(p: Pos, depth: nat, maximizing: bool, i: nat, best: Scored, k: nat)
    requires depth > 0 && i < |p.children|
    requires FirstBestAt(p, depth, maximizing, i, best, k)
    ensures var s := ChildValue(p, depth, maximizing, i);
      if Improves(maximizing, s, best.score)
      then FirstBestAt(p, depth, maximizing, i + 1, Scored(s, Some(p.children[i].move)), i)
      else FirstBestAt(p, depth, maximizing, i + 1, best, k)
  {
    var s := ChildValue(p, depth, maximizing, i);
    if Improves(maximizing, s, best.score) {
      forall j | 0 <= j < i
        ensures Improves(maximizing, s, ChildValue(p, depth, maximizing, j))
      {
        LeTotalOrder(ChildValue(p, depth, maximizing, j), best.score, s);
        LeTotalOrder(s, best.score, ChildValue(p, depth, maximizing, j));
      }
    }
  }

  lemma {:induction false} MinimaxLoopBest(p: Pos, depth: nat, maximizing: bool, i: nat, best: Scored, k: nat)
    requires depth > 0 && 0 < i <= |p.children|
    requires FirstBestAt(p, depth, maximizing, i, best, k)
    ensures exists k' :: FirstBestAt(p, depth, maximizing, |p.children|, MinimaxLoop(p, depth, maximizing, i, best), k')
    decreases |p.children| - i
  {
    if i < |p.children| {
      var s := ChildValue(p, depth, maximizing, i);
      FirstBestStep(p, depth, maximizing, i, best, k);
      if Improves(maximizing, s, best.score) {
        var best' := Scored(s, Some(p.children[i].move));
        assert MinimaxLoop(p, depth, maximizing, i, best) == MinimaxLoop(p, depth, maximizing, i + 1, best');
        MinimaxLoopBest(p, depth, maximizing, i + 1, best', i);
      } else {
        assert MinimaxLoop(p, depth, maximizing, i, best) == MinimaxLoop(p, depth, maximizing, i + 1, best);
        MinimaxLoopBest(p, depth, maximizing, i + 1, best, k);
      }
    } else {
      assert FirstBestAt(p, depth, maximizing, |p.children|, MinimaxLoop(p, depth, maximizing, i, best), k);
    }
  }

  /** At an inner node minimax returns the best child value and the first
      move in generation order that reaches it: every earlier move is
      strictly worse and no move is strictly better. */
  lemma MinimaxBest(p: Pos, depth: nat, maximizing: bool)
    requires depth > 0 && !IsGameOver(p)
    ensures var r := MinimaxValue(p, depth, maximizing);
      exists k :: 0 <= k < |p.children|
        && r.move == Some(p.children[k].move)
        && r.score == ChildValue(p, depth, maximizing, k)
        && (forall j :: 0 <= j < k ==> Improves(maximizing, r.score, ChildValue(p, depth, maximizing, j)))
        && (forall j :: 0 <= j < |p.children| ==> !Improves(maximizing, ChildValue(p, depth, maximizing, j), r.score))
  {
    LiveHasMoves(p);
    MinimaxFinite(p.children[0].next, depth - 1, !maximizing);
    var s := ChildValue(p, depth, maximizing, 0);
    assert FirstBestAt(p, depth, maximizing, 1, Scored(s, Some(p.children[0].move)), 0);
    MinimaxLoopBest(p, depth, maximizing, 1, Scored(s, Some(p.children[0].move)), 0);
  }

  /** The value of minimax never falls below (when maximising) or rises above
      (when minimising) the best value already in hand. */
  lemma {:induction false} MinimaxLoopMonotone(p: Pos, depth: nat, maximizing: bool, i: nat, best: Scored)
    requires depth > 0 && i <= |p.children|
    ensures var r := MinimaxLoop(p, depth, maximizing, i, best).score;
      if maximizing then Le(best.score, r) else Le(r, best.score)
    decreases |p.children| - i
  {
    if i < |p.children| {
      var s := MinimaxValue(p.children[i].next, depth - 1, !maximizing).score;
      var best' := if Improves(maximizing, s, best.score) then Scored(s, Some(p.children[i].move)) else best;
      MinimaxLoopMonotone(p, depth, maximizing, i + 1, best');
      var r := MinimaxLoop(p, depth, maximizing, i + 1, best').score;
      LeTotalOrder(best.score, best'.score, r);
      LeTotalOrder(r, best'.score, best.score);
    }
  }

  /** Minimax, pushing and popping each legal move on the shared board. */
  method Minimax(board: Board, depth: nat, maximizing: bool) returns (score: Score, move: Option<Move>)
    requires board.Valid()
    modifies board
    ensures board.Valid() && board.state == old(board.state) && board.stack == old(board.stack)
    ensures Scored(score, move) == MinimaxValue(old(board.state), depth, maximizing)
    decreases depth
  {
    var p := board.state;
    if depth == 0 || IsGameOver(p) {
      var e := Evaluate(board);
      return Fin(e), None;
    }
    score, move := Worst(maximizing), None;
    var i := 0;
    while i < |p.children|
      invariant 0 <= i <= |p.children|
      invariant board.Valid() && board.state == p && board.stack == old(board.stack)
      invariant MinimaxLoop(p, depth, maximizing, i, Scored(score, move)) == MinimaxValue(p, depth, maximizing)
    {
      board.Push(i);
      var s, _ := Minimax(board, depth - 1, !maximizing);
      var _ := board.Pop();
      if Improves(maximizing, s, score) {
        score, move := s, Some(p.children[i].move);
      }
      i := i + 1;
    }
  }

  // ---------------------------------------------------------------------------
  // Quiescence

  /** The fail-hard quiescence value: negamax over capture moves on the
      White-positive evaluation, with no side-to-move sign. */
  function QuiescenceValue(p: Pos, alpha: Score, beta: Score): (r: Score)
    ensures Le(alpha, beta) ==> Le(alpha, r) && Le(r, beta)
    ensures Le(alpha, beta) ==> Le(Clamp(alpha, beta, Fin(Evaluation(p))), r)
    decreases p, 1
  {
    var standPat := Fin(Evaluation(p));
    if Le(beta, standPat) then beta
    else
      LeTotalOrder(alpha, standPat, beta);
      QLoop(p, 0, Max(alpha, standPat), beta)
  }

  /** The capture loop of quiescence from the move with index `i` on. */
  function QLoop(p: Pos, i: nat, alpha: Score, beta: Score): (r: Score)
    requires i <= |p.children|
    ensures Le(alpha, beta) ==> Le(alpha, r) && Le(r, beta)
    decreases p, 0, |p.children| - i
  {
    if i == |p.children| then alpha
    else if !p.children[i].capture then QLoop(p, i + 1, alpha, beta)
    else
      var child := p.children[i];
      assert child.next < p by {
        assert child in p.children;
      }
      var score := Neg(QuiescenceValue(child.next, Neg(beta), Neg(alpha)));
      NegReverses(alpha, beta);
      NegReverses(QuiescenceValue(child.next, Neg(beta), Neg(alpha)), Neg(alpha));
      NegReverses(Neg(beta), QuiescenceValue(child.next, Neg(beta), Neg(alpha)));
      NegReverses(beta, beta);
      if Le(beta, score) then beta
      else
        LeTotalOrder(alpha, score, beta);
        QLoop(p, i + 1, Max(alpha, score), beta)
  }

  /** The capture moves of `cs`, in order. */
  function Captures(cs: seq<Child>): (r: seq<Child>)
    ensures |r| <= |cs|
  {
    if cs == [] then []
    else (if cs[0].capture then [cs[0]] else []) + Captures(cs[1..])
  }

  /** The capture loop read as a fold over the capture moves alone. */
  function CaptureFold(cs: seq<Child>, alpha: Score, beta: Score): Score
  {
    if cs == [] then alpha
    else
      var score := Neg(QuiescenceValue(cs[0].next, Neg(beta), Neg(alpha)));
      if Le(beta, score) then beta else CaptureFold(cs[1..], Max(alpha, score), beta)
  }

  lemma {:induction false} QLoopIsCaptureFold(p: Pos, i: nat, alpha: Score, beta: Score)
    requires i <= |p.children|
    ensures QLoop(p, i, alpha, beta) == CaptureFold(Captures(p.children[i..]), alpha, beta)
    decreases |p.children| - i
  {
    if i < |p.children| {
      var child := p.children[i];
      var rest := Captures(p.children[i + 1..]);
      assert p.children[i..] == [child] + p.children[i + 1..];
      assert Captures(p.children[i..]) == (if child.capture then [child] else []) + rest;
      if child.capture {
        var score := Neg(QuiescenceValue(child.next, Neg(beta), Neg(alpha)));
        assert ([child] + rest)[1..] == rest;
        if !Le(beta, score) {
          QLoopIsCaptureFold(p, i + 1, Max(alpha, score), beta);
        }
      } else {
        assert Captures(p.children[i..]) == rest;
        QLoopIsCaptureFold(p, i + 1, alpha, beta);
      }
    }
  }

  /** Quiescence looks only at the capture moves: the others never reach the
      recursion and do not change the value. */
  lemma QuiescenceOnlyCaptures(p: Pos, alpha: Score, beta: Score)
    ensures var standPat := Fin(Evaluation(p));
      QuiescenceValue(p, alpha, beta)
      == if Le(beta, standPat) then beta else CaptureFold(Captures(p.children), Max(alpha, standPat), beta)
  {
    QLoopIsCaptureFold(p, 0, Max(alpha, Fin(Evaluation(p))), beta);
    assert p.children[0..] == p.children;
  }

  /** No capture move is legal. */
  predicate NoCaptures(p: Pos) {
    forall i :: 0 <= i < |p.children| ==> !p.children[i].capture
  }

  lemma {:induction false} NoCapturesToFold(cs: seq<Child>)
    requires forall i :: 0 <= i < |cs| ==> !cs[i].capture
    ensures Captures(cs) == []
  {
    if cs != [] {
      NoCapturesToFold(cs[1..]);
    }
  }

  /** With no capture to try, quiescence returns beta on a stand-pat cutoff
      and otherwise the larger of alpha and the stand-pat score. */
  lemma QuiescenceQuiet(p: Pos, alpha: Score, beta: Score)
    requires NoCaptures(p)
    ensures var standPat := Fin(Evaluation(p));
      QuiescenceValue(p, alpha, beta) == if Le(beta, standPat) then beta else Max(alpha, standPat)
  {
    QuiescenceOnlyCaptures(p, alpha, beta);
    NoCapturesToFold(p.children);
  }

  /** One move of the capture loop: a quiet move is skipped; a capture is
      searched with the negated window and either cuts off at beta or raises
      alpha to its score. */
  lemma QLoopStep(p: Pos, i: nat, alpha: Score, beta: Score)
    requires i < |p.children|
    ensures p.children[i].next < p
    ensures var score := Neg(QuiescenceValue(p.children[i].next, Neg(beta), Neg(alpha)));
      QLoop(p, i, alpha, beta)
      == if !p.children[i].capture then QLoop(p, i + 1, alpha, beta)
         else if Le(beta, score) then beta
         else QLoop(p, i + 1, if Lt(alpha, score) then score else alpha, beta)
  {
    assert p.children[i] in p.children;
    var score := Neg(QuiescenceValue(p.children[i].next, Neg(beta), Neg(alpha)));
    LeTotalOrder(alpha, score, score);
  }

  /** Quiescence, pushing and popping each capture on the shared board. */
  method Quiescence(board: Board, alpha: Score, beta: Score) returns (score: Score)
    requires board.Valid()
    modifies board
    ensures board.Valid() && board.state == old(board.state) && board.stack == old(board.stack)
    ensures score == QuiescenceValue(old(board.state), alpha, beta)
    decreases board.state, 1
  {
    var standPat := Evaluate(board);
    if Le(beta, Fin(standPat)) {
      return beta;
    }
    var a := alpha;
    if Lt(a, Fin(standPat)) {
      a := Fin(standPat);
    }
    score := CaptureSearch(board, a, beta);
  }

  /** The capture loop of quiescence on the shared board: each capture is
      pushed, searched with the negated window and popped again. */
  method CaptureSearch(board: Board, alpha: Score, beta: Score) returns (score: Score)
    requires board.Valid()
    modifies board
    ensures board.Valid() && board.state == old(board.state) && board.stack == old(board.stack)
    ensures score == QLoop(old(board.state), 0, alpha, beta)
    decreases board.state, 0
  {
    var p := board.state;
    var a := alpha;
    var i := 0;
    while i < |p.children|
      invariant 0 <= i <= |p.children|
      invariant board.Valid() && board.state == p && board.stack == old(board.stack)
      invariant QLoop(p, i, a, beta) == QLoop(p, 0, alpha, beta)
    {
      QLoopStep(p, i, a, beta);
      if p.children[i].capture {
        board.Push(i);
        var s := Quiescence(board, Neg(beta), Neg(a));
        score := Neg(s);
        var _ := board.Pop();
        if Le(beta, score) {
          return beta;
        }
        if Lt(a, score) {
          a := score;
        }
      }
      i := i + 1;
    }
    score := a;
  }

  // ---------------------------------------------------------------------------
  // Alpha-beta

  /** The value of alpha-beta: quiescence at the horizon and at game end,
      otherwise the move loop with its cutoff. */
  function AlphaBetaValue(p: Pos, depth: nat, alpha: Score, beta: Score, maximizing: bool): Scored
    decreases depth, 1
  {
    if depth == 0 || IsGameOver(p) then Scored(QuiescenceValue(p, alpha, beta), None)
    else ABLoop(p, depth, maximizing, 0, alpha, beta, Scored(Worst(maximizing), None))
  }

  /** The move loop of alpha-beta from the move with index `i` on. A
      maximising node raises alpha, a minimising node lowers beta, and the
      loop stops as soon as beta <= alpha. */
  function ABLoop(p: Pos, depth: nat, maximizing: bool, i: nat, alpha: Score, beta: Score, best: Scored): Scored
    requires depth > 0 && i <= |p.children|
    decreases depth, 0, |p.children| - i
  {
    if i == |p.children| then best
    else
      var s := AlphaBetaValue(p.children[i].next, depth - 1, alpha, beta, !maximizing).score;
      var best' := if Improves(maximizing, s, best.score) then Scored(s, Some(p.children[i].move)) else best;
      if maximizing then
        var alpha' := Max(alpha, s);
        if Le(beta, alpha') then best' else ABLoop(p, depth, maximizing, i + 1, alpha', beta, best')
      else
        var beta' := Min(beta, s);
        if Le(beta', alpha) then best' else ABLoop(p, depth, maximizing, i + 1, alpha, beta', best')
  }

  /** One move as the alpha-beta loop searched it: the window it was given
      and the score it returned. */
  datatype Probe = Probe(alpha: Score, beta: Score, score: Score)

  /** Whether the score of a probe closes the window (beta <= alpha once
      alpha is raised, or beta lowered, by it). */
  predicate Closes(maximizing: bool, pr: Probe) {
    if maximizing then Le(pr.beta, Max(pr.alpha, pr.score)) else Le(Min(pr.beta, pr.score), pr.alpha)
  }

  /** The window passed on after a probe: alpha raised by the score at a
      maximising node, beta lowered by it at a minimising one. */
  function NextAlpha(maximizing: bool, pr: Probe): Score {
    if maximizing then Max(pr.alpha, pr.score) else pr.alpha
  }

  function NextBeta(maximizing: bool, pr: Probe): Score {
    if maximizing then pr.beta else Min(pr.beta, pr.score)
  }

  /** The moves the alpha-beta loop at `p` searches from index `i` on, in
      order, each with the window it is searched with: the search goes on
      until a score closes the window or the moves run out. */
  function ABTrace(p: Pos, depth: nat, maximizing: bool, i: nat, alpha: Score, beta: Score): seq<Probe>
    requires depth > 0 && i <= |p.children|
    decreases |p.children| - i
  {
    if i == |p.children| then []
    else
      var pr := Probe(alpha, beta, AlphaBetaValue(p.children[i].next, depth - 1, alpha, beta, !maximizing).score);
      if Closes(maximizing, pr) then [pr]
      else [pr] + ABTrace(p, depth, maximizing, i + 1, NextAlpha(maximizing, pr), NextBeta(maximizing, pr))
  }

  /** A run of probes as a window loop makes them, starting with the window
      [alpha, beta]: each probe is made with the window the earlier ones left,
      and only the last may close it. */
  predicate Shaped(maximizing: bool, t: seq<Probe>, alpha: Score, beta: Score)
    decreases |t|
  {
    t == []
    || (t[0].alpha == alpha && t[0].beta == beta
        && (|t| > 1 ==> !Closes(maximizing, t[0])
                        && Shaped(maximizing, t[1..], NextAlpha(maximizing, t[0]), NextBeta(maximizing, t[0]))))
  }

  /** Each searched move's score is its alpha-beta value one ply down with
      the window it was searched with. */
  lemma {:induction false} ABTraceScores(p: Pos, depth: nat, maximizing: bool, i: nat, alpha: Score, beta: Score)
    requires depth > 0 && i <= |p.children|
    ensures var t := ABTrace(p, depth, maximizing, i, alpha, beta);
      i + |t| <= |p.children|
      && (forall j :: 0 <= j < |t| ==>
            t[j].score == AlphaBetaValue(p.children[i + j].next, depth - 1, t[j].alpha, t[j].beta, !maximizing).score)
    decreases |p.children| - i
  {
    if i < |p.children| {
      var t := ABTrace(p, depth, maximizing, i, alpha, beta);
      if !Closes(maximizing, t[0]) {
        var alpha', beta' := NextAlpha(maximizing, t[0]), NextBeta(maximizing, t[0]);
        ABTraceScores(p, depth, maximizing, i + 1, alpha', beta');
        var rest := ABTrace(p, depth, maximizing, i + 1, alpha', beta');
        assert t == [t[0]] + rest;
        forall j | 0 < j < |t|
          ensures t[j].score == AlphaBetaValue(p.children[i + j].next, depth - 1, t[j].alpha, t[j].beta, !maximizing).score
        {
          assert t[j] == rest[j - 1] && i + j == (i + 1) + (j - 1);
        }
      }
    }
  }

  /** The loop's probes are shaped, at least one move is searched when there
      is one, and the search stops before the last move only at a score that
      closes the window. */
  lemma {:induction false} ABTraceShaped(p: Pos, depth: nat, maximizing: bool, i: nat, alpha: Score, beta: Score)
    requires depth > 0 && i <= |p.children|
    ensures var t := ABTrace(p, depth, maximizing, i, alpha, beta);
      Shaped(maximizing, t, alpha, beta) && i + |t| <= |p.children| && (i < |p.children| ==> |t| > 0)
      && (0 < |t| && i + |t| < |p.children| ==> Closes(maximizing, t[|t| - 1]))
    decreases |p.children| - i
  {
    if i < |p.children| {
      var t := ABTrace(p, depth, maximizing, i, alpha, beta);
      if !Closes(maximizing, t[0]) {
        var alpha', beta' := NextAlpha(maximizing, t[0]), NextBeta(maximizing, t[0]);
        ABTraceShaped(p, depth, maximizing, i + 1, alpha', beta');
        var rest := ABTrace(p, depth, maximizing, i + 1, alpha', beta');
        assert t[1..] == rest;
        if rest != [] {
          assert t[|t| - 1] == rest[|rest| - 1];
        }
      }
    }
  }

  /** Shaped probes, index by index: the first is made with [alpha, beta],
      every one but the last leaves the window open, and each later one is
      made with the window the one before it left. */
  lemma {:induction false} ShapedSteps(maximizing: bool, t: seq<Probe>, alpha: Score, beta: Score)
    requires Shaped(maximizing, t, alpha, beta)
    ensures |t| > 0 ==> t[0].alpha == alpha && t[0].beta == beta
    ensures forall j :: 0 <= j < |t| - 1 ==>
      !Closes(maximizing, t[j]) && t[j + 1].alpha == NextAlpha(maximizing, t[j])
      && t[j + 1].beta == NextBeta(maximizing, t[j])
    decreases |t|
  {
    if |t| > 1 {
      var rest := t[1..];
      ShapedSteps(maximizing, rest, NextAlpha(maximizing, t[0]), NextBeta(maximizing, t[0]));
      forall j | 1 <= j < |t| - 1
        ensures !Closes(maximizing, t[j]) && t[j + 1].alpha == NextAlpha(maximizing, t[j])
          && t[j + 1].beta == NextBeta(maximizing, t[j])
      {
        assert t[j] == rest[j - 1] && t[j + 1] == rest[j];
      }
    }
  }

  /** The window of shaped probes only narrows: alpha rises at a maximising
      node and beta falls at a minimising one, each time taking in every
      score seen before. */
  lemma {:induction false} ShapedNarrows(maximizing: bool, t: seq<Probe>, alpha: Score, beta: Score)
    requires Shaped(maximizing, t, alpha, beta)
    ensures forall j :: 0 <= j < |t| ==>
      if maximizing then Le(alpha, t[j].alpha) && t[j].beta == beta
      else t[j].alpha == alpha && Le(t[j].beta, beta)
    ensures forall j, k :: 0 <= k < j < |t| ==>
      if maximizing then Le(t[k].score, t[j].alpha) else Le(t[j].beta, t[k].score)
    decreases |t|
  {
    LeTotalOrder(alpha, alpha, alpha);
    LeTotalOrder(beta, beta, beta);
    if |t| > 1 {
      var pr := t[0];
      var alpha', beta' := NextAlpha(maximizing, pr), NextBeta(maximizing, pr);
      var rest := t[1..];
      ShapedNarrows(maximizing, rest, alpha', beta');
      forall j | 0 < j < |t|
        ensures if maximizing then Le(alpha, t[j].alpha) && t[j].beta == beta
                else t[j].alpha == alpha && Le(t[j].beta, beta)
      {
        assert t[j] == rest[j - 1];
        LeTotalOrder(alpha, alpha', t[j].alpha);
        LeTotalOrder(t[j].beta, beta', beta);
      }
      forall j, k | 0 <= k < j < |t|
        ensures if maximizing then Le(t[k].score, t[j].alpha) else Le(t[j].beta, t[k].score)
      {
        assert t[j] == rest[j - 1];
        if k == 0 {
          LeTotalOrder(pr.score, alpha', t[j].alpha);
          LeTotalOrder(t[j].beta, beta', pr.score);
        } else {
          assert t[k] == rest[k - 1];
        }
      }
    }
  }

  /** The best value after the probes `t`, where probe j is move `i + j` of
      `p`, starting from `best`: a probe replaces the best only when it is
      strictly better. */
  function BestOf(p: Pos, maximizing: bool, i: nat, t: seq<Probe>, best: Scored): Scored
    requires i + |t| <= |p.children|
    decreases |t|
  {
    if t == [] then best
    else
      var best' := if Improves(maximizing, t[0].score, best.score) then Scored(t[0].score, Some(p.children[i].move)) else best;
      BestOf(p, maximizing, i + 1, t[1..], best')
  }

  /** No probe scores strictly better than the result of the fold, which is
      never worse than the best in hand. */
  lemma {:induction false} BestOfNoneBetter(p: Pos, maximizing: bool, i: nat, t: seq<Probe>, best: Scored)
    requires i + |t| <= |p.children|
    ensures var r := BestOf(p, maximizing, i, t, best);
      !Improves(maximizing, best.score, r.score)
      && forall j :: 0 <= j < |t| ==> !Improves(maximizing, t[j].score, r.score)
    decreases |t|
  {
    LeTotalOrder(best.score, best.score, best.score);
    if t != [] {
      var s := t[0].score;
      var best' := if Improves(maximizing, s, best.score) then Scored(s, Some(p.children[i].move)) else best;
      var rest := t[1..];
      BestOfNoneBetter(p, maximizing, i + 1, rest, best');
      var r := BestOf(p, maximizing, i + 1, rest, best');
      LeTotalOrder(s, best.score, s);
      LeTotalOrder(best.score, best'.score, r.score);
      LeTotalOrder(r.score, best'.score, best.score);
      LeTotalOrder(s, best'.score, r.score);
      LeTotalOrder(r.score, best'.score, s);
      forall j | 0 < j < |t|
        ensures !Improves(maximizing, t[j].score, r.score)
      {
        assert t[j] == rest[j - 1];
      }
    }
  }

  /** The fold keeps the first-seen best: either no probe beats the best in
      hand, which is returned, or the result is the score of a probe paired
      with its move, strictly better than the best in hand and than every
      earlier probe. */
  lemma {:induction false} BestOfFirstSeen(p: Pos, maximizing: bool, i: nat, t: seq<Probe>, best: Scored)
    requires i + |t| <= |p.children|
    ensures var r := BestOf(p, maximizing, i, t, best);
      r == best
      || (Improves(maximizing, r.score, best.score)
          && exists j :: 0 <= j < |t| && r == Scored(t[j].score, Some(p.children[i + j].move))
               && forall k :: 0 <= k < j ==> Improves(maximizing, r.score, t[k].score))
    decreases |t|
  {
    if t != [] {
      var s := t[0].score;
      var best' := if Improves(maximizing, s, best.score) then Scored(s, Some(p.children[i].move)) else best;
      var rest := t[1..];
      BestOfFirstSeen(p, maximizing, i + 1, rest, best');
      var r := BestOf(p, maximizing, i + 1, rest, best');
      if r != best {
        LeTotalOrder(best.score, best'.score, r.score);
        LeTotalOrder(r.score, best'.score, best.score);
        if r == best' {
          assert r == Scored(t[0].score, Some(p.children[i + 0].move));
        } else {
          LeTotalOrder(s, best.score, s);
          LeTotalOrder(r.score, best'.score, s);
          var j :| 0 <= j < |rest| && r == Scored(rest[j].score, Some(p.children[i + 1 + j].move))
            && forall k :: 0 <= k < j ==> Improves(maximizing, r.score, rest[k].score);
          assert t[j + 1] == rest[j];
          forall k | 0 <= k < j + 1
            ensures Improves(maximizing, r.score, t[k].score)
          {
            if k > 0 {
              assert t[k] == rest[k - 1];
            }
          }
        }
      }
    }
  }

  /** The alpha-beta loop is the first-best fold over the moves it searches. */
  lemma {:induction false} ABLoopIsBestOf(p: Pos, depth: nat, maximizing: bool, i: nat, alpha: Score, beta: Score, best: Scored)
    requires depth > 0 && i <= |p.children|
    ensures var t := ABTrace(p, depth, maximizing, i, alpha, beta);
      i + |t| <= |p.children| && ABLoop(p, depth, maximizing, i, alpha, beta, best) == BestOf(p, maximizing, i, t, best)
    decreases |p.children| - i
  {
    if i < |p.children| {
      var t := ABTrace(p, depth, maximizing, i, alpha, beta);
      var s := AlphaBetaValue(p.children[i].next, depth - 1, alpha, beta, !maximizing).score;
      var pr := Probe(alpha, beta, s);
      var best' := if Improves(maximizing, s, best.score) then Scored(s, Some(p.children[i].move)) else best;
      ABLoopStep(p, depth, maximizing, i, alpha, beta, best, s);
      if Closes(maximizing, pr) {
        assert t == [pr];
        assert BestOf(p, maximizing, i, t, best) == BestOf(p, maximizing, i + 1, [], best');
      } else {
        var alpha', beta' := NextAlpha(maximizing, pr), NextBeta(maximizing, pr);
        ABLoopIsBestOf(p, depth, maximizing, i + 1, alpha', beta', best');
        var rest := ABTrace(p, depth, maximizing, i + 1, alpha', beta');
        assert t == [pr] + rest;
        assert t[1..] == rest;
      }
    }
  }

  /** The result of the alpha-beta loop is the first-seen best among the
      moves it searches: no searched move scores strictly better, and either
      none beat the best value in hand, which is returned, or the result is
      the score of a searched move paired with that move, every move searched
      before it being strictly worse. */
  lemma ABLoopBest(p: Pos, depth: nat, maximizing: bool, i: nat, alpha: Score, beta: Score, best: Scored)
    requires depth > 0 && i <= |p.children|
    ensures var r := ABLoop(p, depth, maximizing, i, alpha, beta, best);
      var t := ABTrace(p, depth, maximizing, i, alpha, beta);
      i + |t| <= |p.children|
      && (forall j :: 0 <= j < |t| ==> !Improves(maximizing, t[j].score, r.score))
      && (r == best
          || (Improves(maximizing, r.score, best.score)
              && exists j :: 0 <= j < |t| && r == Scored(t[j].score, Some(p.children[i + j].move))
                   && forall k :: 0 <= k < j ==> Improves(maximizing, r.score, t[k].score)))
  {
    ABLoopIsBestOf(p, depth, maximizing, i, alpha, beta, best);
    var t := ABTrace(p, depth, maximizing, i, alpha, beta);
    BestOfNoneBetter(p, maximizing, i, t, best);
    BestOfFirstSeen(p, maximizing, i, t, best);
  }

  /** The score alpha-beta records for each move it searches is the move's
      own alpha-beta value, one ply shallower, with the window of that step. */
  lemma AlphaBetaProbes(p: Pos, depth: nat, alpha: Score, beta: Score, maximizing: bool)
    requires depth > 0
    ensures var t := ABTrace(p, depth, maximizing, 0, alpha, beta);
      |t| <= |p.children|
      && forall j :: 0 <= j < |t| ==>
           t[j].score == AlphaBetaValue(p.children[j].next, depth - 1, t[j].alpha, t[j].beta, !maximizing).score
  {
    ABTraceScores(p, depth, maximizing, 0, alpha, beta);
  }

  /** Which moves alpha-beta searches at an inner node, and with what window:
      at least the first move, with the window given; each later move with
      the window left by the move before it; the search goes on while the
      window stays open, and stops before the last move only at a move whose
      score closes it, so no later move is searched. */
  lemma AlphaBetaSearched(p: Pos, depth: nat, alpha: Score, beta: Score, maximizing: bool)
    requires depth > 0 && !IsGameOver(p)
    ensures var t := ABTrace(p, depth, maximizing, 0, alpha, beta);
      0 < |t| <= |p.children| && t[0].alpha == alpha && t[0].beta == beta
      && (forall j :: 0 <= j < |t| - 1 ==>
            !Closes(maximizing, t[j]) && t[j + 1].alpha == NextAlpha(maximizing, t[j])
            && t[j + 1].beta == NextBeta(maximizing, t[j]))
      && (|t| < |p.children| ==> Closes(maximizing, t[|t| - 1]))
  {
    LiveHasMoves(p);
    var t := ABTrace(p, depth, maximizing, 0, alpha, beta);
    ABTraceShaped(p, depth, maximizing, 0, alpha, beta);
    ShapedSteps(maximizing, t, alpha, beta);
  }

  /** The alpha-beta window only narrows as the loop goes: alpha rises at a
      maximising node and beta falls at a minimising one, each searched move
      seeing a window that takes in every score found before it. */
  lemma AlphaBetaNarrows(p: Pos, depth: nat, alpha: Score, beta: Score, maximizing: bool)
    requires depth > 0
    ensures var t := ABTrace(p, depth, maximizing, 0, alpha, beta);
      (forall j :: 0 <= j < |t| ==>
         if maximizing then Le(alpha, t[j].alpha) && t[j].beta == beta
         else t[j].alpha == alpha && Le(t[j].beta, beta))
      && (forall j, k :: 0 <= k < j < |t| ==>
            if maximizing then Le(t[k].score, t[j].alpha) else Le(t[j].beta, t[k].score))
  {
    ABTraceShaped(p, depth, maximizing, 0, alpha, beta);
    ShapedNarrows(maximizing, ABTrace(p, depth, maximizing, 0, alpha, beta), alpha, beta);
  }

  /** At an inner node alpha-beta returns the first move, among those it
      searched, that reaches the best score seen, or no move at all when
      none of them beats the infinite start. */
  lemma AlphaBetaBest(p: Pos, depth: nat, alpha: Score, beta: Score, maximizing: bool)
    requires depth > 0 && !IsGameOver(p)
    ensures var r := AlphaBetaValue(p, depth, alpha, beta, maximizing);
      var t := ABTrace(p, depth, maximizing, 0, alpha, beta);
      |t| <= |p.children|
      && (forall j :: 0 <= j < |t| ==> !Improves(maximizing, t[j].score, r.score))
      && (r == Scored(Worst(maximizing), None)
          || exists j :: 0 <= j < |t| && r == Scored(t[j].score, Some(p.children[j].move))
               && forall k :: 0 <= k < j ==> Improves(maximizing, r.score, t[k].score))
  {
    ABLoopBest(p, depth, maximizing, 0, alpha, beta, Scored(Worst(maximizing), None));
  }

  /** Quiescence in an open window is finite: the stand-pat score is, and
      each capture is searched in an open window of its own. */
  lemma {:induction false} QuiescenceFinite(p: Pos, alpha: Score, beta: Score)
    requires Lt(alpha, beta)
    ensures QuiescenceValue(p, alpha, beta).Fin?
    decreases p, 1
  {
    var standPat := Fin(Evaluation(p));
    if !Le(beta, standPat) {
      LeTotalOrder(alpha, standPat, beta);
      QLoopFinite(p, 0, Max(alpha, standPat), beta);
    }
  }

  lemma {:induction false} QLoopFinite(p: Pos, i: nat, alpha: Score, beta: Score)
    requires i <= |p.children| && alpha.Fin? && Lt(alpha, beta)
    ensures QLoop(p, i, alpha, beta).Fin?
    decreases p, 0, |p.children| - i
  {
    if i < |p.children| {
      var child := p.children[i];
      if child.capture {
        assert child.next < p by {
          assert child in p.children;
        }
        NegReverses(alpha, beta);
        QuiescenceFinite(child.next, Neg(beta), Neg(alpha));
        var score := Neg(QuiescenceValue(child.next, Neg(beta), Neg(alpha)));
        if !Le(beta, score) {
          LeTotalOrder(alpha, score, beta);
          QLoopFinite(p, i + 1, Max(alpha, score), beta);
        }
      } else {
        QLoopFinite(p, i + 1, alpha, beta);
      }
    }
  }

  /** Alpha-beta in an open window has a finite value and, at a position
      where the game goes on, a legal move to go with it: the first move is
      always searched, and its finite score beats the infinite start. */
  lemma {:induction false} AlphaBetaLive(p: Pos, depth: nat, alpha: Score, beta: Score, maximizing: bool)
    requires Lt(alpha, beta)
    ensures var r := AlphaBetaValue(p, depth, alpha, beta, maximizing);
      r.score.Fin? && (depth > 0 && !IsGameOver(p) ==> r.move.Some? && r.move.value in LegalMoves(p))
    decreases depth, 1
  {
    if depth == 0 || IsGameOver(p) {
      QuiescenceFinite(p, alpha, beta);
    } else {
      LiveHasMoves(p);
      ABLoopLive(p, depth, maximizing, 0, alpha, beta, Scored(Worst(maximizing), None));
    }
  }

  lemma {:induction false} ABLoopLive(p: Pos, depth: nat, maximizing: bool, i: nat, alpha: Score, beta: Score, best: Scored)
    requires depth > 0 && i <= |p.children| && Lt(alpha, beta)
    requires (best.score.Fin? && best.move.Some? && best.move.value in LegalMoves(p))
      || (best.score == Worst(maximizing) && i < |p.children|)
    ensures var r := ABLoop(p, depth, maximizing, i, alpha, beta, best);
      r.score.Fin? && r.move.Some? && r.move.value in LegalMoves(p)
    decreases depth, 0, |p.children| - i
  {
    if i < |p.children| {
      AlphaBetaLive(p.children[i].next, depth - 1, alpha, beta, !maximizing);
      var s := AlphaBetaValue(p.children[i].next, depth - 1, alpha, beta, !maximizing).score;
      var best' := if Improves(maximizing, s, best.score) then Scored(s, Some(p.children[i].move)) else best;
      assert best'.score.Fin? && best'.move.Some? && best'.move.value in LegalMoves(p);
      if maximizing {
        if !Le(beta, Max(alpha, s)) {
          ABLoopLive(p, depth, maximizing, i + 1, Max(alpha, s), beta, best');
        }
      } else {
        if !Le(Min(beta, s), alpha) {
          ABLoopLive(p, depth, maximizing, i + 1, alpha, Min(beta, s), best');
        }
      }
    }
  }

  /** Every position at the search horizon (depth exhausted or game over)
      has no capture move, so quiescence reduces to the stand-pat score. */
  ghost predicate QuietHorizon(p: Pos, depth: nat)
    decreases depth
  {
    if depth == 0 || IsGameOver(p) then NoCaptures(p)
    else forall i :: 0 <= i < |p.children| ==> QuietHorizon(p.children[i].next, depth - 1)
  }

  /** Alpha-beta is exact inside its window: clamped to [alpha, beta] it
      agrees with minimax, whenever the horizon is quiet. */
  lemma {:induction false} AlphaBetaClamp(p: Pos, depth: nat, alpha: Score, beta: Score, maximizing: bool)
    requires Lt(alpha, beta) && QuietHorizon(p, depth)
    ensures Clamp(alpha, beta, AlphaBetaValue(p, depth, alpha, beta, maximizing).score)
         == Clamp(alpha, beta, MinimaxValue(p, depth, maximizing).score)
    decreases depth, 1
  {
    var init := Scored(Worst(maximizing), None);
    if depth == 0 || IsGameOver(p) {
      QuiescenceQuiet(p, alpha, beta);
      var sp := Fin(Evaluation(p));
      LeTotalOrder(alpha, beta, sp);
      LeTotalOrder(alpha, sp, beta);
    } else if maximizing {
      LeTotalOrder(alpha, beta, NegInf);
      ABLoopMaxClamp(p, depth, 0, alpha, alpha, beta, init, init);
    } else {
      LeTotalOrder(alpha, beta, PosInf);
      ClampEitherWay(alpha, beta, PosInf);
      ABLoopMinClamp(p, depth, 0, alpha, beta, beta, init, init);
    }
  }

  /** The maximising loop: `alpha` is alpha0 raised by the values searched
      so far, and it is minimax's running best clamped to the window. */
  lemma {:induction false} ABLoopMaxClamp(p: Pos, depth: nat, i: nat, alpha0: Score, alpha: Score, beta: Score, best: Scored, mbest: Scored)
    requires depth > 0 && i <= |p.children| && !IsGameOver(p) && QuietHorizon(p, depth)
    requires Lt(alpha, beta) && Le(alpha0, alpha)
    requires alpha == Max(alpha0, best.score)
    requires alpha == Clamp(alpha0, beta, mbest.score)
    ensures Clamp(alpha0, beta, ABLoop(p, depth, true, i, alpha, beta, best).score)
         == Clamp(alpha0, beta, MinimaxLoop(p, depth, true, i, mbest).score)
    decreases depth, 0, |p.children| - i
  {
    if i == |p.children| {
      LeTotalOrder(alpha, beta, alpha0);
    } else {
      var child := p.children[i].next;
      var s := AlphaBetaValue(child, depth - 1, alpha, beta, false).score;
      var v := MinimaxValue(child, depth - 1, false).score;
      AlphaBetaClamp(child, depth - 1, alpha, beta, false);
      var best' := if Improves(true, s, best.score) then Scored(s, Some(p.children[i].move)) else best;
      var mbest' := if Improves(true, v, mbest.score) then Scored(v, Some(p.children[i].move)) else mbest;
      assert best'.score == Max(best.score, s);
      assert mbest'.score == Max(mbest.score, v);
      var alpha' := Max(alpha, s);
      MaxAssoc(alpha0, best.score, s);
      MaxAssoc(alpha0, mbest.score, v);
      MinMaxAbsorb(beta, Max(alpha0, mbest.score), v);
      LeTotalOrder(alpha, beta, s);
      LeTotalOrder(alpha, beta, v);
      LeTotalOrder(alpha0, alpha, s);
      if Le(beta, alpha') {
        MinimaxLoopMonotone(p, depth, true, i + 1, mbest');
        var r := MinimaxLoop(p, depth, true, i + 1, mbest').score;
        LeTotalOrder(beta, mbest'.score, r);
        LeTotalOrder(beta, v, mbest'.score);
        LeTotalOrder(alpha0, beta, r);
        LeTotalOrder(alpha0, beta, best'.score);
      } else {
        ABLoopMaxClamp(p, depth, i + 1, alpha0, alpha', beta, best', mbest');
      }
    }
  }

  /** The minimising loop: `beta` is beta0 lowered by the values searched so
      far, and it is minimax's running best clamped to the window. */
  lemma {:induction false} ABLoopMinClamp(p: Pos, depth: nat, i: nat, alpha: Score, beta0: Score, beta: Score, best: Scored, mbest: Scored)
    requires depth > 0 && i <= |p.children| && !IsGameOver(p) && QuietHorizon(p, depth)
    requires Lt(alpha, beta) && Le(beta, beta0)
    requires beta == Min(beta0, best.score)
    requires beta == Max(alpha, Min(beta0, mbest.score))
    ensures Clamp(alpha, beta0, ABLoop(p, depth, false, i, alpha, beta, best).score)
         == Clamp(alpha, beta0, MinimaxLoop(p, depth, false, i, mbest).score)
    decreases depth, 0, |p.children| - i
  {
    LeTotalOrder(alpha, beta, beta0);
    if i == |p.children| {
      ClampEitherWay(alpha, beta0, best.score);
      ClampEitherWay(alpha, beta0, mbest.score);
      LeTotalOrder(alpha, beta, beta0);
    } else {
      var child := p.children[i].next;
      var s := AlphaBetaValue(child, depth - 1, alpha, beta, true).score;
      var v := MinimaxValue(child, depth - 1, true).score;
      AlphaBetaClamp(child, depth - 1, alpha, beta, true);
      ClampEitherWay(alpha, beta, s);
      ClampEitherWay(alpha, beta, v);
      var best' := if Improves(false, s, best.score) then Scored(s, Some(p.children[i].move)) else best;
      var mbest' := if Improves(false, v, mbest.score) then Scored(v, Some(p.children[i].move)) else mbest;
      assert best'.score == Min(best.score, s);
      assert mbest'.score == Min(mbest.score, v);
      var beta' := Min(beta, s);
      MinAssoc(beta0, best.score, s);
      MinAssoc(beta0, mbest.score, v);
      MaxMinAbsorb(alpha, Min(beta0, mbest.score), v);
      LeTotalOrder(alpha, beta, s);
      LeTotalOrder(alpha, beta, v);
      LeTotalOrder(s, beta, beta0);
      if Le(beta', alpha) {
        MinimaxLoopMonotone(p, depth, false, i + 1, mbest');
        var r := MinimaxLoop(p, depth, false, i + 1, mbest').score;
        ClampEitherWay(alpha, beta0, best'.score);
        ClampEitherWay(alpha, beta0, r);
        LeTotalOrder(r, mbest'.score, alpha);
        LeTotalOrder(mbest'.score, v, alpha);
        LeTotalOrder(alpha, beta0, r);
        LeTotalOrder(alpha, beta0, best'.score);
      } else {
        ABLoopMinClamp(p, depth, i + 1, alpha, beta0, beta', best', mbest');
      }
    }
  }

  /** With the full window and a quiet horizon, alpha-beta returns exactly
      what minimax returns: the same score and the same move. */
  lemma {:induction false} AlphaBetaFullWindow(p: Pos, depth: nat, maximizing: bool)
    requires QuietHorizon(p, depth)
    ensures AlphaBetaValue(p, depth, NegInf, PosInf, maximizing) == MinimaxValue(p, depth, maximizing)
  {
    var init := Scored(Worst(maximizing), None);
    if depth == 0 || IsGameOver(p) {
      QuiescenceQuiet(p, NegInf, PosInf);
    } else {
      ABLoopFullWindow(p, depth, maximizing, 0, init);
    }
  }

  /** The full-window loop: the moving bound is the best value in hand, and
      each move's alpha-beta value decides the same as its minimax value. */
  lemma {:induction false} ABLoopFullWindow(p: Pos, depth: nat, maximizing: bool, i: nat, best: Scored)
    requires depth > 0 && i <= |p.children| && !IsGameOver(p) && QuietHorizon(p, depth)
    requires best.score != Worst(!maximizing)
    ensures var alpha := if maximizing then best.score else NegInf;
      var beta := if maximizing then PosInf else best.score;
      ABLoop(p, depth, maximizing, i, alpha, beta, best) == MinimaxLoop(p, depth, maximizing, i, best)
    decreases |p.children| - i
  {
    if i < |p.children| {
      var alpha := if maximizing then best.score else NegInf;
      var beta := if maximizing then PosInf else best.score;
      var child := p.children[i].next;
      var s := AlphaBetaValue(child, depth - 1, alpha, beta, !maximizing).score;
      var v := MinimaxValue(child, depth - 1, !maximizing).score;
      MinimaxFinite(child, depth - 1, !maximizing);
      AlphaBetaClamp(child, depth - 1, alpha, beta, !maximizing);
      var best' := if Improves(maximizing, v, best.score) then Scored(v, Some(p.children[i].move)) else best;
      assert (if Improves(maximizing, s, best.score) then Scored(s, Some(p.children[i].move)) else best) == best';
      if maximizing {
        assert Max(alpha, s) == best'.score;
        assert ABLoop(p, depth, maximizing, i, alpha, beta, best) == ABLoop(p, depth, maximizing, i + 1, best'.score, beta, best');
      } else {
        assert Min(beta, s) == best'.score;
        assert ABLoop(p, depth, maximizing, i, alpha, beta, best) == ABLoop(p, depth, maximizing, i + 1, alpha, best'.score, best');
      }
      ABLoopFullWindow(p, depth, maximizing, i + 1, best');
    }
  }

  /** One step of the alpha-beta loop, with the window and best value it
      passes on. */
  lemma ABLoopStep(p: Pos, depth: nat, maximizing: bool, i: nat, alpha: Score, beta: Score, best: Scored, s: Score)
    requires depth > 0 && i < |p.children|
    requires s == AlphaBetaValue(p.children[i].next, depth - 1, alpha, beta, !maximizing).score
    ensures var best' := if Improves(maximizing, s, best.score) then Scored(s, Some(p.children[i].move)) else best;
      var alpha' := if maximizing then Max(alpha, s) else alpha;
      var beta' := if maximizing then beta else Min(beta, s);
      ABLoop(p, depth, maximizing, i, alpha, beta, best)
      == if Le(beta', alpha') then best' else ABLoop(p, depth, maximizing, i + 1, alpha', beta', best')
  {
  }

  /** Alpha-beta, pushing and popping each legal move on the shared board. */
  method AlphaBeta(board: Board, depth: nat, alpha: Score, beta: Score, maximizing: bool) returns (score: Score, move: Option<Move>)
    requires board.Valid()
    modifies board
    ensures board.Valid() && board.state == old(board.state) && board.stack == old(board.stack)
    ensures Scored(score, move) == AlphaBetaValue(old(board.state), depth, alpha, beta, maximizing)
    decreases depth
  {
    var p := board.state;
    if depth == 0 || IsGameOver(p) {
      score := Quiescence(board, alpha, beta);
      return score, None;
    }
    score, move := Worst(maximizing), None;
    var a, b := alpha, beta;
    var i := 0;
    while i < |p.children|
      invariant 0 <= i <= |p.children|
      invariant board.Valid() && board.state == p && board.stack == old(board.stack)
      invariant ABLoop(p, depth, maximizing, i, a, b, Scored(score, move)) == AlphaBetaValue(p, depth, alpha, beta, maximizing)
    {
      board.Push(i);
      var s, _ := AlphaBeta(board, depth - 1, a, b, !maximizing);
      var _ := board.Pop();
      ABLoopStep(p, depth, maximizing, i, a, b, Scored(score, move), s);
      if Improves(maximizing, s, score) {
        score, move := s, Some(p.children[i].move);
      }
      if maximizing {
        a := Max(a, s);
      } else {
        b := Min(b, s);
      }
      if Le(b, a) {
        return;
      }
      i := i + 1;
    }
  }

  // ---------------------------------------------------------------------------
  // Iterative deepening

  /** Alpha-beta at depths 1 .. maxDepth with the full window, for the side
      to move; the move of the last iteration is the answer. */
  method IterativeDeepening(board: Board, maxDepth: int) returns (best: Option<Move>)
    requires board.Valid()
    modifies board
    ensures board.Valid() && board.state == old(board.state) && board.stack == old(board.stack)
    ensures best == IterativeDeepeningMove(old(board.state), maxDepth)
  {
    best := None;
    var maximizing := board.turn == White;
    var depth := 1;
    while depth <= maxDepth
      invariant 1 <= depth && (if maxDepth >= 1 then depth <= maxDepth + 1 else depth == 1)
      invariant board.Valid() && board.state == old(board.state) && board.stack == old(board.stack)
      invariant best == IterativeDeepeningMove(board.state, depth - 1)
    {
      var _, m := AlphaBeta(board, depth, NegInf, PosInf, maximizing);
      best := m;
      depth := depth + 1;
    }
  }

  /** The move iterative deepening returns: None below depth 1, otherwise the
      move of a full-window alpha-beta search at the deepest depth. */
  function IterativeDeepeningMove(p: Pos, maxDepth: int): Option<Move> {
    if maxDepth < 1 then None
    else AlphaBetaValue(p, maxDepth, NegInf, PosInf, p.turn == White).move
  }

  /** With a quiet horizon, iterative deepening plays the minimax move of the
      deepest depth: the first move in generation order that reaches the best
      value for the side to move, or None when the game is over. */
  lemma IterativeDeepeningIsMinimax(p: Pos, maxDepth: int)
    requires maxDepth >= 1 && QuietHorizon(p, maxDepth)
    ensures IterativeDeepeningMove(p, maxDepth) == MinimaxValue(p, maxDepth, p.turn == White).move
    ensures IsGameOver(p) <==> IterativeDeepeningMove(p, maxDepth).None?
  {
    AlphaBetaFullWindow(p, maxDepth, p.turn == White);
    if !IsGameOver(p) {
      MinimaxBest(p, maxDepth, p.turn == White);
    }
  }
}
