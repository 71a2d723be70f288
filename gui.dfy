/** The game window's state machines: the two clocks and their flag
    verdict, the clock text, the mapping from a canvas click to a board
    square, click-to-move piece selection, the square colouring, new game
    and take-back. Drawing, fonts and the event loop are not modelled; the
    canvas size and the click position are parameters. */
module Gui {
  import opened Rules
  import opened Engine

  // ---------------------------------------------------------------------------
  // Clock text

  function DigitChar(d: int): char
    requires 0 <= d < 10
  {
    ('0' as int + d) as char
  }

  /** Decimal digits of `n`, no leading zeros. */
  function NatString(n: nat): (s: string)
    ensures |s| >= 1
    ensures n < 10 ==> s == [DigitChar(n)]
    ensures 10 <= n < 100 ==> s == [DigitChar(n / 10), DigitChar(n % 10)]
  {
    if n < 10 then [DigitChar(n)] else NatString(n / 10) + [DigitChar(n % 10)]
  }

  /** An integer in decimal, with a minus sign when negative. */
  function IntString(i: int): string {
    if i < 0 then "-" + NatString(-i) else NatString(i)
  }

  /** Zero-padded to width two, as the `02d` format does. */
  function Pad2(i: int): (s: string)
    ensures 0 <= i < 100 ==> s == [DigitChar(i / 10), DigitChar(i % 10)]
  {
    if 0 <= i < 10 then "0" + NatString(i) else IntString(i)
  }

  /** Seconds as minutes and seconds, each padded to two digits. Floor
      division and modulus by 60 agree with Dafny's for any integer. */
  function FormatTime(seconds: int): string {
    Pad2(seconds / 60) + ":" + Pad2(seconds % 60)
  }

  function DigitValue(c: char): Option<int> {
    if '0' <= c <= '9' then Some(c as int - '0' as int) else None
  }

  /** Reads "MM:SS" back into seconds. */
  function ParseTime(t: string): Option<int> {
    if |t| != 5 || t[2] != ':' then None
    else
      match (DigitValue(t[0]), DigitValue(t[1]), DigitValue(t[3]), DigitValue(t[4]))
      case (Some(m1), Some(m0), Some(s1), Some(s0)) => Some((m1 * 10 + m0) * 60 + s1 * 10 + s0)
      case _ => None
  }

  /** Under 100 minutes the clock text has five characters and reads back
      as the same number of seconds. */
  lemma FormatTimeRoundTrip(seconds: int)
    requires 0 <= seconds < 6000
    ensures |FormatTime(seconds)| == 5 && FormatTime(seconds)[2] == ':'
    ensures ParseTime(FormatTime(seconds)) == Some(seconds)
  {
    var m := seconds / 60;
    var s := seconds % 60;
    var t := FormatTime(seconds);
    assert t == [DigitChar(m / 10), DigitChar(m % 10), ':', DigitChar(s / 10), DigitChar(s % 10)];
    assert DigitValue(t[0]) == Some(m / 10) && DigitValue(t[1]) == Some(m % 10);
    assert DigitValue(t[3]) == Some(s / 10) && DigitValue(t[4]) == Some(s % 10);
    assert (m / 10 * 10 + m % 10) * 60 + s / 10 * 10 + s % 10 == m * 60 + s;
  }

  // ---------------------------------------------------------------------------
  // The clocks

  datatype Clocks = Clocks(white: int, black: int, running: bool)

  datatype FlagVerdict = BlackWinsOnTime | WhiteFlaggedDraw | WhiteWinsOnTime | BlackFlaggedDraw | BothOutOfTime

  /** The verdict when a clock has reached zero: the flagged side loses when
      the opponent still has mating material, and the game is drawn
      otherwise or when both clocks are at zero. */
  function Verdict(white: int, black: int, whiteMates: bool, blackMates: bool): FlagVerdict {
    if white == 0 && black > 0 then (if blackMates then BlackWinsOnTime else WhiteFlaggedDraw)
    else if black == 0 && white > 0 then (if whiteMates then WhiteWinsOnTime else BlackFlaggedDraw)
    else BothOutOfTime
  }

  /** One second of the clock: the side to move loses a second while it
      has any, and the timer stops with a verdict once a clock reads zero. */
  function Tick(c: Clocks, toMove: Color, whiteMates: bool, blackMates: bool): (Clocks, Option<FlagVerdict>) {
    if !c.running then (c, None)
    else
      var white := if toMove == White && c.white > 0 then c.white - 1 else c.white;
      var black := if toMove == Black && c.black > 0 then c.black - 1 else c.black;
      if white == 0 || black == 0 then (Clocks(white, black, false), Some(Verdict(white, black, whiteMates, blackMates)))
      else (Clocks(white, black, true), None)
  }

  /** A tick touches only the clock of the side to move, by one second and
      only while it is positive; a stopped timer changes nothing. Clocks
      therefore never go negative. */
  lemma TickCountsDown(c: Clocks, toMove: Color, whiteMates: bool, blackMates: bool)
    ensures var (c', _) := Tick(c, toMove, whiteMates, blackMates);
      (!c.running ==> c' == c)
      && (c.running ==>
            (toMove == White ==> c'.black == c.black && c'.white == (if c.white > 0 then c.white - 1 else c.white))
            && (toMove == Black ==> c'.white == c.white && c'.black == (if c.black > 0 then c.black - 1 else c.black)))
      && (c.white >= 0 ==> c'.white >= 0) && (c.black >= 0 ==> c'.black >= 0)
  {
  }

  /** The timer stops exactly when a running clock reaches zero, and a
      verdict is given exactly then; the verdict follows the flag rule. */
  lemma TickFlags(c: Clocks, toMove: Color, whiteMates: bool, blackMates: bool)
    requires c.white >= 0 && c.black >= 0
    ensures var (c', v) := Tick(c, toMove, whiteMates, blackMates);
      (v.Some? <==> c.running && (c'.white == 0 || c'.black == 0))
      && (c.running ==> (c'.running <==> v.None?))
      && (v == Some(BlackWinsOnTime) <==> c.running && c'.white == 0 && c'.black > 0 && blackMates)
      && (v == Some(WhiteWinsOnTime) <==> c.running && c'.black == 0 && c'.white > 0 && whiteMates)
      && (v == Some(BothOutOfTime) <==> c.running && c'.white == 0 && c'.black == 0)
  {
  }

  // ---------------------------------------------------------------------------
  // Board geometry

  /** The configured square size, used until the first redraw. */
  const DefaultSquareSize := 80

  /** The default canvas side when the window is not laid out yet. */
  const DefaultCanvas := DefaultSquareSize * 8 + 80

  /** The square size the board is drawn with on a canvas of the given
      size: never below 40 pixels. */
  function SquareSize(canvasWidth: int, canvasHeight: int): (size: int)
    ensures size >= 40
  {
    var (w, h) := if canvasWidth <= 1 || canvasHeight <= 1 then (DefaultCanvas, DefaultCanvas) else (canvasWidth, canvasHeight);
    var fits := (if w < h then w else h) - 60;
    var side := if fits < 8 * 40 then 8 * 40 else fits;
    side / 8
  }

  /** Left (or top) margin that centres a board of `boardPix` pixels. */
  function Offset(canvas: int, boardPix: int): int {
    (canvas - boardPix) / 2
  }

  /** The board square under a click at (x, y), as (row, col), or None when
      the click lands off the board. */
  function CoordsFromEvent(canvasWidth: int, canvasHeight: int, size: int, x: int, y: int): (rc: Option<(int, int)>)
    requires size > 0
    ensures rc.Some? ==> 0 <= rc.value.0 < 8 && 0 <= rc.value.1 < 8
  {
    var boardPix := size * 8;
    var col := (x - Offset(canvasWidth, boardPix)) / size;
    var row := (y - Offset(canvasHeight, boardPix)) / size;
    if 0 <= row < 8 && 0 <= col < 8 then Some((row, col)) else None
  }

  lemma DivBounds(a: int, size: int)
    requires size > 0
    ensures (a / size) * size <= a < (a / size + 1) * size
  {
  }

  lemma {:induction false} InsideIsSomeSquare(a: int, size: int)
    requires size > 0
    ensures 0 <= a / size < 8 <==> 0 <= a < size * 8
  {
    DivBounds(a, size);
    var q := a / size;
    if q < 0 {
      MulLe(q + 1, 0, size);
    } else if q >= 8 {
      MulLe(8, q, size);
    } else {
      MulLe(0, q, size);
      MulLe(q + 1, 8, size);
    }
  }

  lemma MulLe(a: int, b: int, size: int)
    requires a <= b && size > 0
    ensures a * size <= b * size
  {
    assert b * size - a * size == (b - a) * size;
  }

  /** A click maps to a square exactly when it lands inside the centred
      board's pixel rectangle, and then to the square whose cell contains
      it. */
  lemma CoordsFromEventIsCell(canvasWidth: int, canvasHeight: int, size: int, x: int, y: int)
    requires size > 0
    ensures var dx := x - Offset(canvasWidth, size * 8);
      var dy := y - Offset(canvasHeight, size * 8);
      var rc := CoordsFromEvent(canvasWidth, canvasHeight, size, x, y);
      (rc.Some? <==> 0 <= dx < size * 8 && 0 <= dy < size * 8)
      && (rc.Some? ==> rc.value.1 * size <= dx < (rc.value.1 + 1) * size
                       && rc.value.0 * size <= dy < (rc.value.0 + 1) * size)
  {
    var dx := x - Offset(canvasWidth, size * 8);
    var dy := y - Offset(canvasHeight, size * 8);
    InsideIsSomeSquare(dx, size);
    InsideIsSomeSquare(dy, size);
    DivBounds(dx, size);
    DivBounds(dy, size);
  }

  // ---------------------------------------------------------------------------
  // Square colours

  datatype Shade = Light | Dark | LastMoveShade | Highlight | SelectedShade | CheckShade

  /** The screen square of the king of the side to move when it is in
      check. */
  function InCheckSquare(p: Pos): Option<(int, int)> {
    if p.inCheck then
      match KingSquare(p.grid, p.turn)
      case None => None
      case Some(sq) => Some(SquareToRC(sq))
    else None
  }

  /** The fill of square (row, col). */
  function SquareShade(row: int, col: int, inCheck: Option<(int, int)>, selected: Option<(int, int)>,
                       legal: seq<(int, int)>, lastMove: Option<((int, int), (int, int))>): Shade
  {
    var base := if (row + col) % 2 == 0 then Light else Dark;
    var afterLast := if lastMove.Some? && (row, col) in [lastMove.value.0, lastMove.value.1] then LastMoveShade else base;
    var afterSelect := if selected == Some((row, col)) then SelectedShade
                       else if (row, col) in legal then Highlight
                       else afterLast;
    if inCheck.Some? && (row, col) == inCheck.value then CheckShade else afterSelect
  }

  /** The colours take priority in the order: king in check, selected
      square, legal destination, last-move squares, then light and dark by
      parity. */
  lemma ShadePriority(row: int, col: int, inCheck: Option<(int, int)>, selected: Option<(int, int)>,
                      legal: seq<(int, int)>, lastMove: Option<((int, int), (int, int))>)
    ensures var s := SquareShade(row, col, inCheck, selected, legal, lastMove);
      var checked := inCheck == Some((row, col));
      var picked := selected == Some((row, col));
      var target := (row, col) in legal;
      var last := lastMove.Some? && (lastMove.value.0 == (row, col) || lastMove.value.1 == (row, col));
      (s == CheckShade <==> checked)
      && (s == SelectedShade <==> !checked && picked)
      && (s == Highlight <==> !checked && !picked && target)
      && (s == LastMoveShade <==> !checked && !picked && !target && last)
      && (s == Light <==> !checked && !picked && !target && !last && (row + col) % 2 == 0)
      && (s == Dark <==> !checked && !picked && !target && !last && (row + col) % 2 != 0)
  {
    if lastMove.Some? {
      assert (row, col) in [lastMove.value.0, lastMove.value.1] <==> (lastMove.value.0 == (row, col) || lastMove.value.1 == (row, col));
    }
  }

  // ---------------------------------------------------------------------------
  // The window

  /** The highlighted destinations for a piece picked up at (row, col). */
  function LegalFrom(p: Pos, row: int, col: int): seq<(int, int)>
    requires 0 <= row < 8 && 0 <= col < 8
  {
    var sq := RCToSquare(row, col);
    match p.grid[sq]
    case None => []
    case Some(pc) => if pc.color != p.turn then [] else Destinations(p.children, sq)
  }

  /** Square `sq` holds a piece of the side to move in `p`. */
  predicate OwnSquare(p: Pos, sq: Square) {
    p.grid[sq].Some? && p.grid[sq].value.color == p.turn
  }

  /** The selection a click on (row, col) leaves behind, given the selection
      `sel` and its highlighted destinations `targets` before the click and
      whether the clicked square shows a piece of the side to move: clicking
      the selected square again or one of its destinations drops the
      selection, and otherwise an own piece is picked up and anything else
      clears it. */
  function SelectionAfter(sel: Option<(int, int)>, targets: seq<(int, int)>, row: int, col: int, own: bool): Option<(int, int)> {
    if sel.Some? && (sel == Some((row, col)) || (row, col) in targets) then None
    else if own then Some((row, col))
    else None
  }

  /** A move-log line: the move number and its notation. */
  function LogLine(n: int, notation: string): string {
    IntString(n) + ". " + notation
  }

  class ChessGui {
    var engine: ChessEngine
    var classic: bool
    var initialMinutes: int
    var whiteTime: int
    var blackTime: int
    var timerRunning: bool
    /** The flag verdict the status line shows; None while it shows the
        engine's own status, which every redraw puts back. */
    var verdict: Option<FlagVerdict>
    var selected: Option<(int, int)>
    var legalMoves: seq<(int, int)>
    var lastMove: Option<((int, int), (int, int))>
    var moveLog: seq<string>
    var squareSize: int

    /** The engine is consistent, squares have a positive size, and nothing
        is highlighted without a selected square. */
    ghost predicate Valid()
      reads this, engine, engine.board
    {
      engine.Valid() && squareSize > 0 && (selected.None? ==> legalMoves == [])
      && (selected.Some? ==> 0 <= selected.value.0 < 8 && 0 <= selected.value.1 < 8)
    }

    function ClockState(): Clocks
      reads this
    {
      Clocks(whiteTime, blackTime, timerRunning)
    }

    /** A window on position `p` with `minutes` on each clock, drawn once
        on a canvas of the given size: the timer starts running unless the
        position is already over. */
    constructor (p: Pos, minutes: int, isClassic: bool, canvasWidth: int, canvasHeight: int)
      ensures Valid() && fresh(engine) && fresh(engine.board) && engine.board.state == p
      ensures ClockState() == Clocks(minutes * 60, minutes * 60, !IsGameOver(p))
      ensures selected.None? && legalMoves == [] && lastMove.None? && moveLog == [] && verdict.None?
      ensures squareSize == SquareSize(canvasWidth, canvasHeight)
    {
      engine := new ChessEngine(p);
      classic := isClassic;
      initialMinutes := minutes;
      whiteTime, blackTime, timerRunning := minutes * 60, minutes * 60, true;
      verdict := None;
      selected, legalMoves, lastMove, moveLog := None, [], None, [];
      squareSize := DefaultSquareSize;
      new;
      DrawBoard(canvasWidth, canvasHeight);
    }

    /** One timer event. */
    method OnTick()
      requires Valid()
      modifies this
      ensures Valid() && engine == old(engine)
      ensures var r := Tick(old(ClockState()), engine.board.state.turn,
                            MatingMaterial(engine.board.state.grid, White),
                            MatingMaterial(engine.board.state.grid, Black));
        ClockState() == r.0 && verdict == (if r.1.Some? then r.1 else old(verdict))
      ensures selected == old(selected) && legalMoves == old(legalMoves) && lastMove == old(lastMove)
      ensures moveLog == old(moveLog) && squareSize == old(squareSize)
    {
      ghost var expected := Tick(ClockState(), engine.board.state.turn,
                                 MatingMaterial(engine.board.state.grid, White),
                                 MatingMaterial(engine.board.state.grid, Black));
      if !timerRunning {
        return;
      }
      if engine.board.turn == White {
        if whiteTime > 0 {
          whiteTime := whiteTime - 1;
        }
      } else {
        if blackTime > 0 {
          blackTime := blackTime - 1;
        }
      }
      assert whiteTime == expected.0.white && blackTime == expected.0.black;
      if whiteTime == 0 || blackTime == 0 {
        FlagFall();
      }
    }

    /** Stop the timer and give the verdict for a fallen flag, asking the
        engine about mating material only for the side that is still on
        time. */
    method FlagFall()
      modifies this
      ensures timerRunning == false && whiteTime == old(whiteTime) && blackTime == old(blackTime)
      ensures verdict == Some(Verdict(whiteTime, blackTime, MatingMaterial(engine.board.state.grid, White),
                                      MatingMaterial(engine.board.state.grid, Black)))
      ensures engine == old(engine) && selected == old(selected) && legalMoves == old(legalMoves)
      ensures lastMove == old(lastMove) && moveLog == old(moveLog) && squareSize == old(squareSize)
    {
      timerRunning := false;
      if whiteTime == 0 && blackTime > 0 {
        var mates := engine.HasMatingMaterial(Black);
        verdict := if mates then Some(BlackWinsOnTime) else Some(WhiteFlaggedDraw);
      } else if blackTime == 0 && whiteTime > 0 {
        var mates := engine.HasMatingMaterial(White);
        verdict := if mates then Some(WhiteWinsOnTime) else Some(BlackFlaggedDraw);
      } else {
        verdict := Some(BothOutOfTime);
      }
    }

    /** Redraw on a canvas of the given size. The squares are resized, the
        status line shows the engine's status again (so a flag verdict is
        gone), and the timer stops once the game is over; the clocks keep
        their time. */
    method DrawBoard(canvasWidth: int, canvasHeight: int)
      requires Valid()
      modifies this
      ensures Valid() && squareSize == SquareSize(canvasWidth, canvasHeight) && verdict.None?
      ensures timerRunning == (old(timerRunning) && !IsGameOver(engine.board.state))
      ensures whiteTime == old(whiteTime) && blackTime == old(blackTime)
      ensures engine == old(engine) && selected == old(selected) && legalMoves == old(legalMoves)
      ensures lastMove == old(lastMove) && moveLog == old(moveLog)
      ensures initialMinutes == old(initialMinutes) && classic == old(classic)
    {
      squareSize := SquareSize(canvasWidth, canvasHeight);
      verdict := None;
      if IsGameOver(engine.board.state) {
        timerRunning := false;
      }
    }

    /** Whether the grid entry is a piece of the side to move. */
    predicate OwnPiece(code: string)
      reads this, engine, engine.board
    {
      |code| > 0 && code[0] == ColorLetter(engine.board.turn)
    }

    /** Select the clicked piece of the side to move, or clear the
        selection. */
    method SelectOrClear(row: int, col: int, code: string)
      requires Valid() && 0 <= row < 8 && 0 <= col < 8
      modifies this
      ensures Valid() && engine == old(engine)
      ensures OwnPiece(code) ==>
        (selected == Some((row, col)) && legalMoves == LegalFrom(engine.board.state, row, col))
      ensures !OwnPiece(code) ==> selected.None? && legalMoves == []
      ensures lastMove == old(lastMove) && moveLog == old(moveLog) && ClockState() == old(ClockState())
      ensures verdict == old(verdict) && squareSize == old(squareSize)
    {
      if OwnPiece(code) {
        selected := Some((row, col));
        legalMoves := engine.GetLegalMovesFrom(row, col);
      } else {
        selected, legalMoves := None, [];
      }
    }

    /** Play the selected piece to (row, col), a highlighted destination;
        the last move and the log change only when the move is made, and the
        selection is dropped either way. */
    method PlayTo(row: int, col: int)
      requires Valid() && selected.Some? && 0 <= row < 8 && 0 <= col < 8
      modifies this, engine, engine.board
      ensures Valid() && engine == old(engine) && engine.board == old(engine.board)
      ensures selected.None? && legalMoves == []
      ensures var from := RCToSquare(old(selected).value.0, old(selected).value.1);
        var to := RCToSquare(row, col);
        if CanPlay(old(engine.board.state), from, to) then
          Played(old(engine.board.state), old(engine.board.stack), old(engine.History()), from, to,
                 engine.board.state, engine.board.stack, engine.History())
          && lastMove == Some((old(selected).value, (row, col)))
          && |engine.moveHistory| > 0
          && moveLog == old(moveLog) + [LogLine(|engine.moveHistory|, engine.moveHistory[|engine.moveHistory| - 1])]
        else
          engine.board.state == old(engine.board.state) && engine.board.stack == old(engine.board.stack)
          && engine.History() == old(engine.History()) && lastMove == old(lastMove) && moveLog == old(moveLog)
      ensures ClockState() == old(ClockState()) && verdict == old(verdict) && squareSize == old(squareSize)
    {
      var (fromRow, fromCol) := selected.value;
      var notation := engine.MakeMove(fromRow, fromCol, row, col);
      if notation.Some? {
        lastMove := Some(((fromRow, fromCol), (row, col)));
        moveLog := moveLog + [LogLine(|engine.moveHistory|, notation.value)];
      }
      selected, legalMoves := None, [];
    }

    /** A click on square (row, col) showing `code`. A first click picks up
        a piece of the side to move; a second click on the same square drops
        it, on a highlighted destination plays the move, and elsewhere
        reselects or clears. */
    method ClickSquare(row: int, col: int, code: string)
      requires Valid() && 0 <= row < 8 && 0 <= col < 8
      modifies this, engine, engine.board
      ensures Valid() && engine == old(engine) && engine.board == old(engine.board)
      ensures engine.board.stack != old(engine.board.stack) <==>
        old(selected).Some? && old(selected) != Some((row, col)) && (row, col) in old(legalMoves)
        && CanPlay(old(engine.board.state), RCToSquare(old(selected).value.0, old(selected).value.1), RCToSquare(row, col))
      ensures engine.board.stack != old(engine.board.stack) ==>
        old(selected).Some?
        && Played(old(engine.board.state), old(engine.board.stack), old(engine.History()),
                  RCToSquare(old(selected).value.0, old(selected).value.1), RCToSquare(row, col),
                  engine.board.state, engine.board.stack, engine.History())
        && lastMove == Some((old(selected).value, (row, col)))
        && |engine.moveHistory| > 0
        && moveLog == old(moveLog) + [LogLine(|engine.moveHistory|, engine.moveHistory[|engine.moveHistory| - 1])]
      ensures engine.board.stack == old(engine.board.stack) ==>
        engine.board.state == old(engine.board.state) && engine.History() == old(engine.History())
        && lastMove == old(lastMove) && moveLog == old(moveLog)
      ensures selected.Some? ==>
        selected == Some((row, col)) && legalMoves == LegalFrom(engine.board.state, row, col)
        && (old(selected).None? || (old(selected) != Some((row, col)) && (row, col) !in old(legalMoves)))
      ensures selected == SelectionAfter(old(selected), old(legalMoves), row, col, old(OwnPiece(code)))
      ensures selected.None? ==> legalMoves == []
      ensures ClockState() == old(ClockState()) && verdict == old(verdict) && squareSize == old(squareSize)
    {
      if selected.None? {
        SelectOrClear(row, col, code);
      } else if Some((row, col)) == selected {
        selected, legalMoves := None, [];
      } else if (row, col) in legalMoves {
        PlayTo(row, col);
      } else {
        SelectOrClear(row, col, code);
      }
    }

    /** A click at (x, y) on a canvas of the given size. Nothing happens
        once the game is over or off the board; otherwise the clicked square
        is handled and the board redrawn. */
    method OnCanvasClick(canvasWidth: int, canvasHeight: int, x: int, y: int)
      requires Valid()
      modifies this, engine, engine.board
      ensures Valid() && engine == old(engine) && engine.board == old(engine.board)
      ensures var rc := CoordsFromEvent(canvasWidth, canvasHeight, old(squareSize), x, y);
        IsGameOver(old(engine.board.state)) || rc.None? ==>
          engine.board.state == old(engine.board.state) && engine.board.stack == old(engine.board.stack)
          && engine.History() == old(engine.History())
          && selected == old(selected) && legalMoves == old(legalMoves) && lastMove == old(lastMove)
          && moveLog == old(moveLog) && squareSize == old(squareSize)
      ensures var rc := CoordsFromEvent(canvasWidth, canvasHeight, old(squareSize), x, y);
        engine.board.stack != old(engine.board.stack) <==>
          !IsGameOver(old(engine.board.state)) && rc.Some?
          && old(selected).Some? && old(selected) != Some(rc.value) && rc.value in old(legalMoves)
          && CanPlay(old(engine.board.state), RCToSquare(old(selected).value.0, old(selected).value.1),
                     RCToSquare(rc.value.0, rc.value.1))
      ensures var rc := CoordsFromEvent(canvasWidth, canvasHeight, old(squareSize), x, y);
        engine.board.stack != old(engine.board.stack) ==>
          rc.Some? && old(selected).Some?
          && Played(old(engine.board.state), old(engine.board.stack), old(engine.History()),
                    RCToSquare(old(selected).value.0, old(selected).value.1), RCToSquare(rc.value.0, rc.value.1),
                    engine.board.state, engine.board.stack, engine.History())
          && lastMove == Some((old(selected).value, rc.value))
          && |engine.moveHistory| > 0
          && moveLog == old(moveLog) + [LogLine(|engine.moveHistory|, engine.moveHistory[|engine.moveHistory| - 1])]
      ensures engine.board.stack == old(engine.board.stack) ==>
        engine.board.state == old(engine.board.state) && engine.History() == old(engine.History())
        && lastMove == old(lastMove) && moveLog == old(moveLog)
      ensures var rc := CoordsFromEvent(canvasWidth, canvasHeight, old(squareSize), x, y);
        IsGameOver(old(engine.board.state)) || rc.None? ==>
          ClockState() == old(ClockState()) && verdict == old(verdict)
      ensures var rc := CoordsFromEvent(canvasWidth, canvasHeight, old(squareSize), x, y);
        !IsGameOver(old(engine.board.state)) && rc.Some? ==>
          timerRunning == (old(timerRunning) && !IsGameOver(engine.board.state))
          && verdict.None? && squareSize == SquareSize(canvasWidth, canvasHeight)
      ensures var rc := CoordsFromEvent(canvasWidth, canvasHeight, old(squareSize), x, y);
        !IsGameOver(old(engine.board.state)) && rc.Some? ==>
          selected == SelectionAfter(old(selected), old(legalMoves), rc.value.0, rc.value.1,
                                     OwnSquare(old(engine.board.state), RCToSquare(rc.value.0, rc.value.1)))
          && (selected.Some? ==> legalMoves == LegalFrom(engine.board.state, rc.value.0, rc.value.1))
          && (selected.None? ==> legalMoves == [])
      ensures whiteTime == old(whiteTime) && blackTime == old(blackTime)
    {
      if IsGameOver(engine.board.state) {
        return;
      }
      var square := CoordsFromEvent(canvasWidth, canvasHeight, squareSize, x, y);
      if square.None? {
        return;
      }
      var (row, col) := square.value;
      var grid := engine.GetBoard();
      var sq := RCToSquare(row, col);
      CoordinatesRoundTrip(sq, row, col);
      assert grid[row, col] == Cell(engine.board.state.grid, sq);
      assert OwnPiece(grid[row, col]) == OwnSquare(engine.board.state, sq);
      ClickSquare(row, col, grid[row, col]);
      DrawBoard(canvasWidth, canvasHeight);
    }

    /** Start a new game on `p` (the standard start in classic mode, a
        fresh endgame otherwise) and redraw: full clocks, no selection, no
        last move, an empty log, and the timer running unless `p` is
        already over. */
    method OnNewGame(p: Pos, canvasWidth: int, canvasHeight: int)
      requires Valid()
      modifies this, engine
      ensures Valid() && engine == old(engine) && fresh(engine.board) && engine.board.state == p
      ensures engine.board.stack == [] && engine.History() == Histories([], [], [], [])
      ensures ClockState() == Clocks(initialMinutes * 60, initialMinutes * 60, !IsGameOver(p))
      ensures selected.None? && legalMoves == [] && lastMove.None? && moveLog == [] && verdict.None?
      ensures squareSize == SquareSize(canvasWidth, canvasHeight)
    {
      engine.Reset(p);
      selected, legalMoves, lastMove := None, [], None;
      moveLog := [];
      whiteTime := initialMinutes * 60;
      blackTime := initialMinutes * 60;
      timerRunning := true;
      DrawBoard(canvasWidth, canvasHeight);
    }

    /** Take back the last move: nothing happens when there is none;
        otherwise the log loses its last line, the selection and last move
        are cleared, the timer runs exactly when the game is not over, and
        the board is redrawn. */
    method OnUndo(canvasWidth: int, canvasHeight: int)
      requires Valid()
      modifies this, engine, engine.board
      ensures Valid() && engine == old(engine) && engine.board == old(engine.board)
      ensures old(engine.board.stack) == [] ==>
        engine.board.state == old(engine.board.state) && engine.board.stack == old(engine.board.stack)
        && engine.History() == old(engine.History())
        && selected == old(selected) && legalMoves == old(legalMoves) && lastMove == old(lastMove)
        && moveLog == old(moveLog) && ClockState() == old(ClockState())
        && verdict == old(verdict) && squareSize == old(squareSize)
      ensures old(engine.board.stack) != [] ==>
        var n := |old(engine.board.stack)|;
        engine.board.state == old(engine.board.stack)[n - 1].before
        && engine.board.stack == old(engine.board.stack)[..n - 1]
        && engine.History() == Unrecord(old(engine.History()))
        && moveLog == (if |old(moveLog)| > 0 then old(moveLog)[..|old(moveLog)| - 1] else [])
        && selected.None? && legalMoves == [] && lastMove.None?
        && timerRunning == !IsGameOver(engine.board.state)
        && whiteTime == old(whiteTime) && blackTime == old(blackTime)
        && verdict.None? && squareSize == SquareSize(canvasWidth, canvasHeight)
    {
      var undone := engine.UndoLastMove();
      if undone.None? {
        return;
      }
      if |moveLog| > 0 {
        moveLog := moveLog[..|moveLog| - 1];
      }
      lastMove, selected, legalMoves := None, None, [];
      timerRunning := !IsGameOver(engine.board.state);
      DrawBoard(canvasWidth, canvasHeight);
    }
  }
}
