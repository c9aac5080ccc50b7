/** What one inline render must achieve, and what follows for whole runs of renders. */
module RenderSpec {

  import opened Common
  import opened Terminal

  // Everything here is stated without any terminal operation: the shadow the renderer keeps
  // (`Inline`), its coupling to the screen, the relation `Renders` between the states before
  // and after a render, and runs of renders, forced redraws, resizes and fullscreen sessions.

  /** The fields of the renderer that describe the inline screen. */
  datatype Inline = Inline(
    previousLines: seq<string>,
    previousWidth: int,
    previousHeight: nat,
    hardwareCursorRow: nat,
    maxLinesRendered: nat,
    previousViewportTop: nat)

  const PRISTINE := Inline([], 0, 0, 0, 0, 0)

  datatype Cursor = Cursor(row: nat, col: nat)

  /** One request to draw: the lines, already reset-terminated, and the settings read by the render. */
  datatype Frame = Frame(
    lines: seq<string>,
    cursor: Option<Cursor>,
    overlays: bool,
    preserveViewport: bool,
    clearOnShrink: bool)
  {
    ghost predicate Valid(h: nat) {
      && (forall i :: 0 <= i < |lines| ==> lines[i] != "")
      && (cursor.Some? ==> Max(0, |lines| - h) <= cursor.value.row < |lines|)
    }
  }

  // ---- Coupling ------------------------------------------------------------

  predicate WidthChanged(i: Inline, s: Screen) {
    i.previousWidth != 0 && i.previousWidth != s.cols
  }

  predicate HeightChanged(i: Inline, s: Screen) {
    i.previousHeight != 0 && i.previousHeight != |s.rows|
  }

  /** The next render clears the screen, whatever it holds. */
  predicate WillClear(i: Inline, s: Screen) {
    WidthChanged(i, s) || HeightChanged(i, s)
  }

  ghost predicate SizeKnown(i: Inline, s: Screen) {
    || (i.previousWidth == s.cols && i.previousHeight == |s.rows|)
    || (i.previousLines == [] && i.previousWidth == 0 && i.previousHeight == 0)
  }

  /** The shadow describes the screen. */
  ghost predicate Coupled(i: Inline, s: Screen) {
    var n, h, top := |i.previousLines|, |s.rows|, i.previousViewportTop;
    && s.Valid()
    && SizeKnown(i, s)
    && Max(0, n - h) <= top <= Max(0, n - 1)
    && top <= i.hardwareCursorRow < top + h
    && i.hardwareCursorRow <= Max(0, n - 1)
    && s.rows == Window(i.previousLines, top, h)
    && s.row == i.hardwareCursorRow - top
    && (n == 0 ==> s.AtMargin())
    && (forall k :: 0 <= k < n ==> i.previousLines[k] != "")
  }

  ghost predicate Inv(i: Inline, s: Screen) {
    s.Valid() && (WillClear(i, s) || Coupled(i, s))
  }

  // ---- One render ----------------------------------------------------------

  /** Index of the last changed line, counting appended and deleted lines; -1 when nothing changed. */
  function LastChanged(prev: seq<string>, lines: seq<string>): (k: int)
    ensures -1 <= k < Max(|prev|, |lines|)
  {
    if |prev| != |lines| then Max(|prev|, |lines|) - 1
    else if prev == [] then -1
    else if prev[|prev| - 1] != lines[|lines| - 1] then |prev| - 1
    else LastChanged(prev[..|prev| - 1], lines[..|lines| - 1])
  }

  /** `LastChanged` is where two frames of one length last differ. */
  lemma {:induction false} LastChangedIsLast(prev: seq<string>, lines: seq<string>)
    requires |prev| == |lines| && prev != lines
    ensures var k := LastChanged(prev, lines);
            && 0 <= k < |prev| && prev[k] != lines[k]
            && forall j :: k < j < |prev| ==> prev[j] == lines[j]
    decreases |prev|
  {
    var m := |prev| - 1;
    if prev[m] == lines[m] {
      assert prev == prev[..m] + [prev[m]] && lines == lines[..m] + [lines[m]];
      LastChangedIsLast(prev[..m], lines[..m]);
      forall j | LastChanged(prev, lines) < j < m ensures prev[j] == lines[j] {
        assert prev[..m][j] == lines[..m][j];
      }
    }
  }

  lemma {:induction false} LastChangedAt(prev: seq<string>, lines: seq<string>, k: nat)
    requires k < |prev| == |lines| && prev[k] != lines[k]
    requires forall j :: k < j < |prev| ==> prev[j] == lines[j]
    ensures LastChanged(prev, lines) == k
  {
    if k < |prev| - 1 {
      LastChangedAt(prev[..|prev| - 1], lines[..|lines| - 1], k);
    }
  }

  predicate FirstRender(i: Inline, s: Screen) {
    i.previousLines == [] && !WillClear(i, s)
  }

  predicate ShrinkRedraw(i: Inline, f: Frame) {
    f.clearOnShrink && |f.lines| < i.maxLinesRendered && !f.overlays
  }

  /** The lines above `top` are the same, and `top` is still a line. */
  predicate KeepsAbove(prev: seq<string>, lines: seq<string>, top: nat) {
    top < |lines| && top <= |prev| && lines[..top] == prev[..top]
  }

  /** Line `top - 1` or above differs, or disappears. */
  predicate ChangesAbove(prev: seq<string>, lines: seq<string>, top: nat) {
    !(lines == prev || KeepsAbove(prev, lines, top) || (lines == [] && top == 0))
  }

  /** The screen is repainted from its first row. */
  predicate Redraws(i: Inline, s: Screen, f: Frame) {
    || i.previousLines == []
    || WillClear(i, s)
    || ShrinkRedraw(i, f)
    || ChangesAbove(i.previousLines, f.lines, i.previousViewportTop)
  }

  /** The delete-only path reaches an empty frame, and leaves the first row as it was. */
  predicate LeavesFirstRow(i: Inline, s: Screen, f: Frame) {
    f.lines == [] && !Redraws(i, s, f) && 1 < |s.rows|
  }

  function TopAfter(i: Inline, s: Screen, f: Frame): nat {
    if Redraws(i, s, f) then Max(0, |f.lines| - |s.rows|)
    else Max(i.previousViewportTop, |f.lines| - |s.rows|)
  }

  /** The row, in lines, on which the cursor ends before it is placed for input. */
  function RestRow(i: Inline, s: Screen, f: Frame): nat {
    var n := |f.lines|;
    if Redraws(i, s, f) then Max(0, n - 1)
    else if f.lines == i.previousLines then i.hardwareCursorRow
    else if n < |i.previousLines| then Max(0, n - 1)
    else Max(0, Min(LastChanged(i.previousLines, f.lines), n - 1))
  }

  function CursorAfter(i: Inline, s: Screen, f: Frame): nat {
    if f.cursor.Some? && 0 < |f.lines| then f.cursor.value.row else RestRow(i, s, f)
  }

  function RowsAfter(i: Inline, s: Screen, f: Frame): (w: seq<Row>)
    requires s.Valid()
    ensures |w| == |s.rows|
  {
    var w := Window(f.lines, TopAfter(i, s, f), |s.rows|);
    if LeavesFirstRow(i, s, f) then w[0 := RowOf(i.previousLines, 0)] else w
  }

  /** Scrollback grows by the lines that left the screen; a repaint adds none. */
  function HistoryAfter(i: Inline, s: Screen, f: Frame): seq<Row> {
    var top := TopAfter(i, s, f);
    if i.previousLines == [] && top <= |f.lines| then s.history + Rows(f.lines[..top])
    else if Redraws(i, s, f) then s.history
    else if i.previousViewportTop <= top <= |f.lines| then s.history + Rows(f.lines[i.previousViewportTop..top])
    else s.history
  }

  function MaxLinesAfter(i: Inline, s: Screen, f: Frame): nat {
    if FirstRender(i, s) then Max(i.maxLinesRendered, |f.lines|)
    else if Redraws(i, s, f) then |f.lines|
    else if f.lines <= i.previousLines then i.maxLinesRendered
    else Max(i.maxLinesRendered, |f.lines|)
  }

  /** The relation between the states before and after a render. */
  ghost predicate Renders(i: Inline, s: Screen, f: Frame, i': Inline, s': Screen)
    requires s.Valid()
  {
    && i' == Inline(f.lines, s.cols, |s.rows|, CursorAfter(i, s, f), MaxLinesAfter(i, s, f), TopAfter(i, s, f))
    && s'.Valid()
    && s'.cols == s.cols
    && s'.rows == RowsAfter(i, s, f)
    && s'.history == HistoryAfter(i, s, f)
    && s'.row == Max(0, CursorAfter(i, s, f) - TopAfter(i, s, f))
    && (f.cursor.Some? && f.lines != [] ==> s'.col == Some(Min(f.cursor.value.col, s.cols - 1)))
    && (f.lines == [] ==> s'.AtMargin())
  }

  /** The screen once the lines are drawn, before the cursor is placed for input. */
  ghost predicate Drawn(i: Inline, s: Screen, f: Frame, t: Screen)
    requires s.Valid()
  {
    && t.Valid()
    && t.cols == s.cols
    && t.rows == RowsAfter(i, s, f)
    && t.history == HistoryAfter(i, s, f)
    && t.row == RestRow(i, s, f) - TopAfter(i, s, f)
    && (f.lines == [] ==> t.AtMargin())
  }

  /** What the differential branch leaves on the screen is what `Drawn` says. */
  lemma ChangesAreDrawn(i: Inline, s: Screen, f: Frame, t: Screen, top: nat, cursorRow: nat)
    requires s.Valid() && !Redraws(i, s, f) && !(f.lines <= i.previousLines)
    requires t.Valid() && t.cols == s.cols && i.previousViewportTop < |f.lines|
    requires top == Max(i.previousViewportTop, |f.lines| - |s.rows|) && t.rows == Window(f.lines, top, |s.rows|)
    requires t.history == s.history + Rows(f.lines[i.previousViewportTop..top]) && t.row == cursorRow - top
    requires cursorRow == if |f.lines| < |i.previousLines| then |f.lines| - 1
                          else Min(Max(0, LastChanged(i.previousLines, f.lines)), |f.lines| - 1)
    ensures Drawn(i, s, f, t)
    ensures top == TopAfter(i, s, f) && cursorRow == RestRow(i, s, f)
    ensures MaxLinesAfter(i, s, f) == Max(i.maxLinesRendered, |f.lines|)
  {
  }

  lemma RepaintIsDrawn(i: Inline, s: Screen, f: Frame, t: Screen)
    requires s.Valid() && Redraws(i, s, f)
    requires t.Valid() && t.cols == s.cols
    requires var top := Max(0, |f.lines| - |s.rows|);
             && t.rows == Window(f.lines, top, |s.rows|)
             && t.row == Max(0, |f.lines| - 1 - top)
             && t.history == s.history + if i.previousLines == [] then Rows(f.lines[..top]) else []
    requires f.lines == [] ==> t.AtMargin()
    ensures Drawn(i, s, f, t)
  {
  }

  /** The input cursor is asked for on a row that is still on the screen. */
  predicate CursorOnScreen(i: Inline, s: Screen, f: Frame) {
    f.cursor.Some? ==> TopAfter(i, s, f) <= f.cursor.value.row
  }

  /**
   A render keeps shadow and screen coupled exactly when the marked cursor row is
   on screen and the frame is not emptied through the delete-only path.
   */
  lemma CouplingExactlyWhen(i: Inline, s: Screen, f: Frame, i': Inline, s': Screen)
    requires Inv(i, s) && f.Valid(|s.rows|) && Renders(i, s, f, i', s')
    ensures Coupled(i', s') <==> CursorOnScreen(i, s, f) && !LeavesFirstRow(i, s, f)
  {
    if !Redraws(i, s, f) && f.lines != i.previousLines && |f.lines| == |i.previousLines| {
      LastChangedIsLast(i.previousLines, f.lines);
      assert LastChanged(i.previousLines, f.lines) >= i.previousViewportTop;
    }
    if LeavesFirstRow(i, s, f) {
      assert s'.rows[0] == Shown(i.previousLines[0]);
      assert Window(f.lines, TopAfter(i, s, f), |s.rows|)[0] == Blank;
    }
  }

  /** Scrollback guards: with a shadow of `n` lines on `h` rows no deletion can span more than the screen. */
  lemma DeletionFitsScreen(i: Inline, s: Screen, lines: seq<string>)
    requires Coupled(i, s)
    requires lines < i.previousLines && i.previousViewportTop <= Max(0, |lines| - 1)
    ensures |i.previousLines| - |lines| <= |s.rows|
    ensures 0 < |lines| ==> |i.previousLines| - |lines| < |s.rows|
  {
  }

  // ---- Scrollback ----------------------------------------------------------

  /** Scrollback, since it held `base`, is exactly the part of the transcript above the screen. */
  ghost predicate HistoryExact(i: Inline, s: Screen, base: seq<Row>) {
    && i.previousViewportTop <= |i.previousLines|
    && s.history == base + Rows(i.previousLines[..i.previousViewportTop])
  }

  /** What a user reads by scrolling back: scrollback, then the content rows of the screen. */
  function Readable(i: Inline, s: Screen): seq<Row>
    requires i.previousViewportTop <= |i.previousLines| <= i.previousViewportTop + |s.rows|
  {
    s.history + s.rows[..|i.previousLines| - i.previousViewportTop]
  }

  lemma HistoryExactReadsAsTranscript(i: Inline, s: Screen, base: seq<Row>)
    requires Coupled(i, s) && HistoryExact(i, s, base)
    ensures Readable(i, s) == base + Rows(i.previousLines)
  {
    var lines, top := i.previousLines, i.previousViewportTop;
    assert Rows(lines[..top]) + s.rows[..|lines| - top] == Rows(lines);
    assert base + Rows(lines[..top]) + s.rows[..|lines| - top] == base + Rows(lines);
  }

  lemma SameRows(base: seq<Row>, prev: seq<string>, lines: seq<string>)
    ensures base + Rows(prev) == base + Rows(lines) <==> prev == lines
  {
    if base + Rows(prev) == base + Rows(lines) {
      assert |base + Rows(prev)| == |base| + |prev|;
      forall k | 0 <= k < |prev| ensures prev[k] == lines[k] {
        assert (base + Rows(prev))[|base| + k] == Shown(prev[k]);
        assert (base + Rows(lines))[|base| + k] == Shown(lines[k]);
      }
    }
  }

  lemma MoreRows(base: seq<Row>, lines: seq<string>, top: nat, next: nat)
    requires top <= next <= |lines|
    ensures base + Rows(lines[..top]) + Rows(lines[top..next]) == base + Rows(lines[..next])
  {
    assert Rows(lines[..top]) + Rows(lines[top..next]) == Rows(lines[..next]);
  }

  /** A repaint prints the frame's last screenful only, so what lies above must be in scrollback already. */
  predicate KeepsHistory(i: Inline, s: Screen, f: Frame)
    requires i.previousViewportTop <= |i.previousLines|
  {
    || i.previousLines == []
    || (Redraws(i, s, f) ==> f.lines[..TopAfter(i, s, f)] == i.previousLines[..i.previousViewportTop])
  }

  /**
   A render, forced or after a resize too, keeps scrollback gapless and free of duplicates
   exactly when it is the first one, or no repaint, or a repaint whose lines above the screen
   are those above the screen before.
   */
  lemma HistoryExactlyWhen(i: Inline, s: Screen, f: Frame, i': Inline, s': Screen, base: seq<Row>)
    requires Inv(i, s) && HistoryExact(i, s, base)
    requires f.Valid(|s.rows|) && Renders(i, s, f, i', s')
    ensures HistoryExact(i', s', base) <==> KeepsHistory(i, s, f)
  {
    var top, top' := i.previousViewportTop, TopAfter(i, s, f);
    if i.previousLines == [] {
      assert s.history == base;
    } else if Redraws(i, s, f) {
      SameRows(base, i.previousLines[..top], f.lines[..top']);
    } else {
      assert top <= |f.lines| && f.lines[..top] == i.previousLines[..top];
      MoreRows(base, f.lines, top, top');
    }
  }

  /** Nothing above the screen changes and, after a shrink, the screen keeps its place. */
  predicate SettledAbove(i: Inline, f: Frame, h: nat) {
    || i.previousLines == []
    || (&& KeepsAbove(i.previousLines, f.lines, i.previousViewportTop)
        && (ShrinkRedraw(i, f) ==> Max(0, |f.lines| - h) == i.previousViewportTop))
  }

  /** With the size last drawn for, and no forced redraw, a render keeps scrollback exactly when that is so. */
  lemma KeepsHistoryWithoutClear(i: Inline, s: Screen, f: Frame)
    requires Coupled(i, s) && i.previousViewportTop <= |i.previousLines| && f.lines != []
    ensures KeepsHistory(i, s, f) <==> SettledAbove(i, f, |s.rows|)
  {
    var top, top' := i.previousViewportTop, TopAfter(i, s, f);
    if i.previousLines != [] && Redraws(i, s, f) && top != top' {
      assert |i.previousLines[..top]| != |f.lines[..top']|;
    }
  }

  // ---- Where coupling is lost ----------------------------------------------

  /** A shrink keeps the window's top, so a marker the scan still finds can lie above it. */
  lemma MarkerAboveWindow() returns (i: Inline, s: Screen, f: Frame)
    ensures Coupled(i, s) && f.Valid(|s.rows|) && f.lines != [] && !CursorOnScreen(i, s, f)
    ensures forall i', s' :: Renders(i, s, f, i', s') ==> !Coupled(i', s')
  {
    var three := ["a", "b", "c"];
    i := Inline(three, 80, 2, 2, 3, 1);
    s := Screen(80, [], [Shown("b"), Shown("c")], 1, None);
    f := Frame(three[..2], Some(Cursor(0, 0)), false, false, false);
    assert s.rows == Window(three, 1, 2);
    assert f.lines[..1] == three[..1];
    forall i', s' | Renders(i, s, f, i', s') ensures !Coupled(i', s') {
      CouplingExactlyWhen(i, s, f, i', s');
    }
  }

  /** The delete-only path clears from the second row down, so an emptied frame leaves its first line behind. */
  lemma EmptiedFrame() returns (i: Inline, s: Screen, f: Frame)
    ensures Coupled(i, s) && f.Valid(|s.rows|) && f.lines == []
    ensures forall i', s' :: Renders(i, s, f, i', s') ==> !Coupled(i', s') && s'.rows[0] == Shown(i.previousLines[0])
  {
    i := Inline(["a"], 80, 2, 0, 1, 0);
    s := Screen(80, [], [Shown("a"), Blank], 0, None);
    f := Frame([], None, false, false, false);
    assert s.rows == Window(["a"], 0, 2);
    forall i', s' | Renders(i, s, f, i', s')
      ensures !Coupled(i', s') && s'.rows[0] == Shown(i.previousLines[0])
    {
      CouplingExactlyWhen(i, s, f, i', s');
    }
  }

  // ---- Runs ----------------------------------------------------------------

  /** Renderer and primary screen; while fullscreen, `saved` holds the inline state kept for the way back. */
  datatype World = World(inline: Inline, saved: Option<Inline>, screen: Screen) {
    /** The inline state the next inline render will start from. */
    function Shadow(): Inline {
      if saved.Some? then saved.value else inline
    }
  }

  datatype Event =
    | Render(frame: Frame)    // drawn inline, or on the alternate screen while fullscreen
    | Force                   // requestRender(true)
    | Resize(screen: Screen)  // the terminal may leave anything on the resized screen
    | Enter
    | Leave

  function Forced(i: Inline): Inline {
    i.(previousWidth := -1, hardwareCursorRow := 0, maxLinesRendered := 0)
  }

  ghost predicate Next(w: World, e: Event, w': World)
    requires w.screen.Valid()
  {
    match e
    case Render(f) =>
      if w.saved.Some? then w' == w
      else w'.saved == None && Renders(w.inline, w.screen, f, w'.inline, w'.screen)
    case Force => w' == w.(inline := Forced(w.inline))
    case Resize(s) => w' == w.(screen := s)
    case Enter => w' == if w.saved.Some? then w else w.(saved := Some(w.inline))
    case Leave => w' == if w.saved.Some? then World(w.saved.value, None, w.screen) else w
  }

  /** The screen does not have the size last drawn for (a forced redraw forgets that size). */
  predicate OtherSize(i: Inline, s: Screen) {
    i.previousWidth != 0 && (i.previousWidth != s.cols || i.previousHeight != |s.rows|)
  }

  /** A known width comes with a known height, and the working area covers the last frame. */
  predicate Measured(i: Inline) {
    && (i.previousWidth == 0 ==> i.previousHeight == 0 && i.previousLines == [])
    && (0 < i.previousWidth ==> 0 < i.previousHeight)
    && (0 <= i.previousWidth ==> |i.previousLines| <= i.maxLinesRendered)
  }

  /** The window is due to end with the frame: a first frame, another size, a shrink that clears. */
  predicate FillsScreen(i: Inline, s: Screen, f: Frame) {
    || i.previousLines == []
    || OtherSize(i, s)
    || (f.clearOnShrink && !f.overlays && |f.lines| < |i.previousLines|)
  }

  /**
   Which lines a render shows: the last screenful when that is due, and otherwise, as long as
   the lines above the window are the same, the window moves down by no more than it must.
   */
  lemma WindowAfterRender(i: Inline, s: Screen, f: Frame, i': Inline, s': Screen)
    requires Inv(i, s) && Measured(i) && f.Valid(|s.rows|) && Renders(i, s, f, i', s')
    ensures FillsScreen(i, s, f) ==> i'.previousViewportTop == Max(0, |f.lines| - |s.rows|)
    ensures !OtherSize(i, s) && KeepsAbove(i.previousLines, f.lines, i.previousViewportTop)
            && (!f.clearOnShrink || f.overlays) ==>
              i'.previousViewportTop == Max(i.previousViewportTop, |f.lines| - |s.rows|)
    ensures Measured(i')
  {
  }

  /** After a resize in either dimension the next render shows the end of the frame, whatever the screen held. */
  lemma ResizeRepaints(i: Inline, s: Screen, s1: Screen, f: Frame, i': Inline, s': Screen)
    requires Coupled(i, s) && i.previousLines != [] && s1.Valid() && f.Valid(|s1.rows|)
    requires s1.cols != s.cols || |s1.rows| != |s.rows|
    requires Renders(i, s1, f, i', s')
    ensures s'.rows == Window(f.lines, Max(0, |f.lines| - |s1.rows|), |s1.rows|)
  {
  }

  /** After a forced redraw the next render shows the end of the frame, whatever has become of the screen. */
  lemma ForcedRedrawRepaints(w: World, s: Screen, f: Frame, w1: World, w2: World, w3: World)
    requires w.screen.Valid() && w.saved == None && s.Valid() && f.Valid(|s.rows|)
    requires Next(w, Force, w1) && Next(w1, Resize(s), w2) && Next(w2, Render(f), w3)
    ensures Allowed(w1, Resize(s))
    ensures w3.screen.rows == Window(f.lines, Max(0, |f.lines| - |s.rows|), |s.rows|)
  {
  }

  ghost predicate CleanScreen(s: Screen) {
    s.Valid() && s.row == 0 && s.AtMargin() && forall r :: 0 <= r < |s.rows| ==> s.rows[r] == Blank
  }

  /**
   What the surroundings promise: frames as the renderer builds them, and resizes that
   the next inline render sees (or that keep a screen clean before anything was drawn).
   */
  ghost predicate Allowed(w: World, e: Event) {
    match e
    case Render(f) =>
      w.saved == None ==>
        && f.Valid(|w.screen.rows|)
        && CursorOnScreen(w.inline, w.screen, f)
        && !LeavesFirstRow(w.inline, w.screen, f)
    case Resize(s) =>
      && s.Valid()
      && (OtherSize(w.Shadow(), s)
          || (CleanScreen(s) && w.Shadow().previousLines == [] && SizeKnown(w.Shadow(), s)
              && w.Shadow().hardwareCursorRow == 0 == w.Shadow().previousViewportTop))
    case _ => true
  }

  ghost predicate WorldInv(w: World) {
    Inv(w.Shadow(), w.screen) && Measured(w.Shadow())
  }

  lemma StepKeepsInv(w: World, e: Event, w': World)
    requires WorldInv(w) && Next(w, e, w') && Allowed(w, e)
    ensures WorldInv(w')
    ensures e.Render? && w.saved == None ==> Coupled(w'.inline, w'.screen)
  {
    match e
    case Render(f) =>
      if w.saved == None {
        CouplingExactlyWhen(w.inline, w.screen, f, w'.inline, w'.screen);
        WindowAfterRender(w.inline, w.screen, f, w'.inline, w'.screen);
      }
    case Resize(s) =>
      assert OtherSize(w.Shadow(), s) || s.rows == Window([], 0, |s.rows|);
    case _ =>
  }

  ghost predicate IsRun(ws: seq<World>, es: seq<Event>) {
    && |ws| == |es| + 1
    && (forall k :: 0 <= k < |ws| ==> ws[k].screen.Valid())
    && (forall k :: 0 <= k < |es| ==> Next(ws[k], es[k], ws[k + 1]))
  }

  /**
   The screen holds the frame from the window's top on, and the cursor is where the shadow
   says, and on the marked cell if the frame marks one.
   */
  ghost predicate ShowsFrame(i: Inline, s: Screen, f: Frame) {
    var top, n, h := i.previousViewportTop, |f.lines|, |s.rows|;
    && s.rows == Window(f.lines, top, h)
    && Max(0, n - h) <= top <= Max(0, n - 1)
    && s.row == i.hardwareCursorRow - top
    && (f.cursor.Some? ==>
          s.row == f.cursor.value.row - top && s.col == Some(Min(f.cursor.value.col, s.cols - 1)))
  }

  lemma {:induction false} RunKeepsInv(ws: seq<World>, es: seq<Event>, k: nat)
    requires IsRun(ws, es) && WorldInv(ws[0]) && k < |ws|
    requires forall k :: 0 <= k < |es| ==> Allowed(ws[k], es[k])
    ensures WorldInv(ws[k])
  {
    if k > 0 {
      RunKeepsInv(ws, es, k - 1);
      assert Next(ws[k - 1], es[k - 1], ws[k - 1 + 1]);
      StepKeepsInv(ws[k - 1], es[k - 1], ws[k]);
    }
  }

  /**
   Over any run of renders, forced redraws, resizes and fullscreen sessions, every inline
   render leaves the frame on the screen, down to its last line if the size is another one.
   */
  lemma RunKeepsScreen(ws: seq<World>, es: seq<Event>, k: nat)
    requires IsRun(ws, es) && WorldInv(ws[0])
    requires forall k :: 0 <= k < |es| ==> Allowed(ws[k], es[k])
    requires k < |es| && es[k].Render? && ws[k].saved == None
    ensures ShowsFrame(ws[k + 1].inline, ws[k + 1].screen, es[k].frame)
    ensures FillsScreen(ws[k].inline, ws[k].screen, es[k].frame) ==>
              ws[k + 1].inline.previousViewportTop == Max(0, |es[k].frame.lines| - |ws[k].screen.rows|)
  {
    RunKeepsInv(ws, es, k);
    StepKeepsInv(ws[k], es[k], ws[k + 1]);
    WindowAfterRender(ws[k].inline, ws[k].screen, es[k].frame, ws[k + 1].inline, ws[k + 1].screen);
  }

  /** Renders keep scrollback, and a resize leaves it alone. */
  ghost predicate QuietAbove(w: World, e: Event) {
    match e
    case Render(f) =>
      w.saved == None ==>
        w.inline.previousViewportTop <= |w.inline.previousLines| && KeepsHistory(w.inline, w.screen, f)
    case Resize(s) => s.history == w.screen.history
    case _ => true
  }

  lemma StepKeepsHistory(w: World, e: Event, w': World, base: seq<Row>)
    requires WorldInv(w) && HistoryExact(w.Shadow(), w.screen, base)
    requires Next(w, e, w') && Allowed(w, e) && QuietAbove(w, e)
    ensures HistoryExact(w'.Shadow(), w'.screen, base)
  {
    if e.Render? && w.saved == None {
      HistoryExactlyWhen(w.inline, w.screen, e.frame, w'.inline, w'.screen, base);
    }
  }

  /**
   Over any run in which no repaint changes what lies above the screen, forced redraws, resizes
   and fullscreen sessions included, scrollback stays exact, and after every inline render it
   reads, followed by the content rows of the screen, as the whole transcript: no line is
   missing and none appears twice.
   */
  lemma {:induction false} RunKeepsHistory(ws: seq<World>, es: seq<Event>, base: seq<Row>, k: nat)
    requires IsRun(ws, es) && k < |ws|
    requires WorldInv(ws[0]) && HistoryExact(ws[0].Shadow(), ws[0].screen, base)
    requires forall k :: 0 <= k < |es| ==> Allowed(ws[k], es[k]) && QuietAbove(ws[k], es[k])
    ensures WorldInv(ws[k]) && HistoryExact(ws[k].Shadow(), ws[k].screen, base)
    ensures 0 < k && es[k - 1].Render? && ws[k - 1].saved == None ==>
              && Coupled(ws[k].inline, ws[k].screen)
              && Readable(ws[k].inline, ws[k].screen) == base + Rows(es[k - 1].frame.lines)
  {
    if k > 0 {
      RunKeepsHistory(ws, es, base, k - 1);
      var w, e, w' := ws[k - 1], es[k - 1], ws[k];
      assert Next(ws[k - 1], es[k - 1], ws[k - 1 + 1]);
      StepKeepsInv(w, e, w');
      StepKeepsHistory(w, e, w', base);
      if e.Render? && w.saved == None {
        HistoryExactReadsAsTranscript(w'.inline, w'.screen, base);
      }
    }
  }

  /**
   A forced redraw prints the last screenful of a frame that has grown: the line that should
   have scrolled out is neither on the screen nor in scrollback.
   */
  lemma ForcedRedrawLosesLine() returns (w: World, w1: World, w2: World, f: Frame)
    ensures w.saved == None && Coupled(w.inline, w.screen) && HistoryExact(w.inline, w.screen, [])
    ensures w.inline.previousLines < f.lines && f.lines[0] == "a"
    ensures Next(w, Force, w1) && w1.screen.Valid() && Allowed(w1, Render(f)) && Next(w1, Render(f), w2)
    ensures !HistoryExact(w2.inline, w2.screen, []) && Shown("a") !in w2.screen.history + w2.screen.rows
  {
    var s := Screen(80, [], [Shown("a"), Shown("b")], 1, None);
    w := World(Inline(["a", "b"], 80, 2, 1, 2, 0), None, s);
    w1 := World(Forced(w.inline), None, s);
    f := Frame(["a", "b", "c"], None, false, false, false);
    w2 := World(Inline(f.lines, 80, 2, 2, 3, 1), None, Screen(80, [], [Shown("b"), Shown("c")], 1, None));
    assert s.rows == Window(["a", "b"], 0, 2);
    assert f.lines[..2] == ["a", "b"];
    assert w2.screen.rows == Window(f.lines, 1, 2);
  }
}
