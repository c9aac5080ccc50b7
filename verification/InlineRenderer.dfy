/**
 The inline differential renderer, as an object that mutates its shadow fields and writes
 buffers of terminal operations; each render is proved against `RenderSpec.Renders`.
 */
module InlineRenderer {

  import opened Common
  import opened Terminal
  import opened RenderSpec

  const CURSOR_MARKER := "\U{1B}_pi:c\U{07}"
  const SEGMENT_RESET := "\U{1B}[0m\U{1B}]8;;\U{07}"

  /** A rendered line; `Marked` carries the cursor marker after `before`, which is `col` columns wide. */
  datatype RawLine = Plain(text: string) | Marked(before: string, col: nat, after: string) {
    function Text(): string {
      match this
      case Plain(text) => text
      case Marked(before, _, after) => before + CURSOR_MARKER + after
    }
    function Stripped(): string {
      match this
      case Plain(text) => text
      case Marked(before, _, after) => before + after
    }
  }

  /** The lowest marked line in `raw[lo..hi]`, or -1. */
  function LastMarked(raw: seq<RawLine>, lo: nat, hi: nat): (row: int)
    requires hi <= |raw|
    ensures row == -1 || (lo <= row < hi && raw[row].Marked?)
    ensures forall k :: lo <= k < hi && row < k ==> raw[k].Plain?
  {
    if hi <= lo then -1 else if raw[hi - 1].Marked? then hi - 1 else LastMarked(raw, lo, hi - 1)
  }

  function CursorRow(raw: seq<RawLine>, h: nat): int {
    LastMarked(raw, Max(0, |raw| - h), |raw|)
  }

  /** The frame a list of rendered lines asks for on `h` rows. */
  function FrameOf(raw: seq<RawLine>, h: nat, overlays: bool, preserve: bool, clearOnShrink: bool): (f: Frame)
    ensures |f.lines| == |raw|
  {
    var row := CursorRow(raw, h);
    Frame(seq(|raw|, k requires 0 <= k < |raw| =>
                (if k == row then raw[k].Stripped() else raw[k].Text()) + SEGMENT_RESET),
          if row == -1 then None else Some(Cursor(row, raw[row].col)),
          overlays, preserve, clearOnShrink)
  }

  lemma FrameOfIsValid(raw: seq<RawLine>, h: nat, overlays: bool, preserve: bool, clearOnShrink: bool)
    ensures FrameOf(raw, h, overlays, preserve, clearOnShrink).Valid(h)
  {
    var f := FrameOf(raw, h, overlays, preserve, clearOnShrink);
    forall k | 0 <= k < |f.lines| ensures f.lines[k] != "" {
      assert |f.lines[k]| >= |SEGMENT_RESET|;
    }
  }

  /** Finds the lowest marked line among the bottom `height` ones and strips its marker. */
  method ExtractCursorPosition(raw: seq<RawLine>, height: nat) returns (lines: seq<string>, cursorPos: Option<Cursor>)
    ensures |lines| == |raw|
    ensures var row := CursorRow(raw, height);
            && (forall k :: 0 <= k < |raw| ==> lines[k] == if k == row then raw[k].Stripped() else raw[k].Text())
            && cursorPos == (if row == -1 then None else Some(Cursor(row, raw[row].col)))
            && (row != -1 ==> lines[row] == raw[row].before + raw[row].after)
  {
    lines := seq(|raw|, k requires 0 <= k < |raw| => raw[k].Text());
    var viewportTop := Max(0, |raw| - height);
    var row := |raw| - 1;
    while row >= viewportTop
      invariant viewportTop - 1 <= row < |raw|
      invariant LastMarked(raw, viewportTop, row + 1) == CursorRow(raw, height)
      invariant forall k :: 0 <= k < |raw| ==> lines[k] == raw[k].Text()
    {
      if raw[row].Marked? {
        lines := lines[row := raw[row].Stripped()];
        return lines, Some(Cursor(row, raw[row].col));
      }
      row := row - 1;
    }
    cursorPos := None;
  }

  method ApplyLineResets(lines: seq<string>) returns (r: seq<string>)
    ensures |r| == |lines| && forall k :: 0 <= k < |r| ==> r[k] == lines[k] + SEGMENT_RESET
  {
    r := lines;
    for i := 0 to |lines|
      invariant |r| == |lines|
      invariant forall k :: 0 <= k < |r| ==> r[k] == if k < i then lines[k] + SEGMENT_RESET else lines[k]
    {
      r := r[i := r[i] + SEGMENT_RESET];
    }
  }

  // ---- Screens part-way through a buffer ------------------------------------

  function Patch(lines: seq<string>, prev: seq<string>, i: nat): seq<string>
    requires i <= |lines|
  {
    lines[..i] + if i < |prev| then prev[i..] else []
  }

  /** Lines up to `i` are written, the window having started at `v`; below them the old lines remain. */
  ghost predicate Written(t: Screen, hist: seq<Row>, lines: seq<string>, prev: seq<string>, v: nat, i: nat)
  {
    && t.Valid() && v < i <= |lines|
    && var top := Max(v, i - |t.rows|);
       && t.row == i - 1 - top
       && t.rows == Window(Patch(lines, prev, i), top, |t.rows|)
       && t.history == hist + Rows(lines[v..top])
  }

  /** CR LF brings the cursor to the next row, scrolling if it must. */
  lemma AdvanceRow(t: Screen, hist: seq<Row>, lines: seq<string>, prev: seq<string>, v: nat, i: nat)
    requires Written(t, hist, lines, prev, v, i) && i < |lines| && |prev| <= v + |t.rows|
    ensures var u, top := t.NewLine(), Max(v, i + 1 - |t.rows|);
            && u.AtMargin() && u.row == i - top
            && u.rows == Window(Patch(lines, prev, i), top, |t.rows|)
            && u.history == hist + Rows(lines[v..top])
  {
    var top, h := Max(v, i - |t.rows|), |t.rows|;
    NewLineStep(t, Patch(lines, prev, i), top);
    if t.row + 1 == h {
      assert RowOf(Patch(lines, prev, i), top) == Shown(lines[top]);
      assert Rows(lines[v..top]) + [Shown(lines[top])] == Rows(lines[v..top + 1]);
      assert hist + Rows(lines[v..top]) + [Shown(lines[top])] == hist + Rows(lines[v..top + 1]);
    }
  }

  lemma PatchGrows(t: Screen, lines: seq<string>, prev: seq<string>, top: nat, i: nat)
    requires t.Valid() && i < |lines| && top <= i && t.row == i - top
    requires t.rows == Window(Patch(lines, prev, i), top, |t.rows|)
    ensures t.rows[t.row := Shown(lines[i])] == Window(Patch(lines, prev, i + 1), top, |t.rows|)
  {
    var w := Window(Patch(lines, prev, i + 1), top, |t.rows|);
    forall r | 0 <= r < |t.rows| ensures t.rows[t.row := Shown(lines[i])][r] == w[r] {
    }
  }

  /** CR LF, EL and a line: one step of the differential loop. */
  lemma RewriteNext(t: Screen, hist: seq<Row>, lines: seq<string>, prev: seq<string>, v: nat, i: nat)
    requires Written(t, hist, lines, prev, v, i) && i < |lines| && |prev| <= v + |t.rows|
    ensures Written(t.NewLine().Rewrite(lines[i]), hist, lines, prev, v, i + 1)
  {
    AdvanceRow(t, hist, lines, prev, v, i);
    PatchGrows(t.NewLine(), lines, prev, Max(v, i + 1 - |t.rows|), i);
  }

  /** CR LF and a line on a row that is still empty: one step of a full repaint. */
  lemma PrintNext(t: Screen, hist: seq<Row>, lines: seq<string>, v: nat, i: nat)
    requires Written(t, hist, lines, [], v, i) && i < |lines|
    ensures Written(t.NewLine().Apply(Print(lines[i])), hist, lines, [], v, i + 1)
  {
    AdvanceRow(t, hist, lines, [], v, i);
    PatchGrows(t.NewLine(), lines, [], Max(v, i + 1 - |t.rows|), i);
  }

  lemma FirstLine(t: Screen, lines: seq<string>, start: nat)
    requires t.Valid() && t.row == 0 && t.AtMargin() && start < |lines|
    requires t.rows == Window(lines[..start], start, |t.rows|)
    ensures Written(t.Apply(Print(lines[start])), t.history, lines, [], start, start + 1)
  {
    PatchGrows(t, lines, [], start, start);
    assert t.history + Rows(lines[start..start]) == t.history;
  }

  /** The first `k` rows are those of `a`; the others are untouched, or already those of `a`. */
  ghost predicate Repainted(t: Screen, before: Screen, a: seq<Row>, k: nat)
    requires |a| == |before.rows|
  {
    && t.Valid() && |t.rows| == |a| && k <= |a|
    && t.cols == before.cols
    && t.history == before.history
    && (forall r :: 0 <= r < k ==> t.rows[r] == a[r])
    && (forall r :: k <= r < |a| ==> t.rows[r] == before.rows[r])
  }

  lemma RepaintedAll(t: Screen, before: Screen, a: seq<Row>, k: nat)
    requires |a| == |before.rows| && Repainted(t, before, a, k)
    requires forall r :: k <= r < |a| ==> before.rows[r] == a[r]
    ensures t.rows == a
  {
  }

  // ---- Buffers ----------------------------------------------------------------

  /** CR and EL on the next row, or on the last one again. */
  method EraseRow(screen: Screen, ghost before: Screen, ghost a: seq<Row>, ghost k: nat) returns (t: Screen)
    requires |a| == |before.rows| && Repainted(screen, before, a, k)
    requires screen.row == Min(k, |a| - 1) && a[screen.row] == Blank
    ensures Repainted(t, before, a, Min(k + 1, |a|)) && t.row == screen.row && t.AtMargin()
  {
    t := screen.Apply(CarriageReturn).Apply(EraseLine);
    assert t.rows == screen.rows[screen.row := Blank];
  }

  /** Clears `n` rows downwards, as far as there are any. */
  method EraseRows(screen: Screen, ghost before: Screen, ghost a: seq<Row>, ghost first: nat, n: nat)
    returns (t: Screen)
    requires |a| == |before.rows| && Repainted(screen, before, a, first) && screen.row == first < |a| && 0 < n
    requires forall r :: first <= r < |a| ==> a[r] == Blank
    ensures Repainted(t, before, a, Min(first + n, |a|)) && t.AtMargin()
    ensures t.row == Min(first + n - 1, |a| - 1)
  {
    t := screen;
    for i := 0 to n
      invariant Repainted(t, before, a, Min(first + i, |a|)) && (i > 0 ==> t.AtMargin())
      invariant t.row == Min(first + if i == n then i - 1 else i, |a| - 1)
    {
      t := EraseRow(t, before, a, Min(first + i, |a|));
      if i < n - 1 {
        t := t.Apply(Down(1));
      }
    }
  }

  /** EL and a line on the next row, reached by CR LF unless it is the first. */
  method RewriteRow(screen: Screen, ghost before: Screen, ghost a: seq<Row>, i: nat, line: string) returns (t: Screen)
    requires |a| == |before.rows| && Repainted(screen, before, a, i) && i < |a| && a[i] == Shown(line)
    requires screen.row == Max(0, i - 1) && (i == 0 ==> screen.AtMargin())
    ensures Repainted(t, before, a, i + 1) && t.row == i
  {
    t := screen;
    if i > 0 {
      t := t.NewLine();
    }
    t := t.Rewrite(line);
    assert t.rows == screen.rows[i := Shown(line)];
  }

  /** CR LF and EL on as many rows as are left over, and back up. */
  method ClearLeftover(screen: Screen, ghost before: Screen, ghost a: seq<Row>, shown: nat, leftover: nat)
    returns (t: Screen)
    requires |a| == |before.rows| && shown + leftover <= |a| && 0 < shown
    requires forall r :: shown <= r < shown + leftover ==> a[r] == Blank
    requires Repainted(screen, before, a, shown) && screen.row == shown - 1
    ensures Repainted(t, before, a, shown + leftover) && t.row == shown - 1
    ensures screen.AtMargin() ==> t.AtMargin()
  {
    t := screen;
    for i := 0 to leftover
      invariant Repainted(t, before, a, shown + i) && t.row == shown + i - 1
      invariant screen.AtMargin() ==> t.AtMargin()
    {
      t := t.Apply(CarriageReturn).Apply(LineFeed).Apply(EraseLine);
    }
    if leftover > 0 {
      t := t.Apply(Up(leftover));
    }
  }

  // Each takes the screen the terminal will show when the buffer so far is
  // written, and returns it with further operations appended.

  /** Lines `first` to `i - 1` are written, from the row of the first one of `screen`. */
  ghost predicate Rewriting(t: Screen, screen: Screen, hist: seq<Row>, lines: seq<string>, prev: seq<string>, v: nat,
                            first: nat, i: nat)
  {
    if i == first then t == screen else Written(t, hist, lines, prev, v, i)
  }

  /** The next line, on the row below unless it is the first. */
  method PaintLine(t: Screen, ghost screen: Screen, lines: seq<string>, start: nat, i: nat) returns (next: Screen)
    requires screen.Valid() && screen.row == 0 && screen.AtMargin() && start <= i < |lines|
    requires screen.rows == Window(lines[..start], start, |screen.rows|)
    requires Rewriting(t, screen, screen.history, lines, [], start, start, i)
    ensures Rewriting(next, screen, screen.history, lines, [], start, start, i + 1)
    ensures next.cols == t.cols && |next.rows| == |t.rows|
  {
    next := t;
    if i > start {
      PrintNext(t, screen.history, lines, start, i);
      next := next.NewLine();
    } else {
      FirstLine(t, lines, start);
    }
    next := next.Apply(Print(lines[i]));
  }

  /** The lines from `start` on, one below the other from the top of an empty screen. */
  method PaintLines(screen: Screen, lines: seq<string>, start: nat) returns (t: Screen)
    requires screen.Valid() && screen.row == 0 && screen.AtMargin() && start <= |lines|
    requires screen.rows == Window([], 0, |screen.rows|)
    ensures t.Valid() && t.cols == screen.cols
    ensures var top := Max(start, |lines| - |screen.rows|);
            && t.rows == Window(lines, top, |screen.rows|)
            && t.history == screen.history + Rows(lines[start..top])
            && t.row == Max(0, |lines| - 1 - top)
            && (lines == [] ==> t.AtMargin())
  {
    t := screen;
    assert Window([], 0, |t.rows|) == Window(lines[..start], start, |t.rows|);
    for i := start to |lines|
      invariant Rewriting(t, screen, screen.history, lines, [], start, start, i)
      invariant t.cols == screen.cols && |t.rows| == |screen.rows|
    {
      t := PaintLine(t, screen, lines, start, i);
    }
    if start < |lines| {
      assert Patch(lines, [], |lines|) == lines;
    } else {
      assert lines[..start] == lines;
    }
  }

  /**
   Rewrites the screen from its first row with `lines`, and clears the rows below
   that the previous frame used. `cursorRow` is where the cursor is believed to be.
   */
  method RepaintRows(screen: Screen, lines: seq<string>, prevScreenRows: nat, cursorRow: int) returns (t: Screen)
    requires screen.Valid() && screen.row == cursorRow && |lines| <= |screen.rows|
    requires cursorRow < prevScreenRows <= |screen.rows|
    requires forall r :: prevScreenRows <= r < |screen.rows| ==> screen.rows[r] == Blank
    ensures t.Valid() && t.cols == screen.cols
    ensures t.rows == Window(lines, 0, |screen.rows|)
    ensures t.history == screen.history
    ensures t.row == Max(0, |lines| - 1)
    ensures lines == [] ==> t.AtMargin()
  {
    var visibleCount := |lines|;
    var shown := Max(visibleCount, 1);
    ghost var a := Window(lines, 0, |screen.rows|);
    var screenRow := Max(0, Min(prevScreenRows - 1, cursorRow));
    t := if screenRow > 0 then screen.Apply(Up(screenRow)) else screen;
    t := t.Apply(CarriageReturn);
    if visibleCount == 0 {
      t := t.Apply(EraseLine);
    }
    for i := 0 to visibleCount
      invariant Repainted(t, screen, a, if visibleCount == 0 then 1 else i)
      invariant t.row == Max(0, i - 1) && (i == 0 ==> t.AtMargin())
    {
      t := RewriteRow(t, screen, a, i, lines[i]);
    }
    if visibleCount < prevScreenRows {
      t := ClearLeftover(t, screen, a, shown, prevScreenRows - shown);
    }
    RepaintedAll(t, screen, a, Max(shown, prevScreenRows));
  }

  /** First and last changed line of two frames whose lines are non-empty; (-1, -1) when they are equal. */
  method FindChanges(prev: seq<string>, lines: seq<string>) returns (firstChanged: int, lastChanged: int)
    requires forall k :: 0 <= k < |prev| ==> prev[k] != ""
    requires forall k :: 0 <= k < |lines| ==> lines[k] != ""
    ensures firstChanged == -1 <==> prev == lines
    ensures prev != lines ==>
              && 0 <= firstChanged <= Min(|prev|, |lines|)
              && prev[..firstChanged] == lines[..firstChanged]
              && (firstChanged < |prev| && firstChanged < |lines| ==> prev[firstChanged] != lines[firstChanged])
              && lastChanged == LastChanged(prev, lines) >= firstChanged
  {
    firstChanged, lastChanged := -1, -1;
    var maxLines := Max(|lines|, |prev|);
    for i := 0 to maxLines
      invariant firstChanged == -1 <==> lastChanged == -1
      invariant firstChanged == -1 ==> i <= |prev| && i <= |lines| && prev[..i] == lines[..i]
      invariant firstChanged != -1 ==>
                  && 0 <= firstChanged <= lastChanged < i
                  && firstChanged <= Min(|prev|, |lines|)
                  && prev[..firstChanged] == lines[..firstChanged]
                  && (firstChanged < |prev| && firstChanged < |lines| ==> prev[firstChanged] != lines[firstChanged])
      invariant forall k :: lastChanged < k < i ==> k < |prev| && k < |lines| && prev[k] == lines[k]
      invariant lastChanged != -1 && lastChanged < |prev| && lastChanged < |lines| ==>
                  prev[lastChanged] != lines[lastChanged]
    {
      var oldLine := if i < |prev| then prev[i] else "";
      var newLine := if i < |lines| then lines[i] else "";
      if oldLine != newLine {
        if firstChanged == -1 {
          firstChanged := i;
        }
        lastChanged := i;
      }
    }
    var appendedLines := |lines| > |prev|;
    if appendedLines {
      if firstChanged == -1 {
        firstChanged := |prev|;
      }
      lastChanged := |lines| - 1;
    }
    if |prev| > |lines| {
      assert prev[|prev| - 1] != "";
    }
    if prev != lines && |prev| == |lines| {
      LastChangedAt(prev, lines, lastChanged);
    }
  }

  /**
   The frame lost its last lines and nothing else: move to its new last line, clear
   the rows below and come back. `cursor` and `top` are the shadow's cursor and window.
   */
  method ClearDeleted(screen: Screen, prev: seq<string>, lines: seq<string>, top: nat, cursor: nat)
    returns (t: Screen)
    requires screen.Valid() && lines < prev && top <= Max(0, |lines| - 1) && |prev| <= top + |screen.rows|
    requires screen.rows == Window(prev, top, |screen.rows|)
    requires top <= cursor && screen.row == cursor - top
    ensures t.Valid() && t.cols == screen.cols && t.history == screen.history && t.AtMargin()
    ensures t.row == Max(0, |lines| - 1) - top
    ensures var w := Window(lines, top, |screen.rows|);
            t.rows == if lines == [] && 1 < |screen.rows| then w[0 := RowOf(prev, 0)] else w
  {
    var targetRow := Max(0, |lines| - 1);
    var extraLines := |prev| - |lines|;
    var h := |screen.rows|;
    ghost var w := Window(lines, top, h);
    ghost var a := if lines == [] && 1 < h then w[0 := RowOf(prev, 0)] else w;
    t := screen.MoveBy(targetRow - top - (cursor - top)).Apply(CarriageReturn);
    t := t.Apply(Down(1));
    ghost var first := Min(targetRow - top + 1, h - 1);
    t := EraseRows(t, screen, a, first, extraLines);
    t := t.Apply(Up(extraLines));
    RepaintedAll(t, screen, a, Min(first + extraLines, h));
  }

  /** The cursor reaches the first changed line, and rewriting it is one step of `Written`. */
  lemma StartOfChanges(screen: Screen, prev: seq<string>, lines: seq<string>, v: nat, first: nat)
    requires screen.Valid() && |prev| <= v + |screen.rows| && screen.rows == Window(prev, v, |screen.rows|)
    requires v <= first < |lines| && v < |prev| && first <= |prev| && prev[..first] == lines[..first]
    ensures first < |prev| ==>
              Written(screen.(row := first - v, col := Some(0)).Rewrite(lines[first]),
                      screen.history, lines, prev, v, first + 1)
    ensures first == |prev| ==>
              Written(screen.(row := first - 1 - v).NewLine().Rewrite(lines[first]),
                      screen.history, lines, prev, v, first + 1)
  {
    assert Patch(lines, prev, first) == prev;
    assert screen.history + Rows(lines[v..v]) == screen.history;
    if first < |prev| {
      PatchGrows(screen.(row := first - v, col := Some(0)), lines, prev, v, first);
    } else {
      RewriteNext(screen.(row := first - 1 - v), screen.history, lines, prev, v, first);
    }
  }

  /** Everything after line `last` is either deleted or as it was. */
  ghost predicate Covers(prev: seq<string>, lines: seq<string>, last: nat) {
    && (|lines| < |prev| ==> |lines| - 1 <= last)
    && (|prev| <= |lines| ==>
          last < |lines| && Patch(lines, prev, last + 1) == lines && (|prev| < |lines| ==> last == |lines| - 1))
  }

  lemma LastChangedCovers(prev: seq<string>, lines: seq<string>)
    requires prev != lines
    ensures LastChanged(prev, lines) >= 0 && Covers(prev, lines, LastChanged(prev, lines))
  {
    if |prev| == |lines| {
      LastChangedIsLast(prev, lines);
    }
    var i := LastChanged(prev, lines) + 1;
    if |prev| <= |lines| {
      assert lines == lines[..i] + lines[i..];
    }
  }

  /** Past the last changed line the old frame is the new one. */
  lemma UnchangedTail(t: Screen, hist: seq<Row>, prev: seq<string>, lines: seq<string>, v: nat, last: nat)
    requires |prev| <= |lines| && Covers(prev, lines, last) && v <= last && |prev| <= v + |t.rows|
    requires Written(t, hist, lines, prev, v, last + 1)
    ensures var top := Max(v, |lines| - |t.rows|);
            && t.rows == Window(lines, top, |t.rows|)
            && t.history == hist + Rows(lines[v..top])
            && t.row == last - top
            && top == Max(v, last - |t.rows| + 1)
  {
  }

  /** Clears the rows the old frame used below the new one, and returns to the last new line. */
  method ClearBelow(screen: Screen, prev: seq<string>, lines: seq<string>, v: nat, ghost hist: seq<Row>)
    returns (t: Screen)
    requires |lines| < |prev| <= v + |screen.rows| && Written(screen, hist, lines, prev, v, |lines|)
    ensures t.Valid() && t.cols == screen.cols
    ensures var top := Max(v, |lines| - |screen.rows|);
            && t.rows == Window(lines, top, |screen.rows|)
            && t.history == hist + Rows(lines[v..top])
            && t.row == |lines| - 1 - top
            && top == Max(v, |lines| - 1 - |screen.rows| + 1)
  {
    var extraLines := |prev| - |lines|;
    ghost var a := Window(lines, v, |screen.rows|);
    t := screen;
    for i := |lines| to |prev|
      invariant Repainted(t, screen, a, i - v) && t.row == i - 1 - v
    {
      t := t.NewLine().Apply(EraseLine);
    }
    t := t.Apply(Up(extraLines));
    RepaintedAll(t, screen, a, |prev| - v);
  }

  /** From the shadow's cursor to column 0 of the first changed line. */
  method MoveToFirstChange(screen: Screen, prev: seq<string>, lines: seq<string>, prevTop: nat, cursor: nat,
                           firstChanged: nat)
    returns (t: Screen)
    requires screen.Valid() && prev != [] && Max(0, |prev| - |screen.rows|) <= prevTop < |prev|
    requires screen.rows == Window(prev, prevTop, |screen.rows|)
    requires prevTop <= cursor && screen.row == cursor - prevTop
    requires prevTop <= firstChanged < |lines| && firstChanged <= |prev|
    requires prev[..firstChanged] == lines[..firstChanged]
    ensures t.Valid() && |t.rows| == |screen.rows| && t.cols == screen.cols
    ensures Written(t.Rewrite(lines[firstChanged]), screen.history, lines, prev, prevTop, firstChanged + 1)
  {
    var height := |screen.rows|;
    var appendStart := |lines| > |prev| && firstChanged == |prev| && firstChanged > 0;
    var prevViewportBottom := prevTop + height - 1;
    var moveTargetRow := if appendStart then firstChanged - 1 else firstChanged;
    if moveTargetRow > prevViewportBottom {
      assert false; // the whole old frame below the window's top is on screen
    }
    t := screen.MoveBy(moveTargetRow - prevTop - (cursor - prevTop));
    t := if appendStart then t.NewLine() else t.Apply(CarriageReturn);
    StartOfChanges(screen, prev, lines, prevTop, firstChanged);
  }

  /** The next line, on the row below unless it is the first. */
  method RewriteLine(t: Screen, ghost screen: Screen, ghost hist: seq<Row>, lines: seq<string>,
                     ghost prev: seq<string>, ghost v: nat,
                     first: nat, i: nat)
    returns (next: Screen)
    requires first <= i < |lines| && |prev| <= v + |t.rows| && t.rows != []
    requires Rewriting(t, screen, hist, lines, prev, v, first, i)
    requires screen.Valid() && Written(screen.Rewrite(lines[first]), hist, lines, prev, v, first + 1)
    ensures |next.rows| == |t.rows| && next.cols == t.cols
    ensures Rewriting(next, screen, hist, lines, prev, v, first, i + 1)
  {
    next := t;
    if i > first {
      RewriteNext(t, hist, lines, prev, v, i);
      next := next.NewLine();
    }
    next := next.Rewrite(lines[i]);
  }

  /** Lines `first` to `last`, each cleared and rewritten, from the row of the first one. */
  method RewriteLines(screen: Screen, ghost hist: seq<Row>, prev: seq<string>, lines: seq<string>, v: nat,
                      first: nat, last: nat)
    returns (t: Screen)
    requires screen.Valid() && v <= first <= last < |lines| && |prev| <= v + |screen.rows|
    requires Written(screen.Rewrite(lines[first]), hist, lines, prev, v, first + 1)
    ensures |t.rows| == |screen.rows| && t.cols == screen.cols && Written(t, hist, lines, prev, v, last + 1)
  {
    t := screen;
    for i := first to last + 1
      invariant |t.rows| == |screen.rows| && t.cols == screen.cols
      invariant Rewriting(t, screen, hist, lines, prev, v, first, i)
    {
      t := RewriteLine(t, screen, hist, lines, prev, v, first, i);
    }
  }

  /** What is left after the last rewritten line: rows to clear, or nothing. */
  method FinishChanges(screen: Screen, prev: seq<string>, lines: seq<string>, v: nat, lastChanged: nat, renderEnd: nat,
                       ghost hist: seq<Row>)
    returns (t: Screen, viewportTop: nat)
    requires v <= lastChanged && Covers(prev, lines, lastChanged) && |prev| <= v + |screen.rows|
    requires renderEnd == Min(lastChanged, |lines| - 1) && Written(screen, hist, lines, prev, v, renderEnd + 1)
    ensures t.Valid() && t.cols == screen.cols
    ensures viewportTop == Max(v, |lines| - |screen.rows|)
    ensures t.rows == Window(lines, viewportTop, |screen.rows|)
    ensures t.history == hist + Rows(lines[v..viewportTop])
    ensures |lines| < |prev| ==> renderEnd == |lines| - 1
    ensures t.row == renderEnd - viewportTop
  {
    t := screen;
    if |prev| > |lines| {
      if renderEnd < |lines| - 1 {
        assert false; // deleted lines are changes, so the last line was rewritten
      }
      t := ClearBelow(t, prev, lines, v, hist);
    } else {
      UnchangedTail(t, hist, prev, lines, v, lastChanged);
    }
    viewportTop := Max(v, renderEnd - |screen.rows| + 1);
  }

  /** Rewrites the lines from the first to the last changed one, and clears what the old frame had below. */
  method WriteChanges(screen: Screen, prev: seq<string>, lines: seq<string>, prevTop: nat, cursor: nat,
                      firstChanged: nat, lastChanged: nat)
    returns (t: Screen, finalCursorRow: nat, viewportTop: nat)
    requires screen.Valid() && prev != [] && Max(0, |prev| - |screen.rows|) <= prevTop < |prev|
    requires screen.rows == Window(prev, prevTop, |screen.rows|)
    requires prevTop <= cursor && screen.row == cursor - prevTop
    requires firstChanged < |lines| && firstChanged <= |prev| && prevTop <= firstChanged <= lastChanged
    requires prev[..firstChanged] == lines[..firstChanged]
    requires Covers(prev, lines, lastChanged)
    ensures t.Valid() && t.cols == screen.cols
    ensures viewportTop == Max(prevTop, |lines| - |screen.rows|)
    ensures t.rows == Window(lines, viewportTop, |screen.rows|)
    ensures t.history == screen.history + Rows(lines[prevTop..viewportTop])
    ensures finalCursorRow == if |lines| < |prev| then |lines| - 1 else Min(lastChanged, |lines| - 1)
    ensures t.row == finalCursorRow - viewportTop
  {
    t := MoveToFirstChange(screen, prev, lines, prevTop, cursor, firstChanged);
    var renderEnd := Min(lastChanged, |lines| - 1);
    t := RewriteLines(t, screen.history, prev, lines, prevTop, firstChanged, renderEnd);
    t, viewportTop := FinishChanges(t, prev, lines, prevTop, lastChanged, renderEnd, screen.history);
    finalCursorRow := renderEnd;
  }

  // ---- The renderer ---------------------------------------------------------

  class Tui {
    var previousLines: seq<string>
    var previousWidth: int
    var previousHeight: nat
    var hardwareCursorRow: nat
    var maxLinesRendered: nat
    var previousViewportTop: nat
    var preserveViewportOnNextRender: bool
    var clearOnShrink: bool
    var fullscreen: Option<Inline>  // the inline state kept while fullscreen
    var terminal: Screen            // the primary screen

    ghost function Shadow(): Inline
      reads this
    {
      Inline(previousLines, previousWidth, previousHeight, hardwareCursorRow, maxLinesRendered, previousViewportTop)
    }

    constructor (terminal: Screen, clearOnShrink: bool)
      requires terminal.Valid() && terminal.row == 0 && terminal.AtMargin()
      requires forall r :: 0 <= r < |terminal.rows| ==> terminal.rows[r] == Blank
      ensures Shadow() == PRISTINE && this.terminal == terminal && fullscreen == None
      ensures WorldInv(State())
    {
      previousLines, previousWidth, previousHeight := [], 0, 0;
      hardwareCursorRow, maxLinesRendered, previousViewportTop := 0, 0, 0;
      preserveViewportOnNextRender := false;
      this.clearOnShrink := clearOnShrink;
      fullscreen := None;
      this.terminal := terminal;
      new;
      assert terminal.rows == Window([], 0, |terminal.rows|);
    }

    method PositionHardwareCursor(cursorPos: Option<Cursor>, totalLines: nat)
      requires terminal.Valid()
      modifies this`terminal, this`hardwareCursorRow
      ensures cursorPos == None || totalLines == 0 ==>
                terminal == old(terminal) && hardwareCursorRow == old(hardwareCursorRow)
      ensures cursorPos.Some? && 0 < totalLines ==>
                && hardwareCursorRow == Min(cursorPos.value.row, totalLines - 1)
                && terminal == old(terminal).(
                     row := Max(0, Min(|terminal.rows| - 1,
                                       old(terminal).row + hardwareCursorRow - old(hardwareCursorRow))),
                     col := Some(Min(cursorPos.value.col, terminal.cols - 1)))
    {
      if cursorPos == None || totalLines <= 0 {
        return;
      }
      var targetRow := Max(0, Min(cursorPos.value.row, totalLines - 1));
      var targetCol := Max(0, cursorPos.value.col);
      var rowDelta := targetRow - hardwareCursorRow;
      terminal := terminal.MoveBy(rowDelta).Apply(Column(targetCol + 1));
      hardwareCursorRow := targetRow;
    }

    /** The tail every drawing branch shares: place the cursor, then record the frame. */
    method Commit(ghost i: Inline, ghost s: Screen, f: Frame)
      requires s.Valid() && f.Valid(|s.rows|) && Drawn(i, s, f, terminal)
      requires hardwareCursorRow == RestRow(i, s, f) && previousViewportTop == TopAfter(i, s, f)
      requires maxLinesRendered == MaxLinesAfter(i, s, f)
      modifies this`previousLines, this`previousWidth, this`previousHeight, this`hardwareCursorRow, this`terminal
      ensures Renders(i, s, f, Shadow(), terminal)
    {
      PositionHardwareCursor(f.cursor, |f.lines|);
      previousLines := f.lines;
      previousWidth := terminal.cols;
      previousHeight := |terminal.rows|;
    }

    /** Full repaint: clears the screen if asked, then writes the lines that fit (all of them on a fresh screen). */
    method FullRender(clear: bool, preserveViewport: bool, prevViewportTop: nat, f: Frame)
      requires Inv(Shadow(), terminal) && f.Valid(|terminal.rows|) && Redraws(Shadow(), terminal, f)
      requires !clear <==> FirstRender(Shadow(), terminal)
      requires preserveViewport ==> clear && !WillClear(Shadow(), terminal) && prevViewportTop == previousViewportTop
      modifies this`previousLines, this`previousWidth, this`previousHeight, this`hardwareCursorRow,
               this`maxLinesRendered, this`previousViewportTop, this`terminal
      ensures Renders(old(Shadow()), old(terminal), f, Shadow(), terminal)
    {
      var newLines, height := f.lines, |terminal.rows|;
      var n := |newLines|;
      ghost var i, s := Shadow(), terminal;
      if preserveViewport && 0 < |previousLines| {
        var windowStart := Max(0, n - height);
        terminal := RepaintRows(terminal, newLines[windowStart..], Min(height, |previousLines|),
                                hardwareCursorRow - prevViewportTop);
        assert Window(newLines[windowStart..], 0, height) == Window(newLines, windowStart, height);
        maxLinesRendered := n;
        previousViewportTop := windowStart;
      } else {
        var renderStart := if clear && 0 < |previousLines| then Max(0, n - height) else 0;
        var buffer := if clear then terminal.Apply(EraseScreen).Apply(Home) else terminal;
        assert buffer.rows == Window([], 0, height);
        terminal := PaintLines(buffer, newLines, renderStart);
        maxLinesRendered := if clear then n else Max(maxLinesRendered, n);
        var bufferLength := Max(height, n);
        previousViewportTop := Max(0, bufferLength - height);
      }
      hardwareCursorRow := Max(0, n - 1);
      RepaintIsDrawn(i, s, f, terminal);
      Commit(i, s, f);
    }

    /** The delete-only branch. */
    method RenderDeletion(prevViewportTop: nat, f: Frame)
      requires Coupled(Shadow(), terminal) && !WillClear(Shadow(), terminal) && !ShrinkRedraw(Shadow(), f)
      requires f.Valid(|terminal.rows|) && f.lines < previousLines && prevViewportTop == previousViewportTop
      requires Redraws(Shadow(), terminal, f) <==> Max(0, |f.lines| - 1) < previousViewportTop
      requires !Redraws(Shadow(), terminal, f) ==>
                 && HistoryAfter(Shadow(), terminal, f) == terminal.history
                 && TopAfter(Shadow(), terminal, f) == previousViewportTop
      modifies this`previousLines, this`previousWidth, this`previousHeight, this`hardwareCursorRow,
               this`maxLinesRendered, this`previousViewportTop, this`terminal
      ensures Renders(old(Shadow()), old(terminal), f, Shadow(), terminal)
    {
      ghost var i, s := Shadow(), terminal;
      var height := |terminal.rows|;
      var targetRow := Max(0, |f.lines| - 1);
      if targetRow < prevViewportTop {
        FullRender(true, f.preserveViewport, prevViewportTop, f);
        return;
      }
      DeletionFitsScreen(i, s, f.lines);
      if |previousLines| - |f.lines| > height {
        assert false; // a deletion inside the window is no longer than the screen
      }
      terminal := ClearDeleted(terminal, previousLines, f.lines, prevViewportTop, hardwareCursorRow);
      hardwareCursorRow := targetRow;
      Commit(i, s, f);
      previousViewportTop := prevViewportTop;
    }

    /** The differential branch. */
    method RenderChanges(prevViewportTop: nat, f: Frame, firstChanged: nat, lastChanged: nat)
      requires Coupled(Shadow(), terminal) && !WillClear(Shadow(), terminal) && !ShrinkRedraw(Shadow(), f)
      requires f.Valid(|terminal.rows|) && prevViewportTop == previousViewportTop && previousLines != []
      requires prevViewportTop <= firstChanged < |f.lines| && firstChanged <= |previousLines|
      requires previousLines[..firstChanged] == f.lines[..firstChanged]
      requires firstChanged < |previousLines| ==> previousLines[firstChanged] != f.lines[firstChanged]
      requires firstChanged <= lastChanged == LastChanged(previousLines, f.lines)
      modifies this`previousLines, this`previousWidth, this`previousHeight, this`hardwareCursorRow,
               this`maxLinesRendered, this`previousViewportTop, this`terminal
      ensures Renders(old(Shadow()), old(terminal), f, Shadow(), terminal)
    {
      ghost var i, s := Shadow(), terminal;
      ChangeInWindow(i, s, f, firstChanged);
      LastChangedCovers(previousLines, f.lines);
      var buffer, finalCursorRow, viewportTop :=
        WriteChanges(terminal, previousLines, f.lines, prevViewportTop, hardwareCursorRow, firstChanged, lastChanged);
      ChangesAreDrawn(i, s, f, buffer, viewportTop, finalCursorRow);
      terminal := buffer;
      hardwareCursorRow := finalCursorRow;
      maxLinesRendered := Max(maxLinesRendered, |f.lines|);
      previousViewportTop := viewportTop;
      Commit(i, s, f);
    }

    /** Compares the frame with the one before, and chooses what to write. */
    method RenderDifference(prevViewportTop: nat, f: Frame)
      requires Coupled(Shadow(), terminal) && !WillClear(Shadow(), terminal) && !ShrinkRedraw(Shadow(), f)
      requires f.Valid(|terminal.rows|) && prevViewportTop == previousViewportTop && previousLines != []
      modifies this`previousLines, this`previousWidth, this`previousHeight, this`hardwareCursorRow,
               this`maxLinesRendered, this`previousViewportTop, this`terminal
      ensures Renders(old(Shadow()), old(terminal), f, Shadow(), terminal)
    {
      ghost var i, s := Shadow(), terminal;
      var height, newLines, cursorPos := |terminal.rows|, f.lines, f.cursor;
      var firstChanged, lastChanged := FindChanges(previousLines, newLines);
      if firstChanged == -1 {
        Unchanged(i, s, f);
        PositionHardwareCursor(cursorPos, |newLines|);
        previousViewportTop := prevViewportTop;
        previousHeight := height;
        return;
      }
      if firstChanged >= |newLines| {
        DeletedTail(i, s, f, firstChanged);
        RenderDeletion(prevViewportTop, f);
        return;
      }
      if firstChanged < prevViewportTop {
        ChangeAbove(i, s, f, firstChanged);
        var preserveScrollback := |newLines| > height && |newLines| >= |previousLines|;
        FullRender(true, preserveScrollback || f.preserveViewport, prevViewportTop, f);
        return;
      }
      RenderChanges(prevViewportTop, f, firstChanged, lastChanged);
    }

    /** Chooses the branch for one frame. */
    method RenderFrame(f: Frame)
      requires Inv(Shadow(), terminal) && f.Valid(|terminal.rows|)
      modifies this`previousLines, this`previousWidth, this`previousHeight, this`hardwareCursorRow,
               this`maxLinesRendered, this`previousViewportTop, this`terminal
      ensures Renders(old(Shadow()), old(terminal), f, Shadow(), terminal)
    {
      var width, height := terminal.cols, |terminal.rows|;
      var widthChanged := previousWidth != 0 && previousWidth != width;
      var heightChanged := previousHeight != 0 && previousHeight != height;
      var previousBufferLength := if previousHeight > 0 then previousViewportTop + previousHeight else height;
      var prevViewportTop := if heightChanged then Max(0, previousBufferLength - height) else previousViewportTop;
      var newLines := f.lines;
      if |previousLines| == 0 && !widthChanged && !heightChanged {
        FullRender(false, false, prevViewportTop, f);
        return;
      }
      if widthChanged || heightChanged {
        FullRender(true, false, prevViewportTop, f);
        return;
      }
      if f.clearOnShrink && |newLines| < maxLinesRendered && !f.overlays {
        FullRender(true, f.preserveViewport, prevViewportTop, f);
        return;
      }
      RenderDifference(prevViewportTop, f);
    }

    /**
     Draws the rendered lines inline: whatever branch this takes, the screen, the scrollback,
     the cursor and the shadow end as `Renders` says.
     */
    method RenderInline(raw: seq<RawLine>, overlays: bool, preserveViewport: bool)
      requires Inv(Shadow(), terminal)
      modifies this`previousLines, this`previousWidth, this`previousHeight, this`hardwareCursorRow,
               this`maxLinesRendered, this`previousViewportTop, this`terminal
      ensures Renders(old(Shadow()), old(terminal),
                      FrameOf(raw, |old(terminal).rows|, overlays, preserveViewport, clearOnShrink),
                      Shadow(), terminal)
    {
      var height := |terminal.rows|;
      var newLines, cursorPos := ExtractCursorPosition(raw, height);
      newLines := ApplyLineResets(newLines);
      var f := Frame(newLines, cursorPos, overlays, preserveViewport, clearOnShrink);
      assert f == FrameOf(raw, height, overlays, preserveViewport, clearOnShrink);
      FrameOfIsValid(raw, height, overlays, preserveViewport, clearOnShrink);
      RenderFrame(f);
    }

    // ---- Events ------------------------------------------------------------

    ghost function State(): World
      reads this
    {
      World(Shadow(), fullscreen, terminal)
    }

    /** While fullscreen the frame goes to the alternate screen, so the primary one is untouched. */
    method DoRender(raw: seq<RawLine>, overlays: bool)
      requires terminal.Valid() && (fullscreen == None ==> Inv(Shadow(), terminal))
      modifies this
      ensures !preserveViewportOnNextRender && clearOnShrink == old(clearOnShrink)
      ensures Next(old(State()),
                   Render(FrameOf(raw, |old(terminal).rows|, overlays, old(preserveViewportOnNextRender),
                                  clearOnShrink)),
                   State())
    {
      if fullscreen.Some? {
        preserveViewportOnNextRender := false;
        return;
      }
      var preserveViewport := preserveViewportOnNextRender;
      preserveViewportOnNextRender := false;
      RenderInline(raw, overlays, preserveViewport);
    }

    /** The forced redraw itself is the `DoRender` that follows. */
    method RequestForcedRender()
      requires terminal.Valid()
      modifies this`previousWidth, this`hardwareCursorRow, this`maxLinesRendered
      ensures Next(old(State()), Force, State())
    {
      previousWidth := -1;
      hardwareCursorRow := 0;
      maxLinesRendered := 0;
    }

    method EnterFullscreen()
      requires terminal.Valid()
      modifies this`fullscreen
      ensures Next(old(State()), Enter, State())
    {
      if fullscreen.Some? {
        return;
      }
      fullscreen := Some(Inline(previousLines, previousWidth, previousHeight, hardwareCursorRow,
                                maxLinesRendered, previousViewportTop));
    }

    /** Restores the inline state; with `flush`, draws what was produced while fullscreen. */
    method ExitFullscreen(flush: bool, raw: seq<RawLine>, overlays: bool) returns (ghost left: World)
      requires terminal.Valid() && WorldInv(State())
      modifies this
      ensures Next(old(State()), Leave, left) && clearOnShrink == old(clearOnShrink)
      ensures if old(fullscreen).Some? && flush
              then Next(left, Render(FrameOf(raw, |left.screen.rows|, overlays,
                                             old(preserveViewportOnNextRender), clearOnShrink)), State())
              else State() == left
    {
      if fullscreen == None {
        left := State();
        return;
      }
      var inlineState := fullscreen.value;
      fullscreen := None;
      previousLines := inlineState.previousLines;
      previousWidth := inlineState.previousWidth;
      previousHeight := inlineState.previousHeight;
      hardwareCursorRow := inlineState.hardwareCursorRow;
      maxLinesRendered := inlineState.maxLinesRendered;
      previousViewportTop := inlineState.previousViewportTop;
      left := State();
      if flush {
        DoRender(raw, overlays);
      }
    }
  }

  // ---- Which branch a change takes ---------------------------------------------

  lemma Unchanged(i: Inline, s: Screen, f: Frame)
    requires Coupled(i, s) && !WillClear(i, s) && !ShrinkRedraw(i, f) && f.lines == i.previousLines != []
    ensures !Redraws(i, s, f) && !LeavesFirstRow(i, s, f)
    ensures TopAfter(i, s, f) == i.previousViewportTop && HistoryAfter(i, s, f) == s.history
    ensures RowsAfter(i, s, f) == s.rows && MaxLinesAfter(i, s, f) == i.maxLinesRendered
    ensures RestRow(i, s, f) == i.hardwareCursorRow
    ensures i.previousWidth == s.cols
  {
    var top := i.previousViewportTop;
    assert s.history + Rows(f.lines[top..top]) == s.history;
  }

  lemma DeletedTail(i: Inline, s: Screen, f: Frame, first: nat)
    requires Coupled(i, s) && !WillClear(i, s) && !ShrinkRedraw(i, f) && i.previousLines != []
             && f.lines != i.previousLines
    requires first == |f.lines| <= |i.previousLines| && i.previousLines[..first] == f.lines[..first]
    ensures f.lines < i.previousLines
    ensures Redraws(i, s, f) <==> Max(0, |f.lines| - 1) < i.previousViewportTop
    ensures !Redraws(i, s, f) ==> HistoryAfter(i, s, f) == s.history && TopAfter(i, s, f) == i.previousViewportTop
  {
    var top, lines := i.previousViewportTop, f.lines;
    assert lines[..first] == lines && lines <= i.previousLines;
    assert top <= first ==> lines[..top] == i.previousLines[..first][..top];
    if top <= |lines| {
      assert s.history + Rows(lines[top..top]) == s.history;
    }
  }

  lemma ChangeAbove(i: Inline, s: Screen, f: Frame, first: nat)
    requires first < |f.lines| && first < |i.previousLines| && first < i.previousViewportTop
    requires i.previousLines[first] != f.lines[first]
    ensures ChangesAbove(i.previousLines, f.lines, i.previousViewportTop)
  {
    var top := i.previousViewportTop;
    if top <= |f.lines| && top <= |i.previousLines| {
      assert f.lines[..top][first] != i.previousLines[..top][first];
    }
  }

  lemma ChangeInWindow(i: Inline, s: Screen, f: Frame, first: nat)
    requires i.previousViewportTop <= first < |f.lines| && first <= |i.previousLines| && i.previousLines != []
    requires i.previousLines[..first] == f.lines[..first]
    requires first < |i.previousLines| ==> i.previousLines[first] != f.lines[first]
    requires !WillClear(i, s) && !ShrinkRedraw(i, f)
    ensures !Redraws(i, s, f) && !(f.lines <= i.previousLines)
  {
    var top := i.previousViewportTop;
    assert f.lines[..top] == f.lines[..first][..top];
    assert i.previousLines[..top] == i.previousLines[..first][..top];
  }
}
