/** The fullscreen viewport: the fields and methods that `FullscreenSpec` describes. */
module FullscreenViewport {

  import opened Common
  import opened Terminal
  import opened FullscreenSpec

  class FullscreenViewport {
    // Cutting a line to a width, the plain text of its columns, marking some of those as
    // selected, and replacing an image: what this model does not look into.
    const clamp: Clamp
    const plain: string -> string
    const mark: (string, nat, nat) -> string
    const still: string -> string

    var scrollTop: nat
    var following: bool
    var prevFrame: seq<string>
    var prevWidth: nat
    var prevHeight: nat
    var lastMaxScroll: nat
    var lastWindowHeight: nat
    var lastTranscript: seq<string>
    var lastFrameVisibleStart: nat
    var lastFrameVisibleHeight: nat
    var selectionAnchor: Option<Point>
    var selectionHead: Option<Point>

    ghost predicate Valid()
      reads this
    {
      TheScroll().Valid() && (selectionAnchor.Some? <==> selectionHead.Some?)
    }

    function TheScroll(): Scroll
      reads this
    {
      Scroll(scrollTop, following, lastMaxScroll)
    }

    function ThePainter(): Painter
      reads this
    {
      Painter(prevFrame, prevWidth, prevHeight)
    }

    function TheView(): View
      reads this
    {
      View(TheScroll(), lastTranscript, lastWindowHeight)
    }

    /** The screen shows the frame from its first line on, and all of the window. */
    ghost predicate Aligned()
      reads this
    {
      VisibleStart() == 0 && lastWindowHeight <= VisibleHeight()
    }

    constructor (clamp: Clamp, plain: string -> string, mark: (string, nat, nat) -> string, still: string -> string)
      ensures Valid() && following && TheScroll() == Scroll(0, true, 0) && ThePainter() == Painter([], 0, 0)
      ensures lastWindowHeight == 0 && lastTranscript == [] && selectionAnchor == None && Aligned()
    {
      this.clamp, this.plain, this.mark, this.still := clamp, plain, mark, still;
      scrollTop, following, lastMaxScroll, lastWindowHeight, lastTranscript := 0, true, 0, 0, [];
      prevFrame, prevWidth, prevHeight := [], 0, 0;
      lastFrameVisibleStart, lastFrameVisibleHeight := 0, 0;
      selectionAnchor, selectionHead := None, None;
    }

    // ---- Composing and scrolling ----------------------------------------------------------

    function Selection(): Option<Range>
      reads this
    {
      if selectionAnchor.Some? && selectionHead.Some? then Ordered(selectionAnchor.value, selectionHead.value) else None
    }

    /** A transcript line as the window shows it. */
    function Displayed(line: string, index: nat): string
      reads this
    {
      var sel := Selection();
      if sel.Some? && sel.value.start.line <= index <= sel.value.end.line
      then Highlighted(still(line), Span(|plain(still(line))|, index, sel.value)) else still(line)
    }

    function Highlighted(line: string, span: (nat, nat)): string {
      if span.1 <= span.0 then line else mark(line, span.0, span.1)
    }

    predicate IsSelected(index: nat, col: nat)
      reads this
    {
      Selection().Some? && Selects(Selection().value, Point(index, col))
    }

    /** The part of a line that is marked is exactly the part that is selected. */
    lemma MarksWhatIsSelected(line: string, index: nat, from: nat, to: nat)
      requires from <= to <= |plain(still(line))|
      requires forall col: nat :: col < |plain(still(line))| ==>
                 Between(from, col, to) == IsSelected(index, col)
      ensures Displayed(line, index) == if from == to then still(line) else mark(still(line), from, to)
    {
      var width := |plain(still(line))|;
      if from < to {
        assert Between(from, from, to) && IsSelected(index, from);
      }
      if Selection().Some? && Selection().value.start.line <= index <= Selection().value.end.line {
        var span := Span(width, index, Selection().value);
        forall col: nat | col < width ensures Between(span.0, col, span.1) == Between(from, col, to) {
          SpanIsSelected(width, index, Selection().value, col);
        }
        SameColumns(width, span.0, span.1, from, to);
      }
    }

    /** The lines in the window, and blank ones below the transcript. */
    method Window(transcript: seq<string>, windowHeight: nat) returns (window: seq<string>)
      ensures |window| == windowHeight
      ensures forall k :: 0 <= k < windowHeight ==>
                window[k] ==
                if scrollTop + k < |transcript| then Displayed(transcript[scrollTop + k], scrollTop + k) else ""
    {
      var first := transcript[Min(scrollTop, |transcript|)..Min(scrollTop + windowHeight, |transcript|)];
      window := [];
      var i := 0;
      while i < |first|
        invariant 0 <= i == |window| <= |first|
        invariant forall k :: 0 <= k < i ==> window[k] == Displayed(transcript[scrollTop + k], scrollTop + k)
        modifies {}
      {
        window := window + [Displayed(first[i], scrollTop + i)];
        i := i + 1;
      }
      while |window| < windowHeight
        invariant |first| <= |window| <= windowHeight
        invariant forall k :: 0 <= k < |first| ==> window[k] == Displayed(transcript[scrollTop + k], scrollTop + k)
        invariant forall k :: |first| <= k < |window| ==> window[k] == ""
        decreases windowHeight - |window|
        modifies {}
      {
        window := window + [""];
      }
    }

    /**
     A frame of exactly `height` lines: the window, blank below the transcript, over the
     bottom lines of the dock.
     */
    method ComposeFrame(transcript: seq<string>, dock: seq<string>, height: nat) returns (frame: seq<string>)
      requires Valid()
      modifies this`scrollTop, this`lastMaxScroll, this`lastWindowHeight, this`lastTranscript
      ensures Valid()
      ensures |frame| == height && lastWindowHeight == height - DockHeight(|dock|, height)
      ensures lastTranscript == transcript
      ensures TheScroll() == old(TheScroll()).Composed(|transcript|, lastWindowHeight)
      ensures forall i :: 0 <= i < lastWindowHeight ==>
                frame[i] ==
                if scrollTop + i < |transcript| then Displayed(transcript[scrollTop + i], scrollTop + i) else ""
      ensures forall i :: lastWindowHeight <= i < height ==> frame[i] == dock[|dock| - height + i]
    {
      var dockLines := dock;
      var dockHeight := DockHeight(|dock|, height);
      if |dockLines| > dockHeight {
        dockLines := dockLines[|dockLines| - dockHeight..];
      }
      var windowHeight := height - |dockLines|;
      var maxScroll := Max(0, |transcript| - windowHeight);
      scrollTop := if following then maxScroll else Max(0, Min(scrollTop, maxScroll));
      lastMaxScroll := maxScroll;
      lastWindowHeight := windowHeight;
      lastTranscript := transcript;

      var window := Window(transcript, windowHeight);
      frame := window + dockLines;
    }

    method ScrollBy(delta: int)
      requires Valid()
      modifies this`scrollTop, this`following
      ensures Valid() && TheScroll() == old(TheScroll()).By(delta)
    {
      var start := if following then lastMaxScroll else scrollTop;
      scrollTop := Max(0, Min(start + delta, lastMaxScroll));
      following := scrollTop >= lastMaxScroll;
    }

    method ScrollToTop()
      requires Valid()
      modifies this`scrollTop, this`following
      ensures Valid() && TheScroll() == old(TheScroll()).ToTop()
    {
      scrollTop := 0;
      following := lastMaxScroll == 0;
    }

    method ScrollToBottom()
      requires Valid()
      modifies this`scrollTop, this`following
      ensures Valid() && TheScroll() == old(TheScroll()).ToBottom()
    {
      scrollTop := lastMaxScroll;
      following := true;
    }

    // ---- Painting ------------------------------------------------------------------------------

    /** CUP, EL, and the line, which is nothing when empty. */
    method RewriteRow(screen: Screen, row: nat, text: string) returns (after: Screen)
      requires screen.Valid() && row < |screen.rows|
      ensures after.Valid() && after.cols == screen.cols && after.history == screen.history
      ensures after.rows == screen.rows[row := Cell(text)]
    {
      after := screen.Apply(MoveTo(row + 1, 1)).Apply(EraseLine);
      if text != "" {
        after := after.Apply(Print(text));
      }
    }

    /** Writes the rows that differ from the frame before, each with absolute addressing. */
    method Paint(screen: Screen, frame: seq<string>, cursor: Option<(nat, nat)>) returns (after: Screen)
      requires screen.Valid()
      modifies this`prevFrame, this`prevWidth, this`prevHeight
      ensures after.Valid() && Paints(clamp, old(ThePainter()), screen, frame, ThePainter(), after)
      ensures cursor.Some? ==>
                && after.row == Min(cursor.value.0, |screen.rows| - 1)
                && after.col == Some(Min(cursor.value.1, screen.cols - 1))
    {
      var width, height := screen.cols, |screen.rows|;
      var lines := if |frame| > height then frame[|frame| - height..] else frame;
      ghost var before := ThePainter();
      after := screen;
      if width != prevWidth || height != prevHeight || |prevFrame| == 0 {
        after := after.Apply(EraseScreen).Apply(Home);
        prevFrame := [];
      }
      var row := 0;
      while row < height
        invariant 0 <= row <= height
        invariant after.Valid() && after.cols == width && |after.rows| == height && after.history == screen.history
        invariant forall r :: 0 <= r < row ==>
                    after.rows[r] == if Skips(before, screen, frame, r) then screen.rows[r]
                                     else Cell(clamp(LineAt(lines, r), width))
        invariant prevFrame != [] ==> forall r :: row <= r < height ==> after.rows[r] == screen.rows[r]
        modifies {}
      {
        var line := LineAt(lines, row);
        if !(row < |prevFrame| && prevFrame[row] == line) {
          after := RewriteRow(after, row, clamp(line, width));
        }
        row := row + 1;
      }
      if cursor.Some? {
        after := after.Apply(MoveTo(Min(cursor.value.0, height - 1) + 1, cursor.value.1 + 1));
      }
      prevFrame := lines;
      prevWidth := width;
      prevHeight := height;
    }

    /** The next paint clears and repaints everything. */
    method Reset()
      modifies this`prevFrame
      ensures ThePainter() == old(ThePainter()).(frame := [])
    {
      prevFrame := [];
    }

    /** Remembers which lines of the final frame, overlays included, are on the screen. */
    method ApplyFrameSelection(frame: seq<string>, height: nat)
      modifies this`lastFrameVisibleStart, this`lastFrameVisibleHeight
      ensures lastFrameVisibleHeight == Min(height, |frame|)
      ensures lastFrameVisibleStart + lastFrameVisibleHeight == |frame|
      ensures forall r :: 0 <= r < lastFrameVisibleHeight ==>
                frame[lastFrameVisibleStart + r] == LineAt(Cropped(frame, height), r)
    {
      lastFrameVisibleHeight := Min(Max(0, height), |frame|);
      lastFrameVisibleStart := Max(0, |frame| - lastFrameVisibleHeight);
    }

    // ---- Selecting ------------------------------------------------------------------------------

    /** The rows of the screen, and the line of the frame its first row shows. */
    function VisibleHeight(): nat
      reads this
    {
      if lastFrameVisibleHeight > 0 then lastFrameVisibleHeight else lastWindowHeight
    }

    function VisibleStart(): nat
      reads this
    {
      if lastFrameVisibleHeight > 0 then lastFrameVisibleStart else 0
    }

    /** The lines of the frame that are on the screen and belong to the window. */
    function Bounds(): (b: Option<(nat, nat)>)
      reads this
      ensures b.Some? <==> exists row: nat :: row < VisibleHeight() && InWindow(row)
      ensures b.Some? ==> VisibleStart() <= b.value.0 <= b.value.1 < lastWindowHeight
      ensures b.Some? ==> forall row: nat :: row < VisibleHeight() && InWindow(row) <==>
                                               b.value.0 <= VisibleStart() + row <= b.value.1
    {
      if lastWindowHeight <= 0 || VisibleHeight() <= 0 then None
      else
        var start := Max(0, VisibleStart());
        var end := Min(lastWindowHeight - 1, VisibleStart() + VisibleHeight() - 1);
        if start > end then None
        else
          assert InWindow(0);
          Some((start, end))
    }

    predicate InWindow(row: nat)
      reads this
    {
      VisibleStart() + row < lastWindowHeight
    }

    /** The transcript line in the window that is nearest to a screen row. */
    function Nearest(screenRow: int): (line: nat)
      reads this
      requires Bounds().Some?
      ensures scrollTop + Bounds().value.0 <= line <= scrollTop + Bounds().value.1
      ensures IsNearest(line, scrollTop + Bounds().value.0, scrollTop + Bounds().value.1,
                        scrollTop + VisibleStart() + screenRow)
    {
      scrollTop + Max(Bounds().value.0, Min(VisibleStart() + screenRow, Bounds().value.1))
    }

    method LineForScreenRow(screenRow: int, clamped: bool) returns (line: Option<nat>)
      ensures !clamped ==> (line.Some? <==> 0 <= screenRow < VisibleHeight() && InWindow(screenRow))
      ensures line.Some? && 0 <= screenRow < VisibleHeight() && InWindow(screenRow) ==>
                line.value == scrollTop + VisibleStart() + screenRow
      ensures clamped ==> (line.Some? <==> Bounds().Some?)
      ensures line.Some? ==> line.value == Nearest(screenRow)
    {
      var bounds := Bounds();
      if bounds == None {
        return None;
      }
      if !clamped && !(0 <= screenRow < VisibleHeight()) {
        return None;
      }
      var row := if clamped then Max(0, Min(screenRow, VisibleHeight() - 1)) else screenRow;
      var frameLine := VisibleStart() + row;
      if !clamped && !(bounds.value.0 <= frameLine <= bounds.value.1) {
        return None;
      }
      line := Some(scrollTop + Max(bounds.value.0, Min(frameLine, bounds.value.1)));
    }

    method ClearSelection()
      modifies this`selectionAnchor, this`selectionHead
      ensures selectionAnchor == selectionHead == None
    {
      selectionAnchor, selectionHead := None, None;
    }

    /** Anchors a selection to the transcript line shown under the pointer; fails outside the window. */
    method BeginSelection(screenRow: int, screenCol: int) returns (ok: bool)
      requires Valid()
      modifies this`selectionAnchor, this`selectionHead
      ensures Valid()
      ensures ok <==> 0 <= screenRow < VisibleHeight() && InWindow(screenRow)
      ensures ok ==>
                selectionAnchor == selectionHead ==
                Some(Point(scrollTop + VisibleStart() + screenRow, Max(0, screenCol)))
      ensures !ok ==> selectionAnchor == selectionHead == None
    {
      var line := LineForScreenRow(screenRow, false);
      if line == None {
        ClearSelection();
        return false;
      }
      var point := Point(line.value, Max(0, screenCol));
      selectionAnchor, selectionHead := Some(point), Some(point);
      ok := true;
    }

    /** Moves the head of the selection, clamped to the window. */
    method ExtendSelection(screenRow: int, screenCol: int)
      requires Valid()
      modifies this`selectionHead
      ensures Valid()
      ensures selectionAnchor == None || Bounds() == None ==> selectionHead == old(selectionHead)
      ensures selectionAnchor.Some? && Bounds().Some? ==>
                selectionHead == Some(Point(Nearest(screenRow), Max(0, screenCol)))
      ensures selectionAnchor.Some? && 0 <= screenRow < VisibleHeight() && InWindow(screenRow) ==>
                selectionHead == Some(Point(scrollTop + VisibleStart() + screenRow, Max(0, screenCol)))
    {
      if selectionAnchor == None {
        return;
      }
      var line := LineForScreenRow(screenRow, true);
      if line == None {
        return;
      }
      selectionHead := Some(Point(line.value, Max(0, screenCol)));
    }

    /** Scrolls by one row while dragging, and takes the selection along. */
    method ScrollSelection(up: bool, screenCol: int) returns (moved: bool)
      requires Valid()
      modifies this`scrollTop, this`following, this`selectionHead
      ensures Valid()
      ensures selectionAnchor == None ==> !moved && TheScroll() == old(TheScroll())
      ensures selectionAnchor.Some? ==> TheScroll() == old(TheScroll()).By(if up then -1 else 1)
      ensures moved <==> selectionAnchor.Some? && scrollTop != old(scrollTop) && Bounds().Some?
      ensures moved ==>
                selectionHead ==
                Some(Point(scrollTop + (if up then Bounds().value.0 else Bounds().value.1), Max(0, screenCol)))
      ensures !moved ==> selectionHead == old(selectionHead)
    {
      if selectionAnchor == None {
        return false;
      }
      var previousScrollTop := scrollTop;
      ScrollBy(if up then -1 else 1);
      if scrollTop == previousScrollTop {
        return false;
      }
      var bounds := Bounds();
      if bounds == None {
        return false;
      }
      var edge := if up then bounds.value.0 else bounds.value.1;
      ExtendSelection(edge - VisibleStart(), screenCol);
      moved := true;
    }

    /** The selected text of the transcript composed last; the selection is gone. */
    method EndSelection() returns (text: Option<string>)
      requires Valid()
      modifies this`selectionAnchor, this`selectionHead
      ensures Valid() && selectionAnchor == None
      ensures text == if old(selectionAnchor).Some?
                      then Selected(plain, lastTranscript, old(selectionAnchor).value, old(selectionHead).value)
                      else None
    {
      text := None;
      var sel := Selection();
      if sel.Some? {
        text := ExtractSelectionText(sel.value);
      }
      ClearSelection();
    }

    method ExtractSelectionText(range: Range) returns (text: Option<string>)
      requires range.start.line <= range.end.line
      ensures text == TextOf(Lines(plain, lastTranscript, range, range.end.line))
    {
      var lines := CollectLines(range);
      text := TextOf(lines);
    }

    /** The loop over the selected lines. */
    method CollectLines(range: Range) returns (lines: seq<string>)
      requires range.start.line <= range.end.line
      ensures lines == Lines(plain, lastTranscript, range, range.end.line)
    {
      lines := [];
      var index := range.start.line;
      while index <= range.end.line
        invariant range.start.line <= index <= range.end.line + 1
        invariant Extracted(lines, lastTranscript, range, index)
      {
        var line := CoveredAt(plain, lastTranscript, range, index);
        ExtractedNext(lines, lastTranscript, range, index);
        lines := lines + [line];
        index := index + 1;
      }
    }

    /** The lines of a range before `index`. */
    ghost predicate Extracted(lines: seq<string>, transcript: seq<string>, range: Range, index: nat)
    {
      if index <= range.start.line then lines == []
      else index <= range.end.line + 1 && lines == Lines(plain, transcript, range, index - 1)
    }

    lemma ExtractedNext(lines: seq<string>, transcript: seq<string>, range: Range, index: nat)
      requires range.start.line <= index <= range.end.line && Extracted(lines, transcript, range, index)
      ensures Extracted(lines + [CoveredAt(plain, transcript, range, index)], transcript, range, index + 1)
    {
    }
  }

  // ---- Whole drags ---------------------------------------------------------------------------

  /** What happens to a viewport between the two ends of a drag. */
  datatype Gesture =
    | Wheel(delta: int)
    | JumpToTop
    | JumpToBottom
    | Redraw(more: seq<string>, dock: seq<string>, height: nat) // the transcript has grown by `more`

  function Event(g: Gesture): ViewEvent {
    match g
    case Wheel(delta) => ViewEvent.ScrollBy(delta)
    case JumpToTop => ViewEvent.ScrollToTop
    case JumpToBottom => ViewEvent.ScrollToBottom
    case Redraw(more, dock, height) => Compose(more, height - DockHeight(|dock|, height))
  }

  function Events(gestures: seq<Gesture>): (es: seq<ViewEvent>)
    ensures |es| == |gestures|
  {
    seq(|gestures|, i requires 0 <= i < |gestures| => Event(gestures[i]))
  }

  lemma EventsOneMore(gestures: seq<Gesture>, i: nat)
    requires i < |gestures|
    ensures Events(gestures[..i + 1]) == Events(gestures[..i]) + [Event(gestures[i])]
  {
  }

  lemma RunOneMore(view: View, es: seq<ViewEvent>, e: ViewEvent)
    requires view.Valid()
    ensures view.Run(es + [e]) == view.Run(es).Next(e)
  {
    assert (es + [e])[..|es|] == es;
  }

  method Apply(v: FullscreenViewport, g: Gesture, transcript: seq<string>) returns (now: seq<string>)
    requires v.Valid() && v.lastTranscript == transcript
    modifies v`scrollTop, v`following, v`lastMaxScroll, v`lastWindowHeight, v`lastTranscript
    modifies v`lastFrameVisibleStart, v`lastFrameVisibleHeight
    ensures v.Valid() && v.lastTranscript == now
    ensures v.TheView() == old(v.TheView()).Next(Event(g))
    ensures old(v.Aligned()) ==> v.Aligned()
  {
    now := transcript;
    match g
    case Wheel(delta) => v.ScrollBy(delta);
    case JumpToTop => v.ScrollToTop();
    case JumpToBottom => v.ScrollToBottom();
    case Redraw(more, dock, height) =>
      now := transcript + more;
      var frame := v.ComposeFrame(now, dock, height);
      v.ApplyFrameSelection(frame, height);
  }

  /** Gestures one after the other. */
  method ApplyAll(v: FullscreenViewport, gestures: seq<Gesture>)
    requires v.Valid()
    modifies v`scrollTop, v`following, v`lastMaxScroll, v`lastWindowHeight, v`lastTranscript
    modifies v`lastFrameVisibleStart, v`lastFrameVisibleHeight
    ensures v.Valid() && v.TheView() == old(v.TheView()).Run(Events(gestures))
    ensures old(v.Aligned()) ==> v.Aligned()
  {
    var transcript := v.lastTranscript;
    ghost var view := v.TheView();
    for i := 0 to |gestures|
      invariant v.Valid() && v.lastTranscript == transcript
      invariant v.TheView() == view.Run(Events(gestures[..i]))
      invariant old(v.Aligned()) ==> v.Aligned()
    {
      EventsOneMore(gestures, i);
      RunOneMore(view, Events(gestures[..i]), Event(gestures[i]));
      transcript := Apply(v, gestures[i], transcript);
    }
    assert gestures[..|gestures|] == gestures;
  }

  /** The head a pointer at `to` gives a selection begun at `anchor`, in a window over `view`. */
  function HeadAt(view: View, anchor: Point, to: (int, int)): Point
    requires view.Valid()
  {
    if view.windowHeight == 0 then anchor
    else Point(view.scroll.top + Max(0, Min(to.0, view.windowHeight - 1)), Max(0, to.1))
  }

  /** From the press of the button to the pointer at `to`, with gestures between them. */
  method Pull(v: FullscreenViewport, gestures: seq<Gesture>, to: (int, int))
    requires v.Valid() && v.selectionAnchor.Some? && v.selectionHead == v.selectionAnchor
    modifies v`scrollTop, v`following, v`lastMaxScroll, v`lastWindowHeight, v`lastTranscript
    modifies v`lastFrameVisibleStart, v`lastFrameVisibleHeight, v`selectionHead
    ensures v.Valid() && v.TheView() == old(v.TheView()).Run(Events(gestures))
    ensures old(v.Aligned()) ==> v.selectionHead == Some(HeadAt(v.TheView(), v.selectionAnchor.value, to))
  {
    ApplyAll(v, gestures);
    v.ExtendSelection(to.0, to.1);
  }

  /** A drag up to where it is extended; it begins only on a row of the window. */
  method Press(v: FullscreenViewport, from: (int, int), gestures: seq<Gesture>, to: (int, int))
    returns (ok: bool, anchor: Point, head: Point)
    requires v.Valid()
    modifies v
    ensures v.Valid()
    ensures ok <==> old(0 <= from.0 < v.VisibleHeight() && v.InWindow(from.0))
    ensures !ok ==> v.TheView() == old(v.TheView())
    ensures ok ==> v.TheView() == old(v.TheView()).Run(Events(gestures))
    ensures ok ==> v.selectionAnchor == Some(anchor) && v.selectionHead == Some(head)
    ensures ok ==> anchor == Point(old(v.scrollTop + v.VisibleStart()) + from.0, Max(0, from.1))
    ensures ok && old(v.Aligned()) ==> head == HeadAt(v.TheView(), anchor, to)
  {
    anchor, head := Point(0, 0), Point(0, 0);
    ok := v.BeginSelection(from.0, from.1);
    if ok {
      anchor := v.selectionAnchor.value;
      Pull(v, gestures, to);
      head := v.selectionHead.value;
    }
  }

  lemma DragKeepsSelection(plain: string -> string, start: View, first: seq<ViewEvent>, second: seq<ViewEvent>,
                           anchor: Point, head: Point)
    requires start.Valid()
    ensures var extended := start.Run(first);
            var end := extended.Run(second).transcript;
            && (Inside(|extended.transcript|, anchor, head) ==>
                  Selected(plain, end, anchor, head) == Selected(plain, extended.transcript, anchor, head))
            && (Inside(|start.transcript|, anchor, head) ==>
                  Selected(plain, end, anchor, head) == Selected(plain, start.transcript, anchor, head))
  {
    var extended := start.Run(first);
    if Inside(|extended.transcript|, anchor, head) {
      RunKeepsSelection(plain, extended, second, anchor, head);
    }
    if Inside(|start.transcript|, anchor, head) {
      RunKeepsSelection(plain, start, first, anchor, head);
      InsideGrows(|start.transcript|, |extended.transcript|, anchor, head);
      RunKeepsSelection(plain, extended, second, anchor, head);
    }
  }

  /**
   A whole drag: begun on a screen row, scrolled and redrawn over a growing transcript in any
   way, extended, scrolled and redrawn again, and ended. Its text runs from the line that was
   under the pointer at its start to the line of the window nearest the pointer at its end, and
   nothing appended meanwhile touches it when it is inside the transcript it was begun or
   extended on.
   */
  method Drag(v: FullscreenViewport, from: (int, int), first: seq<Gesture>, to: (int, int), second: seq<Gesture>)
    returns (ok: bool, text: Option<string>, anchor: Point, head: Point)
    requires v.Valid()
    modifies v
    ensures ok <==> old(0 <= from.0 < v.VisibleHeight() && v.InWindow(from.0))
    ensures !ok ==> text == None && v.TheView() == old(v.TheView())
    ensures ok ==> anchor == Point(old(v.scrollTop + v.VisibleStart()) + from.0, Max(0, from.1))
    ensures ok && old(v.Aligned()) ==> head == HeadAt(old(v.TheView()).Run(Events(first)), anchor, to)
    ensures ok ==> v.TheView() == old(v.TheView()).Run(Events(first)).Run(Events(second))
    ensures ok ==> text == Selected(v.plain, v.lastTranscript, anchor, head)
    ensures ok ==>
              var extended := old(v.TheView()).Run(Events(first)).transcript;
              Inside(|extended|, anchor, head) ==> text == Selected(v.plain, extended, anchor, head)
    ensures ok && Inside(|old(v.lastTranscript)|, anchor, head) ==>
              text == Selected(v.plain, old(v.lastTranscript), anchor, head)
  {
    text := None;
    ghost var start := v.TheView();
    ok, anchor, head := Press(v, from, first, to);
    if !ok {
      return;
    }
    ApplyAll(v, second);
    text := v.EndSelection();
    DragKeepsSelection(v.plain, start, Events(first), Events(second), anchor, head);
  }
}
