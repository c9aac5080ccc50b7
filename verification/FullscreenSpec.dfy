/**
 The fullscreen viewport, without its fields: what a row-by-row repaint must show, where
 the window over the transcript stands, and what a selection selects.
 */
module FullscreenSpec {

  import opened Common
  import opened Terminal

  // ---- Painting ------------------------------------------------------------------------

  /** What is remembered of the frame painted last. */
  datatype Painter = Painter(frame: seq<string>, width: nat, height: nat)

  /** Cuts an over-wide line to a number of columns. */
  type Clamp = (string, nat) -> string

  /** A row that holds one line from its first column; an empty line leaves it blank. */
  function Cell(text: string): Row {
    if text == "" then Blank else Shown(text)
  }

  /** Over-tall frames show their bottom lines. */
  function Cropped(frame: seq<string>, h: nat): (f: seq<string>)
    ensures |f| == Min(|frame|, h) && f == frame[|frame| - |f|..]
  {
    if |frame| > h then frame[|frame| - h..] else frame
  }

  function LineAt(frame: seq<string>, r: nat): string {
    if r < |frame| then frame[r] else ""
  }

  /** The screen after painting every row. */
  function Full(clamp: Clamp, frame: seq<string>, cols: nat, h: nat): (rows: seq<Row>)
    ensures |rows| == h
    ensures forall r :: 0 <= r < h ==> rows[r] == Cell(clamp(LineAt(Cropped(frame, h), r), cols))
  {
    seq(h, r requires r >= 0 => Cell(clamp(LineAt(Cropped(frame, h), r), cols)))
  }

  predicate Clears(p: Painter, s: Screen) {
    s.cols != p.width || |s.rows| != p.height || p.frame == []
  }

  /** The row is not written: the frame before had the same line there. */
  predicate Skips(p: Painter, s: Screen, frame: seq<string>, r: nat) {
    !Clears(p, s) && r < |p.frame| && p.frame[r] == LineAt(Cropped(frame, |s.rows|), r)
  }

  /** One paint: it writes the rows that are not skipped, and scrolls nothing. */
  ghost predicate Paints(clamp: Clamp, p: Painter, s: Screen, frame: seq<string>, p': Painter, s': Screen) {
    && p' == Painter(Cropped(frame, |s.rows|), s.cols, |s.rows|)
    && s'.cols == s.cols && s'.history == s.history && |s'.rows| == |s.rows|
    && forall r :: 0 <= r < |s.rows| ==>
         s'.rows[r] == if Skips(p, s, frame, r) then s.rows[r]
                       else Cell(clamp(LineAt(Cropped(frame, |s.rows|), r), s.cols))
  }

  /** The rows remembered are the rows on the screen, unless the next paint clears it. */
  ghost predicate Faithful(clamp: Clamp, p: Painter, s: Screen) {
    Clears(p, s) ||
    forall r :: 0 <= r < |s.rows| && r < |p.frame| ==> s.rows[r] == Cell(clamp(p.frame[r], s.cols))
  }

  /** A paint from a faithful memory shows the whole frame, and leaves the memory faithful. */
  lemma PaintIsFull(clamp: Clamp, p: Painter, s: Screen, frame: seq<string>, p': Painter, s': Screen)
    requires Paints(clamp, p, s, frame, p', s') && Faithful(clamp, p, s)
    ensures s'.rows == Full(clamp, frame, s.cols, |s.rows|)
    ensures Faithful(clamp, p', s')
  {
  }

  /** Faithfulness is exactly what it takes: without it, some frame is painted wrong. */
  lemma FaithfulExactly(clamp: Clamp, p: Painter, s: Screen)
    requires |p.frame| <= p.height
    ensures Faithful(clamp, p, s) <==>
              forall frame, p', s' {:trigger Paints(clamp, p, s, frame, p', s')} ::
                Paints(clamp, p, s, frame, p', s') ==> s'.rows == Full(clamp, frame, s.cols, |s.rows|)
  {
    if Faithful(clamp, p, s) {
      forall frame, p', s' | Paints(clamp, p, s, frame, p', s')
        ensures s'.rows == Full(clamp, frame, s.cols, |s.rows|)
      {
        PaintIsFull(clamp, p, s, frame, p', s');
      }
    } else {
      var r :| 0 <= r < |s.rows| && r < |p.frame| && s.rows[r] != Cell(clamp(p.frame[r], s.cols));
      var rows := seq(|s.rows|, k requires 0 <= k < |s.rows| =>
        if k < |p.frame| then s.rows[k] else Cell(clamp("", s.cols)));
      var s' := s.(rows := rows);
      assert Paints(clamp, p, s, p.frame, p, s');
      assert rows[r] != Full(clamp, p.frame, s.cols, |s.rows|)[r];
    }
  }

  /** What happens to a fullscreen session's screen. */
  datatype PaintEvent =
    | Paint(frame: seq<string>)
    | Reset
    | Disturbed(screen: Screen) // a resize, or anything else that touches the screen

  ghost predicate PaintStep(clamp: Clamp, p: Painter, s: Screen, e: PaintEvent, p': Painter, s': Screen) {
    match e
    case Paint(frame) => Paints(clamp, p, s, frame, p', s')
    case Reset => p' == p.(frame := []) && s' == s
    // seen at the next paint: the size changed, or a reset came before
    case Disturbed(screen) =>
      p' == p && s' == screen && (screen.cols != p.width || |screen.rows| != p.height || p.frame == [])
  }

  ghost predicate IsPaintRun(clamp: Clamp, ps: seq<Painter>, ss: seq<Screen>, es: seq<PaintEvent>) {
    && |ps| == |ss| == |es| + 1
    && forall k :: 0 <= k < |es| ==> PaintStep(clamp, ps[k], ss[k], es[k], ps[k + 1], ss[k + 1])
  }

  /** Row-diff painting refines full painting: over any run, after every paint the screen is the frame. */
  lemma {:induction false} RunPaintsFull(clamp: Clamp, ps: seq<Painter>, ss: seq<Screen>, es: seq<PaintEvent>, k: nat)
    requires IsPaintRun(clamp, ps, ss, es) && k <= |es| && Faithful(clamp, ps[0], ss[0])
    ensures Faithful(clamp, ps[k], ss[k])
    ensures k > 0 && es[k - 1].Paint? ==> ss[k].rows == Full(clamp, es[k - 1].frame, ss[k].cols, |ss[k].rows|)
  {
    if k > 0 {
      RunPaintsFull(clamp, ps, ss, es, k - 1);
      assert PaintStep(clamp, ps[k - 1], ss[k - 1], es[k - 1], ps[k], ss[k]);
      if es[k - 1].Paint? {
        PaintIsFull(clamp, ps[k - 1], ss[k - 1], es[k - 1].frame, ps[k], ss[k]);
      }
    }
  }

  /** A paint that does not show its frame. */
  ghost predicate PaintsWrong(clamp: Clamp, p: Painter, s: Screen, frame: seq<string>, p': Painter, s': Screen) {
    Paints(clamp, p, s, frame, p', s') && s'.rows != Full(clamp, frame, s.cols, |s.rows|)
  }

  /** A resize there and back that no paint saw is not noticed: a row that was lost stays lost. */
  lemma UnseenResize(clamp: Clamp, line: string) returns (p: Painter, s: Screen, p': Painter, s': Screen)
    requires clamp(line, 80) != ""
    ensures !Faithful(clamp, p, s) && PaintsWrong(clamp, p, s, [line], p', s')
  {
    var rows := [Blank];
    p, s := Painter([line], 80, 1), Screen(80, [], rows, 0, Some(0));
    p', s' := p, s;
    assert rows[0] != Cell(clamp(line, 80));
    assert rows[0] != Full(clamp, [line], 80, 1)[0];
  }

  function Distance(a: int, b: int): nat {
    if a < b then b - a else a - b
  }

  /** No line between `low` and `high` is nearer to `aim`. */
  ghost predicate IsNearest(line: nat, low: nat, high: nat, aim: int) {
    forall other: nat :: low <= other <= high ==> Distance(line, aim) <= Distance(other, aim)
  }

  // ---- Scrolling -------------------------------------------------------------------------

  /** Where the window stands: its first line, whether it follows the end, and the last such line. */
  datatype Scroll = Scroll(top: nat, following: bool, max: nat) {
    predicate Valid() {
      top <= max && (following ==> top == max)
    }

    /** As near to `delta` rows on as there is a position; at the end it follows. */
    function By(delta: int): (s: Scroll)
      requires Valid()
      ensures s.Valid() && s.max == max && s.following == (top + delta >= max || max == 0)
      ensures IsNearest(s.top, 0, max, top + delta)
    {
      var t := Max(0, Min(top + delta, max));
      Scroll(t, t >= max, max)
    }

    function ToTop(): (s: Scroll)
      ensures s.Valid() && s.max == max && s.top == 0 && (s.following <==> s.top == max)
    {
      Scroll(0, max == 0, max)
    }

    function ToBottom(): (s: Scroll)
      ensures s.Valid() && s.max == max && s.following
    {
      Scroll(max, true, max)
    }

    /** Composing a frame from `n` lines in a window of `h` rows. */
    function Composed(n: nat, h: nat): (s: Scroll)
      requires Valid()
      ensures s.Valid() && s.max == Max(0, n - h) && s.following == following
      ensures following ==> s.top == s.max
      ensures !following ==> (s.top == top <==> top <= s.max) && (s.top == s.max || s.top == top)
    {
      var m := Max(0, n - h);
      Scroll(if following then m else Min(top, m), following, m)
    }
  }

  const MIN_TRANSCRIPT_ROWS := 3

  /** As much of the dock as leaves the window its least height, if the screen has that. */
  function DockHeight(dock: nat, height: nat): (h: nat)
    ensures h <= dock && h <= height
    ensures Min(height, MIN_TRANSCRIPT_ROWS) <= height - h
    ensures h < dock ==> height - h == Min(height, MIN_TRANSCRIPT_ROWS)
  {
    Min(dock, Max(0, height - MIN_TRANSCRIPT_ROWS))
  }

  // ---- Selecting -----------------------------------------------------------------------------

  datatype Point = Point(line: nat, col: nat)

  predicate Precedes(a: Point, b: Point) {
    a.line < b.line || (a.line == b.line && a.col < b.col)
  }

  datatype Range = Range(start: Point, end: Point)

  /** The two ends in order; a point alone selects nothing. */
  function Ordered(a: Point, b: Point): Option<Range> {
    if a == b then None
    else if Precedes(b, a) then Some(Range(b, a))
    else Some(Range(a, b))
  }

  /** Dragging the other way selects the same. */
  lemma OrderedEitherWay(a: Point, b: Point)
    ensures Ordered(a, b) == Ordered(b, a)
    ensures Ordered(a, b).Some? <==> a != b
    ensures Ordered(a, b).Some? ==> Precedes(Ordered(a, b).value.start, Ordered(a, b).value.end)
  {
  }

  predicate Space(c: char) { c == ' ' }

  /** Where the spaces at the end of the first `n` characters begin. */
  function Kept(s: string, n: nat): (k: nat)
    requires n <= |s|
    ensures k <= n && (0 < k ==> !Space(s[k - 1]))
    ensures forall j :: k <= j < n ==> Space(s[j])
  {
    if 0 < n && Space(s[n - 1]) then Kept(s, n - 1) else n
  }

  function TrimEnd(s: string): string {
    s[..Kept(s, |s|)]
  }

  predicate Selects(range: Range, p: Point) {
    !Precedes(p, range.start) && Precedes(p, range.end)
  }

  /** The columns of one line, of the width given, that a range covers: from the first, to before the second. */
  function Span(width: nat, line: nat, range: Range): (nat, nat) {
    (Min(if line == range.start.line then range.start.col else 0, width),
     if line == range.end.line then Min(range.end.col, width) else width)
  }

  predicate Between(from: nat, col: nat, to: nat) { from <= col < to }

  /** They are the columns selected. */
  lemma SpanIsSelected(width: nat, line: nat, range: Range, col: nat)
    requires range.start.line <= line <= range.end.line && col < width
    ensures var span := Span(width, line, range);
            Between(span.0, col, span.1) <==> Selects(range, Point(line, col))
  {
  }

  /** What its columns are settles a span. */
  lemma SameColumns(width: nat, a: nat, b: nat, from: nat, to: nat)
    requires a <= width && b <= width && from <= to <= width
    requires forall col: nat :: col < width ==> Between(a, col, b) == Between(from, col, to)
    ensures if from == to then b <= a else a == from && b == to
  {
    if a < b {
      assert Between(a, a, b) && Between(a, b - 1, b);
    }
    if from < to {
      assert Between(from, from, to) && Between(from, to - 1, to);
    }
  }

  /** What a range covers of one line, as plain text one character wide each. */
  function Covered(cells: string, line: nat, range: Range): string {
    var (from, to) := Span(|cells|, line, range);
    TrimEnd(cells[from..Max(from, to)])
  }

  /** The columns covered are those from the start of the range on and before its end, less the spaces behind them. */
  lemma CoveredExactly(cells: string, line: nat, range: Range) returns (from: nat, to: nat)
    requires range.start.line <= line <= range.end.line && Precedes(range.start, range.end)
    ensures from <= to <= |cells| && Covered(cells, line, range) == TrimEnd(cells[from..to])
    ensures forall c: nat :: c < |cells| ==>
              (Between(from, c, to) <==> Selects(range, Point(line, c)))
  {
    from := Min(if line == range.start.line then range.start.col else 0, |cells|);
    to := Max(from, if line == range.end.line then Min(range.end.col, |cells|) else |cells|);
  }

  /** What a range covers of one line of the transcript. */
  function CoveredAt(plain: string -> string, transcript: seq<string>, range: Range, line: nat): string {
    Covered(plain(LineAt(transcript, line)), line, range)
  }

  /** What a function gives for the lines from `first` to `last`. */
  function Collected(part: nat -> string, first: nat, last: nat): (lines: seq<string>)
    requires first <= last
    ensures |lines| == last - first + 1
    ensures forall k :: 0 <= k < |lines| ==> lines[k] == part(first + k)
    decreases last
  {
    if last == first then [part(last)] else Collected(part, first, last - 1) + [part(last)]
  }

  /** The selected text line by line, up to line `last`. */
  function Lines(plain: string -> string, transcript: seq<string>, range: Range, last: nat): (lines: seq<string>)
    requires range.start.line <= last <= range.end.line
    ensures |lines| == last - range.start.line + 1
  {
    Collected((line: nat) => CoveredAt(plain, transcript, range, line), range.start.line, last)
  }

  lemma LinesAt(plain: string -> string, transcript: seq<string>, range: Range, last: nat, k: nat)
    requires range.start.line <= last <= range.end.line && k <= last - range.start.line
    ensures Lines(plain, transcript, range, last)[k] == CoveredAt(plain, transcript, range, range.start.line + k)
  {
  }

  function Join(lines: seq<string>): string {
    if lines == [] then ""
    else if |lines| == 1 then lines[0]
    else Join(lines[..|lines| - 1]) + "\n" + lines[|lines| - 1]
  }

  /** The lines are told apart by newlines. */
  lemma {:induction false} JoinedLines(lines: seq<string>)
    requires lines != [] && forall k :: 0 <= k < |lines| ==> '\n' !in lines[k]
    ensures SplitOn(Join(lines), '\n') == lines
    decreases |lines|
  {
    var n := |lines| - 1;
    SplitPlain(lines[n], '\n');
    if n > 0 {
      JoinedLines(lines[..n]);
      SplitAppend(Join(lines[..n]), lines[n], '\n');
      assert lines == lines[..n] + [lines[n]];
    }
  }

  predicate Empty(text: string) {
    forall k :: 0 <= k < |text| ==> Space(text[k]) || text[k] == '\n'
  }

  function TextOf(lines: seq<string>): Option<string> {
    var text := Join(lines);
    if Empty(text) then None else Some(text)
  }

  lemma {:induction false} JoinIsEmpty(lines: seq<string>)
    requires forall k :: 0 <= k < |lines| ==> Empty(lines[k])
    ensures Empty(Join(lines))
    decreases |lines|
  {
    if |lines| > 1 {
      JoinIsEmpty(lines[..|lines| - 1]);
    }
  }

  /** There is no text exactly when nothing but blanks is selected. */
  lemma NoTextExactlyWhen(lines: seq<string>)
    ensures TextOf(lines) == None <==>
              forall k, j :: 0 <= k < |lines| && 0 <= j < |lines[k]| ==> lines[k][j] == ' ' || lines[k][j] == '\n'
  {
    if TextOf(lines) == None {
      forall k | 0 <= k < |lines| ensures Empty(lines[k]) {
        if !Empty(lines[k]) {
          JoinShows(lines, k);
        }
      }
    } else if forall k :: 0 <= k < |lines| ==> Empty(lines[k]) {
      JoinIsEmpty(lines);
    }
  }

  /** The text between two points of the transcript, if there is any. */
  function Selected(plain: string -> string, transcript: seq<string>, anchor: Point, head: Point): Option<string> {
    match Ordered(anchor, head)
    case None => None
    case Some(range) =>
      TextOf(Lines(plain, transcript, range, range.end.line))
  }

  /** A selection among `n` lines, at most up to the very start of the line after them. */
  predicate Inside(n: nat, anchor: Point, head: Point) {
    match Ordered(anchor, head)
    case None => true
    case Some(range) => range.end.line < n || range.end == Point(n, 0)
  }

  lemma InsideGrows(n: nat, m: nat, anchor: Point, head: Point)
    requires n <= m && Inside(n, anchor, head)
    ensures Inside(m, anchor, head)
  {
  }

  lemma CoveredStays(plain: string -> string, transcript: seq<string>, more: seq<string>, range: Range, line: nat)
    requires range.start.line <= line <= range.end.line
    requires range.end.line < |transcript| || range.end == Point(|transcript|, 0)
    ensures CoveredAt(plain, transcript + more, range, line) == CoveredAt(plain, transcript, range, line)
  {
  }

  lemma LinesStay(plain: string -> string, transcript: seq<string>, more: seq<string>, range: Range, last: nat)
    requires range.start.line <= last <= range.end.line
    requires range.end.line < |transcript| || range.end == Point(|transcript|, 0)
    ensures Lines(plain, transcript + more, range, last) == Lines(plain, transcript, range, last)
  {
    forall k: nat | k <= last - range.start.line
      ensures Lines(plain, transcript + more, range, last)[k] == Lines(plain, transcript, range, last)[k]
    {
      CoveredStays(plain, transcript, more, range, range.start.line + k);
      LinesAt(plain, transcript, range, last, k);
      LinesAt(plain, transcript + more, range, last, k);
    }
  }

  /** A selection inside the transcript is not touched by what is appended. */
  lemma AppendsKeepSelection(plain: string -> string, transcript: seq<string>, more: seq<string>, anchor: Point,
                             head: Point)
    requires Inside(|transcript|, anchor, head)
    ensures Selected(plain, transcript + more, anchor, head) == Selected(plain, transcript, anchor, head)
  {
    if anchor != head {
      var range := Ordered(anchor, head).value;
      LinesStay(plain, transcript, more, range, range.end.line);
    }
  }

  lemma {:induction false} JoinGrows(lines: seq<string>, k: nat, text: string)
    requires k < |lines| && lines[k] == ""
    ensures |Join(lines[k := text])| == |Join(lines)| + |text|
    decreases |lines|
  {
    var m := |lines| - 1;
    if k < m {
      JoinGrows(lines[..m], k, text);
      assert lines[k := text][..m] == lines[..m][k := text];
    } else {
      assert lines[k := text][..m] == lines[..m];
    }
  }

  lemma {:induction false} JoinShows(lines: seq<string>, k: nat)
    requires k < |lines| && !Empty(lines[k])
    ensures !Empty(Join(lines))
    decreases |lines|
  {
    var m := |lines| - 1;
    if m == 0 {
    } else if k < m {
      JoinShows(lines[..m], k);
      var j :| 0 <= j < |Join(lines[..m])| && !Space(Join(lines[..m])[j]) && Join(lines[..m])[j] != '\n';
      assert Join(lines)[j] == Join(lines[..m])[j];
    } else {
      var j :| 0 <= j < |lines[m]| && !Space(lines[m][j]) && lines[m][j] != '\n';
      assert Join(lines)[|Join(lines[..m])| + 1 + j] == lines[m][j];
    }
  }

  /** Text on a line that was empty shows. */
  lemma TextShows(lines: seq<string>, k: nat, text: string)
    requires k < |lines| && lines[k] == "" && !Empty(text)
    ensures TextOf(lines[k := text]) != TextOf(lines)
  {
    JoinShows(lines[k := text], k);
    JoinGrows(lines, k, text);
  }

  /** No blank in it. */
  predicate Solid(text: string) {
    forall k :: 0 <= k < |text| ==> !Space(text[k]) && text[k] != '\n'
  }

  /** The lines that bring `line` to the first selected line below the transcript. */
  function Filler(n: nat, range: Range, line: string): (more: seq<string>)
    ensures |more| == Max(n, range.start.line) - n + 1
  {
    seq(Max(n, range.start.line) - n, _ => "") + [line]
  }

  /** Every line of the grown transcript is as it was or blank, but for `line` at the end. */
  lemma FillerAt(transcript: seq<string>, range: Range, line: string, m: nat)
    requires m == Max(|transcript|, range.start.line)
    ensures var grown := transcript + Filler(|transcript|, range, line);
            forall i: nat :: LineAt(grown, i) == if i == m then line else LineAt(transcript, i)
  {
  }

  lemma CoveredChanges(plain: string -> string, transcript: seq<string>, grown: seq<string>, range: Range, m: nat,
                       line: string, i: nat)
    requires range.start.line <= i <= range.end.line
    requires LineAt(grown, i) == if i == m then line else LineAt(transcript, i)
    ensures CoveredAt(plain, grown, range, i)
            == if i == m then Covered(plain(line), m, range) else CoveredAt(plain, transcript, range, i)
  {
  }

  lemma OneDiffers(now: seq<string>, was: seq<string>, j: nat, text: string)
    requires |now| == |was| && j < |was|
    requires forall k :: 0 <= k < |was| ==> now[k] == if k == j then text else was[k]
    ensures now == was[j := text]
  {
  }

  /** When one line of the range changes, so does its part of the selected text, and no other. */
  lemma OneLineChanges(plain: string -> string, transcript: seq<string>, grown: seq<string>, range: Range, m: nat,
                       line: string)
    requires range.start.line <= m <= range.end.line
    requires forall i: nat :: LineAt(grown, i) == if i == m then line else LineAt(transcript, i)
    ensures Lines(plain, grown, range, range.end.line)
            == Lines(plain, transcript, range, range.end.line)[m - range.start.line := Covered(plain(line), m, range)]
  {
    var start, last := range.start.line, range.end.line;
    var now, was := Lines(plain, grown, range, last), Lines(plain, transcript, range, last);
    forall k: nat | k <= last - start
      ensures now[k] == if k == m - start then Covered(plain(line), m, range) else was[k]
    {
      CoveredChanges(plain, transcript, grown, range, m, line, start + k);
      LinesAt(plain, transcript, range, last, k);
      LinesAt(plain, grown, range, last, k);
    }
    OneDiffers(now, was, m - start, Covered(plain(line), m, range));
  }

  lemma BlankLine(plain: string -> string, transcript: seq<string>, range: Range, m: nat)
    requires |transcript| <= m && range.start.line <= m <= range.end.line && plain("") == ""
    ensures Lines(plain, transcript, range, range.end.line)[m - range.start.line] == ""
  {
    LinesAt(plain, transcript, range, range.end.line, m - range.start.line);
  }

  lemma ShowsOnLine(lines: seq<string>, cells: string, m: nat, range: Range)
    requires range.start.line <= m <= range.end.line && Precedes(range.start, range.end)
    requires m - range.start.line < |lines| && lines[m - range.start.line] == ""
    requires Solid(cells) && Max(range.start.col, range.end.col) < |cells|
    requires m == range.end.line ==> 0 < range.end.col
    ensures TextOf(lines[m - range.start.line := Covered(cells, m, range)]) != TextOf(lines)
  {
    CoversSome(cells, m, range);
    TextShows(lines, m - range.start.line, Covered(cells, m, range));
  }

  lemma FillerShows(plain: string -> string, transcript: seq<string>, range: Range, m: nat, line: string)
    requires Precedes(range.start, range.end) && m == Max(|transcript|, range.start.line)
    requires !(range.end.line < |transcript|) && range.end != Point(|transcript|, 0)
    requires plain("") == "" && Solid(plain(line)) && Max(range.start.col, range.end.col) < |plain(line)|
    ensures TextOf(Lines(plain, transcript + Filler(|transcript|, range, line), range, range.end.line))
            != TextOf(Lines(plain, transcript, range, range.end.line))
  {
    var grown := transcript + Filler(|transcript|, range, line);
    FillerAt(transcript, range, line, m);
    OneLineChanges(plain, transcript, grown, range, m, line);
    BlankLine(plain, transcript, range, m);
    ShowsOnLine(Lines(plain, transcript, range, range.end.line), plain(line), m, range);
  }

  lemma CoversSome(cells: string, line: nat, range: Range)
    requires range.start.line <= line <= range.end.line && Precedes(range.start, range.end)
    requires Solid(cells) && Max(range.start.col, range.end.col) < |cells|
    requires line == range.end.line ==> 0 < range.end.col
    ensures !Empty(Covered(cells, line, range))
  {
    var from := if line == range.start.line then range.start.col else 0;
    var to := if line == range.end.line then range.end.col else |cells|;
    var part := cells[from..to];
    assert part[|part| - 1] == cells[to - 1];
    assert TrimEnd(part) == part;
    assert part[0] == cells[from];
  }

  /**
   Exactly the selections inside the transcript keep their text whatever is appended. `line`
   is some line with visible text beyond the selected columns.
   */
  lemma SelectionKeptExactlyInside(plain: string -> string, transcript: seq<string>, anchor: Point, head: Point,
                                   line: string)
    requires plain("") == "" && Solid(plain(line)) && Max(anchor.col, head.col) < |plain(line)|
    ensures Inside(|transcript|, anchor, head) <==>
              forall more :: Selected(plain, transcript + more, anchor, head)
                  == Selected(plain, transcript, anchor, head)
  {
    if Inside(|transcript|, anchor, head) {
      forall more
        ensures Selected(plain, transcript + more, anchor, head) == Selected(plain, transcript, anchor, head) {
        AppendsKeepSelection(plain, transcript, more, anchor, head);
      }
    } else {
      OrderedEitherWay(anchor, head);
      var range := Ordered(anchor, head).value;
      var more := Filler(|transcript|, range, line);
      FillerShows(plain, transcript, range, Max(|transcript|, range.start.line), line);
      assert Selected(plain, transcript + more, anchor, head) != Selected(plain, transcript, anchor, head);
    }
  }

  /** A drag over an empty window, five columns wide, picks up the line that is appended under it. */
  lemma SelectionBelowTheEnd(plain: string -> string, line: string)
    requires plain("") == "" && plain(line) == "x"
    ensures !Inside(0, Point(0, 0), Point(0, 5))
    ensures Selected(plain, [], Point(0, 0), Point(0, 5)) == None
    ensures Selected(plain, [line], Point(0, 0), Point(0, 5)) == Some("x")
  {
    var range := Range(Point(0, 0), Point(0, 5));
    assert Lines(plain, [], range, 0) == [""];
    assert "x"[0..1] == "x" && TrimEnd("x") == "x";
    assert Lines(plain, [line], range, 0) == ["x"];
  }

  // ---- Runs of scrolling and composing ---------------------------------------------------------

  datatype ViewEvent =
    | ScrollBy(delta: int)
    | ScrollToTop
    | ScrollToBottom
    | Compose(more: seq<string>, windowHeight: nat) // the transcript has grown by `more`

  datatype View = View(scroll: Scroll, transcript: seq<string>, windowHeight: nat) {
    predicate Valid() {
      scroll.Valid()
    }

    function Next(e: ViewEvent): (v: View)
      requires Valid()
      ensures v.Valid()
    {
      match e
      case ScrollBy(delta) => this.(scroll := scroll.By(delta))
      case ScrollToTop => this.(scroll := scroll.ToTop())
      case ScrollToBottom => this.(scroll := scroll.ToBottom())
      case Compose(more, h) => View(scroll.Composed(|transcript + more|, h), transcript + more, h)
    }

    function Run(es: seq<ViewEvent>): (v: View)
      requires Valid()
      ensures v.Valid()
      decreases |es|
    {
      if es == [] then this else Run(es[..|es| - 1]).Next(es[|es| - 1])
    }

    /** The transcript lines in the window. */
    function Shown(): seq<string>
      requires Valid()
    {
      var top := Min(scroll.top, |transcript|);
      transcript[top..Min(top + windowHeight, |transcript|)]
    }

    /** The window stands where its composed transcript lets it. */
    predicate Composed() {
      Valid() && scroll.max == Max(0, |transcript| - windowHeight)
    }
  }

  lemma {:induction false} TranscriptGrows(v: View, es: seq<ViewEvent>)
    requires v.Valid()
    ensures v.transcript <= v.Run(es).transcript
    decreases |es|
  {
    if es != [] {
      TranscriptGrows(v, es[..|es| - 1]);
    }
  }

  /** However it is scrolled and whatever is appended, a selection inside the transcript selects the same text. */
  lemma RunKeepsSelection(plain: string -> string, v: View, es: seq<ViewEvent>, anchor: Point, head: Point)
    requires v.Valid() && Inside(|v.transcript|, anchor, head)
    ensures v.transcript <= v.Run(es).transcript
    ensures Selected(plain, v.Run(es).transcript, anchor, head) == Selected(plain, v.transcript, anchor, head)
  {
    TranscriptGrows(v, es);
    var more := v.Run(es).transcript[|v.transcript|..];
    assert v.Run(es).transcript == v.transcript + more;
    AppendsKeepSelection(plain, v.transcript, more, anchor, head);
  }

  /** Only composing happens, at one window height. */
  predicate OnlyGrows(es: seq<ViewEvent>, h: nat) {
    forall k :: 0 <= k < |es| ==> es[k].Compose? && es[k].windowHeight == h
  }

  lemma SameLines(v: View, w: View)
    requires v.Composed() && w.Composed() && v.scroll.top == w.scroll.top && v.windowHeight == w.windowHeight
    requires v.transcript <= w.transcript && v.scroll.top + v.windowHeight <= |v.transcript|
    ensures v.Shown() == w.Shown()
  {
  }

  /** A paused window stays where it is however much is appended. */
  lemma {:induction false} PausedWindowStays(v: View, es: seq<ViewEvent>)
    requires v.Composed() && !v.scroll.following && OnlyGrows(es, v.windowHeight)
    ensures v.Run(es).Composed() && v.Run(es).windowHeight == v.windowHeight && !v.Run(es).scroll.following
    ensures v.Run(es).scroll.top == v.scroll.top && v.transcript <= v.Run(es).transcript
    decreases |es|
  {
    if es != [] {
      PausedWindowStays(v, es[..|es| - 1]);
    }
  }

  /** A paused window that is full shows the same lines however much is appended. */
  lemma PausedWindowIsFrozen(v: View, es: seq<ViewEvent>)
    requires v.Composed() && !v.scroll.following && OnlyGrows(es, v.windowHeight)
    requires v.scroll.top + v.windowHeight <= |v.transcript|
    ensures v.Run(es).Shown() == v.Shown()
  {
    PausedWindowStays(v, es);
    SameLines(v, v.Run(es));
  }

  /** A following window keeps following, and shows the end of the transcript, in full when it fits. */
  lemma {:induction false} FollowingKeepsFollowing(v: View, es: seq<ViewEvent>)
    requires v.Composed() && v.scroll.following && OnlyGrows(es, v.windowHeight)
    ensures v.Run(es).Composed() && v.Run(es).scroll.following && v.Run(es).windowHeight == v.windowHeight
    decreases |es|
  {
    if es != [] {
      FollowingKeepsFollowing(v, es[..|es| - 1]);
    }
  }

  lemma FollowingShowsTheEnd(v: View, es: seq<ViewEvent>)
    requires v.Composed() && v.scroll.following && OnlyGrows(es, v.windowHeight)
    ensures var t := v.Run(es).transcript;
            v.Run(es).Shown() == t[Max(0, |t| - v.windowHeight)..]
  {
    FollowingKeepsFollowing(v, es);
  }

  /** Scrolling by rows is undone by scrolling back, as long as neither end was reached. */
  lemma ScrollBack(s: Scroll, delta: int)
    requires s.Valid() && 0 <= s.top + delta <= s.max
    ensures s.By(delta).By(-delta).top == s.top
  {
  }
}
