/**
 Word wrapping of styled text: only spaces are dropped, although every output line is read
 from a cleared style. The meaning of a text is the list of its characters with their styles.
 */
module AnsiWrap {

  import opened Common
  import opened AnsiScan
  import opened AnsiStyle
  import opened AnsiTracker

  // ---- Meaning ---------------------------------------------------------------------

  datatype Cell = Cell(c: char, style: Style)

  function Meaning(st: Style, items: seq<Item>): seq<Cell>
    decreases |items|
  {
    if items == [] then []
    else if items[0].Code? then Meaning(Process(st, items[0].code), items[1..])
    else [Cell(items[0].c, st)] + Meaning(st, items[1..])
  }

  /** Output lines one after the other, each read from a cleared style. */
  function LinesMeaning(lines: seq<seq<Item>>): seq<Cell>
    decreases |lines|
  {
    if lines == [] then [] else LinesMeaning(lines[..|lines| - 1]) + Meaning(CLEAR, lines[|lines| - 1])
  }

  function Concat(lines: seq<seq<Item>>): seq<Item>
    decreases |lines|
  {
    if lines == [] then [] else Concat(lines[..|lines| - 1]) + lines[|lines| - 1]
  }

  /** `b` is `a` without some of its spaces. */
  predicate Drops(a: seq<Cell>, b: seq<Cell>)
    decreases |a|
  {
    if a == [] then b == []
    else || (b != [] && b[0] == a[0] && Drops(a[1..], b[1..]))
         || (a[0].c == ' ' && Drops(a[1..], b))
  }

  function NonSpaces(a: seq<Cell>): seq<Cell>
    decreases |a|
  {
    if a == [] then [] else (if a[0].c == ' ' then [] else [a[0]]) + NonSpaces(a[1..])
  }

  /** So every other character survives, in order and in its style. */
  lemma {:induction false} DropsKeepsTheRest(a: seq<Cell>, b: seq<Cell>)
    requires Drops(a, b)
    ensures NonSpaces(b) == NonSpaces(a)
    decreases |a|
  {
    if a != [] {
      if b != [] && b[0] == a[0] && Drops(a[1..], b[1..]) {
        DropsKeepsTheRest(a[1..], b[1..]);
      } else {
        DropsKeepsTheRest(a[1..], b);
      }
    }
  }

  lemma {:induction false} DropsNothing(a: seq<Cell>)
    ensures Drops(a, a)
    decreases |a|
  {
    if a != [] {
      DropsNothing(a[1..]);
    }
  }

  lemma {:induction false} DropsAppend(a: seq<Cell>, b: seq<Cell>, c: seq<Cell>, d: seq<Cell>)
    requires Drops(a, b) && Drops(c, d)
    ensures Drops(a + c, b + d)
    decreases |a|
  {
    if a == [] {
      assert a + c == c && b + d == d;
    } else {
      assert (a + c)[0] == a[0] && (a + c)[1..] == a[1..] + c;
      if b != [] && b[0] == a[0] && Drops(a[1..], b[1..]) {
        DropsAppend(a[1..], b[1..], c, d);
        assert (b + d)[0] == b[0] && (b + d)[1..] == b[1..] + d;
      } else {
        DropsAppend(a[1..], b, c, d);
      }
    }
  }

  lemma {:induction false} MeaningAppends(st: Style, a: seq<Item>, b: seq<Item>)
    ensures Meaning(st, a + b) == Meaning(st, a) + Meaning(Replay(st, a), b)
    decreases |a|
  {
    if a == [] {
      assert a + b == b;
    } else {
      assert (a + b)[0] == a[0] && (a + b)[1..] == a[1..] + b;
      MeaningAppends(if a[0].Code? then Process(st, a[0].code) else st, a[1..], b);
    }
  }

  ghost predicate CodesOnly(items: seq<Item>) {
    forall k :: 0 <= k < |items| ==> items[k].Code?
  }

  lemma {:induction false} CodesShowNothing(st: Style, items: seq<Item>)
    requires CodesOnly(items)
    ensures Meaning(st, items) == []
    decreases |items|
  {
    if items != [] {
      CodesShowNothing(Process(st, items[0].code), items[1..]);
    }
  }

  lemma LinesAppend(lines: seq<seq<Item>>, line: seq<Item>)
    ensures LinesMeaning(lines + [line]) == LinesMeaning(lines) + Meaning(CLEAR, line)
    ensures Concat(lines + [line]) == Concat(lines) + line
  {
    assert (lines + [line])[..|lines + [line]| - 1] == lines;
  }

  lemma {:induction false} LinesConcat(a: seq<seq<Item>>, b: seq<seq<Item>>)
    ensures LinesMeaning(a + b) == LinesMeaning(a) + LinesMeaning(b)
    decreases |b|
  {
    if b == [] {
      assert a + b == a;
    } else {
      var init, last := b[..|b| - 1], b[|b| - 1];
      assert b == init + [last] && a + b == a + init + [last];
      LinesConcat(a, init);
      LinesAppend(a + init, last);
      LinesAppend(init, last);
    }
  }

  // ---- Width --------------------------------------------------------------------------

  /** Columns of one character; codes take none. */
  type Columns = char -> nat

  function VisibleWidth(w: Columns, items: seq<Item>): nat
    decreases |items|
  {
    if items == [] then 0
    else VisibleWidth(w, items[..|items| - 1]) + if items[|items| - 1].Glyph? then w(items[|items| - 1].c) else 0
  }

  /** Every character takes at least one column and fits a line. */
  ghost predicate Fits(w: Columns, items: seq<Item>, width: nat) {
    forall k :: 0 <= k < |items| && items[k].Glyph? ==> 1 <= w(items[k].c) <= width
  }

  lemma {:induction false} WidthAppends(w: Columns, a: seq<Item>, b: seq<Item>)
    ensures VisibleWidth(w, a + b) == VisibleWidth(w, a) + VisibleWidth(w, b)
    decreases |b|
  {
    if b == [] {
      assert a + b == a;
    } else {
      assert (a + b)[..|a + b| - 1] == a + b[..|b| - 1];
      WidthAppends(w, a, b[..|b| - 1]);
    }
  }

  ghost predicate NoCodes(items: seq<Item>) {
    forall k :: 0 <= k < |items| ==> items[k].Glyph?
  }

  lemma {:induction false} GlyphsAreShown(st: Style, items: seq<Item>)
    requires HasGlyph(items)
    ensures Meaning(st, items) != []
    decreases |items|
  {
    if items[0].Code? {
      GlyphsAreShown(Process(st, items[0].code), items[1..]);
    }
  }

  lemma {:induction false} CodesHaveNoWidth(w: Columns, items: seq<Item>)
    requires CodesOnly(items)
    ensures VisibleWidth(w, items) == 0
    decreases |items|
  {
    if items != [] {
      CodesHaveNoWidth(w, items[..|items| - 1]);
    }
  }

  ghost predicate HasGlyph(items: seq<Item>) {
    exists k :: 0 <= k < |items| && items[k].Glyph?
  }

  lemma {:induction false} GlyphsHaveWidth(w: Columns, items: seq<Item>, width: nat)
    requires Fits(w, items, width)
    ensures HasGlyph(items) ==> 0 < VisibleWidth(w, items)
    decreases |items|
  {
    if items != [] {
      GlyphsHaveWidth(w, items[..|items| - 1], width);
    }
  }

  // ---- Trimming -----------------------------------------------------------------------

  const SPACE := Glyph(' ')

  function TrimEnd(items: seq<Item>): (t: seq<Item>)
    ensures t <= items
    decreases |items|
  {
    if items != [] && items[|items| - 1] == SPACE then TrimEnd(items[..|items| - 1]) else items
  }

  predicate EndsInSpace(items: seq<Item>) {
    items != [] && items[|items| - 1] == SPACE
  }

  lemma {:induction false} TrimmedEnd(items: seq<Item>)
    ensures !EndsInSpace(TrimEnd(items))
    decreases |items|
  {
    if EndsInSpace(items) {
      TrimmedEnd(items[..|items| - 1]);
    }
  }

  lemma {:induction false} TrimOnlyDropsSpaces(st: Style, w: Columns, items: seq<Item>)
    ensures Drops(Meaning(st, items), Meaning(st, TrimEnd(items)))
    ensures Replay(st, TrimEnd(items)) == Replay(st, items)
    ensures VisibleWidth(w, TrimEnd(items)) <= VisibleWidth(w, items)
    decreases |items|
  {
    if items != [] && items[|items| - 1] == SPACE {
      var init := items[..|items| - 1];
      assert items == init + [SPACE];
      TrimOnlyDropsSpaces(st, w, init);
      ReplayAppends(st, init, [SPACE]);
      MeaningAppends(st, init, [SPACE]);
      var last := Meaning(Replay(st, init), [SPACE]);
      assert last == [Cell(' ', Replay(st, init))] && last[1..] == [];
      assert Drops(last, []);
      DropsAppend(Meaning(st, init), Meaning(st, TrimEnd(init)), last, []);
      assert Meaning(st, TrimEnd(init)) + [] == Meaning(st, TrimEnd(init));
    } else {
      DropsNothing(Meaning(st, items));
    }
  }

  /** Trimming takes spaces from the end, and nothing else. */
  lemma {:induction false} TrimTakesTheEnd(st: Style, items: seq<Item>)
    ensures var kept, all := Meaning(st, TrimEnd(items)), Meaning(st, items);
            kept <= all && Blank(all[|kept|..])
    decreases |items|
  {
    if items != [] && items[|items| - 1] == SPACE {
      var init := items[..|items| - 1];
      assert items == init + [SPACE];
      TrimTakesTheEnd(st, init);
      MeaningAppends(st, init, [SPACE]);
      OneItem(Replay(st, init), SPACE, _ => 1);
    }
  }

  predicate PureSpaces(items: seq<Item>) {
    forall k :: 0 <= k < |items| ==> items[k] == SPACE
  }

  lemma {:induction false} SpacesTrimAway(items: seq<Item>)
    requires PureSpaces(items)
    ensures TrimEnd(items) == []
    decreases |items|
  {
    if items != [] {
      SpacesTrimAway(items[..|items| - 1]);
    }
  }

  lemma {:induction false} SpacesMeanSpaces(st: Style, items: seq<Item>)
    requires PureSpaces(items)
    ensures Blank(Meaning(st, items)) && Replay(st, items) == st
    decreases |items|
  {
    if items != [] {
      SpacesMeanSpaces(st, items[1..]);
    }
  }

  // ---- Spans ------------------------------------------------------------------------------

  // A line takes a stretch of the text, its span: it shows the beginning of that, and what
  // it does not show are the spaces at the end. The spans follow each other without a gap.

  predicate Blank(cells: seq<Cell>) {
    forall k :: 0 <= k < |cells| ==> cells[k].c == ' '
  }

  function Flat(spans: seq<seq<Cell>>): seq<Cell>
    decreases |spans|
  {
    if spans == [] then [] else spans[0] + Flat(spans[1..])
  }

  lemma {:induction false} FlatAppends(a: seq<seq<Cell>>, b: seq<seq<Cell>>)
    ensures Flat(a + b) == Flat(a) + Flat(b)
    decreases |a|
  {
    if a == [] {
      assert a + b == b;
    } else {
      assert (a + b)[0] == a[0] && (a + b)[1..] == a[1..] + b;
      FlatAppends(a[1..], b);
      AddedMeaning(a[0], Flat(a[1..]), Flat(b));
    }
  }

  lemma FlatOne(span: seq<Cell>)
    ensures Flat([span]) == span
  {
    assert [span][1..] == [] && span + [] == span;
  }

  lemma FlatAdds(spans: seq<seq<Cell>>, span: seq<Cell>)
    ensures Flat(spans + [span]) == Flat(spans) + span
  {
    FlatAppends(spans, [span]);
    FlatOne(span);
  }

  ghost predicate Shown(line: seq<Item>, span: seq<Cell>) {
    var m := Meaning(CLEAR, line);
    m <= span && Blank(span[|m|..])
  }

  ghost predicate AllShown(lines: seq<seq<Item>>, spans: seq<seq<Cell>>) {
    |lines| == |spans| && forall k :: 0 <= k < |lines| ==> Shown(lines[k], spans[k])
  }

  /** Each line is a slice of the text, the first from its start; between two slices and behind the last are spaces. */
  lemma LineIsSlice(lines: seq<seq<Item>>, spans: seq<seq<Cell>>, k: nat)
    requires AllShown(lines, spans) && k < |lines|
    ensures var text, m := Flat(spans), Meaning(CLEAR, lines[k]);
            var start, next := |Flat(spans[..k])|, |Flat(spans[..k + 1])|;
            && start + |m| <= next <= |text|
            && text[start..start + |m|] == m
            && Blank(text[start + |m|..next])
            && (k == 0 ==> start == 0) && (k == |lines| - 1 ==> next == |text|)
  {
    var before, after := Flat(spans[..k]), Flat(spans[k + 1..]);
    assert spans == spans[..k + 1] + spans[k + 1..] && spans[..k + 1] == spans[..k] + [spans[k]];
    FlatAppends(spans[..k + 1], spans[k + 1..]);
    FlatAdds(spans[..k], spans[k]);
    SliceInside(before, spans[k], after, Meaning(CLEAR, lines[k]));
  }

  lemma SliceInside(before: seq<Cell>, span: seq<Cell>, after: seq<Cell>, m: seq<Cell>)
    requires m <= span && Blank(span[|m|..])
    ensures var text := before + span + after;
            && text[|before|..|before| + |m|] == m
            && Blank(text[|before| + |m|..|before + span|])
  {
    assert (before + span + after)[|before| + |m|..|before + span|] == span[|m|..];
  }

  lemma {:induction false} BlankMayGo(cells: seq<Cell>)
    requires Blank(cells)
    ensures Drops(cells, [])
    decreases |cells|
  {
    if cells != [] {
      BlankMayGo(cells[1..]);
    }
  }

  /** Only spaces are lost. */
  lemma {:induction false} ShownDrops(lines: seq<seq<Item>>, spans: seq<seq<Cell>>)
    requires AllShown(lines, spans)
    ensures Drops(Flat(spans), LinesMeaning(lines))
    decreases |lines|
  {
    if lines != [] {
      var n := |lines| - 1;
      ShownDrops(lines[..n], spans[..n]);
      LineDrops(lines[n], spans[n]);
      DropsAppend(Flat(spans[..n]), LinesMeaning(lines[..n]), spans[n], Meaning(CLEAR, lines[n]));
      FlatAdds(spans[..n], spans[n]);
      assert spans == spans[..n] + [spans[n]];
    }
  }

  lemma LineDrops(line: seq<Item>, span: seq<Cell>)
    requires Shown(line, span)
    ensures Drops(span, Meaning(CLEAR, line))
  {
    var m := Meaning(CLEAR, line);
    DropsNothing(m);
    BlankMayGo(span[|m|..]);
    DropsAppend(m, m, span[|m|..], []);
    assert span == m + span[|m|..] && m + [] == m;
  }

  /** What lines mean, one by one. */
  function Spans(lines: seq<seq<Item>>): (spans: seq<seq<Cell>>)
    ensures |spans| == |lines| && forall k :: 0 <= k < |spans| ==> spans[k] == Meaning(CLEAR, lines[k])
  {
    seq(|lines|, k requires 0 <= k < |lines| => Meaning(CLEAR, lines[k]))
  }

  lemma SpansAdd(lines: seq<seq<Item>>, line: seq<Item>)
    ensures Spans(lines + [line]) == Spans(lines) + [Meaning(CLEAR, line)]
  {
  }

  lemma {:induction false} SpansAreShown(lines: seq<seq<Item>>)
    ensures AllShown(lines, Spans(lines)) && Flat(Spans(lines)) == LinesMeaning(lines)
    decreases |lines|
  {
    if lines != [] {
      var n := |lines| - 1;
      SpansAreShown(lines[..n]);
      assert lines == lines[..n] + [lines[n]];
      SpansAdd(lines[..n], lines[n]);
      ShownAdds(lines[..n], Spans(lines[..n]), lines[n], Meaning(CLEAR, lines[n]));
      FlatAdds(Spans(lines[..n]), Meaning(CLEAR, lines[n]));
    }
  }

  // ---- No line ends too early -----------------------------------------------------------------

  function CellsWidth(w: Columns, cells: seq<Cell>): nat
    decreases |cells|
  {
    if cells == [] then 0 else CellsWidth(w, cells[..|cells| - 1]) + w(cells[|cells| - 1].c)
  }

  lemma {:induction false} CellsWidthAppends(w: Columns, a: seq<Cell>, b: seq<Cell>)
    ensures CellsWidth(w, a + b) == CellsWidth(w, a) + CellsWidth(w, b)
    decreases |b|
  {
    if b == [] {
      assert a + b == a;
    } else {
      assert (a + b)[..|a + b| - 1] == a + b[..|b| - 1];
      CellsWidthAppends(w, a, b[..|b| - 1]);
    }
  }

  lemma PrefixIsNarrower(w: Columns, a: seq<Cell>, b: seq<Cell>)
    requires a <= b
    ensures CellsWidth(w, a) <= CellsWidth(w, b)
  {
    CellsWidthAppends(w, a, b[|a|..]);
    assert b == a + b[|a|..];
  }

  lemma {:induction false} WidthOfMeaning(w: Columns, st: Style, items: seq<Item>)
    ensures CellsWidth(w, Meaning(st, items)) == VisibleWidth(w, items)
    decreases |items|
  {
    if items != [] {
      var n := |items| - 1;
      WidthOfMeaning(w, st, items[..n]);
      assert items == items[..n] + [items[n]];
      MeaningAppends(st, items[..n], [items[n]]);
      OneItem(Replay(st, items[..n]), items[n], w);
      CellsWidthAppends(w, Meaning(st, items[..n]), Meaning(Replay(st, items[..n]), [items[n]]));
      if items[n].Glyph? {
        CellWidth(w, Cell(items[n].c, Replay(st, items[..n])));
      }
    }
  }

  lemma CellWidth(w: Columns, cell: Cell)
    ensures CellsWidth(w, [cell]) == w(cell.c)
  {
    assert [cell][..0] == [];
  }

  /** Only spaces, or no space. */
  predicate Uniform(cells: seq<Cell>) {
    forall i, j :: 0 <= i < |cells| && 0 <= j < |cells| ==> (cells[i].c == ' ') == (cells[j].c == ' ')
  }

  /** The word, or the stretch of spaces, that the cells begin with. */
  function FirstRun(cells: seq<Cell>): (run: seq<Cell>)
    ensures run <= cells && Uniform(run) && (cells != [] ==> run != [])
    decreases |cells|
  {
    if |cells| <= 1 || (cells[0].c == ' ') != (cells[1].c == ' ') then cells[..Min(|cells|, 1)]
    else
      var rest := FirstRun(cells[1..]);
      assert rest[0] == cells[1];
      [cells[0]] + rest
  }

  lemma {:induction false} RunContains(p: seq<Cell>, cells: seq<Cell>)
    requires p <= cells && Uniform(p)
    ensures p <= FirstRun(cells)
    decreases |cells|
  {
    if |p| > 1 {
      assert cells[0] == p[0] && cells[1] == p[1];
      RunContains(p[1..], cells[1..]);
      assert p == [p[0]] + p[1..];
    } else if |p| == 1 {
      assert p == cells[..1];
    }
  }

  /** The span and the run that comes next do not fit a line together. */
  predicate Overflows(span: seq<Cell>, next: seq<Cell>, w: Columns, width: nat) {
    CellsWidth(w, span) + CellsWidth(w, FirstRun(next)) > width
  }

  lemma OverflowsStill(span: seq<Cell>, next: seq<Cell>, longer: seq<Cell>, w: Columns, width: nat)
    requires Overflows(span, next, w, width) && next <= longer
    ensures Overflows(span, longer, w, width)
  {
    RunContains(FirstRun(next), longer);
    PrefixIsNarrower(w, FirstRun(next), FirstRun(longer));
  }

  lemma OverflowsBy(span: seq<Cell>, next: seq<Cell>, w: Columns, width: nat)
    requires Uniform(next) && CellsWidth(w, span) + CellsWidth(w, next) > width
    ensures Overflows(span, next, w, width)
  {
    RunContains(next, next);
    assert FirstRun(next) == next;
  }

  /** A line is ended only where the next word, or the next spaces, would not fit any more. */
  predicate Greedy(spans: seq<seq<Cell>>, w: Columns, width: nat)
    decreases |spans|
  {
    |spans| <= 1 || (Overflows(spans[0], Flat(spans[1..]), w, width) && Greedy(spans[1..], w, width))
  }

  /** The last span goes on, in one line or in several. */
  lemma {:induction false} GreedyExtends(spans: seq<seq<Cell>>, last: seq<Cell>, tail: seq<seq<Cell>>, w: Columns,
                                         width: nat)
    requires Greedy(spans + [last], w, width) && Greedy(tail, w, width)
    requires tail != [] && last <= Flat(tail)
    ensures Greedy(spans + tail, w, width)
    decreases |spans|
  {
    if spans == [] {
      assert spans + tail == tail;
    } else {
      var rest := spans[1..];
      assert (spans + [last])[1..] == rest + [last] && (spans + tail)[1..] == rest + tail;
      FlatAdds(rest, last);
      FlatAppends(rest, tail);
      assert Flat(rest) + last <= Flat(rest) + Flat(tail);
      OverflowsStill(spans[0], Flat(rest + [last]), Flat(rest + tail), w, width);
      GreedyExtends(rest, last, tail, w, width);
    }
  }

  lemma GreedyGrows(spans: seq<seq<Cell>>, last: seq<Cell>, more: seq<Cell>, w: Columns, width: nat)
    requires Greedy(spans + [last], w, width)
    ensures Greedy(spans + [last + more], w, width)
  {
    FlatOne(last + more);
    GreedyExtends(spans, last, [last + more], w, width);
  }

  /** The span is done, and the next ones begin. */
  lemma GreedyBreaks(spans: seq<seq<Cell>>, last: seq<Cell>, ended: seq<Cell>, tail: seq<seq<Cell>>, w: Columns,
                     width: nat)
    requires Greedy(spans + [last], w, width) && last <= ended && tail != [] && Greedy(tail, w, width)
    requires Overflows(ended, Flat(tail), w, width)
    ensures Greedy(spans + [ended] + tail, w, width)
  {
    OneMoreSpan(ended, tail, w, width);
    StillPrefix(last, ended, Flat(tail));
    GreedyExtends(spans, last, [ended] + tail, w, width);
    Regrouped(spans, ended, tail);
  }

  lemma OneMoreSpan(ended: seq<Cell>, tail: seq<seq<Cell>>, w: Columns, width: nat)
    requires Greedy(tail, w, width) && Overflows(ended, Flat(tail), w, width)
    ensures Flat([ended] + tail) == ended + Flat(tail) && Greedy([ended] + tail, w, width)
  {
    var all := [ended] + tail;
    assert all[0] == ended && all[1..] == tail;
  }

  lemma Regrouped(spans: seq<seq<Cell>>, span: seq<Cell>, tail: seq<seq<Cell>>)
    ensures spans + ([span] + tail) == spans + [span] + tail
  {
  }

  lemma StillPrefix(a: seq<Cell>, b: seq<Cell>, c: seq<Cell>)
    requires a <= b
    ensures a <= b + c
  {
  }

  /** An empty last span may go. */
  lemma {:induction false} GreedyWithoutEmpty(spans: seq<seq<Cell>>, w: Columns, width: nat)
    requires Greedy(spans + [[]], w, width)
    ensures Greedy(spans, w, width) && Flat(spans + [[]]) == Flat(spans)
    decreases |spans|
  {
    FlatAdds(spans, []);
    assert Flat(spans) + [] == Flat(spans);
    if |spans| > 1 {
      assert (spans + [[]])[1..] == spans[1..] + [[]];
      GreedyWithoutEmpty(spans[1..], w, width);
    }
  }

  // ---- No line but the first begins with a space ------------------------------------------------

  predicate Flush(spans: seq<seq<Cell>>) {
    forall k :: 0 < k < |spans| && spans[k] != [] ==> spans[k][0].c != ' '
  }

  predicate NoSpaces(cells: seq<Cell>) {
    forall k :: 0 <= k < |cells| ==> cells[k].c != ' '
  }

  lemma FlushGrows(spans: seq<seq<Cell>>, last: seq<Cell>, more: seq<Cell>)
    requires Flush(spans + [last]) && (last == [] && spans != [] ==> NoSpaces(more))
    ensures Flush(spans + [last + more])
  {
    forall k | 0 < k < |spans| ensures spans[k] != [] ==> spans[k][0].c != ' ' {
      assert (spans + [last])[k] == spans[k];
    }
    assert (spans + [last])[|spans|] == last;
  }

  lemma FlushAppends(spans: seq<seq<Cell>>, tail: seq<seq<Cell>>)
    requires Flush(spans) && NoSpaces(Flat(tail))
    ensures Flush(spans + tail)
  {
    forall k | 0 <= k < |tail| ensures NoSpaces(tail[k]) {
      PiecesHaveNoSpaces(tail, k);
    }
  }

  lemma {:induction false} PiecesHaveNoSpaces(tail: seq<seq<Cell>>, k: nat)
    requires NoSpaces(Flat(tail)) && k < |tail|
    ensures NoSpaces(tail[k])
    decreases k
  {
    var first, rest := tail[0], Flat(tail[1..]);
    assert forall j :: 0 <= j < |first| ==> Flat(tail)[j] == first[j];
    assert forall j :: 0 <= j < |rest| ==> Flat(tail)[|first| + j] == rest[j];
    if k > 0 {
      PiecesHaveNoSpaces(tail[1..], k - 1);
    }
  }

  lemma FlushWithoutLast(spans: seq<seq<Cell>>, last: seq<Cell>)
    requires Flush(spans + [last])
    ensures Flush(spans)
  {
    forall k | 0 < k < |spans| ensures spans[k] != [] ==> spans[k][0].c != ' ' {
      assert (spans + [last])[k] == spans[k];
    }
  }

  // ---- Words stay whole ----------------------------------------------------------------------

  /** One word goes on from `a` to `b`. */
  predicate Splits(a: seq<Cell>, b: seq<Cell>) {
    a != [] && b != [] && a[|a| - 1].c != ' ' && b[0].c != ' '
  }

  /** A word goes over the end of a line only when it has the line to itself. */
  predicate Whole(spans: seq<seq<Cell>>) {
    forall k :: 0 < k < |spans| && Splits(spans[k - 1], spans[k]) ==> NoSpaces(spans[k - 1])
  }

  lemma WholeAppends(spans: seq<seq<Cell>>, tail: seq<seq<Cell>>)
    requires Whole(spans) && Whole(tail)
    requires spans != [] && tail != [] ==> !Splits(spans[|spans| - 1], tail[0])
    ensures Whole(spans + tail)
  {
    var all := spans + tail;
    forall k | 0 < k < |all| && Splits(all[k - 1], all[k]) ensures NoSpaces(all[k - 1]) {
      if k < |spans| {
        assert all[k - 1] == spans[k - 1] && all[k] == spans[k];
      } else if |spans| < k {
        assert all[k - 1] == tail[k - 1 - |spans|] && all[k] == tail[k - |spans|];
      }
    }
  }

  lemma WholeWithoutLast(spans: seq<seq<Cell>>, last: seq<Cell>)
    requires Whole(spans + [last])
    ensures Whole(spans)
  {
    var all := spans + [last];
    forall k | 0 < k < |spans| && Splits(spans[k - 1], spans[k]) ensures NoSpaces(spans[k - 1]) {
      assert all[k - 1] == spans[k - 1] && all[k] == spans[k];
    }
  }

  lemma WholeGrows(spans: seq<seq<Cell>>, last: seq<Cell>, more: seq<Cell>)
    requires Whole(spans + [last])
    requires last == [] && spans != [] ==> !Splits(spans[|spans| - 1], more)
    ensures Whole(spans + [last + more])
  {
    var was, all := spans + [last], spans + [last + more];
    assert [] + more == more;
    forall k | 0 < k < |all| && Splits(all[k - 1], all[k]) ensures NoSpaces(all[k - 1]) {
      assert all[k - 1] == was[k - 1];
      if k < |spans| || last != [] {
        assert Splits(was[k - 1], was[k]);
      }
    }
  }

  lemma {:induction false} PieceWithin(tail: seq<seq<Cell>>, k: nat, j: nat)
    requires k < |tail| && j < |tail[k]|
    ensures exists i :: 0 <= i < |Flat(tail)| && Flat(tail)[i] == tail[k][j]
    decreases k
  {
    var first, rest := tail[0], Flat(tail[1..]);
    if k == 0 {
      assert Flat(tail)[j] == first[j];
    } else {
      PieceWithin(tail[1..], k - 1, j);
      var i :| 0 <= i < |rest| && rest[i] == tail[k][j];
      assert Flat(tail)[|first| + i] == rest[i];
    }
  }

  /** The pieces of one word, or of one stretch of spaces. */
  lemma PiecesAreWhole(tail: seq<seq<Cell>>)
    requires Uniform(Flat(tail))
    ensures Whole(tail)
  {
    forall k | 0 < k < |tail| && Splits(tail[k - 1], tail[k]) ensures NoSpaces(tail[k - 1]) {
      var piece := tail[k - 1];
      PieceWithin(tail, k - 1, |piece| - 1);
      forall j | 0 <= j < |piece| ensures piece[j].c != ' ' {
        PieceWithin(tail, k - 1, j);
      }
    }
  }

  /** What does not go on a word from all there is does not go on one from the end of it. */
  lemma ApartFromLast(spans: seq<seq<Cell>>, m: seq<Cell>, next: seq<Cell>)
    requires !Splits(Flat(spans) + m, next)
    ensures !Splits(m, next)
    ensures m == [] && spans != [] ==> !Splits(spans[|spans| - 1], next)
  {
    LastOfBoth(Flat(spans), m);
    if m == [] && spans != [] {
      assert Flat(spans) + [] == Flat(spans);
      LastOfAll(spans);
    }
  }

  lemma LastOfAll(spans: seq<seq<Cell>>)
    requires spans != []
    ensures var all, last := Flat(spans), spans[|spans| - 1];
            last != [] ==> all != [] && all[|all| - 1] == last[|last| - 1]
  {
    var n := |spans| - 1;
    assert spans == spans[..n] + [spans[n]];
    FlatAdds(spans[..n], spans[n]);
    LastOfBoth(Flat(spans[..n]), spans[n]);
  }

  lemma LastOfBoth(a: seq<Cell>, b: seq<Cell>)
    ensures b != [] ==> (a + b)[|a + b| - 1] == b[|b| - 1]
  {
  }

  /**
   No line ends too early, no word is broken but one that has its line to itself; and when
   there are no codes no line begins with a space, but for the first.
   */
  predicate BreaksWell(spans: seq<seq<Cell>>, plain: bool, w: Columns, width: nat) {
    && Greedy(spans, w, width)
    && Whole(spans)
    && (plain ==> Flush(spans))
  }

  // ---- Lines under construction ---------------------------------------------------------

  /** Read from a cleared style, `line` ends in style `st`. */
  ghost predicate Reads(line: seq<Item>, st: Style) {
    Clean(line) && Replay(CLEAR, line) == st
  }

  /** Neither underline nor hyperlink reaches past the line's end. */
  ghost predicate Closed(line: seq<Item>) {
    var st := Replay(CLEAR, line);
    Clean(line) && !st.attributes.underline && st.hyperlink == None
  }

  lemma AddItems(line: seq<Item>, st: Style, items: seq<Item>, w: Columns)
    requires Reads(line, st) && Clean(items)
    ensures Reads(line + items, Replay(st, items))
    ensures Meaning(CLEAR, line + items) == Meaning(CLEAR, line) + Meaning(st, items)
    ensures VisibleWidth(w, line + items) == VisibleWidth(w, line) + VisibleWidth(w, items)
  {
    ReplayAppends(CLEAR, line, items);
    MeaningAppends(CLEAR, line, items);
    WidthAppends(w, line, items);
  }

  lemma StyleOfText(line: seq<Item>, st: Style)
    requires Reads(line, st)
    ensures WellFormed(st)
  {
    ReplayKeepsWellFormed(CLEAR, line);
  }

  /** The active codes of a style reached by reading open a line in that style. */
  lemma OpenLine(read: seq<Item>, st: Style, w: Columns)
    requires Reads(read, st)
    ensures Reads(ActiveCodes(st), st) && Meaning(CLEAR, ActiveCodes(st)) == []
    ensures CodesOnly(ActiveCodes(st)) && VisibleWidth(w, ActiveCodes(st)) == 0
  {
    StyleOfText(read, st);
    ActiveCodesAreClean(st);
    ActiveCodesRestore(st);
    CodesShowNothing(CLEAR, ActiveCodes(st));
    CodesHaveNoWidth(w, ActiveCodes(st));
  }

  lemma ResetShowsNothing(read: seq<Item>, st: Style, w: Columns)
    requires Reads(read, st)
    ensures Clean(LineEndReset(st)) && Meaning(st, LineEndReset(st)) == [] && VisibleWidth(w, LineEndReset(st)) == 0
    ensures Replay(st, LineEndReset(st)) == WithoutUnderline(st).(hyperlink := None)
  {
    StyleOfText(read, st);
    LineEndResetCloses(st);
    CodesShowNothing(st, LineEndReset(st));
    CodesHaveNoWidth(w, LineEndReset(st));
  }

  lemma CloseLine(line: seq<Item>, st: Style, w: Columns)
    requires Reads(line, st)
    ensures Closed(line + LineEndReset(st))
    ensures Meaning(CLEAR, line + LineEndReset(st)) == Meaning(CLEAR, line)
    ensures VisibleWidth(w, line + LineEndReset(st)) == VisibleWidth(w, line)
  {
    ResetShowsNothing(line, st, w);
    AddItems(line, st, LineEndReset(st), w);
    assert Meaning(CLEAR, line) + [] == Meaning(CLEAR, line);
  }

  lemma OneItem(st: Style, item: Item, w: Columns)
    ensures Meaning(st, [item]) == if item.Glyph? then [Cell(item.c, st)] else []
    ensures Replay(st, [item]) == if item.Code? then Process(st, item.code) else st
    ensures VisibleWidth(w, [item]) == if item.Glyph? then w(item.c) else 0
  {
    assert [item][1..] == [] && [item][..0] == [];
  }

  /** The finished lines and the line under construction show the word so far. */
  ghost predicate Breaking(lines: seq<seq<Item>>, currentLine: seq<Item>, from: Style, word: seq<Item>, st: Style) {
    && Reads(currentLine, st)
    && Replay(from, word) == st
    && LinesMeaning(lines) + Meaning(CLEAR, currentLine) == Meaning(from, word)
    && (forall k :: 0 <= k < |lines| ==> Closed(lines[k]))
    && (lines != [] ==> currentLine != [])
  }

  lemma BreakHere(lines: seq<seq<Item>>, currentLine: seq<Item>, from: Style, word: seq<Item>, st: Style, w: Columns)
    requires Breaking(lines, currentLine, from, word, st)
    ensures var lines' := lines + [currentLine + LineEndReset(st)];
            && Reads(ActiveCodes(st), st)
            && LinesMeaning(lines') + Meaning(CLEAR, ActiveCodes(st)) == Meaning(from, word)
            && (forall k :: 0 <= k < |lines'| ==> Closed(lines'[k]))
    ensures VisibleWidth(w, currentLine + LineEndReset(st)) == VisibleWidth(w, currentLine)
    ensures VisibleWidth(w, ActiveCodes(st)) == 0
  {
    CloseLine(currentLine, st, w);
    LinesAppend(lines, currentLine + LineEndReset(st));
    OpenLine(currentLine, st, w);
    assert Meaning(from, word) + [] == Meaning(from, word);
  }

  lemma BreakAdd(lines: seq<seq<Item>>, currentLine: seq<Item>, from: Style, word: seq<Item>, st: Style,
                 items: seq<Item>, w: Columns)
    requires Clean(items) && items != [] && Reads(currentLine, st) && Replay(from, word) == st
    requires LinesMeaning(lines) + Meaning(CLEAR, currentLine) == Meaning(from, word)
    requires forall k :: 0 <= k < |lines| ==> Closed(lines[k])
    ensures Breaking(lines, currentLine + items, from, word + items, Replay(st, items))
    ensures VisibleWidth(w, currentLine + items) == VisibleWidth(w, currentLine) + VisibleWidth(w, items)
  {
    AddItems(currentLine, st, items, w);
    ReplayAppends(from, word, items);
    MeaningAppends(from, word, items);
    AddedMeaning(LinesMeaning(lines), Meaning(CLEAR, currentLine), Meaning(st, items));
  }

  lemma AddedMeaning(a: seq<Cell>, b: seq<Cell>, c: seq<Cell>)
    ensures a + (b + c) == (a + b) + c
  {
  }

  /** ... and, when every character fits a line, so do they. */
  ghost predicate Narrow(lines: seq<seq<Item>>, currentLine: seq<Item>, currentWidth: nat, word: seq<Item>,
                         w: Columns, width: nat) {
    && currentWidth == VisibleWidth(w, currentLine)
    && (Fits(w, word, width) ==>
          && currentWidth <= width
          && (forall k :: 0 <= k < |lines| ==> VisibleWidth(w, lines[k]) <= width)
          && (HasGlyph(word) ==> 0 < currentWidth))
  }

  lemma CodeStep(lines: seq<seq<Item>>, currentLine: seq<Item>, currentWidth: nat, from: Style, word: seq<Item>,
                 st: Style, code: string, w: Columns, width: nat)
    requires Breaking(lines, currentLine, from, word, st) && Narrow(lines, currentLine, currentWidth, word, w, width)
    requires IsCode(code)
    ensures Breaking(lines, currentLine + [Code(code)], from, word + [Code(code)], Process(st, code))
    ensures Narrow(lines, currentLine + [Code(code)], currentWidth, word + [Code(code)], w, width)
  {
    OneItem(st, Code(code), w);
    BreakAdd(lines, currentLine, from, word, st, [Code(code)], w);
    FitsAppends(w, word, Code(code), width);
  }

  lemma FitsAppends(w: Columns, word: seq<Item>, item: Item, width: nat)
    ensures Fits(w, word + [item], width) <==> Fits(w, word, width) && (item.Glyph? ==> 1 <= w(item.c) <= width)
    ensures HasGlyph(word + [item]) <==> HasGlyph(word) || item.Glyph?
  {
    var all := word + [item];
    assert forall k :: 0 <= k < |word| ==> all[k] == word[k];
    assert all[|word|] == item;
  }

  lemma GlyphFits(lines: seq<seq<Item>>, currentLine: seq<Item>, currentWidth: nat, from: Style, word: seq<Item>,
                  st: Style, c: char, w: Columns, width: nat)
    requires Breaking(lines, currentLine, from, word, st) && Narrow(lines, currentLine, currentWidth, word, w, width)
    requires c != ESC && currentWidth + w(c) <= width
    ensures Breaking(lines, currentLine + [Glyph(c)], from, word + [Glyph(c)], st)
    ensures Narrow(lines, currentLine + [Glyph(c)], currentWidth + w(c), word + [Glyph(c)], w, width)
  {
    OneItem(st, Glyph(c), w);
    BreakAdd(lines, currentLine, from, word, st, [Glyph(c)], w);
    FitsAppends(w, word, Glyph(c), width);
  }

  lemma GlyphOnNewLine(lines: seq<seq<Item>>, from: Style, word: seq<Item>, st: Style, c: char, w: Columns)
    requires c != ESC && Reads(ActiveCodes(st), st) && Replay(from, word) == st
    requires LinesMeaning(lines) + Meaning(CLEAR, ActiveCodes(st)) == Meaning(from, word)
    requires VisibleWidth(w, ActiveCodes(st)) == 0
    requires forall k :: 0 <= k < |lines| ==> Closed(lines[k])
    ensures Breaking(lines, ActiveCodes(st) + [Glyph(c)], from, word + [Glyph(c)], st)
    ensures VisibleWidth(w, ActiveCodes(st) + [Glyph(c)]) == w(c)
  {
    OneItem(st, Glyph(c), w);
    BreakAdd(lines, ActiveCodes(st), from, word, st, [Glyph(c)], w);
  }

  lemma GlyphBreaks(lines: seq<seq<Item>>, currentLine: seq<Item>, currentWidth: nat, from: Style, word: seq<Item>,
                    st: Style, c: char, w: Columns, width: nat)
    requires Breaking(lines, currentLine, from, word, st) && Narrow(lines, currentLine, currentWidth, word, w, width)
    requires c != ESC
    ensures var lines', line' := lines + [currentLine + LineEndReset(st)], ActiveCodes(st) + [Glyph(c)];
            && Breaking(lines', line', from, word + [Glyph(c)], st)
            && Narrow(lines', line', w(c), word + [Glyph(c)], w, width)
  {
    BreakHere(lines, currentLine, from, word, st, w);
    GlyphOnNewLine(lines + [currentLine + LineEndReset(st)], from, word, st, c, w);
    FitsAppends(w, word, Glyph(c), width);
  }

  predicate Line(items: seq<Item>) { true }

  /** A word broken so far; it is looked into only where that is asked for. */
  ghost predicate BreakState(lines: seq<seq<Item>>, currentLine: seq<Item>, currentWidth: nat, from: Style,
                             word: seq<Item>,
                             st: Style, w: Columns, width: nat)
  {
    forall x {:trigger Line(x)} :: Line(x) && x == currentLine ==>
      && Breaking(lines, x, from, word, st)
      && Narrow(lines, x, currentWidth, word, w, width)
      && Greedy(Spans(lines) + [Meaning(CLEAR, x)], w, width)
      && (HasGlyph(word) ==> Meaning(CLEAR, x) != [])
  }

  lemma WhatIsBroken(lines: seq<seq<Item>>, currentLine: seq<Item>, currentWidth: nat, from: Style, word: seq<Item>,
                     st: Style, w: Columns, width: nat)
    requires BreakState(lines, currentLine, currentWidth, from, word, st, w, width)
    ensures Breaking(lines, currentLine, from, word, st) && Narrow(lines, currentLine, currentWidth, word, w, width)
    ensures Greedy(Spans(lines) + [Meaning(CLEAR, currentLine)], w, width)
    ensures HasGlyph(word) ==> Meaning(CLEAR, currentLine) != []
  {
    assert Line(currentLine);
  }

  /** A code shows nothing; a character that fits goes on the line. */
  lemma GreedyAdds(lines: seq<seq<Item>>, currentLine: seq<Item>, st: Style, item: Item, w: Columns, width: nat)
    requires Reads(currentLine, st) && Clean([item])
    requires Greedy(Spans(lines) + [Meaning(CLEAR, currentLine)], w, width)
    ensures Greedy(Spans(lines) + [Meaning(CLEAR, currentLine + [item])], w, width)
    ensures item.Glyph? || Meaning(CLEAR, currentLine) != [] ==> Meaning(CLEAR, currentLine + [item]) != []
  {
    AddItems(currentLine, st, [item], w);
    OneItem(st, item, w);
    GreedyGrows(Spans(lines), Meaning(CLEAR, currentLine), Meaning(st, [item]), w, width);
  }

  /** A character that does not fit ends the line. */
  lemma GreedyEnds(lines: seq<seq<Item>>, currentLine: seq<Item>, st: Style, c: char, w: Columns, width: nat)
    requires Reads(currentLine, st) && c != ESC && VisibleWidth(w, currentLine) + w(c) > width
    requires Greedy(Spans(lines) + [Meaning(CLEAR, currentLine)], w, width)
    ensures Greedy(Spans(lines + [currentLine + LineEndReset(st)]) + [Meaning(CLEAR, ActiveCodes(st) + [Glyph(c)])],
                   w, width)
    ensures Meaning(CLEAR, ActiveCodes(st) + [Glyph(c)]) != []
  {
    var m, next := Meaning(CLEAR, currentLine), [Cell(c, st)];
    CloseLine(currentLine, st, w);
    SpansAdd(lines, currentLine + LineEndReset(st));
    OpenLine(currentLine, st, w);
    OneItem(st, Glyph(c), w);
    AddItems(ActiveCodes(st), st, [Glyph(c)], w);
    assert [] + next == next;
    WidthOfMeaning(w, CLEAR, currentLine);
    CellWidth(w, Cell(c, st));
    OverflowsBy(m, next, w, width);
    FlatOne(next);
    GreedyBreaks(Spans(lines), m, m, [next], w, width);
  }

  lemma BreakStart(read: seq<Item>, st: Style, w: Columns, width: nat)
    requires Reads(read, st)
    ensures BreakState([], ActiveCodes(st), 0, st, [], st, w, width)
  {
    OpenLine(read, st, w);
    assert |Spans([]) + [Meaning(CLEAR, ActiveCodes(st))]| == 1;
  }

  lemma BreakOnCode(lines: seq<seq<Item>>, currentLine: seq<Item>, currentWidth: nat, from: Style, word: seq<Item>,
                    st: Style, code: string, w: Columns, width: nat)
    requires BreakState(lines, currentLine, currentWidth, from, word, st, w, width) && IsCode(code)
    ensures BreakState(lines, currentLine + [Code(code)], currentWidth, from, word + [Code(code)], Process(st, code),
                       w, width)
  {
    WhatIsBroken(lines, currentLine, currentWidth, from, word, st, w, width);
    CodeStep(lines, currentLine, currentWidth, from, word, st, code, w, width);
    FitsAppends(w, word, Code(code), width);
    GreedyAdds(lines, currentLine, st, Code(code), w, width);
  }

  lemma BreakOnGlyph(lines: seq<seq<Item>>, currentLine: seq<Item>, currentWidth: nat, from: Style, word: seq<Item>,
                     st: Style, c: char, w: Columns, width: nat)
    requires BreakState(lines, currentLine, currentWidth, from, word, st, w, width) && c != ESC
    ensures if currentWidth + w(c) > width
            then BreakState(lines + [currentLine + LineEndReset(st)], ActiveCodes(st) + [Glyph(c)], w(c), from,
                            word + [Glyph(c)],
                            st, w, width)
            else BreakState(lines, currentLine + [Glyph(c)], currentWidth + w(c), from, word + [Glyph(c)], st, w, width)
  {
    WhatIsBroken(lines, currentLine, currentWidth, from, word, st, w, width);
    if currentWidth + w(c) > width {
      GlyphBreaks(lines, currentLine, currentWidth, from, word, st, c, w, width);
      GreedyEnds(lines, currentLine, st, c, w, width);
    } else {
      GlyphFits(lines, currentLine, currentWidth, from, word, st, c, w, width);
      GreedyAdds(lines, currentLine, st, Glyph(c), w, width);
    }
  }

  /** One code or character of a word being broken. */
  method BreakItem(lines: seq<seq<Item>>, currentLine: seq<Item>, currentWidth: nat, item: Item, width: nat, w: Columns,
                   tracker: AnsiCodeTracker, ghost from: Style, ghost word: seq<Item>)
    returns (lines': seq<seq<Item>>, currentLine': seq<Item>, currentWidth': nat)
    requires if item.Code? then IsCode(item.code) else item.c != ESC
    requires BreakState(lines, currentLine, currentWidth, from, word, tracker.Abstract(), w, width)
    modifies tracker
    ensures BreakState(lines', currentLine', currentWidth', from, word + [item], tracker.Abstract(), w, width)
  {
    ghost var st := tracker.Abstract();
    match item
    case Code(code) =>
      BreakOnCode(lines, currentLine, currentWidth, from, word, st, code, w, width);
      lines', currentLine', currentWidth' := lines, currentLine + [item], currentWidth;
      tracker.ProcessCode(code);
    case Glyph(c) =>
      BreakOnGlyph(lines, currentLine, currentWidth, from, word, st, c, w, width);
      if currentWidth + w(c) > width {
        lines' := lines + [currentLine + LineEndReset(tracker.Abstract())];
        currentLine' := ActiveCodes(tracker.Abstract()) + [item];
        currentWidth' := w(c);
      } else {
        lines', currentLine', currentWidth' := lines, currentLine + [item], currentWidth + w(c);
      }
  }

  /** Breaks a word that does not fit a line; each new line reopens the style. */
  method BreakLongWord(word: seq<Item>, width: nat, w: Columns, tracker: AnsiCodeTracker, ghost read: seq<Item>)
    returns (lines: seq<seq<Item>>, last: seq<Item>)
    requires Clean(word) && Reads(read, tracker.Abstract())
    modifies tracker
    ensures Breaking(lines, last, old(tracker.Abstract()), word, tracker.Abstract())
    ensures Narrow(lines, last, VisibleWidth(w, last), word, w, width)
    ensures Greedy(Spans(lines) + [Meaning(CLEAR, last)], w, width)
    ensures HasGlyph(word) ==> Meaning(CLEAR, last) != []
  {
    ghost var from := tracker.Abstract();
    lines, last := [], ActiveCodes(tracker.Abstract());
    var currentWidth: nat := 0;
    ghost var done: seq<Item> := [];
    BreakStart(read, from, w, width);
    for i := 0 to |word|
      invariant done == word[..i]
      invariant BreakState(lines, last, currentWidth, from, done, tracker.Abstract(), w, width)
    {
      lines, last, currentWidth := BreakItem(lines, last, currentWidth, word[i], width, w, tracker, from, done);
      done := done + [word[i]];
    }
    assert done == word;
    WhatIsBroken(lines, last, currentWidth, from, word, tracker.Abstract(), w, width);
  }

  // ---- Tokens -----------------------------------------------------------------------------

  /** Has a character, and all of its characters are spaces (or none is). */
  ghost predicate OfKind(token: seq<Item>, space: bool) {
    && HasGlyph(token)
    && forall k :: 0 <= k < |token| && token[k].Glyph? ==> (token[k].c == ' ') == space
  }

  /** Tokens of one kind each, the kinds alternating; a text without characters is one token. */
  ghost predicate Tokenized(tokens: seq<seq<Item>>, kinds: seq<bool>) {
    && |kinds| == |tokens|
    && (forall k :: 0 <= k < |tokens| ==> OfKind(tokens[k], kinds[k]))
    && (forall k :: 0 < k < |kinds| ==> kinds[k] != kinds[k - 1])
  }

  /** Finished tokens, the one being built, and codes waiting for the next character. */
  ghost predicate Tokenizing(tokens: seq<seq<Item>>, kinds: seq<bool>, current: seq<Item>, codes: seq<Item>,
                             space: bool, done: seq<Item>)
  {
    && Concat(tokens) + current + codes == done
    && Tokenized(tokens, kinds)
    && CodesOnly(codes)
    && (if current == [] then tokens == [] else OfKind(current, space))
    && (tokens != [] ==> kinds[|kinds| - 1] != space)
  }

  lemma TokenCode(tokens: seq<seq<Item>>, kinds: seq<bool>, current: seq<Item>, codes: seq<Item>, space: bool,
                  done: seq<Item>, item: Item)
    requires Tokenizing(tokens, kinds, current, codes, space, done) && item.Code?
    ensures Tokenizing(tokens, kinds, current, codes + [item], space, done + [item])
  {
    assert Concat(tokens) + current + (codes + [item]) == Concat(tokens) + current + codes + [item];
  }

  lemma TokenGrows(tokens: seq<seq<Item>>, kinds: seq<bool>, current: seq<Item>, codes: seq<Item>, space: bool,
                   done: seq<Item>, item: Item)
    requires Tokenizing(tokens, kinds, current, codes, space, done) && item.Glyph?
    requires current == [] || (item.c == ' ') == space
    ensures Tokenizing(tokens, kinds, current + codes + [item], [], item.c == ' ', done + [item])
  {
    KindGrows(current, codes, item, item.c == ' ');
    assert Concat(tokens) + (current + codes + [item]) + [] == Concat(tokens) + current + codes + [item];
  }

  lemma TokenizedAdds(tokens: seq<seq<Item>>, kinds: seq<bool>, token: seq<Item>, kind: bool)
    requires Tokenized(tokens, kinds) && OfKind(token, kind) && (tokens != [] ==> kinds[|kinds| - 1] != kind)
    ensures Tokenized(tokens + [token], kinds + [kind])
  {
  }

  lemma TokenEnds(tokens: seq<seq<Item>>, kinds: seq<bool>, current: seq<Item>, codes: seq<Item>, space: bool,
                  done: seq<Item>, item: Item)
    requires Tokenizing(tokens, kinds, current, codes, space, done) && item.Glyph?
    requires current != [] && (item.c == ' ') != space
    ensures Tokenizing(tokens + [current], kinds + [space], codes + [item], [], item.c == ' ', done + [item])
  {
    LinesAppend(tokens, current);
    TokenizedAdds(tokens, kinds, current, space);
    KindGrows([], codes, item, item.c == ' ');
    assert [] + codes + [item] == codes + [item];
    assert Concat(tokens) + current + (codes + [item]) + [] == Concat(tokens) + current + codes + [item];
  }

  lemma TokensEnd(tokens: seq<seq<Item>>, kinds: seq<bool>, current: seq<Item>, codes: seq<Item>, space: bool,
                  done: seq<Item>)
    requires Tokenizing(tokens, kinds, current, codes, space, done) && current + codes != []
    ensures Concat(tokens + [current + codes]) == done
    ensures HasGlyph(done) ==> Tokenized(tokens + [current + codes], kinds + [space])
  {
    LinesAppend(tokens, current + codes);
    if current != [] {
      KindKeeps(current, codes, space);
      TokenizedAdds(tokens, kinds, current + codes, space);
    } else {
      assert Concat(tokens) + current == [] && done == codes;
    }
  }

  /** Cuts a line between spaces and other characters; codes go with the character after them. */
  method SplitIntoTokensWithAnsi(text: seq<Item>) returns (tokens: seq<seq<Item>>, ghost kinds: seq<bool>)
    ensures Concat(tokens) == text
    ensures HasGlyph(text) ==> Tokenized(tokens, kinds)
  {
    tokens, kinds := [], [];
    var current: seq<Item> := [];
    var pendingAnsi: seq<Item> := [];
    var inWhitespace := false;
    assert text[..0] == [];
    for i := 0 to |text|
      invariant Tokenizing(tokens, kinds, current, pendingAnsi, inWhitespace, text[..i])
    {
      assert text[..i + 1] == text[..i] + [text[i]];
      if text[i].Code? {
        TokenCode(tokens, kinds, current, pendingAnsi, inWhitespace, text[..i], text[i]);
        pendingAnsi := pendingAnsi + [text[i]];
        continue;
      }
      var charIsSpace := text[i].c == ' ';
      if charIsSpace != inWhitespace && current != [] {
        TokenEnds(tokens, kinds, current, pendingAnsi, inWhitespace, text[..i], text[i]);
        tokens := tokens + [current];
        kinds := kinds + [inWhitespace];
        current := [];
      } else {
        TokenGrows(tokens, kinds, current, pendingAnsi, inWhitespace, text[..i], text[i]);
      }
      assert [] + pendingAnsi + [text[i]] == pendingAnsi + [text[i]];
      current := current + pendingAnsi + [text[i]];
      pendingAnsi := [];
      inWhitespace := charIsSpace;
    }
    assert text[..|text|] == text;
    tokens, kinds := FlushToken(tokens, kinds, current, pendingAnsi, inWhitespace, text);
  }

  /** What is left over is the last token. */
  method FlushToken(tokens: seq<seq<Item>>, ghost kinds: seq<bool>, current: seq<Item>, pendingAnsi: seq<Item>,
                    inWhitespace: bool, ghost text: seq<Item>)
    returns (all: seq<seq<Item>>, ghost allKinds: seq<bool>)
    requires Tokenizing(tokens, kinds, current, pendingAnsi, inWhitespace, text)
    ensures Concat(all) == text && (HasGlyph(text) ==> Tokenized(all, allKinds))
  {
    all, allKinds := tokens, kinds;
    if current + pendingAnsi != [] {
      TokensEnd(tokens, kinds, current, pendingAnsi, inWhitespace, text);
      all := all + [current + pendingAnsi];
      allKinds := allKinds + [inWhitespace];
    } else {
      assert Concat(tokens) + current + pendingAnsi == Concat(tokens);
    }
  }

  lemma KindGrows(current: seq<Item>, codes: seq<Item>, item: Item, space: bool)
    requires CodesOnly(codes) && item.Glyph? && (item.c == ' ') == space
    requires current == [] || OfKind(current, space)
    ensures OfKind(current + codes + [item], space)
  {
    var all := current + codes + [item];
    assert all[|current| + |codes|] == item;
  }

  lemma KindKeeps(current: seq<Item>, codes: seq<Item>, space: bool)
    requires CodesOnly(codes) && OfKind(current, space)
    ensures OfKind(current + codes, space)
  {
    var k :| 0 <= k < |current| && current[k].Glyph?;
    assert (current + codes)[k] == current[k];
  }

  // ---- One line --------------------------------------------------------------------------------

  /** The finished lines show their spans, and the line under construction all that was read behind those. */
  ghost predicate Wrapping(wrapped: seq<seq<Item>>, spans: seq<seq<Cell>>, currentLine: seq<Item>, done: seq<Item>,
                           st: Style) {
    && Reads(currentLine, st)
    && Replay(CLEAR, done) == st
    && AllShown(wrapped, spans)
    && Meaning(CLEAR, done) == Flat(spans) + Meaning(CLEAR, currentLine)
    && (forall k :: 0 <= k < |wrapped| ==> Closed(wrapped[k]))
  }

  lemma WrapAdd(wrapped: seq<seq<Item>>, spans: seq<seq<Cell>>, currentLine: seq<Item>, done: seq<Item>, st: Style,
                token: seq<Item>, w: Columns)
    requires Wrapping(wrapped, spans, currentLine, done, st) && Clean(token)
    ensures Wrapping(wrapped, spans, currentLine + token, done + token, Replay(st, token))
    ensures Meaning(CLEAR, currentLine + token) == Meaning(CLEAR, currentLine) + Meaning(st, token)
    ensures VisibleWidth(w, currentLine + token) == VisibleWidth(w, currentLine) + VisibleWidth(w, token)
  {
    AddItems(currentLine, st, token, w);
    ReplayAppends(CLEAR, done, token);
    MeaningAppends(CLEAR, done, token);
    AddedMeaning(Flat(spans), Meaning(CLEAR, currentLine), Meaning(st, token));
  }

  /** Ends the line (as it is, or trimmed) and opens the next one in the same style. */
  lemma EndedLine(currentLine: seq<Item>, st: Style, ended: seq<Item>, w: Columns)
    requires Reads(currentLine, st) && (ended == currentLine || ended == TrimEnd(currentLine))
    ensures var line := ended + LineEndReset(st);
            && Closed(line) && Shown(line, Meaning(CLEAR, currentLine))
            && VisibleWidth(w, line) == VisibleWidth(w, ended) <= VisibleWidth(w, currentLine)
  {
    TrimOnlyDropsSpaces(CLEAR, w, currentLine);
    TrimTakesTheEnd(CLEAR, currentLine);
    CloseLine(ended, st, w);
  }

  lemma WrapEnd(wrapped: seq<seq<Item>>, spans: seq<seq<Cell>>, currentLine: seq<Item>, done: seq<Item>, st: Style,
                ended: seq<Item>, w: Columns)
    requires Wrapping(wrapped, spans, currentLine, done, st)
    requires ended == currentLine || ended == TrimEnd(currentLine)
    ensures var line := ended + LineEndReset(st);
            && Wrapping(wrapped + [line], spans + [Meaning(CLEAR, currentLine)], ActiveCodes(st), done, st)
            && VisibleWidth(w, line) == VisibleWidth(w, ended) <= VisibleWidth(w, currentLine)
    ensures Meaning(CLEAR, ActiveCodes(st)) == [] && VisibleWidth(w, ActiveCodes(st)) == 0
  {
    EndedLine(currentLine, st, ended, w);
    OpenLine(currentLine, st, w);
    FlatAdds(spans, Meaning(CLEAR, currentLine));
    ShownAdds(wrapped, spans, ended + LineEndReset(st), Meaning(CLEAR, currentLine));
    assert Meaning(CLEAR, done) + [] == Meaning(CLEAR, done);
  }

  lemma ShownAdds(lines: seq<seq<Item>>, spans: seq<seq<Cell>>, line: seq<Item>, span: seq<Cell>)
    requires AllShown(lines, spans) && Shown(line, span)
    ensures AllShown(lines + [line], spans + [span])
  {
  }

  /** Spaces that overflow a line belong to it, but are not shown. */
  lemma WrapSkip(wrapped: seq<seq<Item>>, spans: seq<seq<Cell>>, span: seq<Cell>, line: seq<Item>, done: seq<Item>,
                 st: Style, token: seq<Item>)
    requires Wrapping(wrapped, spans + [span], line, done, st) && Meaning(CLEAR, line) == [] && PureSpaces(token)
    ensures Wrapping(wrapped, spans + [span + Meaning(st, token)], line, done + token, st)
  {
    SpacesMeanSpaces(st, token);
    ReplayAppends(CLEAR, done, token);
    MeaningAppends(CLEAR, done, token);
    FlatAdds(spans, span);
    FlatAdds(spans, span + Meaning(st, token));
    AddedMeaning(Flat(spans), span, Meaning(st, token));
    assert Flat(spans) + span + [] == Flat(spans) + span;
    assert Flat(spans) + (span + Meaning(st, token)) + [] == Flat(spans) + (span + Meaning(st, token));
    var n := |wrapped| - 1;
    BlankOn(wrapped[n], span, Meaning(st, token));
    forall k | 0 <= k < n ensures Shown(wrapped[k], spans[k]) {
      assert (spans + [span])[k] == spans[k];
    }
  }

  lemma BlankOn(line: seq<Item>, span: seq<Cell>, more: seq<Cell>)
    requires Shown(line, span) && Blank(more)
    ensures Shown(line, span + more)
  {
    var m := Meaning(CLEAR, line);
    assert (span + more)[|m|..] == span[|m|..] + more;
  }

  /** A long word continues with its own lines, its last one under construction. */
  lemma WrapBroken(wrapped: seq<seq<Item>>, spans: seq<seq<Cell>>, done: seq<Item>, st: Style, token: seq<Item>,
                   broken: seq<seq<Item>>, last: seq<Item>, st': Style)
    requires AllShown(wrapped, spans) && Meaning(CLEAR, done) == Flat(spans) && Replay(CLEAR, done) == st
    requires forall k :: 0 <= k < |wrapped| ==> Closed(wrapped[k])
    requires Breaking(broken, last, st, token, st')
    ensures Wrapping(wrapped + broken, spans + Spans(broken), last, done + token, st')
  {
    ReplayAppends(CLEAR, done, token);
    MeaningAppends(CLEAR, done, token);
    SpansAreShown(broken);
    ShownAppends(wrapped, spans, broken, Spans(broken));
    FlatAppends(spans, Spans(broken));
    AddedMeaning(Flat(spans), LinesMeaning(broken), Meaning(CLEAR, last));
  }

  lemma ShownAppends(a: seq<seq<Item>>, x: seq<seq<Cell>>, b: seq<seq<Item>>, y: seq<seq<Cell>>)
    requires AllShown(a, x) && AllShown(b, y)
    ensures AllShown(a + b, x + y)
  {
    var lines, spans := a + b, x + y;
    forall k | 0 <= k < |lines| ensures Shown(lines[k], spans[k]) {
      assert if k < |a| then lines[k] == a[k] && spans[k] == x[k]
             else lines[k] == b[k - |a|] && spans[k] == y[k - |a|];
    }
  }

  /** Within the width once trimmed; only spaces in no style at all may run over while under construction. */
  ghost predicate WithinWidth(wrapped: seq<seq<Item>>, currentLine: seq<Item>, currentWidth: nat, st: Style,
                              w: Columns, width: nat)
  {
    && (forall k :: 0 <= k < |wrapped| ==> VisibleWidth(w, TrimEnd(wrapped[k])) <= width)
    && (currentWidth <= width || (PureSpaces(currentLine) && st == CLEAR))
  }

  lemma EndedWithinWidth(currentLine: seq<Item>, currentWidth: nat, st: Style, ended: seq<Item>, w: Columns, width: nat)
    requires Reads(currentLine, st) && currentWidth == VisibleWidth(w, currentLine)
    requires ended == currentLine || ended == TrimEnd(currentLine)
    requires currentWidth <= width || (PureSpaces(currentLine) && st == CLEAR)
    ensures VisibleWidth(w, TrimEnd(ended + LineEndReset(st))) <= width
  {
    var line := ended + LineEndReset(st);
    TrimOnlyDropsSpaces(CLEAR, w, line);
    TrimOnlyDropsSpaces(CLEAR, w, currentLine);
    ResetShowsNothing(currentLine, st, w);
    WidthAppends(w, ended, LineEndReset(st));
    if width < currentWidth {
      assert line == ended;
      SpacesTrimAway(currentLine);
      assert TrimEnd(line) == [];
    }
  }

  /** Ends the line under construction, if there is one, so that a long word starts on a new line. */
  lemma EndLineKeeps(wrapped: seq<seq<Item>>, spans: seq<seq<Cell>>, currentLine: seq<Item>, done: seq<Item>,
                     st: Style, w: Columns)
    requires Wrapping(wrapped, spans, currentLine, done, st)
    ensures var ended, spans' := wrapped + [currentLine + LineEndReset(st)], spans + [Meaning(CLEAR, currentLine)];
            && AllShown(ended, spans') && Meaning(CLEAR, done) == Flat(spans')
            && forall k :: 0 <= k < |ended| ==> Closed(ended[k])
  {
    WrapEnd(wrapped, spans, currentLine, done, st, currentLine, w);
    FlatAdds(spans, Meaning(CLEAR, currentLine));
  }

  lemma EndLineFits(wrapped: seq<seq<Item>>, currentLine: seq<Item>, currentWidth: nat, st: Style, w: Columns,
                    width: nat)
    requires Reads(currentLine, st) && currentWidth == VisibleWidth(w, currentLine)
    requires WithinWidth(wrapped, currentLine, currentWidth, st, w, width)
    ensures var ended := wrapped + [currentLine + LineEndReset(st)];
            forall k :: 0 <= k < |ended| ==> VisibleWidth(w, TrimEnd(ended[k])) <= width
  {
    EndedWithinWidth(currentLine, currentWidth, st, currentLine, w, width);
  }

  method EndLine(wrapped: seq<seq<Item>>, ghost spans: seq<seq<Cell>>, currentLine: seq<Item>, ghost currentWidth: nat,
                 width: nat, ghost w: Columns,
                 st: Style, ghost done: seq<Item>, ghost fits: bool)
    returns (wrapped': seq<seq<Item>>, ghost spans': seq<seq<Cell>>)
    requires Wrapping(wrapped, spans, currentLine, done, st) && currentWidth == VisibleWidth(w, currentLine)
    requires fits ==> WithinWidth(wrapped, currentLine, currentWidth, st, w, width)
    ensures spans' == if currentLine != [] then spans + [Meaning(CLEAR, currentLine)] else spans
    ensures AllShown(wrapped', spans') && Meaning(CLEAR, done) == Flat(spans')
    ensures forall k :: 0 <= k < |wrapped'| ==> Closed(wrapped'[k])
    ensures fits ==> forall k :: 0 <= k < |wrapped'| ==> VisibleWidth(w, TrimEnd(wrapped'[k])) <= width
  {
    wrapped', spans' := wrapped, spans;
    if currentLine != [] {
      wrapped' := wrapped + [currentLine + LineEndReset(st)];
      spans' := spans + [Meaning(CLEAR, currentLine)];
      EndLineKeeps(wrapped, spans, currentLine, done, st, w);
      if fits {
        EndLineFits(wrapped, currentLine, currentWidth, st, w, width);
      }
    } else {
      assert Flat(spans) + [] == Flat(spans);
    }
  }

  lemma BrokenWithinWidth(ended: seq<seq<Item>>, broken: seq<seq<Item>>, last: seq<Item>, token: seq<Item>, st: Style,
                          w: Columns, width: nat)
    requires forall k :: 0 <= k < |ended| ==> VisibleWidth(w, TrimEnd(ended[k])) <= width
    requires Narrow(broken, last, VisibleWidth(w, last), token, w, width) && Fits(w, token, width)
    ensures WithinWidth(ended + broken, last, VisibleWidth(w, last), st, w, width)
  {
    forall k | 0 <= k < |broken| ensures VisibleWidth(w, TrimEnd(broken[k])) <= width {
      TrimOnlyDropsSpaces(CLEAR, w, broken[k]);
    }
  }

  /** A line wrapped so far; it is looked into only where that is asked for. */
  ghost predicate WrapPoint(wrapped: seq<seq<Item>>, spans: seq<seq<Cell>>, currentLine: seq<Item>, currentWidth: nat,
                            done: seq<Item>, st: Style, fits: bool, plain: bool, w: Columns, width: nat) {
    forall x {:trigger Line(x)} :: Line(x) && x == currentLine ==>
      && Wrapping(wrapped, spans, x, done, st)
      && currentWidth == VisibleWidth(w, x)
      && BreaksWell(spans + [Meaning(CLEAR, x)], plain, w, width)
      && (fits ==> WithinWidth(wrapped, x, currentWidth, st, w, width))
  }

  lemma WhatIsAtPoint(wrapped: seq<seq<Item>>, spans: seq<seq<Cell>>, currentLine: seq<Item>, currentWidth: nat,
                      done: seq<Item>, st: Style, fits: bool, plain: bool, w: Columns, width: nat)
    requires WrapPoint(wrapped, spans, currentLine, currentWidth, done, st, fits, plain, w, width)
    ensures Wrapping(wrapped, spans, currentLine, done, st)
    ensures currentWidth == VisibleWidth(w, currentLine)
    ensures BreaksWell(spans + [Meaning(CLEAR, currentLine)], plain, w, width)
    ensures fits ==> WithinWidth(wrapped, currentLine, currentWidth, st, w, width)
  {
    assert Line(currentLine);
  }

  /** A word longer than any line begins on a line of its own. */
  lemma GreedyLong(spans: seq<seq<Cell>>, currentLine: seq<Item>, tail: seq<seq<Cell>>, w: Columns, width: nat)
    requires Greedy(spans + [Meaning(CLEAR, currentLine)], w, width) && tail != [] && Greedy(tail, w, width)
    requires Uniform(Flat(tail)) && CellsWidth(w, Flat(tail)) > width
    ensures var spans' := if currentLine != [] then spans + [Meaning(CLEAR, currentLine)] else spans;
            Greedy(spans' + tail, w, width)
  {
    var m := Meaning(CLEAR, currentLine);
    if currentLine != [] {
      OverflowsBy(m, Flat(tail), w, width);
      GreedyBreaks(spans, m, m, tail, w, width);
    } else {
      GreedyExtends(spans, [], tail, w, width);
    }
  }

  lemma GreedyBroken(spans: seq<seq<Cell>>, currentLine: seq<Item>, st: Style, token: seq<Item>,
                     broken: seq<seq<Item>>, last: seq<Cell>, w: Columns, width: nat)
    requires Greedy(spans + [Meaning(CLEAR, currentLine)], w, width)
    requires Greedy(Spans(broken) + [last], w, width) && LinesMeaning(broken) + last == Meaning(st, token)
    requires Uniform(Meaning(st, token)) && VisibleWidth(w, token) > width
    ensures var spans' := if currentLine != [] then spans + [Meaning(CLEAR, currentLine)] else spans;
            Greedy(spans' + Spans(broken) + [last], w, width)
  {
    var tail := Spans(broken) + [last];
    SpansAreShown(broken);
    FlatAdds(Spans(broken), last);
    WidthOfMeaning(w, st, token);
    GreedyLong(spans, currentLine, tail, w, width);
    LastApart(if currentLine != [] then spans + [Meaning(CLEAR, currentLine)] else spans, Spans(broken), last);
  }

  lemma LastApart(a: seq<seq<Cell>>, b: seq<seq<Cell>>, last: seq<Cell>)
    ensures a + (b + [last]) == a + b + [last]
  {
  }

  lemma FlushBroken(spans: seq<seq<Cell>>, currentLine: seq<Item>, st: Style, token: seq<Item>,
                    broken: seq<seq<Item>>, last: seq<Cell>)
    requires Flush(spans + [Meaning(CLEAR, currentLine)])
    requires NoSpaces(Meaning(st, token)) && LinesMeaning(broken) + last == Meaning(st, token)
    ensures var spans' := if currentLine != [] then spans + [Meaning(CLEAR, currentLine)] else spans;
            Flush(spans' + Spans(broken) + [last])
  {
    var spans' := if currentLine != [] then spans + [Meaning(CLEAR, currentLine)] else spans;
    FlushWithoutLast(spans, Meaning(CLEAR, currentLine));
    SpansAreShown(broken);
    FlatAdds(Spans(broken), last);
    FlushAppends(spans', Spans(broken) + [last]);
    LastApart(spans', Spans(broken), last);
  }

  /** The current line, if there is one, and the pieces of a word behind it. */
  lemma WholeTail(spans: seq<seq<Cell>>, m: seq<Cell>, ends: bool, tail: seq<seq<Cell>>)
    requires Whole(spans + [m]) && Whole(tail) && (!ends ==> m == [])
    requires tail != [] && !Splits(Flat(spans) + m, tail[0])
    ensures Whole((if ends then spans + [m] else spans) + tail)
  {
    ApartFromLast(spans, m, tail[0]);
    if ends {
      WholeAppends(spans + [m], tail);
    } else {
      WholeWithoutLast(spans, m);
      WholeAppends(spans, tail);
    }
  }

  lemma BrokenPieces(spans: seq<seq<Cell>>, m: seq<Cell>, token: seq<Cell>, broken: seq<seq<Item>>, last: seq<Cell>)
    requires Uniform(token) && LinesMeaning(broken) + last == token && !Splits(Flat(spans) + m, token)
    ensures var tail := Spans(broken) + [last];
            Whole(tail) && !Splits(Flat(spans) + m, tail[0])
  {
    var tail := Spans(broken) + [last];
    SpansAreShown(broken);
    FlatAdds(Spans(broken), last);
    PiecesAreWhole(tail);
    assert Flat(tail) == tail[0] + Flat(tail[1..]);
  }

  lemma WholeBroken(spans: seq<seq<Cell>>, currentLine: seq<Item>, st: Style, token: seq<Item>,
                    broken: seq<seq<Item>>, last: seq<Cell>)
    requires Whole(spans + [Meaning(CLEAR, currentLine)]) && Uniform(Meaning(st, token))
    requires LinesMeaning(broken) + last == Meaning(st, token)
    requires !Splits(Flat(spans) + Meaning(CLEAR, currentLine), Meaning(st, token))
    ensures var spans' := if currentLine != [] then spans + [Meaning(CLEAR, currentLine)] else spans;
            Whole(spans' + Spans(broken) + [last])
  {
    var m := Meaning(CLEAR, currentLine);
    BrokenPieces(spans, m, Meaning(st, token), broken, last);
    WholeTail(spans, m, currentLine != [], Spans(broken) + [last]);
    LastApart(if currentLine != [] then spans + [m] else spans, Spans(broken), last);
  }

  /** A token that does not fit any line: end the current line and break the token. */
  method WrapLongToken(wrapped: seq<seq<Item>>, ghost spans: seq<seq<Cell>>, currentLine: seq<Item>,
                       ghost currentWidth: nat, token: seq<Item>,
                       width: nat, w: Columns, tracker: AnsiCodeTracker, ghost done: seq<Item>, ghost fits: bool,
                       ghost plain: bool)
    returns (wrapped': seq<seq<Item>>, currentLine': seq<Item>, ghost spans': seq<seq<Cell>>)
    requires Clean(token) && HasGlyph(token)
    requires WrapPoint(wrapped, spans, currentLine, currentWidth, done, tracker.Abstract(), fits, plain, w, width)
    requires plain ==> NoSpaces(Meaning(tracker.Abstract(), token))
    requires Uniform(Meaning(tracker.Abstract(), token)) && VisibleWidth(w, token) > width
    requires !Splits(Meaning(CLEAR, done), Meaning(tracker.Abstract(), token))
    requires fits ==> Fits(w, token, width)
    modifies tracker
    ensures WrapPoint(wrapped', spans', currentLine', VisibleWidth(w, currentLine'), done + token, tracker.Abstract(),
                      fits, plain, w, width)
    ensures Meaning(CLEAR, currentLine') != []
    ensures fits ==> 0 < VisibleWidth(w, currentLine')
  {
    ghost var st := tracker.Abstract();
    WhatIsAtPoint(wrapped, spans, currentLine, currentWidth, done, st, fits, plain, w, width);
    var ended;
    ghost var endedSpans;
    ended, endedSpans :=
      EndLine(wrapped, spans, currentLine, currentWidth, width, w, tracker.Abstract(), done, fits);
    var broken;
    broken, currentLine' := BreakLongWord(token, width, w, tracker, currentLine);
    WrapBroken(ended, endedSpans, done, st, token, broken, currentLine', tracker.Abstract());
    wrapped', spans' := ended + broken, endedSpans + Spans(broken);
    if fits {
      BrokenWithinWidth(ended, broken, currentLine', token, tracker.Abstract(), w, width);
    }
    GreedyBroken(spans, currentLine, st, token, broken, Meaning(CLEAR, currentLine'), w, width);
    WholeBroken(spans, currentLine, st, token, broken, Meaning(CLEAR, currentLine'));
    if plain {
      FlushBroken(spans, currentLine, st, token, broken, Meaning(CLEAR, currentLine'));
    }
  }

  /** The line an overflow ends is closed, and the next one starts with the codes still active. */
  lemma OverflowEnds(wrapped: seq<seq<Item>>, spans: seq<seq<Cell>>, currentLine: seq<Item>, currentWidth: nat,
                     done: seq<Item>, st: Style,
                     w: Columns, width: nat, fits: bool)
    requires Wrapping(wrapped, spans, currentLine, done, st) && currentWidth == VisibleWidth(w, currentLine)
    requires fits ==> WithinWidth(wrapped, currentLine, currentWidth, st, w, width)
    ensures var wrapped' := wrapped + [TrimEnd(currentLine) + LineEndReset(st)];
            && Wrapping(wrapped', spans + [Meaning(CLEAR, currentLine)], ActiveCodes(st), done, st)
            && Meaning(CLEAR, ActiveCodes(st)) == [] && VisibleWidth(w, ActiveCodes(st)) == 0
            && (fits ==> WithinWidth(wrapped', ActiveCodes(st), 0, st, w, width))
  {
    WrapEnd(wrapped, spans, currentLine, done, st, TrimEnd(currentLine), w);
    if fits {
      TrimmedWithinWidth(wrapped, currentLine, currentWidth, st, w, width);
    }
  }

  lemma TrimmedWithinWidth(wrapped: seq<seq<Item>>, currentLine: seq<Item>, currentWidth: nat, st: Style, w: Columns,
                           width: nat)
    requires Reads(currentLine, st) && currentWidth == VisibleWidth(w, currentLine)
    requires WithinWidth(wrapped, currentLine, currentWidth, st, w, width)
    ensures WithinWidth(wrapped + [TrimEnd(currentLine) + LineEndReset(st)], ActiveCodes(st), 0, st, w, width)
  {
    EndedWithinWidth(currentLine, currentWidth, st, TrimEnd(currentLine), w, width);
  }

  /** The spans after an overflow: spaces that did not fit go to the line they overflow. */
  ghost function AfterOverflow(spans: seq<seq<Cell>>, m: seq<Cell>, st: Style, token: seq<Item>): seq<seq<Cell>> {
    spans + [if PureSpaces(token) then m + Meaning(st, token) else m]
  }

  /** The token that did not fit starts the next line; spaces are dropped. */
  lemma OverflowGoesOn(wrapped: seq<seq<Item>>, spans: seq<seq<Cell>>, m: seq<Cell>, line: seq<Item>, done: seq<Item>,
                       st: Style, token: seq<Item>,
                       w: Columns, width: nat, fits: bool)
    requires Clean(token) && Wrapping(wrapped, spans + [m], line, done, st)
    requires Meaning(CLEAR, line) == [] && VisibleWidth(w, line) == 0
    requires PureSpaces(token) || VisibleWidth(w, token) <= width
    requires fits ==> WithinWidth(wrapped, line, 0, st, w, width)
    ensures var line' := if PureSpaces(token) then line else line + token;
            && Wrapping(wrapped, AfterOverflow(spans, m, st, token), line', done + token, Replay(st, token))
            && Meaning(CLEAR, line') == (if PureSpaces(token) then [] else Meaning(st, token))
            && VisibleWidth(w, line') == (if PureSpaces(token) then 0 else VisibleWidth(w, token))
            && (fits ==> WithinWidth(wrapped, line', VisibleWidth(w, line'), Replay(st, token), w, width))
  {
    if PureSpaces(token) {
      WrapSkip(wrapped, spans, m, line, done, st, token);
      SpacesMeanSpaces(st, token);
    } else {
      WrapAdd(wrapped, spans + [m], line, done, st, token, w);
      assert [] + Meaning(st, token) == Meaning(st, token);
    }
  }

  /** What overflows ends the line: the word that did not fit begins the next one, spaces that did not are dropped. */
  lemma GreedyOverflow(spans: seq<seq<Cell>>, m: seq<Cell>, st: Style, token: seq<Item>, w: Columns, width: nat)
    requires Greedy(spans + [m], w, width) && Uniform(Meaning(st, token))
    requires CellsWidth(w, m) + VisibleWidth(w, token) > width
    ensures Greedy(AfterOverflow(spans, m, st, token) + [if PureSpaces(token) then [] else Meaning(st, token)],
                   w, width)
  {
    var t := Meaning(st, token);
    WidthOfMeaning(w, st, token);
    if PureSpaces(token) {
      CellsWidthAppends(w, m, t);
      FlatOne([]);
      OverflowsBy(m + t, [], w, width);
      GreedyBreaks(spans, m, m + t, [[]], w, width);
    } else {
      FlatOne(t);
      OverflowsBy(m, t, w, width);
      GreedyBreaks(spans, m, m, [t], w, width);
    }
  }

  lemma FlushOverflow(spans: seq<seq<Cell>>, m: seq<Cell>, st: Style, token: seq<Item>)
    requires Flush(spans + [m]) && if PureSpaces(token) then m != [] else NoSpaces(Meaning(st, token))
    ensures Flush(AfterOverflow(spans, m, st, token) + [if PureSpaces(token) then [] else Meaning(st, token)])
  {
    if PureSpaces(token) {
      FlushGrows(spans, m, Meaning(st, token));
      FlatOne([]);
      FlushAppends(spans + [m + Meaning(st, token)], [[]]);
    } else {
      FlatOne(Meaning(st, token));
      FlushAppends(spans + [m], [Meaning(st, token)]);
    }
  }

  lemma WholeOverflow(spans: seq<seq<Cell>>, m: seq<Cell>, st: Style, token: seq<Item>)
    requires Whole(spans + [m]) && m != [] && !Splits(Flat(spans) + m, Meaning(st, token))
    ensures Whole(AfterOverflow(spans, m, st, token) + [if PureSpaces(token) then [] else Meaning(st, token)])
  {
    if PureSpaces(token) {
      WholeGrows(spans, m, Meaning(st, token));
      WholeAppends(spans + [m + Meaning(st, token)], [[]]);
    } else {
      ApartFromLast(spans, m, Meaning(st, token));
      WholeAppends(spans + [m], [Meaning(st, token)]);
    }
  }

  /** A token that would overflow the line: trim and end the line, and start the next with the token (spaces vanish). */
  method WrapOverflow(wrapped: seq<seq<Item>>, ghost spans: seq<seq<Cell>>, currentLine: seq<Item>,
                      ghost currentWidth: nat, token: seq<Item>,
                      width: nat, w: Columns, tracker: AnsiCodeTracker, ghost done: seq<Item>, ghost fits: bool,
                      ghost plain: bool)
    returns (wrapped': seq<seq<Item>>, currentLine': seq<Item>, ghost spans': seq<seq<Cell>>)
    requires Clean(token)
    requires WrapPoint(wrapped, spans, currentLine, currentWidth, done, tracker.Abstract(), fits, plain, w, width)
    requires currentWidth + VisibleWidth(w, token) > width && 0 < currentWidth
    requires plain && !PureSpaces(token) ==> NoSpaces(Meaning(tracker.Abstract(), token))
    requires Uniform(Meaning(tracker.Abstract(), token))
    requires PureSpaces(token) || VisibleWidth(w, token) <= width
    requires !Splits(Meaning(CLEAR, done), Meaning(tracker.Abstract(), token))
    modifies tracker
    ensures WrapPoint(wrapped', spans', currentLine', if PureSpaces(token) then 0 else VisibleWidth(w, token),
                      done + token, tracker.Abstract(), fits, plain, w, width)
    ensures Meaning(CLEAR, currentLine') == if PureSpaces(token) then [] else Meaning(old(tracker.Abstract()), token)
  {
    WhatIsAtPoint(wrapped, spans, currentLine, currentWidth, done, tracker.Abstract(), fits, plain, w, width);
    OverflowEnds(wrapped, spans, currentLine, currentWidth, done, tracker.Abstract(), w, width, fits);
    ghost var st, m := tracker.Abstract(), Meaning(CLEAR, currentLine);
    WidthOfMeaning(w, CLEAR, currentLine);
    GreedyOverflow(spans, m, st, token, w, width);
    WholeOverflow(spans, m, st, token);
    if plain {
      FlushOverflow(spans, m, st, token);
    }
    spans' := AfterOverflow(spans, m, st, token);
    wrapped' := wrapped + [TrimEnd(currentLine) + LineEndReset(tracker.Abstract())];
    currentLine' := ActiveCodes(tracker.Abstract());
    OverflowGoesOn(wrapped', spans, m, currentLine', done, st, token, w, width, fits);
    LexOfText(token);
    if !PureSpaces(token) {
      currentLine' := currentLine' + token;
    }
    tracker.UpdateFromText(Text(token));
  }

  lemma {:induction false} KindIsUniform(st: Style, token: seq<Item>, space: bool)
    requires forall k :: 0 <= k < |token| && token[k].Glyph? ==> (token[k].c == ' ') == space
    ensures forall k :: 0 <= k < |Meaning(st, token)| ==> (Meaning(st, token)[k].c == ' ') == space
    ensures Uniform(Meaning(st, token))
    decreases |token|
  {
    if token != [] {
      KindIsUniform(if token[0].Code? then Process(st, token[0].code) else st, token[1..], space);
    }
  }

  lemma SpansGrow(spans: seq<seq<Cell>>, m: seq<Cell>, t: seq<Cell>, plain: bool, w: Columns, width: nat)
    requires BreaksWell(spans + [m], plain, w, width) && !Splits(Flat(spans) + m, t)
    requires plain && spans != [] && m == [] ==> NoSpaces(t)
    ensures BreaksWell(spans + [m + t], plain, w, width)
  {
    GreedyGrows(spans, m, t, w, width);
    ApartFromLast(spans, m, t);
    WholeGrows(spans, m, t);
    if plain {
      FlushGrows(spans, m, t);
    }
  }

  /** A token that fits goes on the line. */
  lemma PointAdds(wrapped: seq<seq<Item>>, spans: seq<seq<Cell>>, currentLine: seq<Item>, currentWidth: nat,
                  done: seq<Item>, st: Style, token: seq<Item>, fits: bool, plain: bool, w: Columns, width: nat)
    requires Clean(token) && HasGlyph(token)
    requires WrapPoint(wrapped, spans, currentLine, currentWidth, done, st, fits, plain, w, width)
    requires plain && spans != [] && Meaning(CLEAR, currentLine) == [] ==> NoSpaces(Meaning(st, token))
    requires currentWidth + VisibleWidth(w, token) <= width || currentWidth == 0
    requires width < VisibleWidth(w, token) ==> PureSpaces(token)
    requires fits && currentWidth == 0 && PureSpaces(token) ==> currentLine == [] && st == CLEAR
    requires !Splits(Meaning(CLEAR, done), Meaning(st, token))
    ensures WrapPoint(wrapped, spans, currentLine + token, currentWidth + VisibleWidth(w, token), done + token,
                      Replay(st, token), fits, plain, w, width)
    ensures Meaning(CLEAR, currentLine + token) != []
  {
    WhatIsAtPoint(wrapped, spans, currentLine, currentWidth, done, st, fits, plain, w, width);
    LineGrows(wrapped, spans, currentLine, done, st, token, plain, w, width);
    if fits {
      AddWithinWidth(wrapped, currentLine, currentWidth, st, token, w, width);
    }
    PointIs(wrapped, spans, currentLine + token, currentWidth + VisibleWidth(w, token), done + token,
            Replay(st, token), fits, plain, w, width);
  }

  lemma PointIs(wrapped: seq<seq<Item>>, spans: seq<seq<Cell>>, currentLine: seq<Item>, currentWidth: nat,
                done: seq<Item>, st: Style, fits: bool, plain: bool, w: Columns, width: nat)
    requires Wrapping(wrapped, spans, currentLine, done, st)
    requires currentWidth == VisibleWidth(w, currentLine)
    requires BreaksWell(spans + [Meaning(CLEAR, currentLine)], plain, w, width)
    requires fits ==> WithinWidth(wrapped, currentLine, currentWidth, st, w, width)
    ensures WrapPoint(wrapped, spans, currentLine, currentWidth, done, st, fits, plain, w, width)
  {
  }

  lemma LineGrows(wrapped: seq<seq<Item>>, spans: seq<seq<Cell>>, currentLine: seq<Item>, done: seq<Item>, st: Style,
                  token: seq<Item>, plain: bool, w: Columns, width: nat)
    requires Clean(token) && HasGlyph(token) && Wrapping(wrapped, spans, currentLine, done, st)
    requires BreaksWell(spans + [Meaning(CLEAR, currentLine)], plain, w, width)
    requires plain && spans != [] && Meaning(CLEAR, currentLine) == [] ==> NoSpaces(Meaning(st, token))
    requires !Splits(Meaning(CLEAR, done), Meaning(st, token))
    ensures Wrapping(wrapped, spans, currentLine + token, done + token, Replay(st, token))
    ensures Meaning(CLEAR, currentLine + token) != []
    ensures VisibleWidth(w, currentLine + token) == VisibleWidth(w, currentLine) + VisibleWidth(w, token)
    ensures BreaksWell(spans + [Meaning(CLEAR, currentLine + token)], plain, w, width)
  {
    GlyphsAreShown(st, token);
    WrapAdd(wrapped, spans, currentLine, done, st, token, w);
    SpansGrow(spans, Meaning(CLEAR, currentLine), Meaning(st, token), plain, w, width);
  }

  lemma AddWithinWidth(wrapped: seq<seq<Item>>, currentLine: seq<Item>, currentWidth: nat, st: Style, token: seq<Item>,
                       w: Columns, width: nat)
    requires WithinWidth(wrapped, currentLine, currentWidth, st, w, width)
    requires currentWidth + VisibleWidth(w, token) <= width || currentWidth == 0
    requires width < VisibleWidth(w, token) ==> PureSpaces(token)
    requires currentWidth == 0 && PureSpaces(token) ==> currentLine == [] && st == CLEAR
    ensures WithinWidth(wrapped, currentLine + token, currentWidth + VisibleWidth(w, token), Replay(st, token), w, width)
  {
    if PureSpaces(token) {
      SpacesMeanSpaces(st, token);
    }
  }

  /** One token of a line being wrapped. */
  method WrapToken(wrapped: seq<seq<Item>>, ghost spans: seq<seq<Cell>>, currentLine: seq<Item>, currentWidth: nat,
                   token: seq<Item>, ghost space: bool,
                   width: nat, w: Columns, tracker: AnsiCodeTracker, ghost done: seq<Item>, ghost fits: bool,
                   ghost plain: bool)
    returns (wrapped': seq<seq<Item>>, currentLine': seq<Item>, currentWidth': nat, ghost spans': seq<seq<Cell>>)
    requires Clean(token) && OfKind(token, space)
    requires WrapPoint(wrapped, spans, currentLine, currentWidth, done, tracker.Abstract(), fits, plain, w, width)
    requires plain ==> NoCodes(token) && (spans != [] && Meaning(CLEAR, currentLine) == [] ==> !space)
    requires fits ==> Fits(w, token, width)
    requires fits && currentWidth == 0 && PureSpaces(token) ==> currentLine == [] && tracker.Abstract() == CLEAR
    requires !Splits(Meaning(CLEAR, done), Meaning(tracker.Abstract(), token))
    modifies tracker
    ensures WrapPoint(wrapped', spans', currentLine', currentWidth', done + token, tracker.Abstract(), fits, plain, w,
                      width)
    ensures plain && Meaning(CLEAR, currentLine') == [] ==> space
    ensures fits && currentWidth' == 0 ==> PureSpaces(token)
  {
    var tokenWidth := VisibleWidth(w, token);
    var isWhitespace := PureSpaces(token);
    if fits {
      GlyphsHaveWidth(w, token, width);
    }
    KindIsUniform(tracker.Abstract(), token, space);
    GlyphsAreShown(tracker.Abstract(), token);
    if tokenWidth > width && !isWhitespace {
      wrapped', currentLine', spans' :=
        WrapLongToken(wrapped, spans, currentLine, currentWidth, token, width, w, tracker, done, fits, plain);
      currentWidth' := VisibleWidth(w, currentLine');
    } else if currentWidth + tokenWidth > width && currentWidth > 0 {
      wrapped', currentLine', spans' :=
        WrapOverflow(wrapped, spans, currentLine, currentWidth, token, width, w, tracker, done, fits, plain);
      currentWidth' := if isWhitespace then 0 else tokenWidth;
    } else {
      PointAdds(wrapped, spans, currentLine, currentWidth, done, tracker.Abstract(), token, fits, plain, w, width);
      LexOfText(token);
      wrapped', currentLine', currentWidth' := wrapped, currentLine + token, currentWidth + tokenWidth;
      spans' := spans;
      tracker.UpdateFromText(Text(token));
    }
  }

  function TrimLines(lines: seq<seq<Item>>): (r: seq<seq<Item>>)
    ensures |r| == |lines| && forall k :: 0 <= k < |r| ==> r[k] == TrimEnd(lines[k])
  {
    seq(|lines|, k requires 0 <= k < |lines| => TrimEnd(lines[k]))
  }

  /** Trimmed lines show their spans too. */
  lemma TrimmedIsShown(lines: seq<seq<Item>>, spans: seq<seq<Cell>>)
    requires AllShown(lines, spans)
    ensures AllShown(TrimLines(lines), spans)
  {
    forall k | 0 <= k < |lines| ensures Shown(TrimEnd(lines[k]), spans[k]) {
      TrimmedShows(lines[k], spans[k]);
    }
  }

  lemma TrimmedShows(line: seq<Item>, span: seq<Cell>)
    requires Shown(line, span)
    ensures Shown(TrimEnd(line), span)
  {
    TrimTakesTheEnd(CLEAR, line);
    var m, kept := Meaning(CLEAR, line), Meaning(CLEAR, TrimEnd(line));
    assert span[|kept|..] == m[|kept|..] + span[|m|..];
  }

  lemma TrimKeepsClosed(line: seq<Item>, w: Columns)
    requires Closed(line)
    ensures Closed(TrimEnd(line))
  {
    TrimOnlyDropsSpaces(CLEAR, w, line);
  }

  /** What a caller gets: every line scans cleanly, and all but the last end closed. */
  ghost predicate WellEnded(lines: seq<seq<Item>>) {
    && lines != []
    && (forall k :: 0 <= k < |lines| ==> Clean(lines[k]))
    && (forall k :: 0 <= k < |lines| - 1 ==> Closed(lines[k]))
  }

  lemma {:induction false} TokensOfLine(tokens: seq<seq<Item>>, k: nat, line: seq<Item>, w: Columns, width: nat)
    requires Concat(tokens) == line && Clean(line) && k < |tokens|
    ensures Clean(tokens[k]) && (Fits(w, line, width) ==> Fits(w, tokens[k], width))
    ensures NoCodes(line) ==> NoCodes(tokens[k])
    decreases |tokens|
  {
    var m := |tokens| - 1;
    var init, last := Concat(tokens[..m]), tokens[m];
    assert line == init + last;
    if k < m {
      assert forall j :: 0 <= j < |init| ==> line[j] == init[j];
      TokensOfLine(tokens[..m], k, init, w, width);
    } else {
      assert forall j :: 0 <= j < |last| ==> last[j] == line[|init| + j];
    }
  }

  /** A run of tokens never has two of spaces in a row. */
  lemma SpacesAlternate(tokens: seq<seq<Item>>, kinds: seq<bool>, k: nat)
    requires Tokenized(tokens, kinds) && 0 < k < |tokens|
    ensures !(PureSpaces(tokens[k - 1]) && PureSpaces(tokens[k]))
  {
    if PureSpaces(tokens[k - 1]) {
      SpacesAreOfKind(tokens[k - 1], kinds[k - 1]);
      var j :| 0 <= j < |tokens[k]| && tokens[k][j].Glyph?;
      assert tokens[k][j].c != ' ';
    }
  }

  lemma SpacesAreOfKind(token: seq<Item>, space: bool)
    requires OfKind(token, space) && PureSpaces(token)
    ensures space
  {
  }

  /** No word goes on from one token to the next. */
  lemma TokensApart(tokens: seq<seq<Item>>, kinds: seq<bool>, k: nat, st: Style)
    requires Tokenized(tokens, kinds) && k < |tokens|
    ensures !Splits(Meaning(CLEAR, Concat(tokens[..k])), Meaning(st, tokens[k]))
  {
    if k > 0 {
      var before, token := Concat(tokens[..k - 1]), tokens[k - 1];
      ConcatNext(tokens, k - 1);
      MeaningAppends(CLEAR, before, token);
      KindIsUniform(Replay(CLEAR, before), token, kinds[k - 1]);
      KindIsUniform(st, tokens[k], kinds[k]);
      GlyphsAreShown(Replay(CLEAR, before), token);
      LastOfBoth(Meaning(CLEAR, before), Meaning(Replay(CLEAR, before), token));
    }
  }

  lemma ConcatNext(tokens: seq<seq<Item>>, k: nat)
    requires k < |tokens|
    ensures Concat(tokens[..k + 1]) == Concat(tokens[..k]) + tokens[k]
  {
    assert tokens[..k + 1] == tokens[..k] + [tokens[k]];
    LinesAppend(tokens[..k], tokens[k]);
  }

  lemma PointStarts(fits: bool, plain: bool, w: Columns, width: nat)
    ensures WrapPoint([], [], [], 0, [], CLEAR, fits, plain, w, width)
  {
    assert Meaning(CLEAR, []) == [] && |[] + [Meaning(CLEAR, [])]| == 1;
  }

  /** The tokens of a line that is too wide, one after the other. */
  method WrapTokens(line: seq<Item>, width: nat, w: Columns)
    returns (wrapped: seq<seq<Item>>, currentLine: seq<Item>, ghost spans: seq<seq<Cell>>, ghost st: Style)
    requires Clean(line) && width < VisibleWidth(w, line)
    ensures WrapPoint(wrapped, spans, currentLine, VisibleWidth(w, currentLine), line, st, Fits(w, line, width),
                      NoCodes(line), w, width)
  {
    ghost var fits, plain := Fits(w, line, width), NoCodes(line);
    var tracker := new AnsiCodeTracker();
    var tokens;
    ghost var kinds;
    tokens, kinds := SplitIntoTokensWithAnsi(line);
    if !HasGlyph(line) {
      CodesHaveNoWidth(w, line);
    }
    wrapped, currentLine, spans := [], [], [];
    var currentWidth: nat := 0;
    PointStarts(fits, plain, w, width);
    for k := 0 to |tokens|
      invariant fresh(tracker)
      invariant WrapPoint(wrapped, spans, currentLine, currentWidth, Concat(tokens[..k]), tracker.Abstract(), fits,
                          plain, w, width)
      invariant if k == 0 then spans == [] else plain && Meaning(CLEAR, currentLine) == [] ==> kinds[k - 1]
      invariant k == 0 ==> currentLine == [] && tracker.Abstract() == CLEAR
      invariant fits && 0 < k && currentWidth == 0 ==> PureSpaces(tokens[k - 1])
    {
      TokensOfLine(tokens, k, line, w, width);
      if k > 0 {
        SpacesAlternate(tokens, kinds, k);
      }
      ConcatNext(tokens, k);
      TokensApart(tokens, kinds, k, tracker.Abstract());
      wrapped, currentLine, currentWidth, spans :=
        WrapToken(wrapped, spans, currentLine, currentWidth, tokens[k], kinds[k], width, w, tracker,
                  Concat(tokens[..k]), fits, plain);
    }
    assert tokens[..|tokens|] == tokens;
    st := tracker.Abstract();
    WhatIsAtPoint(wrapped, spans, currentLine, currentWidth, line, st, fits, plain, w, width);
  }

  /** The line still under construction, if there is one, is the last. */
  ghost predicate Last(wrapped: seq<seq<Item>>, spans: seq<seq<Cell>>, currentLine: seq<Item>, all: seq<seq<Item>>,
                       allSpans: seq<seq<Cell>>) {
    if currentLine != [] then all == wrapped + [currentLine] && allSpans == spans + [Meaning(CLEAR, currentLine)]
    else all == wrapped && allSpans == spans
  }

  lemma FinishShown(line: seq<Item>, wrapped: seq<seq<Item>>, spans: seq<seq<Cell>>, currentLine: seq<Item>, st: Style,
                    all: seq<seq<Item>>, allSpans: seq<seq<Cell>>)
    requires Wrapping(wrapped, spans, currentLine, line, st) && Last(wrapped, spans, currentLine, all, allSpans)
    ensures AllShown(TrimLines(all), allSpans)
  {
    if currentLine != [] {
      ShownAdds(wrapped, spans, currentLine, Meaning(CLEAR, currentLine));
    }
    TrimmedIsShown(all, allSpans);
  }

  /** The spans of a line: they take its cells in order, and break well. */
  ghost predicate Divided(spans: seq<seq<Cell>>, cells: seq<Cell>, plain: bool, w: Columns, width: nat) {
    Flat(spans) == cells && BreaksWell(spans, plain, w, width)
  }

  lemma FinishSpans(line: seq<Item>, wrapped: seq<seq<Item>>, spans: seq<seq<Cell>>, currentLine: seq<Item>,
                    all: seq<seq<Item>>, allSpans: seq<seq<Cell>>, plain: bool, w: Columns, width: nat)
    requires Last(wrapped, spans, currentLine, all, allSpans)
    requires Meaning(CLEAR, line) == Flat(spans) + Meaning(CLEAR, currentLine)
    requires BreaksWell(spans + [Meaning(CLEAR, currentLine)], plain, w, width)
    ensures Divided(allSpans, Meaning(CLEAR, line), plain, w, width)
  {
    FlatAdds(spans, Meaning(CLEAR, currentLine));
    if currentLine == [] {
      GreedyWithoutEmpty(spans, w, width);
      WholeWithoutLast(spans, []);
      if plain {
        FlushWithoutLast(spans, []);
      }
    }
  }

  lemma FinishClosed(wrapped: seq<seq<Item>>, all: seq<seq<Item>>, w: Columns)
    requires forall k :: 0 <= k < |wrapped| ==> Closed(wrapped[k])
    requires |wrapped| <= |all| && all[..|wrapped|] == wrapped
    ensures forall k :: 0 <= k < |wrapped| ==> Closed(TrimLines(all)[k])
  {
    forall k | 0 <= k < |wrapped| ensures Closed(TrimLines(all)[k]) {
      assert all[k] == wrapped[k];
      TrimKeepsClosed(wrapped[k], w);
    }
  }

  lemma LastFits(currentLine: seq<Item>, w: Columns, width: nat)
    requires VisibleWidth(w, currentLine) <= width || PureSpaces(currentLine)
    ensures VisibleWidth(w, TrimEnd(currentLine)) <= width
  {
    TrimOnlyDropsSpaces(CLEAR, w, currentLine);
    if PureSpaces(currentLine) {
      SpacesTrimAway(currentLine);
    }
  }

  /** Trimmed, the lines still end closed, but for the one that was under construction. */
  lemma FinishLine(wrapped: seq<seq<Item>>, spans: seq<seq<Cell>>, currentLine: seq<Item>, all: seq<seq<Item>>,
                   allSpans: seq<seq<Cell>>, w: Columns)
    requires Clean(currentLine) && forall k :: 0 <= k < |wrapped| ==> Closed(wrapped[k])
    requires Last(wrapped, spans, currentLine, all, allSpans) && all != []
    ensures WellEnded(TrimLines(all))
  {
    FinishClosed(wrapped, all, w);
    if currentLine != [] {
      TrimOnlyDropsSpaces(CLEAR, w, currentLine);
    }
  }

  lemma FinishFits(wrapped: seq<seq<Item>>, spans: seq<seq<Cell>>, currentLine: seq<Item>, all: seq<seq<Item>>,
                   allSpans: seq<seq<Cell>>, st: Style, w: Columns, width: nat)
    requires WithinWidth(wrapped, currentLine, VisibleWidth(w, currentLine), st, w, width)
    requires Last(wrapped, spans, currentLine, all, allSpans)
    ensures forall k :: 0 <= k < |all| ==> VisibleWidth(w, TrimLines(all)[k]) <= width
  {
    LastFits(currentLine, w, width);
  }

  /** The lines show the spans of the cells given; only spaces are lost, at line ends. */
  ghost predicate Laid(lines: seq<seq<Item>>, spans: seq<seq<Cell>>, cells: seq<Cell>, plain: bool, w: Columns,
                       width: nat) {
    AllShown(lines, spans) && Divided(spans, cells, plain, w, width)
  }

  lemma TrimmedLines(lines: seq<seq<Item>>)
    ensures forall k :: 0 <= k < |lines| ==> !EndsInSpace(TrimLines(lines)[k])
  {
    forall k | 0 <= k < |lines| ensures !EndsInSpace(TrimLines(lines)[k]) {
      TrimmedEnd(lines[k]);
    }
  }

  /** What wrapping a line that is too wide gives. */
  ghost predicate Wrapped(lines: seq<seq<Item>>, spans: seq<seq<Cell>>, line: seq<Item>, w: Columns, width: nat) {
    && WellEnded(lines)
    && Laid(lines, spans, Meaning(CLEAR, line), NoCodes(line), w, width)
    && (forall k :: 0 <= k < |lines| ==> !EndsInSpace(lines[k]))
    && (Fits(w, line, width) ==> forall k :: 0 <= k < |lines| ==> VisibleWidth(w, lines[k]) <= width)
  }

  lemma FinishEmpty(line: seq<Item>, w: Columns, width: nat)
    requires Meaning(CLEAR, line) == []
    ensures Wrapped([[]], [[]], line, w, width)
  {
    FlatOne([]);
  }

  lemma FinishSome(line: seq<Item>, wrapped: seq<seq<Item>>, spans: seq<seq<Cell>>, currentLine: seq<Item>, st: Style,
                   all: seq<seq<Item>>, allSpans: seq<seq<Cell>>, w: Columns, width: nat)
    requires Wrapping(wrapped, spans, currentLine, line, st) && Last(wrapped, spans, currentLine, all, allSpans)
    requires Divided(allSpans, Meaning(CLEAR, line), NoCodes(line), w, width) && all != []
    requires Fits(w, line, width) ==> WithinWidth(wrapped, currentLine, VisibleWidth(w, currentLine), st, w, width)
    ensures Wrapped(TrimLines(all), allSpans, line, w, width)
  {
    FinishShown(line, wrapped, spans, currentLine, st, all, allSpans);
    TrimmedLines(all);
    FinishLine(wrapped, spans, currentLine, all, allSpans, w);
    if Fits(w, line, width) {
      FinishFits(wrapped, spans, currentLine, all, allSpans, st, w, width);
    }
  }

  /** What wrapping has come to when every token is done. */
  lemma FinishWide(line: seq<Item>, wrapped: seq<seq<Item>>, spans: seq<seq<Cell>>, currentLine: seq<Item>, st: Style,
                   all: seq<seq<Item>>, allSpans: seq<seq<Cell>>, w: Columns, width: nat)
    requires WrapPoint(wrapped, spans, currentLine, VisibleWidth(w, currentLine), line, st, Fits(w, line, width),
                       NoCodes(line), w, width)
    requires Last(wrapped, spans, currentLine, all, allSpans)
    ensures all == [] ==> Wrapped([[]], [[]], line, w, width)
    ensures all != [] ==> Wrapped(TrimLines(all), allSpans, line, w, width)
  {
    WhatIsAtPoint(wrapped, spans, currentLine, VisibleWidth(w, currentLine), line, st, Fits(w, line, width),
                  NoCodes(line), w, width);
    if all == [] {
      FinishEmpty(line, w, width);
    } else {
      FinishSpans(line, wrapped, spans, currentLine, all, allSpans, NoCodes(line), w, width);
      FinishSome(line, wrapped, spans, currentLine, st, all, allSpans, w, width);
    }
  }

  /** A line that is too wide. */
  method WrapWideLine(line: seq<Item>, width: nat, w: Columns)
    returns (lines: seq<seq<Item>>, ghost spans: seq<seq<Cell>>)
    requires Clean(line) && width < VisibleWidth(w, line)
    ensures Wrapped(lines, spans, line, w, width)
  {
    var wrapped, currentLine;
    ghost var st, finished;
    wrapped, currentLine, finished, st := WrapTokens(line, width, w);
    var all := wrapped;
    spans := finished;
    if currentLine != [] {
      all := all + [currentLine];
      spans := spans + [Meaning(CLEAR, currentLine)];
    }
    FinishWide(line, wrapped, finished, currentLine, st, all, spans, w, width);
    if all == [] {
      return [[]], [[]];
    }
    lines := TrimLines(all);
  }

  /** One line of text, wrapped. */
  method WrapSingleLine(line: seq<Item>, width: nat, w: Columns)
    returns (lines: seq<seq<Item>>, ghost spans: seq<seq<Cell>>)
    requires Clean(line)
    ensures WellEnded(lines)
    ensures Laid(lines, spans, Meaning(CLEAR, line), NoCodes(line), w, width)
    ensures Drops(Meaning(CLEAR, line), LinesMeaning(lines))
    ensures Fits(w, line, width) ==> forall k :: 0 <= k < |lines| ==> VisibleWidth(w, lines[k]) <= width
    ensures VisibleWidth(w, line) <= width ==> lines == [line]
    ensures VisibleWidth(w, line) > width ==> forall k :: 0 <= k < |lines| ==> !EndsInSpace(lines[k])
  {
    FlatOne(Meaning(CLEAR, line));
    if line == [] {
      lines, spans := [[]], [[]];
    } else if VisibleWidth(w, line) <= width {
      lines, spans := [line], [Meaning(CLEAR, line)];
    } else {
      lines, spans := WrapWideLine(line, width, w);
    }
    ShownDrops(lines, spans);
  }

  /** Reading a line behind the codes that reopen style `st` is reading it in that style. */
  lemma Reopened(read: seq<Item>, st: Style, line: seq<Item>, w: Columns, width: nat)
    requires Reads(read, st) && Clean(line)
    ensures Clean(ActiveCodes(st) + line) && Meaning(CLEAR, ActiveCodes(st) + line) == Meaning(st, line)
    ensures Fits(w, line, width) ==> Fits(w, ActiveCodes(st) + line, width)
  {
    OpenLine(read, st, w);
    AddItems(ActiveCodes(st), st, line, w);
    assert [] + Meaning(st, line) == Meaning(st, line);
  }

  lemma NextInput(inputLines: seq<seq<Item>>, k: nat)
    requires k < |inputLines|
    ensures inputLines[..k + 1] == inputLines[..k] + [inputLines[k]]
    ensures Concat(inputLines[..k + 1]) == Concat(inputLines[..k]) + inputLines[k]
    ensures Meaning(CLEAR, Concat(inputLines[..k + 1]))
         == Meaning(CLEAR, Concat(inputLines[..k])) + Meaning(Replay(CLEAR, Concat(inputLines[..k])), inputLines[k])
  {
    assert inputLines[..k + 1] == inputLines[..k] + [inputLines[k]];
    LinesAppend(inputLines[..k], inputLines[k]);
    MeaningAppends(CLEAR, Concat(inputLines[..k]), inputLines[k]);
  }

  /** The text wrapped so far; it is looked into only where that is asked for. */
  ghost predicate WrapState(result: seq<seq<Item>>, done: seq<Item>, st: Style, fits: bool, w: Columns, width: nat) {
    forall x {:trigger Line(x)} :: Line(x) && x == done ==>
      && Reads(x, st)
      && (forall j :: 0 <= j < |result| ==> Clean(result[j]))
      && Drops(Meaning(CLEAR, x), LinesMeaning(result))
      && (fits ==> forall j :: 0 <= j < |result| ==> VisibleWidth(w, result[j]) <= width)
  }

  lemma WhatIsWrapped(result: seq<seq<Item>>, done: seq<Item>, st: Style, fits: bool, w: Columns, width: nat)
    requires WrapState(result, done, st, fits, w, width)
    ensures Reads(done, st)
    ensures forall j :: 0 <= j < |result| ==> Clean(result[j])
    ensures Drops(Meaning(CLEAR, done), LinesMeaning(result))
    ensures fits ==> forall j :: 0 <= j < |result| ==> VisibleWidth(w, result[j]) <= width
  {
    assert Line(done);
  }

  lemma WrapsOn(result: seq<seq<Item>>, wrapped: seq<seq<Item>>, done: seq<Item>, line: seq<Item>, st: Style,
                fits: bool,
                w: Columns, width: nat)
    requires WrapState(result, done, st, fits, w, width) && Clean(line)
    requires WellEnded(wrapped) && Drops(Meaning(st, line), LinesMeaning(wrapped))
    requires fits ==> forall k :: 0 <= k < |wrapped| ==> VisibleWidth(w, wrapped[k]) <= width
    ensures WrapState(result + wrapped, done + line, Replay(st, line), fits, w, width)
  {
    WhatIsWrapped(result, done, st, fits, w, width);
    LinesConcat(result, wrapped);
    MeaningAppends(CLEAR, done, line);
    ReplayAppends(CLEAR, done, line);
    DropsAppend(Meaning(CLEAR, done), LinesMeaning(result), Meaning(st, line), LinesMeaning(wrapped));
  }

  lemma {:induction false} NoCodesNoStyle(st: Style, items: seq<Item>)
    requires NoCodes(items)
    ensures Replay(st, items) == st
    decreases |items|
  {
    if items != [] {
      NoCodesNoStyle(st, items[1..]);
    }
  }

  /** One line of the input, opened with the codes still active. */
  method WrapInput(result: seq<seq<Item>>, inputLine: seq<Item>, width: nat, w: Columns, tracker: AnsiCodeTracker,
                   ghost done: seq<Item>, ghost fits: bool)
    returns (wrapped: seq<seq<Item>>, ghost spans: seq<seq<Cell>>)
    requires WrapState(result, done, tracker.Abstract(), fits, w, width) && Clean(inputLine)
    requires (result == [] ==> done == []) && (fits ==> Fits(w, inputLine, width))
    modifies tracker
    ensures wrapped != [] && WrapState(result + wrapped, done + inputLine, tracker.Abstract(), fits, w, width)
    ensures Laid(wrapped, spans, Meaning(Replay(CLEAR, done), inputLine), NoCodes(done) && NoCodes(inputLine), w, width)
  {
    ghost var st := tracker.Abstract();
    var prefix := if result != [] then ActiveCodes(tracker.Abstract()) else [];
    WhatIsWrapped(result, done, st, fits, w, width);
    Reopened(done, st, inputLine, w, width);
    assert prefix + inputLine == ActiveCodes(st) + inputLine;
    if NoCodes(done) {
      NoCodesNoStyle(CLEAR, done);
    }
    wrapped, spans := WrapSingleLine(prefix + inputLine, width, w);
    WrapsOn(result, wrapped, done, inputLine, st, fits, w, width);
    LexOfText(inputLine);
    tracker.UpdateFromText(Text(inputLine));
  }

  /** The spans of all paragraphs, one after the other. */
  function Stacked(paragraphs: seq<seq<seq<Cell>>>): seq<seq<Cell>>
    decreases |paragraphs|
  {
    if paragraphs == [] then [] else Stacked(paragraphs[..|paragraphs| - 1]) + paragraphs[|paragraphs| - 1]
  }

  /** What line `k` of the input shows, in the styles that the lines before it leave active. */
  function InputMeaning(inputLines: seq<seq<Item>>, k: nat): seq<Cell>
    requires k < |inputLines|
  {
    Meaning(Replay(CLEAR, Concat(inputLines[..k])), inputLines[k])
  }

  /** The output shows the first `n` lines of the input, each laid out by itself. */
  ghost predicate LaidOut(result: seq<seq<Item>>, paragraphs: seq<seq<seq<Cell>>>, inputLines: seq<seq<Item>>, n: nat,
                          w: Columns, width: nat) {
    && |paragraphs| == n <= |inputLines|
    && AllShown(result, Stacked(paragraphs))
    && forall k :: 0 <= k < n ==>
         IsParagraph(paragraphs[k], InputMeaning(inputLines, k), AllPlain(inputLines), w, width)
  }

  /** The spans of one line of the input. */
  ghost predicate IsParagraph(spans: seq<seq<Cell>>, cells: seq<Cell>, plain: bool, w: Columns, width: nat) {
    spans != [] && Divided(spans, cells, plain, w, width)
  }

  ghost predicate AllPlain(inputLines: seq<seq<Item>>) {
    forall k :: 0 <= k < |inputLines| ==> NoCodes(inputLines[k])
  }

  lemma {:induction false} PlainSoFar(inputLines: seq<seq<Item>>, k: nat)
    requires AllPlain(inputLines) && k <= |inputLines|
    ensures NoCodes(Concat(inputLines[..k]))
  {
    if k > 0 {
      PlainSoFar(inputLines, k - 1);
      NextInput(inputLines, k - 1);
    }
  }

  lemma NextParagraph(result: seq<seq<Item>>, paragraphs: seq<seq<seq<Cell>>>, inputLines: seq<seq<Item>>, n: nat,
                      wrapped: seq<seq<Item>>, spans: seq<seq<Cell>>, w: Columns, width: nat)
    requires LaidOut(result, paragraphs, inputLines, n, w, width) && n < |inputLines|
    requires wrapped != []
    requires Laid(wrapped, spans, InputMeaning(inputLines, n),
                  NoCodes(Concat(inputLines[..n])) && NoCodes(inputLines[n]), w, width)
    ensures LaidOut(result + wrapped, paragraphs + [spans], inputLines, n + 1, w, width)
  {
    if AllPlain(inputLines) {
      PlainSoFar(inputLines, n);
    }
    var all := paragraphs + [spans];
    forall k | 0 <= k < n + 1
      ensures IsParagraph(all[k], InputMeaning(inputLines, k), AllPlain(inputLines), w, width)
    {
      assert all[k] == if k < n then paragraphs[k] else spans;
    }
    StackedAdds(paragraphs, spans);
    ShownAppends(result, Stacked(paragraphs), wrapped, spans);
  }

  lemma StackedAdds(paragraphs: seq<seq<seq<Cell>>>, spans: seq<seq<Cell>>)
    ensures Stacked(paragraphs + [spans]) == Stacked(paragraphs) + spans
  {
    assert (paragraphs + [spans])[..|paragraphs|] == paragraphs;
  }

  /** The text wrapped up to line `n` of the input; it is looked into only where that is asked for. */
  ghost predicate TextState(result: seq<seq<Item>>, paragraphs: seq<seq<seq<Cell>>>, inputLines: seq<seq<Item>>, n: nat,
                            st: Style, fits: bool, w: Columns, width: nat)
    requires n <= |inputLines|
  {
    forall x {:trigger Line(x)} :: Line(x) && x == Concat(inputLines[..n]) ==>
      && WrapState(result, x, st, fits, w, width)
      && LaidOut(result, paragraphs, inputLines, n, w, width)
  }

  lemma WhatIsInText(result: seq<seq<Item>>, paragraphs: seq<seq<seq<Cell>>>, inputLines: seq<seq<Item>>, n: nat,
                     st: Style, fits: bool, w: Columns, width: nat)
    requires n <= |inputLines| && TextState(result, paragraphs, inputLines, n, st, fits, w, width)
    ensures WrapState(result, Concat(inputLines[..n]), st, fits, w, width)
    ensures LaidOut(result, paragraphs, inputLines, n, w, width)
  {
    assert Line(Concat(inputLines[..n]));
  }

  lemma TextStarts(inputLines: seq<seq<Item>>, fits: bool, w: Columns, width: nat)
    ensures TextState([], [], inputLines, 0, CLEAR, fits, w, width)
  {
    assert inputLines[..0] == [];
    assert WrapState([], [], CLEAR, fits, w, width) && LaidOut([], [], inputLines, 0, w, width);
  }

  /** The next line of the input. */
  method WrapParagraph(result: seq<seq<Item>>, ghost paragraphs: seq<seq<seq<Cell>>>, inputLines: seq<seq<Item>>, k: nat,
                       width: nat, w: Columns, tracker: AnsiCodeTracker, ghost fits: bool)
    returns (result': seq<seq<Item>>, ghost paragraphs': seq<seq<seq<Cell>>>)
    requires k < |inputLines| && Clean(inputLines[k]) && (fits ==> Fits(w, inputLines[k], width))
    requires k == 0 <==> result == []
    requires TextState(result, paragraphs, inputLines, k, tracker.Abstract(), fits, w, width)
    modifies tracker
    ensures result' != [] && TextState(result', paragraphs', inputLines, k + 1, tracker.Abstract(), fits, w, width)
  {
    WhatIsInText(result, paragraphs, inputLines, k, tracker.Abstract(), fits, w, width);
    assert k == 0 ==> inputLines[..k] == [];
    NextInput(inputLines, k);
    var wrapped;
    ghost var spans;
    wrapped, spans := WrapInput(result, inputLines[k], width, w, tracker, Concat(inputLines[..k]), fits);
    NextParagraph(result, paragraphs, inputLines, k, wrapped, spans, w, width);
    result', paragraphs' := result + wrapped, paragraphs + [spans];
  }

  /** All lines of the input, one after the other. */
  method WrapParagraphs(inputLines: seq<seq<Item>>, width: nat, w: Columns, ghost fits: bool)
    returns (result: seq<seq<Item>>, ghost paragraphs: seq<seq<seq<Cell>>>, ghost st: Style)
    requires inputLines != [] && forall k :: 0 <= k < |inputLines| ==> Clean(inputLines[k])
    requires fits ==> forall k :: 0 <= k < |inputLines| ==> Fits(w, inputLines[k], width)
    ensures result != [] && TextState(result, paragraphs, inputLines, |inputLines|, st, fits, w, width)
  {
    result, paragraphs := [], [];
    var tracker := new AnsiCodeTracker();
    TextStarts(inputLines, fits, w, width);
    for k := 0 to |inputLines|
      invariant fresh(tracker) && (k == 0 <==> result == [])
      invariant TextState(result, paragraphs, inputLines, k, tracker.Abstract(), fits, w, width)
    {
      result, paragraphs := WrapParagraph(result, paragraphs, inputLines, k, width, w, tracker, fits);
    }
    st := tracker.Abstract();
  }

  /**
   Wraps a text given as the lines between its newlines. The output, each line read from a
   cleared style, shows the text's characters in their styles and in order: every line shows
   a slice of its line of the input, only spaces are left out, and only where a line ends, and
   a line ends only where the next word would not fit; a word is broken only where it has the
   line to itself; text without codes does not begin a line
   with spaces, but the first; and when every character fits a line, every line fits the width.
   */
  method WrapTextWithAnsi(inputLines: seq<seq<Item>>, width: nat, w: Columns)
    returns (result: seq<seq<Item>>, ghost paragraphs: seq<seq<seq<Cell>>>)
    requires inputLines != [] && forall k :: 0 <= k < |inputLines| ==> Clean(inputLines[k])
    ensures result != [] && forall k :: 0 <= k < |result| ==> Clean(result[k])
    ensures LaidOut(result, paragraphs, inputLines, |inputLines|, w, width)
    ensures Drops(Meaning(CLEAR, Concat(inputLines)), LinesMeaning(result))
    ensures NonSpaces(LinesMeaning(result)) == NonSpaces(Meaning(CLEAR, Concat(inputLines)))
    ensures (forall k :: 0 <= k < |inputLines| ==> Fits(w, inputLines[k], width)) ==>
              forall k :: 0 <= k < |result| ==> VisibleWidth(w, result[k]) <= width
  {
    ghost var fits, st := forall k :: 0 <= k < |inputLines| ==> Fits(w, inputLines[k], width), CLEAR;
    result, paragraphs, st := WrapParagraphs(inputLines, width, w, fits);
    WhatIsInText(result, paragraphs, inputLines, |inputLines|, st, fits, w, width);
    assert inputLines[..|inputLines|] == inputLines;
    WhatIsWrapped(result, Concat(inputLines), st, fits, w, width);
    DropsKeepsTheRest(Meaning(CLEAR, Concat(inputLines)), LinesMeaning(result));
  }
}
