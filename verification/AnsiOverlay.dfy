/**
 Column-exact slicing and overlay compositing of styled lines: an overlay is spliced into a
 base line so that every column outside it keeps its character and its style.

 A slice that starts inside a line carries the codes before it along; the order in which it
 puts them is the reason for the exact condition of `SliceWithWidth`. The parts a composition
 needs are collected in one pass over the base line.
 */
module AnsiOverlay {

  import opened Common
  import opened AnsiScan
  import opened AnsiStyle
  import opened AnsiTracker
  import opened AnsiWrap

  // ---- Columns ------------------------------------------------------------------------

  /** One screen column: which part of which character it shows. */
  datatype Column = Column(cell: Cell, part: int)

  function CellColumns(w: Columns, cell: Cell): (s: seq<Column>)
    ensures |s| == w(cell.c)
  {
    seq(w(cell.c), part => Column(cell, part))
  }

  function ColumnsOf(w: Columns, cells: seq<Cell>): seq<Column>
    decreases |cells|
  {
    if cells == [] then [] else CellColumns(w, cells[0]) + ColumnsOf(w, cells[1..])
  }

  ghost predicate Wide(w: Columns, cells: seq<Cell>) {
    forall k :: 0 <= k < |cells| ==> 1 <= w(cells[k].c)
  }

  /** The cells that start in columns `lo` to `hi`; with `strict`, only those that also end there. */
  function InRange(w: Columns, cells: seq<Cell>, col: nat, lo: nat, hi: int, strict: bool): seq<Cell>
    decreases |cells|
  {
    if cells == [] then []
    else
      var width := w(cells[0].c);
      (if lo <= col < hi && (!strict || col + width <= hi) then [cells[0]] else [])
      + InRange(w, cells[1..], col + width, lo, hi, strict)
  }

  /** No cell starts before column `b` and ends after it. */
  predicate NoStraddle(w: Columns, cells: seq<Cell>, col: nat, b: int)
    decreases |cells|
  {
    cells == [] || (!(col < b < col + w(cells[0].c)) && NoStraddle(w, cells[1..], col + w(cells[0].c), b))
  }

  lemma InRangeHead(w: Columns, cell: Cell, rest: seq<Cell>, col: nat, lo: nat, hi: int, strict: bool)
    ensures InRange(w, [cell] + rest, col, lo, hi, strict)
         == (if lo <= col < hi && (!strict || col + w(cell.c) <= hi) then [cell] else [])
            + InRange(w, rest, col + w(cell.c), lo, hi, strict)
    ensures |ColumnsOf(w, [cell] + rest)| == w(cell.c) + |ColumnsOf(w, rest)|
  {
    assert ([cell] + rest)[1..] == rest;
  }

  lemma {:induction false} InRangeAppends(w: Columns, a: seq<Cell>, b: seq<Cell>, col: nat, lo: nat, hi: int,
                                          strict: bool)
    ensures InRange(w, a + b, col, lo, hi, strict)
         == InRange(w, a, col, lo, hi, strict) + InRange(w, b, col + |ColumnsOf(w, a)|, lo, hi, strict)
    decreases |a|
  {
    if a == [] {
      assert a + b == b;
    } else {
      var cell, rest := a[0], a[1..];
      assert a == [cell] + rest;
      assert a + b == [cell] + (rest + b);
      InRangeHead(w, cell, rest, col, lo, hi, strict);
      InRangeHead(w, cell, rest + b, col, lo, hi, strict);
      InRangeAppends(w, rest, b, col + w(cell.c), lo, hi, strict);
    }
  }

  lemma {:induction false} InRangePast(w: Columns, cells: seq<Cell>, col: nat, lo: nat, hi: int, strict: bool)
    requires hi <= col || hi <= lo
    ensures InRange(w, cells, col, lo, hi, strict) == []
    decreases |cells|
  {
    if cells != [] {
      InRangePast(w, cells[1..], col + w(cells[0].c), lo, hi, strict);
    }
  }

  lemma {:induction false} ColumnsAppend(w: Columns, a: seq<Cell>, b: seq<Cell>)
    ensures ColumnsOf(w, a + b) == ColumnsOf(w, a) + ColumnsOf(w, b)
    decreases |a|
  {
    if a == [] {
      assert a + b == b;
    } else {
      assert (a + b)[0] == a[0] && (a + b)[1..] == a[1..] + b;
      ColumnsAppend(w, a[1..], b);
    }
  }

  lemma {:induction false} WidthIsColumns(w: Columns, st: Style, items: seq<Item>)
    ensures |ColumnsOf(w, Meaning(st, items))| == VisibleWidth(w, items)
    decreases |items|
  {
    if items != [] {
      var rest := items[1..];
      assert items == [items[0]] + rest;
      WidthAppends(w, [items[0]], rest);
      OneItem(st, items[0], w);
      WidthIsColumns(w, if items[0].Code? then Process(st, items[0].code) else st, rest);
    }
  }

  lemma {:induction false} ColumnsAreWidth(w: Columns, cells: seq<Cell>)
    ensures |ColumnsOf(w, cells)| == CellsWidth(w, cells)
    decreases |cells|
  {
    if cells != [] {
      var n := |cells| - 1;
      ColumnsAreWidth(w, cells[..n]);
      assert cells == cells[..n] + [cells[n]];
      ColumnsAppend(w, cells[..n], [cells[n]]);
      assert ColumnsOf(w, [cells[n]]) == CellColumns(w, cells[n]) + ColumnsOf(w, []);
    }
  }

  /** Where cell `k` starts. */
  function StartOf(w: Columns, cells: seq<Cell>, k: nat): nat
    requires k <= |cells|
  {
    CellsWidth(w, cells[..k])
  }

  lemma StartsInOrder(w: Columns, cells: seq<Cell>, i: nat, k: nat)
    requires i <= k < |cells|
    ensures StartOf(w, cells, i) <= StartOf(w, cells, k)
    ensures StartOf(w, cells, k + 1) == StartOf(w, cells, k) + w(cells[k].c)
  {
    PrefixIsNarrower(w, cells[..i], cells[..k]);
    assert cells[..k + 1][..k] == cells[..k];
  }

  /** Cell `k` lies in the range: it starts there and, if it must, ends there. */
  predicate Lies(w: Columns, cells: seq<Cell>, k: nat, lo: nat, hi: int, strict: bool)
    requires k < |cells|
  {
    lo <= StartOf(w, cells, k) < hi && (!strict || StartOf(w, cells, k) + w(cells[k].c) <= hi)
  }

  lemma RangeOneMore(w: Columns, init: seq<Cell>, last: Cell, lo: nat, hi: int, strict: bool)
    ensures InRange(w, init + [last], 0, lo, hi, strict)
         == InRange(w, init, 0, lo, hi, strict)
            + if Lies(w, init + [last], |init|, lo, hi, strict) then [last] else []
  {
    InRangeAppends(w, init, [last], 0, lo, hi, strict);
    ColumnsAreWidth(w, init);
    assert (init + [last])[..|init|] == init;
    assert [last] == [last] + [];
    InRangeHead(w, last, [], |ColumnsOf(w, init)|, lo, hi, strict);
  }

  lemma BetweenLies(w: Columns, cells: seq<Cell>, i: nat, k: nat, n: nat, lo: nat, hi: int, strict: bool)
    requires Wide(w, cells) && i <= k < n < |cells|
    requires Lies(w, cells, i, lo, hi, strict) && Lies(w, cells, n, lo, hi, strict)
    ensures Lies(w, cells, k, lo, hi, strict)
  {
    StartsInOrder(w, cells, i, k);
    StartsInOrder(w, cells, k + 1, n);
  }

  /** The cells from `i` to `j` are those that lie in the range. */
  ghost predicate IsRun(w: Columns, cells: seq<Cell>, lo: nat, hi: int, strict: bool, i: nat, j: nat) {
    && i <= j <= |cells|
    && InRange(w, cells, 0, lo, hi, strict) == cells[i..j]
    && forall k: nat :: k < |cells| ==> (i <= k < j <==> Lies(w, cells, k, lo, hi, strict))
  }

  lemma SameLies(w: Columns, init: seq<Cell>, last: Cell, k: nat, lo: nat, hi: int, strict: bool)
    requires k < |init|
    ensures Lies(w, init + [last], k, lo, hi, strict) == Lies(w, init, k, lo, hi, strict)
  {
    assert (init + [last])[..k] == init[..k];
  }

  /** The run goes on up to a cell that lies in the range. */
  lemma RunReaches(w: Columns, init: seq<Cell>, last: Cell, lo: nat, hi: int, strict: bool, i: nat, j: nat)
    requires Wide(w, init + [last]) && IsRun(w, init, lo, hi, strict, i, j) && i < j
    requires Lies(w, init + [last], |init|, lo, hi, strict)
    ensures j == |init|
  {
    var n := |init|;
    SameLies(w, init, last, i, lo, hi, strict);
    BetweenLies(w, init + [last], i, n - 1, n, lo, hi, strict);
    SameLies(w, init, last, n - 1, lo, hi, strict);
  }

  lemma RunGoesOn(w: Columns, init: seq<Cell>, last: Cell, lo: nat, hi: int, strict: bool, i: nat, j: nat)
    returns (i': nat, j': nat)
    requires Wide(w, init + [last]) && IsRun(w, init, lo, hi, strict, i, j)
    ensures IsRun(w, init + [last], lo, hi, strict, i', j')
  {
    var cells, n := init + [last], |init|;
    RangeOneMore(w, init, last, lo, hi, strict);
    forall k: nat | k < n ensures Lies(w, cells, k, lo, hi, strict) == Lies(w, init, k, lo, hi, strict) {
      SameLies(w, init, last, k, lo, hi, strict);
    }
    if !Lies(w, cells, n, lo, hi, strict) {
      i', j' := i, j;
      assert cells[i..j] == init[i..j];
    } else if i < j {
      RunReaches(w, init, last, lo, hi, strict, i, j);
      i', j' := i, n + 1;
      assert cells[i..n + 1] == init[i..n] + [last];
    } else {
      i', j' := n, n + 1;
      assert cells[n..n + 1] == [last] && init[i..j] == [];
    }
  }

  /** A range is a run of cells: those that lie in it. */
  lemma {:induction false} RangeIsRun(w: Columns, cells: seq<Cell>, lo: nat, hi: int, strict: bool)
    returns (i: nat, j: nat)
    requires Wide(w, cells)
    ensures IsRun(w, cells, lo, hi, strict, i, j)
    decreases |cells|
  {
    i, j := 0, 0;
    if cells != [] {
      var n := |cells| - 1;
      assert cells == cells[..n] + [cells[n]];
      i, j := RangeIsRun(w, cells[..n], lo, hi, strict);
      i, j := RunGoesOn(w, cells[..n], cells[n], lo, hi, strict, i, j);
    }
  }

  function Clip(x: int, n: nat): nat { if x < 0 then 0 else if x < n then x else n }

  lemma SliceOfJoined(first: seq<Column>, rest: seq<Column>, all: seq<Column>, lo: int, hi: int, lo': int, hi': int,
                      taken: bool)
    requires all == first + rest && lo' == lo - |first| && hi' == hi - |first|
    requires lo <= hi && first != [] && !(0 < lo < |first|) && !(0 < hi < |first|) && (taken <==> lo <= 0 < hi)
    ensures all[Clip(lo, |all|)..Clip(hi, |all|)]
         == (if taken then first else []) + rest[Clip(lo', |rest|)..Clip(hi', |rest|)]
  {
  }

  lemma TakenColumns(w: Columns, cell: Cell, tail: seq<Cell>, taken: bool)
    ensures ColumnsOf(w, (if taken then [cell] else []) + tail)
         == (if taken then CellColumns(w, cell) else []) + ColumnsOf(w, tail)
  {
    if taken {
      HeadColumns(w, cell);
      ColumnsAppend(w, [cell], tail);
    } else {
      assert [] + tail == tail;
    }
  }

  lemma RangeStep(w: Columns, cell: Cell, rest: seq<Column>, tail: seq<Cell>, col: nat, lo: nat, hi: nat)
    requires lo <= hi && 1 <= w(cell.c) && !(col < lo < col + w(cell.c)) && !(col < hi < col + w(cell.c))
    requires ColumnsOf(w, tail) == rest[Clip(lo - (col + w(cell.c)), |rest|)..Clip(hi - (col + w(cell.c)), |rest|)]
    ensures var all := CellColumns(w, cell) + rest;
            ColumnsOf(w, (if lo <= col < hi then [cell] else []) + tail)
                == all[Clip(lo - col, |all|)..Clip(hi - col, |all|)]
  {
    var first, taken := CellColumns(w, cell), lo <= col < hi;
    var lo', hi' := lo - (col + w(cell.c)), hi - (col + w(cell.c));
    TakenColumns(w, cell, tail, taken);
    SliceOfJoined(first, rest, first + rest, lo - col, hi - col, lo', hi', taken);
    assert ColumnsOf(w, tail) == rest[Clip(lo', |rest|)..Clip(hi', |rest|)];
  }

  /** Without straddling, the cells in a range are exactly the columns of that range. */
  lemma {:induction false} RangeIsSlice(w: Columns, cells: seq<Cell>, col: nat, lo: nat, hi: nat, strict: bool)
    requires lo <= hi && Wide(w, cells) && NoStraddle(w, cells, col, lo) && NoStraddle(w, cells, col, hi)
    ensures var all := ColumnsOf(w, cells);
            ColumnsOf(w, InRange(w, cells, col, lo, hi, strict)) == all[Clip(lo - col, |all|)..Clip(hi - col, |all|)]
    decreases |cells|
  {
    if cells != [] {
      var width := w(cells[0].c);
      RangeIsSlice(w, cells[1..], col + width, lo, hi, strict);
      RangeStep(w, cells[0], ColumnsOf(w, cells[1..]), InRange(w, cells[1..], col + width, lo, hi, strict), col, lo,
                hi);
    }
  }

  lemma HeadColumns(w: Columns, cell: Cell)
    ensures ColumnsOf(w, [cell]) == CellColumns(w, cell)
  {
    assert [cell][1..] == [] && CellColumns(w, cell) + [] == CellColumns(w, cell);
  }

  /** A strict range never exceeds its bounds, straddling or not. */
  lemma {:induction false} StrictRangeFits(w: Columns, cells: seq<Cell>, col: nat, lo: nat, hi: int)
    ensures |ColumnsOf(w, InRange(w, cells, col, lo, hi, true))| <= Max(0, hi - Max(lo, col))
    decreases |cells|
  {
    if cells != [] {
      var width := w(cells[0].c);
      var tail := InRange(w, cells[1..], col + width, lo, hi, true);
      StrictRangeFits(w, cells[1..], col + width, lo, hi);
      if lo <= col < hi && col + width <= hi {
        ColumnsAppend(w, [cells[0]], tail);
        assert |ColumnsOf(w, [cells[0]])| == width;
      } else {
        assert [] + tail == tail;
      }
    }
  }

  // ---- Collecting a range of columns -------------------------------------------------------

  /** `part` shows what `done` shows in columns `lo` to `hi`. */
  ghost predicate Collected(part: seq<Item>, partWidth: nat, done: seq<Item>, lo: nat, hi: int, strict: bool,
                            w: Columns) {
    && Clean(part)
    && VisibleWidth(w, part) == partWidth
    && Meaning(CLEAR, part) == InRange(w, Meaning(CLEAR, done), 0, lo, hi, strict)
  }

  lemma CodeRead(done: seq<Item>, code: string, w: Columns)
    ensures Meaning(CLEAR, done + [Code(code)]) == Meaning(CLEAR, done)
    ensures VisibleWidth(w, done + [Code(code)]) == VisibleWidth(w, done)
    ensures Replay(CLEAR, done + [Code(code)]) == Process(Replay(CLEAR, done), code)
  {
    OneItem(Replay(CLEAR, done), Code(code), w);
    MeaningAppends(CLEAR, done, [Code(code)]);
    WidthAppends(w, done, [Code(code)]);
    ReplayAppends(CLEAR, done, [Code(code)]);
    assert Meaning(CLEAR, done) + [] == Meaning(CLEAR, done);
  }

  lemma CollectCode(part: seq<Item>, partWidth: nat, done: seq<Item>, st: Style, code: string, lo: nat, hi: int,
                    strict: bool, w: Columns)
    requires Collected(part, partWidth, done, lo, hi, strict, w) && Replay(CLEAR, done) == st
    ensures Collected(part, partWidth, done + [Code(code)], lo, hi, strict, w)
    ensures Replay(CLEAR, done + [Code(code)]) == Process(st, code)
    ensures VisibleWidth(w, done + [Code(code)]) == VisibleWidth(w, done)
  {
    CodeRead(done, code, w);
  }

  /** Codes may be added to a part at any time: they show nothing themselves. */
  lemma CollectMoreCodes(part: seq<Item>, partWidth: nat, done: seq<Item>, codes: seq<Item>, lo: nat, hi: int,
                         strict: bool, w: Columns)
    requires Collected(part, partWidth, done, lo, hi, strict, w) && Clean(codes) && CodesOnly(codes)
    ensures Collected(part + codes, partWidth, done, lo, hi, strict, w)
  {
    MeaningAppends(CLEAR, part, codes);
    CodesShowNothing(Replay(CLEAR, part), codes);
    WidthAppends(w, part, codes);
    CodesHaveNoWidth(w, codes);
    assert Meaning(CLEAR, part) + [] == Meaning(CLEAR, part);
  }

  predicate Taken(col: nat, width: nat, lo: nat, hi: int, strict: bool) {
    lo <= col < hi && (!strict || col + width <= hi)
  }

  lemma GlyphRead(done: seq<Item>, st: Style, c: char, w: Columns)
    requires Replay(CLEAR, done) == st
    ensures Meaning(CLEAR, done + [Glyph(c)]) == Meaning(CLEAR, done) + [Cell(c, st)]
    ensures Replay(CLEAR, done + [Glyph(c)]) == st
    ensures VisibleWidth(w, done + [Glyph(c)]) == VisibleWidth(w, done) + w(c)
  {
    OneItem(st, Glyph(c), w);
    MeaningAppends(CLEAR, done, [Glyph(c)]);
    ReplayAppends(CLEAR, done, [Glyph(c)]);
    WidthAppends(w, done, [Glyph(c)]);
  }

  lemma RangeOfOne(w: Columns, cell: Cell, col: nat, lo: nat, hi: int, strict: bool)
    ensures InRange(w, [cell], col, lo, hi, strict) == if Taken(col, w(cell.c), lo, hi, strict) then [cell] else []
  {
    assert [cell][1..] == [];
  }

  lemma ReadGlyph(done: seq<Item>, st: Style, c: char, lo: nat, hi: int, strict: bool, w: Columns)
    requires Replay(CLEAR, done) == st
    ensures var col, all := VisibleWidth(w, done), done + [Glyph(c)];
            && InRange(w, Meaning(CLEAR, all), 0, lo, hi, strict)
               == InRange(w, Meaning(CLEAR, done), 0, lo, hi, strict)
                  + (if Taken(col, w(c), lo, hi, strict) then [Cell(c, st)] else [])
            && Replay(CLEAR, all) == st && VisibleWidth(w, all) == col + w(c)
  {
    GlyphRead(done, st, c, w);
    WidthIsColumns(w, CLEAR, done);
    InRangeAppends(w, Meaning(CLEAR, done), [Cell(c, st)], 0, lo, hi, strict);
    RangeOfOne(w, Cell(c, st), VisibleWidth(w, done), lo, hi, strict);
  }

  lemma CleanGlyph(codes: seq<Item>, c: char)
    requires Clean(codes) && c != ESC
    ensures Clean(codes + [Glyph(c)])
  {
  }

  lemma CollectTaken(part: seq<Item>, partWidth: nat, done: seq<Item>, st: Style, c: char, lo: nat, hi: int,
                     strict: bool, w: Columns)
    requires Collected(part, partWidth, done, lo, hi, strict, w) && Replay(CLEAR, done) == st && c != ESC
    requires Taken(VisibleWidth(w, done), w(c), lo, hi, strict) && Replay(CLEAR, part) == st
    ensures Collected(part + [Glyph(c)], partWidth + w(c), done + [Glyph(c)], lo, hi, strict, w)
    ensures Replay(CLEAR, part + [Glyph(c)]) == st
  {
    ReadGlyph(done, st, c, lo, hi, strict, w);
    GlyphRead(part, st, c, w);
    CleanGlyph(part, c);
  }

  lemma CollectNotTaken(part: seq<Item>, partWidth: nat, done: seq<Item>, st: Style, c: char, lo: nat, hi: int,
                        strict: bool, w: Columns)
    requires Collected(part, partWidth, done, lo, hi, strict, w) && Replay(CLEAR, done) == st
    requires !Taken(VisibleWidth(w, done), w(c), lo, hi, strict)
    ensures Collected(part, partWidth, done + [Glyph(c)], lo, hi, strict, w)
  {
    ReadGlyph(done, st, c, lo, hi, strict, w);
    var cells := InRange(w, Meaning(CLEAR, done), 0, lo, hi, strict);
    assert cells + [] == cells;
  }

  /** A character in the range goes into the part; its style must be the one the part ends in. */
  lemma CollectGlyph(part: seq<Item>, partWidth: nat, done: seq<Item>, st: Style, c: char, lo: nat, hi: int,
                     strict: bool, w: Columns)
    requires Collected(part, partWidth, done, lo, hi, strict, w) && Replay(CLEAR, done) == st && c != ESC
    ensures Taken(VisibleWidth(w, done), w(c), lo, hi, strict) && Replay(CLEAR, part) == st ==>
              && Collected(part + [Glyph(c)], partWidth + w(c), done + [Glyph(c)], lo, hi, strict, w)
              && Replay(CLEAR, part + [Glyph(c)]) == st
    ensures !Taken(VisibleWidth(w, done), w(c), lo, hi, strict) ==>
              Collected(part, partWidth, done + [Glyph(c)], lo, hi, strict, w)
    ensures Replay(CLEAR, done + [Glyph(c)]) == st && VisibleWidth(w, done + [Glyph(c)]) == VisibleWidth(w, done) + w(c)
  {
    GlyphRead(done, st, c, w);
    if !Taken(VisibleWidth(w, done), w(c), lo, hi, strict) {
      CollectNotTaken(part, partWidth, done, st, c, lo, hi, strict, w);
    } else if Replay(CLEAR, part) == st {
      CollectTaken(part, partWidth, done, st, c, lo, hi, strict, w);
    }
  }

  /** Nothing that starts past a range belongs to it, so reading may stop there. */
  lemma RangeOfPrefix(w: Columns, a: seq<Cell>, b: seq<Cell>, lo: nat, hi: int, strict: bool)
    requires hi <= |ColumnsOf(w, a)| || hi <= lo
    ensures InRange(w, a + b, 0, lo, hi, strict) == InRange(w, a, 0, lo, hi, strict)
  {
    InRangeAppends(w, a, b, 0, lo, hi, strict);
    InRangePast(w, b, |ColumnsOf(w, a)|, lo, hi, strict);
  }

  lemma RangeEndsEarly(done: seq<Item>, line: seq<Item>, lo: nat, hi: int, strict: bool, w: Columns)
    requires done <= line
    requires done == line || hi <= VisibleWidth(w, done) || hi <= lo
    ensures InRange(w, Meaning(CLEAR, line), 0, lo, hi, strict) == InRange(w, Meaning(CLEAR, done), 0, lo, hi, strict)
  {
    if done != line {
      var rest := line[|done|..];
      assert line == done + rest;
      MeaningAppends(CLEAR, done, rest);
      WidthIsColumns(w, CLEAR, done);
      RangeOfPrefix(w, Meaning(CLEAR, done), Meaning(Replay(CLEAR, done), rest), lo, hi, strict);
    }
  }

  lemma CollectedEarly(part: seq<Item>, partWidth: nat, done: seq<Item>, line: seq<Item>, lo: nat, hi: int,
                       strict: bool, w: Columns)
    requires Collected(part, partWidth, done, lo, hi, strict, w) && done <= line
    requires done == line || hi <= VisibleWidth(w, done) || hi <= lo
    ensures Collected(part, partWidth, line, lo, hi, strict, w)
  {
    RangeEndsEarly(done, line, lo, hi, strict, w);
  }

  // ---- Slicing -------------------------------------------------------------------------------

  /** The codes that stand before column `startCol`. */
  function CodesBefore(w: Columns, items: seq<Item>, col: nat, startCol: nat): seq<Item>
    decreases |items|
  {
    if items == [] || startCol <= col then []
    else if items[0].Code? then [items[0]] + CodesBefore(w, items[1..], col, startCol)
    else CodesBefore(w, items[1..], col + w(items[0].c), startCol)
  }

  /** The codes between column `startCol` and the first character from there on. */
  function CodesAt(w: Columns, items: seq<Item>, col: nat, startCol: nat): seq<Item>
    decreases |items|
  {
    if items == [] then []
    else if items[0].Code? then
      (if startCol <= col then [items[0]] else []) + CodesAt(w, items[1..], col, startCol)
    else if startCol <= col then []
    else CodesAt(w, items[1..], col + w(items[0].c), startCol)
  }

  /** The two groups of codes may change places. */
  ghost predicate Commute(a: seq<Item>, d: seq<Item>) {
    Replay(CLEAR, d + a) == Replay(CLEAR, a + d)
  }

  /** Nothing is printed yet: the codes met so far are held (`a`) or already put out (`d`). */
  ghost predicate Leading(a: seq<Item>, d: seq<Item>, done: seq<Item>, rest: seq<Item>, line: seq<Item>,
                          startCol: nat, endCol: nat, strict: bool, w: Columns)
  {
    var col := VisibleWidth(w, done);
    && Clean(a) && CodesOnly(a) && Clean(d) && CodesOnly(d)
    && a + CodesBefore(w, rest, col, startCol) == CodesBefore(w, line, 0, startCol)
    && d + CodesAt(w, rest, col, startCol) == CodesAt(w, line, 0, startCol)
    && Replay(CLEAR, a + d) == Replay(CLEAR, done)
    && (col < startCol ==> d == [])
    && InRange(w, Meaning(CLEAR, done), 0, startCol, endCol, strict) == []
  }

  lemma CodesUnfold(w: Columns, code: string, rest: seq<Item>, col: nat, startCol: nat)
    ensures CodesBefore(w, [Code(code)] + rest, col, startCol)
         == if startCol <= col then [] else [Code(code)] + CodesBefore(w, rest, col, startCol)
    ensures CodesAt(w, [Code(code)] + rest, col, startCol)
         == (if startCol <= col then [Code(code)] else []) + CodesAt(w, rest, col, startCol)
  {
    var all := [Code(code)] + rest;
    assert all[0] == Code(code) && all[1..] == rest;
  }

  lemma Regroup(x: seq<Item>, item: Item, y: seq<Item>)
    ensures x + ([item] + y) == (x + [item]) + y
  {
  }

  lemma LeadingHeld(a: seq<Item>, d: seq<Item>, done: seq<Item>, code: string, rest: seq<Item>, line: seq<Item>,
                    startCol: nat, endCol: nat, strict: bool, w: Columns)
    requires Leading(a, d, done, [Code(code)] + rest, line, startCol, endCol, strict, w) && IsCode(code)
    requires VisibleWidth(w, done) < startCol
    ensures Leading(a + [Code(code)], d, done + [Code(code)], rest, line, startCol, endCol, strict, w)
  {
    var item, col := Code(code), VisibleWidth(w, done);
    HeldCodes(a, code, rest, col, startCol, w);
    CodeRead(done, code, w);
    CodeRead(a, code, w);
    assert d == [] && a + d == a && (a + [item]) + d == a + [item];
  }

  lemma HeldCodes(a: seq<Item>, code: string, rest: seq<Item>, col: nat, startCol: nat, w: Columns)
    requires col < startCol
    ensures a + CodesBefore(w, [Code(code)] + rest, col, startCol)
            == (a + [Code(code)]) + CodesBefore(w, rest, col, startCol)
    ensures CodesAt(w, [Code(code)] + rest, col, startCol) == CodesAt(w, rest, col, startCol)
  {
    CodesUnfold(w, code, rest, col, startCol);
    Regroup(a, Code(code), CodesBefore(w, rest, col, startCol));
    assert [] + CodesAt(w, rest, col, startCol) == CodesAt(w, rest, col, startCol);
  }

  lemma PutCodes(d: seq<Item>, code: string, rest: seq<Item>, col: nat, startCol: nat, w: Columns)
    requires startCol <= col
    ensures d + CodesAt(w, [Code(code)] + rest, col, startCol) == (d + [Code(code)]) + CodesAt(w, rest, col, startCol)
    ensures CodesBefore(w, [Code(code)] + rest, col, startCol) == CodesBefore(w, rest, col, startCol)
  {
    CodesUnfold(w, code, rest, col, startCol);
    Regroup(d, Code(code), CodesAt(w, rest, col, startCol));
  }

  lemma LeadingPut(a: seq<Item>, d: seq<Item>, done: seq<Item>, code: string, rest: seq<Item>, line: seq<Item>,
                   startCol: nat, endCol: nat, strict: bool, w: Columns)
    requires Leading(a, d, done, [Code(code)] + rest, line, startCol, endCol, strict, w) && IsCode(code)
    requires startCol <= VisibleWidth(w, done)
    ensures Leading(a, d + [Code(code)], done + [Code(code)], rest, line, startCol, endCol, strict, w)
  {
    PutCodes(d, code, rest, VisibleWidth(w, done), startCol, w);
    CodeRead(done, code, w);
    PutReplays(a, d, code, w);
  }

  lemma PutReplays(a: seq<Item>, d: seq<Item>, code: string, w: Columns)
    ensures Replay(CLEAR, a + (d + [Code(code)])) == Process(Replay(CLEAR, a + d), code)
  {
    CodeRead(a + d, code, w);
    assert a + (d + [Code(code)]) == (a + d) + [Code(code)];
  }

  /** A character before the range. */
  lemma LeadingGlyph(a: seq<Item>, d: seq<Item>, done: seq<Item>, c: char, rest: seq<Item>, line: seq<Item>,
                     startCol: nat, endCol: nat, strict: bool, w: Columns)
    requires Leading(a, d, done, [Glyph(c)] + rest, line, startCol, endCol, strict, w)
             && VisibleWidth(w, done) < startCol
    ensures Leading(a, d, done + [Glyph(c)], rest, line, startCol, endCol, strict, w)
  {
    var all := [Glyph(c)] + rest;
    assert all[0] == Glyph(c) && all[1..] == rest;
    ReadGlyph(done, Replay(CLEAR, done), c, startCol, endCol, strict, w);
  }

  function Chars(cells: seq<Cell>): (chars: string)
    ensures |chars| == |cells|
  {
    seq(|cells|, i requires 0 <= i < |cells| => cells[i].c)
  }

  lemma CharsAdd(cells: seq<Cell>, cell: Cell)
    ensures Chars(cells + [cell]) == Chars(cells) + [cell.c]
  {
  }

  /**
   `shown` for the cells of a range in front of whose first character are the codes `a` held
   back from before the range, then the codes `d` within it: the characters are those of the
   range, but the first is shown in the style of `d` followed by `a`.
   */
  ghost predicate Reordered(shown: seq<Cell>, cells: seq<Cell>, a: seq<Item>, d: seq<Item>) {
    && Chars(shown) == Chars(cells)
    && (cells != [] ==>
          && cells[0].style == Replay(CLEAR, a + d)
          && |shown| == |cells| && shown[0].style == Replay(CLEAR, d + a))
  }

  /** Characters are printed: the slice is right, or its first character already has the wrong style. */
  ghost predicate Slicing(result: seq<Item>, resultWidth: nat, done: seq<Item>, line: seq<Item>,
                          startCol: nat, endCol: nat, strict: bool, w: Columns)
  {
    var cells := InRange(w, Meaning(CLEAR, done), 0, startCol, endCol, strict);
    var a, d := CodesBefore(w, line, 0, startCol), CodesAt(w, line, 0, startCol);
    && startCol <= VisibleWidth(w, done)
    && Clean(result) && VisibleWidth(w, result) == resultWidth
    && cells != [] && Reordered(Meaning(CLEAR, result), cells, a, d)
    && (Commute(a, d) ==> Meaning(CLEAR, result) == cells && Replay(CLEAR, result) == Replay(CLEAR, done))
  }

  lemma FirstShown(codes: seq<Item>, c: char, w: Columns)
    requires Clean(codes) && CodesOnly(codes) && c != ESC
    ensures Clean(codes + [Glyph(c)]) && VisibleWidth(w, codes + [Glyph(c)]) == w(c)
    ensures Meaning(CLEAR, codes + [Glyph(c)]) == [Cell(c, Replay(CLEAR, codes))]
    ensures Replay(CLEAR, codes + [Glyph(c)]) == Replay(CLEAR, codes)
  {
    var st := Replay(CLEAR, codes);
    CleanGlyph(codes, c);
    CodesShowNothing(CLEAR, codes);
    CodesHaveNoWidth(w, codes);
    GlyphRead(codes, st, c, w);
    assert [] + [Cell(c, st)] == [Cell(c, st)];
  }

  lemma SliceFirst(a: seq<Item>, d: seq<Item>, done: seq<Item>, c: char, rest: seq<Item>, line: seq<Item>,
                   startCol: nat, endCol: nat, strict: bool, w: Columns)
    requires Leading(a, d, done, [Glyph(c)] + rest, line, startCol, endCol, strict, w) && c != ESC
    requires Taken(VisibleWidth(w, done), w(c), startCol, endCol, strict)
    ensures Slicing(d + a + [Glyph(c)], w(c), done + [Glyph(c)], line, startCol, endCol, strict, w)
  {
    var all := [Glyph(c)] + rest;
    assert all[0] == Glyph(c);
    assert a + [] == a && d + [] == d;
    var st, st' := Replay(CLEAR, done), Replay(CLEAR, d + a);
    ReadGlyph(done, st, c, startCol, endCol, strict, w);
    FirstShown(d + a, c, w);
    assert [] + [Cell(c, st)] == [Cell(c, st)];
    assert Reordered([Cell(c, st')], [Cell(c, st)], a, d);
  }

  lemma SliceCode(result: seq<Item>, resultWidth: nat, done: seq<Item>, code: string, line: seq<Item>,
                  startCol: nat, endCol: nat, strict: bool, w: Columns)
    requires Slicing(result, resultWidth, done, line, startCol, endCol, strict, w) && IsCode(code)
    ensures Slicing(result + [Code(code)], resultWidth, done + [Code(code)], line, startCol, endCol, strict, w)
  {
    CodeRead(done, code, w);
    CodeRead(result, code, w);
  }

  lemma ReorderedGrows(shown: seq<Cell>, cells: seq<Cell>, a: seq<Item>, d: seq<Item>, x: Cell, y: Cell)
    requires cells != [] && Reordered(shown, cells, a, d) && x.c == y.c
    ensures Reordered(shown + [x], cells + [y], a, d)
  {
    CharsAdd(shown, x);
    CharsAdd(cells, y);
  }

  lemma SliceGlyph(result: seq<Item>, resultWidth: nat, done: seq<Item>, c: char, line: seq<Item>,
                   startCol: nat, endCol: nat, strict: bool, w: Columns)
    requires Slicing(result, resultWidth, done, line, startCol, endCol, strict, w) && c != ESC
    ensures if Taken(VisibleWidth(w, done), w(c), startCol, endCol, strict)
            then Slicing(result + [Glyph(c)], resultWidth + w(c), done + [Glyph(c)], line, startCol, endCol, strict, w)
            else Slicing(result, resultWidth, done + [Glyph(c)], line, startCol, endCol, strict, w)
  {
    var st, st' := Replay(CLEAR, done), Replay(CLEAR, result);
    var cells := InRange(w, Meaning(CLEAR, done), 0, startCol, endCol, strict);
    ReadGlyph(done, st, c, startCol, endCol, strict, w);
    if Taken(VisibleWidth(w, done), w(c), startCol, endCol, strict) {
      GlyphRead(result, st', c, w);
      ReorderedGrows(Meaning(CLEAR, result), cells, CodesBefore(w, line, 0, startCol), CodesAt(w, line, 0, startCol),
                     Cell(c, st'), Cell(c, st));
    } else {
      assert cells + [] == cells;
    }
  }

  /** The loop state of a slice after reading `done`. */
  ghost predicate SliceState(result: seq<Item>, resultWidth: nat, pendingAnsi: seq<Item>, printed: bool,
                             done: seq<Item>, line: seq<Item>, startCol: nat, endCol: nat, strict: bool, w: Columns)
  {
    && done <= line
    && if printed
       then pendingAnsi == [] && Slicing(result, resultWidth, done, line, startCol, endCol, strict, w)
       else resultWidth == 0 && Leading(pendingAnsi, result, done, line[|done|..], line, startCol, endCol, strict, w)
  }

  lemma SliceStart(line: seq<Item>, startCol: nat, endCol: nat, strict: bool, w: Columns)
    ensures InSlice([], 0, [], false, [], line, 0, startCol, endCol, strict, w)
  {
    assert line[0..] == line;
    assert [] + CodesBefore(w, line, 0, startCol) == CodesBefore(w, line, 0, startCol);
    assert [] + CodesAt(w, line, 0, startCol) == CodesAt(w, line, 0, startCol);
  }

  /** One code of a line being sliced. */
  method SliceOnCode(result: seq<Item>, ghost resultWidth: nat, pendingAnsi: seq<Item>, ghost printed: bool,
                     ghost done: seq<Item>, code: string, ghost line: seq<Item>, currentCol: nat,
                     startCol: nat, endCol: nat, ghost strict: bool, ghost w: Columns)
    returns (result': seq<Item>, pendingAnsi': seq<Item>)
    requires SliceState(result, resultWidth, pendingAnsi, printed, done, line, startCol, endCol, strict, w)
    requires done + [Code(code)] <= line && IsCode(code) && currentCol == VisibleWidth(w, done) < endCol
    ensures SliceState(result', resultWidth, pendingAnsi', printed, done + [Code(code)], line, startCol, endCol,
                       strict, w)
    ensures VisibleWidth(w, done + [Code(code)]) == currentCol
  {
    CodeRead(done, code, w);
    ghost var rest := line[|done| + 1..];
    assert line[|done|..] == [Code(code)] + rest && line[|done + [Code(code)]|..] == rest;
    result', pendingAnsi' := result, pendingAnsi;
    if printed {
      SliceCode(result, resultWidth, done, code, line, startCol, endCol, strict, w);
    } else if currentCol < startCol {
      LeadingHeld(pendingAnsi, result, done, code, rest, line, startCol, endCol, strict, w);
    } else {
      LeadingPut(pendingAnsi, result, done, code, rest, line, startCol, endCol, strict, w);
    }
    if startCol <= currentCol < endCol {
      result' := result + [Code(code)];
    } else if currentCol < startCol {
      pendingAnsi' := pendingAnsi + [Code(code)];
    }
  }

  /** One character of a line being sliced. */
  method SliceOnGlyph(result: seq<Item>, resultWidth: nat, pendingAnsi: seq<Item>, ghost printed: bool,
                      ghost done: seq<Item>, c: char, ghost line: seq<Item>, currentCol: nat,
                      startCol: nat, endCol: nat, strict: bool, w: Columns)
    returns (result': seq<Item>, resultWidth': nat, pendingAnsi': seq<Item>, ghost printed': bool)
    requires SliceState(result, resultWidth, pendingAnsi, printed, done, line, startCol, endCol, strict, w)
    requires done + [Glyph(c)] <= line && c != ESC && currentCol == VisibleWidth(w, done) < endCol
    ensures VisibleWidth(w, done + [Glyph(c)]) == currentCol + w(c)
    ensures currentCol + w(c) < endCol || printed' ==>
              SliceState(result', resultWidth', pendingAnsi', printed', done + [Glyph(c)], line, startCol, endCol,
                         strict, w)
    ensures !printed' ==> !printed && resultWidth' == 0 && Clean(result') && CodesOnly(result')
                          && InRange(w, Meaning(CLEAR, done + [Glyph(c)]), 0, startCol, endCol, strict) == []
  {
    ReadGlyph(done, Replay(CLEAR, done), c, startCol, endCol, strict, w);
    ghost var rest := line[|done| + 1..];
    assert line[|done|..] == [Glyph(c)] + rest && line[|done + [Glyph(c)]|..] == rest;
    result', resultWidth', pendingAnsi', printed' := result, resultWidth, pendingAnsi, printed;
    var inRange := startCol <= currentCol < endCol;
    var fits := !strict || currentCol + w(c) <= endCol;
    if printed {
      SliceGlyph(result, resultWidth, done, c, line, startCol, endCol, strict, w);
    } else if inRange && fits {
      SliceFirst(pendingAnsi, result, done, c, rest, line, startCol, endCol, strict, w);
    } else if currentCol < startCol {
      LeadingGlyph(pendingAnsi, result, done, c, rest, line, startCol, endCol, strict, w);
    }
    if inRange && fits {
      assert result + [] == result;
      result' := result + pendingAnsi + [Glyph(c)];
      pendingAnsi' := [];
      resultWidth' := resultWidth + w(c);
      printed' := true;
    }
  }

  /** What is left to know when reading stops after `done`. */
  ghost predicate SliceSoFar(text: seq<Item>, width: nat, printed: bool, done: seq<Item>, line: seq<Item>,
                             startCol: nat, endCol: nat, strict: bool, w: Columns)
  {
    if printed then Slicing(text, width, done, line, startCol, endCol, strict, w)
    else width == 0 && Clean(text) && CodesOnly(text)
         && InRange(w, Meaning(CLEAR, done), 0, startCol, endCol, strict) == []
  }

  predicate Done(items: seq<Item>) { true }

  /** A slice under way; it is looked into only where that is asked for. */
  ghost predicate InSlice(result: seq<Item>, resultWidth: nat, pendingAnsi: seq<Item>, printed: bool, done: seq<Item>,
                          line: seq<Item>, currentCol: nat, startCol: nat, endCol: nat, strict: bool, w: Columns)
  {
    forall x {:trigger Done(x)} :: Done(x) && x == done ==>
      && currentCol == VisibleWidth(w, x)
      && (currentCol < endCol ==>
            SliceState(result, resultWidth, pendingAnsi, printed, x, line, startCol, endCol, strict, w))
      && SliceSoFar(result, resultWidth, printed, x, line, startCol, endCol, strict, w)
  }

  lemma WhatIsSliced(result: seq<Item>, resultWidth: nat, pendingAnsi: seq<Item>, printed: bool, done: seq<Item>,
                     line: seq<Item>, currentCol: nat, startCol: nat, endCol: nat, strict: bool, w: Columns)
    requires InSlice(result, resultWidth, pendingAnsi, printed, done, line, currentCol, startCol, endCol, strict, w)
    ensures currentCol == VisibleWidth(w, done)
    ensures currentCol < endCol ==>
              SliceState(result, resultWidth, pendingAnsi, printed, done, line, startCol, endCol, strict, w)
    ensures SliceSoFar(result, resultWidth, printed, done, line, startCol, endCol, strict, w)
  {
    assert Done(done);
  }

  /** One item of a line being sliced. */
  method SliceItem(result: seq<Item>, resultWidth: nat, pendingAnsi: seq<Item>, ghost printed: bool,
                   ghost done: seq<Item>, item: Item, ghost line: seq<Item>, currentCol: nat,
                   startCol: nat, endCol: nat, strict: bool, w: Columns)
    returns (result': seq<Item>, resultWidth': nat, pendingAnsi': seq<Item>, ghost printed': bool, currentCol': nat)
    requires InSlice(result, resultWidth, pendingAnsi, printed, done, line, currentCol, startCol, endCol, strict, w)
    requires done + [item] <= line && (if item.Code? then IsCode(item.code) else item.c != ESC)
    requires currentCol < endCol
    ensures InSlice(result', resultWidth', pendingAnsi', printed', done + [item], line, currentCol', startCol,
                    endCol, strict, w)
  {
    WhatIsSliced(result, resultWidth, pendingAnsi, printed, done, line, currentCol, startCol, endCol, strict, w);
    match item
    case Code(code) =>
      result', pendingAnsi' :=
        SliceOnCode(result, resultWidth, pendingAnsi, printed, done, code, line, currentCol, startCol, endCol,
                    strict, w);
      resultWidth', printed', currentCol' := resultWidth, printed, currentCol;
    case Glyph(c) =>
      result', resultWidth', pendingAnsi', printed' :=
        SliceOnGlyph(result, resultWidth, pendingAnsi, printed, done, c, line, currentCol, startCol, endCol, strict, w);
      currentCol' := currentCol + w(c);
  }

  /**
   The slice shows the characters of the range, the first in the style of its codes put before
   those held back; it shows the range in its styles exactly when that is empty or those codes
   may change places.
   */
  ghost predicate SliceRight(text: seq<Item>, line: seq<Item>, startCol: nat, endCol: int, strict: bool, w: Columns) {
    var cells := InRange(w, Meaning(CLEAR, line), 0, startCol, endCol, strict);
    var a, d := CodesBefore(w, line, 0, startCol), CodesAt(w, line, 0, startCol);
    && Reordered(Meaning(CLEAR, text), cells, a, d)
    && (Meaning(CLEAR, text) == cells <==> cells == [] || Commute(a, d))
  }

  ghost predicate Printable(text: seq<Item>, width: nat, w: Columns) {
    Clean(text) && VisibleWidth(w, text) == width
  }

  ghost predicate Sliced(text: seq<Item>, width: nat, line: seq<Item>, startCol: nat, endCol: int, strict: bool,
                         w: Columns) {
    Printable(text, width, w) && SliceRight(text, line, startCol, endCol, strict, w)
  }

  /** The items of a line up to `endCol`, one by one. */
  method ScanSlice(line: seq<Item>, startCol: nat, endCol: nat, strict: bool, w: Columns)
    returns (text: seq<Item>, width: nat)
    requires Clean(line) && startCol < endCol
    ensures Sliced(text, width, line, startCol, endCol, strict, w)
  {
    text, width := [], 0;
    var currentCol: nat := 0;
    var pendingAnsi: seq<Item> := [];
    ghost var printed, done := false, [];
    SliceStart(line, startCol, endCol, strict, w);
    var i := 0;
    while i < |line| && currentCol < endCol
      invariant i <= |line| && done == line[..i]
      invariant InSlice(text, width, pendingAnsi, printed, done, line, currentCol, startCol, endCol, strict, w)
    {
      assert line[..i + 1] == done + [line[i]];
      text, width, pendingAnsi, printed, currentCol :=
        SliceItem(text, width, pendingAnsi, printed, done, line[i], line, currentCol, startCol, endCol, strict, w);
      done := done + [line[i]];
      i := i + 1;
    }
    SliceStops(text, width, pendingAnsi, printed, done, line, currentCol, startCol, endCol, strict, w);
  }

  /**
   The items of `line` in `length` columns from `startCol` on, and their width. The slice shows
   the characters of those columns; it shows them in their styles exactly when it is empty or
   the codes right at its first column may change places with all the codes before. If they may
   not, the first character has the style of those codes followed by the ones before.
   */
  method SliceWithWidth(line: seq<Item>, startCol: nat, length: int, strict: bool, w: Columns)
    returns (text: seq<Item>, width: nat)
    requires Clean(line)
    ensures Sliced(text, width, line, startCol, startCol + length, strict, w)
  {
    if length <= 0 {
      SliceNothing(line, startCol, startCol + length, strict, w);
      return [], 0;
    }
    text, width := ScanSlice(line, startCol, startCol + length, strict, w);
  }

  lemma SliceEnds(text: seq<Item>, width: nat, printed: bool, done: seq<Item>, line: seq<Item>,
                  startCol: nat, endCol: nat, strict: bool, w: Columns)
    requires done <= line && (done == line || endCol <= VisibleWidth(w, done))
    requires SliceSoFar(text, width, printed, done, line, startCol, endCol, strict, w)
    ensures Sliced(text, width, line, startCol, endCol, strict, w)
  {
    RangeEndsEarly(done, line, startCol, endCol, strict, w);
    if !printed {
      CodesShowNothing(CLEAR, text);
      CodesHaveNoWidth(w, text);
    }
  }

  lemma SliceNothing(line: seq<Item>, startCol: nat, endCol: int, strict: bool, w: Columns)
    requires endCol <= startCol
    ensures Sliced([], 0, line, startCol, endCol, strict, w)
  {
    InRangePast(w, Meaning(CLEAR, line), 0, startCol, endCol, strict);
  }

  lemma SliceStops(text: seq<Item>, width: nat, pendingAnsi: seq<Item>, printed: bool, done: seq<Item>, line: seq<Item>,
                   currentCol: nat, startCol: nat, endCol: nat, strict: bool, w: Columns)
    requires done <= line && (done == line || endCol <= currentCol)
    requires InSlice(text, width, pendingAnsi, printed, done, line, currentCol, startCol, endCol, strict, w)
    ensures Sliced(text, width, line, startCol, endCol, strict, w)
  {
    WhatIsSliced(text, width, pendingAnsi, printed, done, line, currentCol, startCol, endCol, strict, w);
    SliceEnds(text, width, printed, done, line, startCol, endCol, strict, w);
  }

  // ---- Segments around an overlay ----------------------------------------------------------------

  /** The part before the overlay; `pending` codes wait for its next character. */
  ghost predicate BeforeSide(before: seq<Item>, beforeWidth: nat, pending: seq<Item>, done: seq<Item>, st: Style,
                             beforeEnd: nat, w: Columns)
  {
    && Collected(before, beforeWidth, done, 0, beforeEnd, false, w)
    && Clean(pending) && CodesOnly(pending)
    && (VisibleWidth(w, done) < beforeEnd ==> Replay(CLEAR, before + pending) == st)
  }

  /** The part after the overlay; once started it carries its own style. */
  ghost predicate AfterSide(after: seq<Item>, afterWidth: nat, started: bool, done: seq<Item>, st: Style,
                            afterStart: nat, afterEnd: int, w: Columns)
  {
    && Collected(after, afterWidth, done, afterStart, afterEnd, true, w)
    && (!started ==> after == [])
    && (started && VisibleWidth(w, done) < afterEnd ==> Replay(CLEAR, after) == st)
  }

  lemma CodesGrow(pending: seq<Item>, code: string)
    requires Clean(pending) && CodesOnly(pending) && IsCode(code)
    ensures Clean(pending + [Code(code)]) && CodesOnly(pending + [Code(code)])
  {
    var all := pending + [Code(code)];
    forall k | 0 <= k < |all| ensures all[k].Code? && IsCode(all[k].code) {
      assert k < |pending| ==> all[k] == pending[k];
    }
  }

  lemma PendingCode(before: seq<Item>, pending: seq<Item>, code: string, w: Columns)
    requires Clean(pending) && CodesOnly(pending) && IsCode(code)
    ensures Clean(pending + [Code(code)]) && CodesOnly(pending + [Code(code)])
    ensures Replay(CLEAR, before + (pending + [Code(code)])) == Process(Replay(CLEAR, before + pending), code)
  {
    CodesGrow(pending, code);
    CodeRead(before + pending, code, w);
    assert before + (pending + [Code(code)]) == (before + pending) + [Code(code)];
  }

  lemma BeforeCode(before: seq<Item>, beforeWidth: nat, pending: seq<Item>, done: seq<Item>, st: Style, code: string,
                   beforeEnd: nat, w: Columns)
    requires BeforeSide(before, beforeWidth, pending, done, st, beforeEnd, w) && Replay(CLEAR, done) == st
             && IsCode(code)
    ensures BeforeSide(before, beforeWidth,
                       if VisibleWidth(w, done) < beforeEnd then pending + [Code(code)] else pending,
                       done + [Code(code)], Process(st, code), beforeEnd, w)
  {
    CollectCode(before, beforeWidth, done, st, code, 0, beforeEnd, false, w);
    PendingCode(before, pending, code, w);
  }

  lemma BeforeGlyph(before: seq<Item>, beforeWidth: nat, pending: seq<Item>, done: seq<Item>, st: Style, c: char,
                    beforeEnd: nat, w: Columns)
    requires BeforeSide(before, beforeWidth, pending, done, st, beforeEnd, w) && Replay(CLEAR, done) == st && c != ESC
    ensures if VisibleWidth(w, done) < beforeEnd
            then BeforeSide(before + pending + [Glyph(c)], beforeWidth + w(c), [], done + [Glyph(c)], st, beforeEnd, w)
            else BeforeSide(before, beforeWidth, pending, done + [Glyph(c)], st, beforeEnd, w)
  {
    if VisibleWidth(w, done) < beforeEnd {
      CollectMoreCodes(before, beforeWidth, done, pending, 0, beforeEnd, false, w);
      CollectGlyph(before + pending, beforeWidth, done, st, c, 0, beforeEnd, false, w);
      assert before + pending + [Glyph(c)] + [] == before + pending + [Glyph(c)];
    } else {
      CollectGlyph(before, beforeWidth, done, st, c, 0, beforeEnd, false, w);
    }
  }

  lemma AfterCode(after: seq<Item>, afterWidth: nat, started: bool, done: seq<Item>, st: Style, code: string,
                  afterStart: nat, afterEnd: int, w: Columns)
    requires AfterSide(after, afterWidth, started, done, st, afterStart, afterEnd, w)
    requires Replay(CLEAR, done) == st && IsCode(code)
    ensures !(started && VisibleWidth(w, done) < afterEnd) ==>
              AfterSide(after, afterWidth, started, done + [Code(code)], Process(st, code), afterStart, afterEnd, w)
    ensures started && VisibleWidth(w, done) < afterEnd ==>
              AfterSide(after + [Code(code)], afterWidth, started, done + [Code(code)], Process(st, code),
                        afterStart, afterEnd, w)
  {
    CollectCode(after, afterWidth, done, st, code, afterStart, afterEnd, true, w);
    if started && VisibleWidth(w, done) < afterEnd {
      CollectMoreCodes(after, afterWidth, done + [Code(code)], [Code(code)], afterStart, afterEnd, true, w);
      CodeRead(after, code, w);
    }
  }

  /** The first character of the part after the overlay is preceded by the codes of its style. */
  lemma AfterGlyph(after: seq<Item>, afterWidth: nat, started: bool, done: seq<Item>, st: Style, c: char,
                   afterStart: nat, afterEnd: int, w: Columns)
    requires AfterSide(after, afterWidth, started, done, st, afterStart, afterEnd, w)
    requires Reads(done, st) && c != ESC && 1 <= w(c)
    ensures if Taken(VisibleWidth(w, done), w(c), afterStart, afterEnd, true)
            then AfterSide((if started then after else ActiveCodes(st)) + [Glyph(c)], afterWidth + w(c), true,
                           done + [Glyph(c)], st, afterStart, afterEnd, w)
            else AfterSide(after, afterWidth, started, done + [Glyph(c)], st, afterStart, afterEnd, w)
  {
    if started {
      CollectGlyph(after, afterWidth, done, st, c, afterStart, afterEnd, true, w);
    } else {
      OpenLine(done, st, w);
      CollectMoreCodes(after, afterWidth, done, ActiveCodes(st), afterStart, afterEnd, true, w);
      assert [] + ActiveCodes(st) == ActiveCodes(st);
      CollectGlyph(ActiveCodes(st), afterWidth, done, st, c, afterStart, afterEnd, true, w);
      CollectGlyph(after, afterWidth, done, st, c, afterStart, afterEnd, true, w);
    }
  }

  datatype Segments = Segments(before: seq<Item>, beforeWidth: nat, after: seq<Item>, afterWidth: nat)

  /** The loop state after reading `done`. */
  ghost predicate Extracting(p: Segments, pending: seq<Item>, started: bool, done: seq<Item>, st: Style,
                             beforeEnd: nat, afterStart: nat, afterEnd: int, w: Columns)
  {
    && Reads(done, st)
    && BeforeSide(p.before, p.beforeWidth, pending, done, st, beforeEnd, w)
    && AfterSide(p.after, p.afterWidth, started, done, st, afterStart, afterEnd, w)
    && (started ==> afterStart <= VisibleWidth(w, done))
  }

  method SegmentCode(p: Segments, pending: seq<Item>, started: bool, ghost done: seq<Item>, code: string,
                     currentCol: nat,
                     beforeEnd: nat, afterStart: nat, afterEnd: int, ghost w: Columns, tracker: AnsiCodeTracker)
    returns (p': Segments, pending': seq<Item>)
    requires Extracting(p, pending, started, done, tracker.Abstract(), beforeEnd, afterStart, afterEnd, w)
    requires IsCode(code) && currentCol == VisibleWidth(w, done) && beforeEnd <= afterStart
    modifies tracker
    ensures Extracting(p', pending', started, done + [Code(code)], tracker.Abstract(), beforeEnd, afterStart,
                       afterEnd, w)
    ensures VisibleWidth(w, done + [Code(code)]) == currentCol
  {
    ghost var st := tracker.Abstract();
    CodeRead(done, code, w);
    BeforeCode(p.before, p.beforeWidth, pending, done, st, code, beforeEnd, w);
    AfterCode(p.after, p.afterWidth, started, done, st, code, afterStart, afterEnd, w);
    p', pending' := p, pending;
    tracker.ProcessCode(code);
    if currentCol < beforeEnd {
      pending' := pending + [Code(code)];
    } else if afterStart <= currentCol < afterEnd && started {
      p' := p.(after := p.after + [Code(code)]);
    }
  }

  lemma GlyphToBefore(p: Segments, pending: seq<Item>, started: bool, done: seq<Item>, st: Style, c: char,
                      currentCol: nat,
                     beforeEnd: nat, afterStart: nat, afterEnd: int, w: Columns)
    requires Extracting(p, pending, started, done, st, beforeEnd, afterStart, afterEnd, w)
    requires c != ESC && 1 <= w(c) && currentCol == VisibleWidth(w, done) && beforeEnd <= afterStart
    requires currentCol < beforeEnd
    ensures Extracting(p.(before := p.before + pending + [Glyph(c)], beforeWidth := p.beforeWidth + w(c)), [], started,
                       done + [Glyph(c)], st, beforeEnd, afterStart, afterEnd, w)
  {
    ReadGlyph(done, st, c, 0, 0, false, w);
    BeforeGlyph(p.before, p.beforeWidth, pending, done, st, c, beforeEnd, w);
    AfterGlyph(p.after, p.afterWidth, started, done, st, c, afterStart, afterEnd, w);
  }

  lemma GlyphToAfter(p: Segments, pending: seq<Item>, started: bool, done: seq<Item>, st: Style, c: char,
                     currentCol: nat,
                     beforeEnd: nat, afterStart: nat, afterEnd: int, w: Columns)
    requires Extracting(p, pending, started, done, st, beforeEnd, afterStart, afterEnd, w)
    requires c != ESC && 1 <= w(c) && currentCol == VisibleWidth(w, done) && beforeEnd <= afterStart
    requires beforeEnd <= currentCol && afterStart <= currentCol < afterEnd && currentCol + w(c) <= afterEnd
    ensures Extracting(p.(after := (if started then p.after else ActiveCodes(st)) + [Glyph(c)],
                          afterWidth := p.afterWidth + w(c)),
                       pending, true, done + [Glyph(c)], st, beforeEnd, afterStart, afterEnd, w)
  {
    BeforeGlyph(p.before, p.beforeWidth, pending, done, st, c, beforeEnd, w);
    AfterGlyph(p.after, p.afterWidth, started, done, st, c, afterStart, afterEnd, w);
    GlyphReads(done, st, c, w);
  }

  lemma GlyphReads(done: seq<Item>, st: Style, c: char, w: Columns)
    requires Reads(done, st) && c != ESC
    ensures Reads(done + [Glyph(c)], st) && VisibleWidth(w, done + [Glyph(c)]) == VisibleWidth(w, done) + w(c)
  {
    ReadGlyph(done, st, c, 0, 0, false, w);
  }

  lemma GlyphToNone(p: Segments, pending: seq<Item>, started: bool, done: seq<Item>, st: Style, c: char,
                    currentCol: nat,
                     beforeEnd: nat, afterStart: nat, afterEnd: int, w: Columns)
    requires Extracting(p, pending, started, done, st, beforeEnd, afterStart, afterEnd, w)
    requires c != ESC && 1 <= w(c) && currentCol == VisibleWidth(w, done) && beforeEnd <= afterStart
    requires beforeEnd <= currentCol && !(afterStart <= currentCol < afterEnd && currentCol + w(c) <= afterEnd)
    ensures Extracting(p, pending, started, done + [Glyph(c)], st, beforeEnd, afterStart, afterEnd, w)
  {
    ReadGlyph(done, st, c, 0, 0, false, w);
    BeforeGlyph(p.before, p.beforeWidth, pending, done, st, c, beforeEnd, w);
    AfterGlyph(p.after, p.afterWidth, started, done, st, c, afterStart, afterEnd, w);
  }

  method SegmentGlyph(p: Segments, pending: seq<Item>, started: bool, ghost done: seq<Item>, c: char, currentCol: nat,
                      beforeEnd: nat, afterStart: nat, afterEnd: int, w: Columns, tracker: AnsiCodeTracker)
    returns (p': Segments, pending': seq<Item>, started': bool)
    requires Extracting(p, pending, started, done, tracker.Abstract(), beforeEnd, afterStart, afterEnd, w)
    requires c != ESC && 1 <= w(c) && currentCol == VisibleWidth(w, done) && beforeEnd <= afterStart
    ensures Extracting(p', pending', started', done + [Glyph(c)], tracker.Abstract(), beforeEnd, afterStart,
                       afterEnd, w)
    ensures VisibleWidth(w, done + [Glyph(c)]) == currentCol + w(c)
  {
    ghost var st := tracker.Abstract();
    ReadGlyph(done, st, c, 0, 0, false, w);
    p', pending', started' := p, pending, started;
    if currentCol < beforeEnd {
      GlyphToBefore(p, pending, started, done, st, c, currentCol, beforeEnd, afterStart, afterEnd, w);
      p' := p.(before := p.before + pending + [Glyph(c)], beforeWidth := p.beforeWidth + w(c));
      pending' := [];
    } else if afterStart <= currentCol < afterEnd && currentCol + w(c) <= afterEnd {
      GlyphToAfter(p, pending, started, done, st, c, currentCol, beforeEnd, afterStart, afterEnd, w);
      var after := if started then p.after else ActiveCodes(tracker.Abstract());
      p' := p.(after := after + [Glyph(c)], afterWidth := p.afterWidth + w(c));
      started' := true;
    } else {
      GlyphToNone(p, pending, started, done, st, c, currentCol, beforeEnd, afterStart, afterEnd, w);
    }
  }

  /** An extraction under way; it is looked into only where that is asked for. */
  ghost predicate InSegments(p: Segments, pending: seq<Item>, started: bool, done: seq<Item>, st: Style,
                             currentCol: nat,
                             beforeEnd: nat, afterStart: nat, afterEnd: int, w: Columns)
  {
    forall x {:trigger Done(x)} :: Done(x) && x == done ==>
      currentCol == VisibleWidth(w, x) && Extracting(p, pending, started, x, st, beforeEnd, afterStart, afterEnd, w)
  }

  lemma WhatIsExtracted(p: Segments, pending: seq<Item>, started: bool, done: seq<Item>, st: Style, currentCol: nat,
                        beforeEnd: nat, afterStart: nat, afterEnd: int, w: Columns)
    requires InSegments(p, pending, started, done, st, currentCol, beforeEnd, afterStart, afterEnd, w)
    ensures currentCol == VisibleWidth(w, done)
            && Extracting(p, pending, started, done, st, beforeEnd, afterStart, afterEnd, w)
  {
    assert Done(done);
  }

  /** Loop state and column after one more item. */
  method SegmentItem(p: Segments, pending: seq<Item>, started: bool, ghost done: seq<Item>, item: Item, currentCol: nat,
                     beforeEnd: nat, afterStart: nat, afterEnd: int, w: Columns, tracker: AnsiCodeTracker)
    returns (p': Segments, pending': seq<Item>, started': bool, currentCol': nat)
    requires InSegments(p, pending, started, done, tracker.Abstract(), currentCol, beforeEnd, afterStart, afterEnd, w)
    requires if item.Code? then IsCode(item.code) else item.c != ESC && 1 <= w(item.c)
    requires beforeEnd <= afterStart
    modifies tracker
    ensures InSegments(p', pending', started', done + [item], tracker.Abstract(), currentCol', beforeEnd, afterStart,
                       afterEnd, w)
  {
    WhatIsExtracted(p, pending, started, done, tracker.Abstract(), currentCol, beforeEnd, afterStart, afterEnd, w);
    started' := started;
    if item.Code? {
      p', pending' := SegmentCode(p, pending, started, done, item.code, currentCol, beforeEnd, afterStart, afterEnd,
                                  w, tracker);
      currentCol' := currentCol;
    } else {
      p', pending', started' :=
        SegmentGlyph(p, pending, started, done, item.c, currentCol, beforeEnd, afterStart, afterEnd, w, tracker);
      currentCol' := currentCol + w(item.c);
    }
  }

  lemma ExtractStart(beforeEnd: nat, afterStart: nat, afterEnd: int, w: Columns)
    ensures InSegments(Segments([], 0, [], 0), [], false, [], CLEAR, 0, beforeEnd, afterStart, afterEnd, w)
  {
  }

  /** The part before the overlay is complete. */
  lemma StopsBefore(p: Segments, pending: seq<Item>, started: bool, done: seq<Item>, st: Style, currentCol: nat,
                    line: seq<Item>,
                    beforeEnd: nat, afterStart: nat, afterEnd: int, w: Columns)
    requires InSegments(p, pending, started, done, st, currentCol, beforeEnd, afterStart, afterEnd, w)
    requires done <= line && (done == line || beforeEnd <= currentCol)
    ensures Collected(p.before, p.beforeWidth, line, 0, beforeEnd, false, w)
  {
    assert Done(done);
    CollectedEarly(p.before, p.beforeWidth, done, line, 0, beforeEnd, false, w);
  }

  /** The part after the overlay is complete. */
  lemma StopsAfter(p: Segments, pending: seq<Item>, started: bool, done: seq<Item>, st: Style, currentCol: nat,
                   line: seq<Item>,
                   beforeEnd: nat, afterStart: nat, afterEnd: int, w: Columns)
    requires InSegments(p, pending, started, done, st, currentCol, beforeEnd, afterStart, afterEnd, w)
    requires done <= line && (done == line || afterEnd <= currentCol || afterEnd <= afterStart)
    ensures Collected(p.after, p.afterWidth, line, afterStart, afterEnd, true, w)
  {
    assert Done(done);
    CollectedEarly(p.after, p.afterWidth, done, line, afterStart, afterEnd, true, w);
  }

  /** The two parts of a line. */
  ghost predicate Cut(p: Segments, line: seq<Item>, beforeEnd: nat, afterStart: nat, afterEnd: int, w: Columns) {
    && Collected(p.before, p.beforeWidth, line, 0, beforeEnd, false, w)
    && Collected(p.after, p.afterWidth, line, afterStart, afterEnd, true, w)
  }

  lemma SegmentsEnd(p: Segments, pending: seq<Item>, started: bool, done: seq<Item>, st: Style, currentCol: nat,
                    line: seq<Item>,
                    beforeEnd: nat, afterStart: nat, afterEnd: int, w: Columns)
    requires InSegments(p, pending, started, done, st, currentCol, beforeEnd, afterStart, afterEnd, w)
    requires beforeEnd <= afterStart && done <= line
    requires done == line || if afterEnd <= afterStart then beforeEnd <= currentCol else afterEnd <= currentCol
    ensures Cut(p, line, beforeEnd, afterStart, afterEnd, w)
  {
    StopsBefore(p, pending, started, done, st, currentCol, line, beforeEnd, afterStart, afterEnd, w);
    StopsAfter(p, pending, started, done, st, currentCol, line, beforeEnd, afterStart, afterEnd, w);
  }

  /** Every character takes at least one column. */
  ghost predicate AllWide(w: Columns, items: seq<Item>) {
    forall k :: 0 <= k < |items| && items[k].Glyph? ==> 1 <= w(items[k].c)
  }

  /**
   What a line shows before column `beforeEnd` and in the `afterLen` columns from `afterStart`
   on, each part with the styles it has in the line.
   */
  method ExtractSegments(line: seq<Item>, beforeEnd: nat, afterStart: nat, afterLen: int, w: Columns)
    returns (p: Segments)
    requires Clean(line) && beforeEnd <= afterStart
    requires AllWide(w, line)
    ensures Cut(p, line, beforeEnd, afterStart, afterStart + afterLen, w)
  {
    ghost var done, st, currentCol, pending, started;
    p, done, st, currentCol, pending, started := ScanSegments(line, beforeEnd, afterStart, afterLen, w);
    SegmentsEnd(p, pending, started, done, st, currentCol, line, beforeEnd, afterStart, afterStart + afterLen, w);
  }

  /** The pass over the line, which stops early once both parts are full. */
  method ScanSegments(line: seq<Item>, beforeEnd: nat, afterStart: nat, afterLen: int, w: Columns)
    returns (p: Segments, ghost done: seq<Item>, ghost st: Style, ghost col: nat, ghost pending: seq<Item>,
             ghost started: bool)
    requires Clean(line) && beforeEnd <= afterStart
    requires AllWide(w, line)
    ensures done <= line
            && InSegments(p, pending, started, done, st, col, beforeEnd, afterStart, afterStart + afterLen, w)
    ensures done == line ||
            if afterStart + afterLen <= afterStart then beforeEnd <= col else afterStart + afterLen <= col
  {
    p := Segments([], 0, [], 0);
    var currentCol: nat := 0;
    var pendingAnsiBefore: seq<Item> := [];
    var afterStarted, finished := false, false;
    var tracker := new AnsiCodeTracker();
    var i := 0;
    done := [];
    ExtractStart(beforeEnd, afterStart, afterStart + afterLen, w);
    while i < |line| && !finished
      invariant fresh(tracker) && i <= |line| && done == line[..i]
      invariant InSegments(p, pendingAnsiBefore, afterStarted, done, tracker.Abstract(), currentCol,
                           beforeEnd, afterStart, afterStart + afterLen, w)
      invariant finished ==> if afterLen <= 0 then beforeEnd <= currentCol else afterStart + afterLen <= currentCol
      decreases |line| - i
    {
      assert line[..i + 1] == line[..i] + [line[i]];
      assert if line[i].Code? then IsCode(line[i].code) else line[i].c != ESC && 1 <= w(line[i].c);
      p, pendingAnsiBefore, afterStarted, currentCol :=
        SegmentItem(p, pendingAnsiBefore, afterStarted, done, line[i], currentCol,
                    beforeEnd, afterStart, afterStart + afterLen, w, tracker);
      finished := line[i].Glyph?
          && if afterLen <= 0 then beforeEnd <= currentCol else afterStart + afterLen <= currentCol;
      done := done + [line[i]];
      i := i + 1;
    }
    st, col, pending, started := tracker.Abstract(), currentCol, pendingAnsiBefore, afterStarted;
  }

  // ---- Compositing ---------------------------------------------------------------------------------

  /** SGR 0, then the end of any hyperlink. */
  function SegmentReset(): seq<Item> {
    [Code(SgrOf("0")), Code(FormatOsc8Close([BEL]))]
  }

  lemma ResetClears(st: Style, w: Columns)
    ensures Clean(SegmentReset()) && Replay(st, SegmentReset()) == CLEAR
    ensures Meaning(st, SegmentReset()) == [] && VisibleWidth(w, SegmentReset()) == 0
  {
    SgrIsCode("0");
    CloseIsCode([BEL]);
    ReplayOne(st, SgrOf("0"));
    ReplayOne(AnsiStyle.Reset(st), FormatOsc8Close([BEL]));
    ReplayAppends(st, [Code(SgrOf("0"))], [Code(FormatOsc8Close([BEL]))]);
    assert SegmentReset() == [Code(SgrOf("0"))] + [Code(FormatOsc8Close([BEL]))];
    CodesShowNothing(st, SegmentReset());
    CodesHaveNoWidth(w, SegmentReset());
  }

  function Spaces(n: nat): (s: seq<Item>)
    ensures |s| == n && forall k :: 0 <= k < n ==> s[k] == SPACE
  {
    seq(n, _ => SPACE)
  }

  /** `n` columns of blank. */
  ghost predicate Blanks(columns: seq<Column>, n: nat) {
    |columns| == n && forall k :: 0 <= k < n ==> columns[k].cell.c == ' '
  }

  lemma {:induction false} SpacesAreBlank(st: Style, n: nat, w: Columns)
    requires w(' ') == 1
    ensures Blanks(ColumnsOf(w, Meaning(st, Spaces(n))), n)
    decreases n
  {
    if n > 0 {
      SpacesAreBlank(st, n - 1, w);
      assert Spaces(n) == [SPACE] + Spaces(n - 1);
      OneItem(st, SPACE, w);
      MeaningAppends(st, [SPACE], Spaces(n - 1));
      HeadColumns(w, Cell(' ', st));
      ColumnsAppend(w, [Cell(' ', st)], Meaning(st, Spaces(n - 1)));
    }
  }

  /** A part, padded with blanks and reset: it shows the part's columns, the blanks, and leaves no style behind. */
  lemma BarePart(part: seq<Item>, pad: nat, w: Columns) returns (blanks: seq<Column>)
    requires Clean(part) && w(' ') == 1
    ensures var bare := part + Spaces(pad);
            && Clean(bare)
            && ColumnsOf(w, Meaning(CLEAR, bare)) == ColumnsOf(w, Meaning(CLEAR, part)) + blanks
            && VisibleWidth(w, bare) == VisibleWidth(w, part) + pad
    ensures Blanks(blanks, pad)
  {
    var st, bare := Replay(CLEAR, part), part + Spaces(pad);
    blanks := ColumnsOf(w, Meaning(st, Spaces(pad)));
    SpacesAreBlank(st, pad, w);
    MeaningAppends(CLEAR, part, Spaces(pad));
    ColumnsAppend(w, Meaning(CLEAR, part), Meaning(st, Spaces(pad)));
    WidthIsColumns(w, CLEAR, part);
    WidthIsColumns(w, CLEAR, bare);
  }

  lemma ClosedPart(bare: seq<Item>, w: Columns)
    requires Clean(bare)
    ensures var all := bare + SegmentReset();
            && Clean(all) && Replay(CLEAR, all) == CLEAR
            && Meaning(CLEAR, all) == Meaning(CLEAR, bare) && VisibleWidth(w, all) == VisibleWidth(w, bare)
  {
    ResetClears(Replay(CLEAR, bare), w);
    MeaningAppends(CLEAR, bare, SegmentReset());
    ReplayAppends(CLEAR, bare, SegmentReset());
    WidthAppends(w, bare, SegmentReset());
    assert Meaning(CLEAR, bare) + [] == Meaning(CLEAR, bare);
  }

  lemma PaddedPart(part: seq<Item>, pad: nat, w: Columns) returns (blanks: seq<Column>)
    requires Clean(part) && w(' ') == 1
    ensures var all := part + Spaces(pad) + SegmentReset();
            && Clean(all) && Replay(CLEAR, all) == CLEAR
            && ColumnsOf(w, Meaning(CLEAR, all)) == ColumnsOf(w, Meaning(CLEAR, part)) + blanks
            && VisibleWidth(w, all) == VisibleWidth(w, part) + pad
    ensures var bare := part + Spaces(pad);
            && Clean(bare)
            && ColumnsOf(w, Meaning(CLEAR, bare)) == ColumnsOf(w, Meaning(CLEAR, part)) + blanks
            && VisibleWidth(w, bare) == VisibleWidth(w, part) + pad
    ensures Blanks(blanks, pad)
  {
    blanks := BarePart(part, pad, w);
    ClosedPart(part + Spaces(pad), w);
  }

  /** The columns of three parts put one after the other, the first two reset. */
  lemma JoinedParts(a: seq<Item>, b: seq<Item>, c: seq<Item>, w: Columns)
    requires Replay(CLEAR, a) == CLEAR && Replay(CLEAR, b) == CLEAR
    ensures ColumnsOf(w, Meaning(CLEAR, a + b + c))
         == ColumnsOf(w, Meaning(CLEAR, a)) + ColumnsOf(w, Meaning(CLEAR, b)) + ColumnsOf(w, Meaning(CLEAR, c))
    ensures VisibleWidth(w, a + b + c) == VisibleWidth(w, a) + VisibleWidth(w, b) + VisibleWidth(w, c)
  {
    MeaningAppends(CLEAR, a, b);
    ReplayAppends(CLEAR, a, b);
    MeaningAppends(CLEAR, a + b, c);
    ColumnsAppend(w, Meaning(CLEAR, a), Meaning(CLEAR, b));
    ColumnsAppend(w, Meaning(CLEAR, a + b), Meaning(CLEAR, c));
    WidthAppends(w, a, b);
    WidthAppends(w, a + b, c);
  }

  /** `result` is `base` with `overlay` in `width` columns from `startCol`, blanks wherever a line is too short. */
  ghost predicate Spliced(result: seq<Column>, base: seq<Column>, overlay: seq<Column>, startCol: nat, width: nat,
                          total: nat) {
    && |result| == total
    && (forall x :: 0 <= x < total && !(startCol <= x < startCol + width) ==>
          if x < |base| then result[x] == base[x] else result[x].cell.c == ' ')
    && (forall x :: startCol <= x < startCol + width && x < total ==>
          if x - startCol < |overlay| then result[x] == overlay[x - startCol] else result[x].cell.c == ' ')
  }

  lemma SpliceColumns(base: seq<Column>, overlay: seq<Column>, startCol: nat, width: nat, total: nat,
                      blanks1: seq<Column>, blanks2: seq<Column>, blanks3: seq<Column>)
    requires startCol + width <= total
    requires Blanks(blanks1, startCol - Clip(startCol, |base|)) && Blanks(blanks2, width - Clip(width, |overlay|))
    requires Blanks(blanks3, total - startCol - width - (Clip(total, |base|) - Clip(startCol + width, |base|)))
    ensures Spliced((base[..Clip(startCol, |base|)] + blanks1)
                    + (overlay[..Clip(width, |overlay|)] + blanks2)
                    + (base[Clip(startCol + width, |base|)..Clip(total, |base|)] + blanks3),
                    base, overlay, startCol, width, total)
  {
  }

  /** No character straddles an edge of the splice. */
  ghost predicate CleanEdges(base: seq<Cell>, overlay: seq<Cell>, startCol: nat, width: nat, total: nat, w: Columns) {
    && startCol + width <= total
    && NoStraddle(w, base, 0, startCol) && NoStraddle(w, base, 0, startCol + width) && NoStraddle(w, base, 0, total)
    && NoStraddle(w, overlay, 0, width)
  }

  lemma {:induction false} MeaningIsWide(w: Columns, st: Style, items: seq<Item>)
    requires AllWide(w, items)
    ensures Wide(w, Meaning(st, items))
    decreases |items|
  {
    if items != [] {
      MeaningIsWide(w, if items[0].Code? then Process(st, items[0].code) else st, items[1..]);
    }
  }

  /** What is collected from a range without straddling edges is a slice of the line's columns. */
  lemma CollectedColumns(part: seq<Item>, partWidth: nat, line: seq<Item>, lo: nat, hi: nat, strict: bool, w: Columns)
    requires Collected(part, partWidth, line, lo, hi, strict, w) && lo <= hi && AllWide(w, line)
    requires NoStraddle(w, Meaning(CLEAR, line), 0, lo) && NoStraddle(w, Meaning(CLEAR, line), 0, hi)
    ensures var all := ColumnsOf(w, Meaning(CLEAR, line));
            && ColumnsOf(w, Meaning(CLEAR, part)) == all[Clip(lo, |all|)..Clip(hi, |all|)]
            && partWidth == Clip(hi, |all|) - Clip(lo, |all|)
  {
    MeaningIsWide(w, CLEAR, line);
    RangeIsSlice(w, Meaning(CLEAR, line), 0, lo, hi, strict);
    WidthIsColumns(w, CLEAR, part);
  }

  lemma {:induction false} NothingStraddlesZero(w: Columns, cells: seq<Cell>, col: nat)
    ensures NoStraddle(w, cells, col, 0)
    decreases |cells|
  {
    if cells != [] {
      NothingStraddlesZero(w, cells[1..], col + w(cells[0].c));
    }
  }

  /** A slice from column 0 has its styles right, and never exceeds its length when it is strict. */
  lemma SliceFromZero(text: seq<Item>, line: seq<Item>, width: nat, length: nat, w: Columns)
    requires Sliced(text, width, line, 0, length, true, w)
    ensures Collected(text, width, line, 0, length, true, w) && width <= length
  {
    var d := CodesAt(w, line, 0, 0);
    assert CodesBefore(w, line, 0, 0) == [];
    assert d + [] == d && [] + d == d;
    WidthIsColumns(w, CLEAR, text);
    StrictRangeFits(w, Meaning(CLEAR, line), 0, 0, length);
  }

  /** The three parts, padded and kept apart by resets. */
  function Composite(before: seq<Item>, pad1: nat, overlay: seq<Item>, pad2: nat, after: seq<Item>,
                     pad3: nat): seq<Item> {
    (before + Spaces(pad1) + SegmentReset()) + (overlay + Spaces(pad2) + SegmentReset()) + (after + Spaces(pad3))
  }

  lemma CompositeShows(before: seq<Item>, pad1: nat, overlay: seq<Item>, pad2: nat, after: seq<Item>, pad3: nat,
                       w: Columns)
    returns (blanks1: seq<Column>, blanks2: seq<Column>, blanks3: seq<Column>)
    requires Clean(before) && Clean(overlay) && Clean(after) && w(' ') == 1
    ensures var all := Composite(before, pad1, overlay, pad2, after, pad3);
            && Clean(all)
            && ColumnsOf(w, Meaning(CLEAR, all))
               == (ColumnsOf(w, Meaning(CLEAR, before)) + blanks1) + (ColumnsOf(w, Meaning(CLEAR, overlay)) + blanks2)
                  + (ColumnsOf(w, Meaning(CLEAR, after)) + blanks3)
    ensures Blanks(blanks1, pad1) && Blanks(blanks2, pad2) && Blanks(blanks3, pad3)
  {
    blanks1 := PaddedPart(before, pad1, w);
    blanks2 := PaddedPart(overlay, pad2, w);
    blanks3 := PaddedPart(after, pad3, w);
    JoinedParts(before + Spaces(pad1) + SegmentReset(), overlay + Spaces(pad2) + SegmentReset(),
                after + Spaces(pad3), w);
  }

  /** The three parts of a splice, as they are cut out of the two lines. */
  ghost predicate Parted(base: Segments, overlay: seq<Item>, overlayTextWidth: nat, baseLine: seq<Item>,
                         overlayLine: seq<Item>,
                         startCol: nat, width: nat, total: nat, w: Columns)
  {
    && Collected(base.before, base.beforeWidth, baseLine, 0, startCol, false, w)
    && Collected(base.after, base.afterWidth, baseLine, startCol + width, total, true, w)
    && Collected(overlay, overlayTextWidth, overlayLine, 0, width, true, w)
  }

  lemma BasePart(part: seq<Item>, partWidth: nat, line: seq<Item>, lo: nat, hi: nat, strict: bool, w: Columns,
                 b: seq<Column>)
    requires Collected(part, partWidth, line, lo, hi, strict, w) && lo <= hi && AllWide(w, line)
    requires NoStraddle(w, Meaning(CLEAR, line), 0, lo) && NoStraddle(w, Meaning(CLEAR, line), 0, hi)
    requires b == ColumnsOf(w, Meaning(CLEAR, line))
    ensures ColumnsOf(w, Meaning(CLEAR, part)) == b[Clip(lo, |b|)..Clip(hi, |b|)]
    ensures partWidth == Clip(hi, |b|) - Clip(lo, |b|)
  {
    CollectedColumns(part, partWidth, line, lo, hi, strict, w);
  }

  lemma PartsAreColumns(base: Segments, overlay: seq<Item>, overlayTextWidth: nat, baseLine: seq<Item>,
                        overlayLine: seq<Item>,
                        startCol: nat, width: nat, total: nat, w: Columns, b: seq<Column>, o: seq<Column>)
    requires AllWide(w, baseLine) && AllWide(w, overlayLine)
    requires CleanEdges(Meaning(CLEAR, baseLine), Meaning(CLEAR, overlayLine), startCol, width, total, w)
    requires Parted(base, overlay, overlayTextWidth, baseLine, overlayLine, startCol, width, total, w)
    requires b == ColumnsOf(w, Meaning(CLEAR, baseLine)) && o == ColumnsOf(w, Meaning(CLEAR, overlayLine))
    ensures startCol + width <= total
    ensures base.beforeWidth == Clip(startCol, |b|) && overlayTextWidth == Clip(width, |o|)
    ensures base.afterWidth == Clip(total, |b|) - Clip(startCol + width, |b|)
    ensures ColumnsOf(w, Meaning(CLEAR, base.before)) == b[..Clip(startCol, |b|)]
    ensures ColumnsOf(w, Meaning(CLEAR, overlay)) == o[..Clip(width, |o|)]
    ensures ColumnsOf(w, Meaning(CLEAR, base.after)) == b[Clip(startCol + width, |b|)..Clip(total, |b|)]
  {
    NothingStraddlesZero(w, Meaning(CLEAR, baseLine), 0);
    NothingStraddlesZero(w, Meaning(CLEAR, overlayLine), 0);
    BasePart(base.before, base.beforeWidth, baseLine, 0, startCol, false, w, b);
    BasePart(base.after, base.afterWidth, baseLine, startCol + width, total, true, w, b);
    BasePart(overlay, overlayTextWidth, overlayLine, 0, width, true, w, o);
  }

  /** With clean edges, the padded parts are the splice. */
  lemma PartsAreSpliced(base: Segments, overlay: seq<Item>, overlayTextWidth: nat, baseLine: seq<Item>,
                        overlayLine: seq<Item>,
                        startCol: nat, width: nat, total: nat, w: Columns)
    requires w(' ') == 1 && AllWide(w, baseLine) && AllWide(w, overlayLine)
    requires CleanEdges(Meaning(CLEAR, baseLine), Meaning(CLEAR, overlayLine), startCol, width, total, w)
    requires Parted(base, overlay, overlayTextWidth, baseLine, overlayLine, startCol, width, total, w)
    ensures base.beforeWidth <= startCol && overlayTextWidth <= width && base.afterWidth <= total - startCol - width
    ensures var result := Composite(base.before, startCol - base.beforeWidth, overlay, width - overlayTextWidth,
                                    base.after, total - startCol - width - base.afterWidth);
            VisibleWidth(w, result) == total
            && SplicedItems(result, baseLine, overlayLine, startCol, width, total, w)
  {
    var b, o := ColumnsOf(w, Meaning(CLEAR, baseLine)), ColumnsOf(w, Meaning(CLEAR, overlayLine));
    PartsAreColumns(base, overlay, overlayTextWidth, baseLine, overlayLine, startCol, width, total, w, b, o);
    PartsFill(base, overlay, overlayTextWidth, startCol, width, total, w, b, o);
    WidthIsColumns(w, CLEAR, Composite(base.before, startCol - base.beforeWidth, overlay, width - overlayTextWidth,
                                       base.after, total - startCol - width - base.afterWidth));
  }

  lemma PartsFill(base: Segments, overlay: seq<Item>, overlayTextWidth: nat, startCol: nat, width: nat, total: nat,
                  w: Columns, b: seq<Column>, o: seq<Column>)
    requires w(' ') == 1 && Clean(base.before) && Clean(base.after) && Clean(overlay) && startCol + width <= total
    requires base.beforeWidth == Clip(startCol, |b|) && overlayTextWidth == Clip(width, |o|)
    requires base.afterWidth == Clip(total, |b|) - Clip(startCol + width, |b|)
    requires ColumnsOf(w, Meaning(CLEAR, base.before)) == b[..Clip(startCol, |b|)]
    requires ColumnsOf(w, Meaning(CLEAR, overlay)) == o[..Clip(width, |o|)]
    requires ColumnsOf(w, Meaning(CLEAR, base.after)) == b[Clip(startCol + width, |b|)..Clip(total, |b|)]
    ensures var result := Composite(base.before, startCol - base.beforeWidth, overlay, width - overlayTextWidth,
                                    base.after, total - startCol - width - base.afterWidth);
            Spliced(ColumnsOf(w, Meaning(CLEAR, result)), b, o, startCol, width, total)
  {
    var blanks1, blanks2, blanks3 :=
      CompositeShows(base.before, startCol - base.beforeWidth, overlay, width - overlayTextWidth,
                     base.after, total - startCol - width - base.afterWidth, w);
    SpliceColumns(b, o, startCol, width, total, blanks1, blanks2, blanks3);
  }

  ghost predicate SplicedItems(result: seq<Item>, baseLine: seq<Item>, overlayLine: seq<Item>,
                               startCol: nat, width: nat, total: nat, w: Columns)
  {
    Spliced(ColumnsOf(w, Meaning(CLEAR, result)), ColumnsOf(w, Meaning(CLEAR, baseLine)),
            ColumnsOf(w, Meaning(CLEAR, overlayLine)), startCol, width, total)
  }

  /** The leading columns of a line; strictly within the length, and with the styles of the line. */
  method SliceFromStart(line: seq<Item>, length: nat, w: Columns) returns (text: seq<Item>, width: nat)
    requires Clean(line)
    ensures Collected(text, width, line, 0, length, true, w) && width <= length
  {
    text, width := SliceWithWidth(line, 0, length, true, w);
    SliceFromZero(text, line, width, length, w);
  }

  /** Both parts of the base line in one pass, and the overlay cut to its width. */
  method CutParts(baseLine: seq<Item>, overlayLine: seq<Item>, startCol: nat, overlayWidth: nat, totalWidth: nat,
                  w: Columns)
    returns (base: Segments, overlay: seq<Item>, overlayTextWidth: nat)
    requires Clean(baseLine) && Clean(overlayLine) && AllWide(w, baseLine)
    ensures Parted(base, overlay, overlayTextWidth, baseLine, overlayLine, startCol, overlayWidth, totalWidth, w)
    ensures overlayTextWidth <= overlayWidth
  {
    var afterStart := startCol + overlayWidth;
    base := ExtractSegments(baseLine, startCol, afterStart, totalWidth - afterStart, w);
    overlay, overlayTextWidth := SliceFromStart(overlayLine, overlayWidth, w);
  }

  /** The paddings the composition uses. */
  datatype Pads = Pads(before: nat, overlay: nat, after: nat)

  function PadsOf(base: Segments, overlayTextWidth: nat, startCol: nat, overlayWidth: nat, totalWidth: nat): Pads {
    var actualBeforeWidth := Max(startCol, base.beforeWidth);
    var actualOverlayWidth := Max(overlayWidth, overlayTextWidth);
    var afterTarget := Max(0, totalWidth - actualBeforeWidth - actualOverlayWidth);
    Pads(Max(0, startCol - base.beforeWidth), Max(0, overlayWidth - overlayTextWidth),
         Max(0, afterTarget - base.afterWidth))
  }

  lemma CompositionIsRight(base: Segments, overlay: seq<Item>, overlayTextWidth: nat, baseLine: seq<Item>,
                           overlayLine: seq<Item>, startCol: nat, width: nat, total: nat, w: Columns)
    requires w(' ') == 1 && AllWide(w, baseLine) && AllWide(w, overlayLine)
    requires Parted(base, overlay, overlayTextWidth, baseLine, overlayLine, startCol, width, total, w)
    ensures var pads := PadsOf(base, overlayTextWidth, startCol, width, total);
            var result := Composite(base.before, pads.before, overlay, pads.overlay, base.after, pads.after);
            && Clean(result)
            && (CleanEdges(Meaning(CLEAR, baseLine), Meaning(CLEAR, overlayLine), startCol, width, total, w) ==>
                  VisibleWidth(w, result) == total
                  && SplicedItems(result, baseLine, overlayLine, startCol, width, total, w))
  {
    var pads := PadsOf(base, overlayTextWidth, startCol, width, total);
    var b1, b2, b3 := CompositeShows(base.before, pads.before, overlay, pads.overlay, base.after, pads.after, w);
    if CleanEdges(Meaning(CLEAR, baseLine), Meaning(CLEAR, overlayLine), startCol, width, total, w) {
      PartsAreSpliced(base, overlay, overlayTextWidth, baseLine, overlayLine, startCol, width, total, w);
      assert pads ==
             Pads(startCol - base.beforeWidth, width - overlayTextWidth, total - startCol - width - base.afterWidth);
    }
  }

  /** The cells, and `pad` blanks behind them. */
  ghost predicate Padded(cells: seq<Cell>, pad: nat, shown: seq<Cell>) {
    cells <= shown && |shown| == |cells| + pad && Blank(shown[|cells|..])
  }

  /** The three parts that a composed line shows, whatever straddles an edge. */
  datatype Parts = Parts(before: seq<Cell>, overlay: seq<Cell>, after: seq<Cell>)

  /** The three parts, each padded to where the next begins; a first part that is too wide moves the others. */
  ghost predicate PaddedOut(parts: Parts, before: seq<Cell>, middle: seq<Cell>, after: seq<Cell>, startCol: nat,
                            width: nat, total: nat, w: Columns) {
    var taken := Max(startCol, CellsWidth(w, before)) + width;
    && Padded(before, Max(0, startCol - CellsWidth(w, before)), parts.before)
    && Padded(middle, Max(0, width - CellsWidth(w, middle)), parts.overlay)
    && Padded(after, Max(0, Max(0, total - taken) - CellsWidth(w, after)), parts.after)
  }

  /**
   In front of the overlay what starts there, a wide character in full; then what fits the
   overlay's width of it, and then what starts behind it and fits the total width; each padded.
   */
  ghost predicate Composed(parts: Parts, base: seq<Cell>, overlay: seq<Cell>, startCol: nat, width: nat, total: nat,
                           w: Columns) {
    PaddedOut(parts, InRange(w, base, 0, 0, startCol, false), InRange(w, overlay, 0, 0, width, true),
              InRange(w, base, 0, startCol + width, total, true), startCol, width, total, w)
  }

  lemma {:induction false} SpacesAreSpaces(st: Style, n: nat)
    ensures |Meaning(st, Spaces(n))| == n && Blank(Meaning(st, Spaces(n)))
    decreases n
  {
    if n > 0 {
      SpacesAreSpaces(st, n - 1);
      assert Spaces(n)[1..] == Spaces(n - 1);
    }
  }

  lemma PaddedShows(part: seq<Item>, pad: nat)
    ensures Padded(Meaning(CLEAR, part), pad, Meaning(CLEAR, part + Spaces(pad)))
  {
    MeaningAppends(CLEAR, part, Spaces(pad));
    SpacesAreSpaces(Replay(CLEAR, part), pad);
  }

  /** What the composition shows, part by part. */
  lemma CompositeMeans(before: seq<Item>, pad1: nat, overlay: seq<Item>, pad2: nat, after: seq<Item>, pad3: nat,
                       w: Columns)
    requires Clean(before) && Clean(overlay) && Clean(after) && w(' ') == 1
    ensures Meaning(CLEAR, Composite(before, pad1, overlay, pad2, after, pad3))
         == Meaning(CLEAR, before + Spaces(pad1)) + Meaning(CLEAR, overlay + Spaces(pad2))
            + Meaning(CLEAR, after + Spaces(pad3))
  {
    var _ := PaddedPart(before, pad1, w);
    var _ := PaddedPart(overlay, pad2, w);
    ClosedPart(before + Spaces(pad1), w);
    ClosedPart(overlay + Spaces(pad2), w);
    var a, b, c := before + Spaces(pad1) + SegmentReset(), overlay + Spaces(pad2) + SegmentReset(), after + Spaces(pad3);
    MeaningAppends(CLEAR, a, b);
    ReplayAppends(CLEAR, a, b);
    MeaningAppends(CLEAR, a + b, c);
  }

  lemma PaddedParts(base: Segments, overlay: seq<Item>, overlayTextWidth: nat, startCol: nat, width: nat, total: nat,
                    w: Columns)
    returns (parts: Parts)
    requires overlayTextWidth <= width && overlayTextWidth == CellsWidth(w, Meaning(CLEAR, overlay))
    requires base.beforeWidth == CellsWidth(w, Meaning(CLEAR, base.before))
    requires base.afterWidth == CellsWidth(w, Meaning(CLEAR, base.after))
    ensures var pads := PadsOf(base, overlayTextWidth, startCol, width, total);
            parts == Parts(Meaning(CLEAR, base.before + Spaces(pads.before)),
                           Meaning(CLEAR, overlay + Spaces(pads.overlay)),
                           Meaning(CLEAR, base.after + Spaces(pads.after)))
    ensures PaddedOut(parts, Meaning(CLEAR, base.before), Meaning(CLEAR, overlay), Meaning(CLEAR, base.after),
                      startCol, width, total, w)
  {
    var pads := PadsOf(base, overlayTextWidth, startCol, width, total);
    PaddedShows(base.before, pads.before);
    PaddedShows(overlay, pads.overlay);
    PaddedShows(base.after, pads.after);
    parts := Parts(Meaning(CLEAR, base.before + Spaces(pads.before)), Meaning(CLEAR, overlay + Spaces(pads.overlay)),
                   Meaning(CLEAR, base.after + Spaces(pads.after)));
  }

  lemma WidthOfPart(part: seq<Item>, partWidth: nat, line: seq<Item>, lo: nat, hi: int, strict: bool, w: Columns)
    requires Collected(part, partWidth, line, lo, hi, strict, w)
    ensures Meaning(CLEAR, part) == InRange(w, Meaning(CLEAR, line), 0, lo, hi, strict)
    ensures CellsWidth(w, Meaning(CLEAR, part)) == partWidth
  {
    WidthOfMeaning(w, CLEAR, part);
  }

  lemma PartsAreComposed(base: Segments, overlay: seq<Item>, overlayTextWidth: nat, baseLine: seq<Item>,
                         overlayLine: seq<Item>, startCol: nat, width: nat, total: nat, w: Columns)
    returns (parts: Parts)
    requires overlayTextWidth <= width
    requires Parted(base, overlay, overlayTextWidth, baseLine, overlayLine, startCol, width, total, w)
    ensures Composed(parts, Meaning(CLEAR, baseLine), Meaning(CLEAR, overlayLine), startCol, width, total, w)
    ensures var pads := PadsOf(base, overlayTextWidth, startCol, width, total);
            parts == Parts(Meaning(CLEAR, base.before + Spaces(pads.before)),
                           Meaning(CLEAR, overlay + Spaces(pads.overlay)),
                           Meaning(CLEAR, base.after + Spaces(pads.after)))
  {
    WidthOfPart(base.before, base.beforeWidth, baseLine, 0, startCol, false, w);
    WidthOfPart(overlay, overlayTextWidth, overlayLine, 0, width, true, w);
    WidthOfPart(base.after, base.afterWidth, baseLine, startCol + width, total, true, w);
    parts := PaddedParts(base, overlay, overlayTextWidth, startCol, width, total, w);
  }

  /**
   Splices an overlay line into a base line. The result never exceeds the total width; when
   no character straddles an edge it has exactly that width, every column outside the overlay
   keeps the base's character and style, and the columns of the overlay show the overlay. What
   it shows when one does is put together from three parts, and cut where they are too wide.
   */
  method CompositeLineAt(baseLine: seq<Item>, overlayLine: seq<Item>, startCol: nat, overlayWidth: nat, totalWidth: nat,
                         w: Columns)
    returns (result: seq<Item>, ghost parts: Parts)
    requires Clean(baseLine) && Clean(overlayLine) && w(' ') == 1
    requires AllWide(w, baseLine) && AllWide(w, overlayLine)
    ensures Clean(result) && VisibleWidth(w, result) <= totalWidth
    ensures CleanEdges(Meaning(CLEAR, baseLine), Meaning(CLEAR, overlayLine), startCol, overlayWidth, totalWidth, w) ==>
              && VisibleWidth(w, result) == totalWidth
              && SplicedItems(result, baseLine, overlayLine, startCol, overlayWidth, totalWidth, w)
    ensures Composed(parts, Meaning(CLEAR, baseLine), Meaning(CLEAR, overlayLine), startCol, overlayWidth, totalWidth, w)
    ensures var shown := parts.before + parts.overlay + parts.after;
            Meaning(CLEAR, result) == if CellsWidth(w, shown) <= totalWidth then shown
                                      else InRange(w, shown, 0, 0, totalWidth, true)
  {
    var base, overlay, overlayTextWidth := CutParts(baseLine, overlayLine, startCol, overlayWidth, totalWidth, w);
    var pads := PadsOf(base, overlayTextWidth, startCol, overlayWidth, totalWidth);
    result := Composite(base.before, pads.before, overlay, pads.overlay, base.after, pads.after);
    CompositionIsRight(base, overlay, overlayTextWidth, baseLine, overlayLine, startCol, overlayWidth, totalWidth, w);
    parts := PartsAreComposed(base, overlay, overlayTextWidth, baseLine, overlayLine, startCol, overlayWidth, totalWidth,
                              w);
    CompositeMeans(base.before, pads.before, overlay, pads.overlay, base.after, pads.after, w);
    WidthOfMeaning(w, CLEAR, result);
    if VisibleWidth(w, result) > totalWidth {
      var cutWidth;
      result, cutWidth := SliceFromStart(result, totalWidth, w);
    }
  }

  const BOLD := CLEAR.(attributes := NO_ATTRIBUTES.(bold := true))

  lemma BoldAndReset()
    ensures IsCode(SgrOf("1")) && IsCode(SgrOf("0"))
    ensures Process(CLEAR, SgrOf("1")) == BOLD
    ensures Process(BOLD, SgrOf("0")) == CLEAR == Process(CLEAR, SgrOf("0"))
  {
    SgrIsCode("1");
    SgrIsCode("0");
    SplitPlain("1", ';');
    DigitValue('1');
    assert ["1"][1..] == [];
  }

  lemma ExampleReads(w: Columns, bold: Item, reset: Item)
    requires w('a') == 1 && w('b') == 1 && bold == Code(SgrOf("1")) && reset == Code(SgrOf("0"))
    ensures InRange(w, Meaning(CLEAR, [bold] + [Glyph('a')] + [reset] + [Glyph('b')]), 0, 1, 2, false)
            == [Cell('b', CLEAR)]
  {
    BoldAndReset();
    assert [] + [bold] == [bold];
    CodeRead([], bold.code, w);
    ReadGlyph([bold], BOLD, 'a', 1, 2, false, w);
    CodeRead([bold] + [Glyph('a')], reset.code, w);
    ReadGlyph([bold] + [Glyph('a')] + [reset], CLEAR, 'b', 1, 2, false, w);
  }

  lemma ExampleStyles(w: Columns, bold: Item, reset: Item)
    requires bold == Code(SgrOf("1")) && reset == Code(SgrOf("0"))
    ensures Replay(CLEAR, [bold] + [reset]) == CLEAR
    ensures Replay(CLEAR, [reset] + [bold]) == BOLD
  {
    BoldAndReset();
    assert [] + [bold] == [bold] && [] + [reset] == [reset];
    CodeRead([], bold.code, w);
    CodeRead([bold], reset.code, w);
    CodeRead([], reset.code, w);
    CodeRead([reset], bold.code, w);
  }

  lemma OneCell(shown: seq<Cell>, c: char, st: Style)
    requires Chars(shown) == [c] && shown[0].style == st
    ensures shown == [Cell(c, st)]
  {
    assert shown[0].c == Chars(shown)[0];
  }

  /**
   Where slicing goes wrong: a code right at the first column is put out before the codes held
   back from in front of it. Here the reset in front of the second character comes too early,
   and the character, which is plain, is shown bold.
   */
  lemma SliceReordersCodes(w: Columns, line: seq<Item>, text: seq<Item>, width: nat)
    requires w('a') == 1 && w('b') == 1
    requires line == [Code(SgrOf("1"))] + [Glyph('a')] + [Code(SgrOf("0"))] + [Glyph('b')]
    requires Sliced(text, width, line, 1, 2, false, w)
    ensures Clean(line)
    ensures InRange(w, Meaning(CLEAR, line), 0, 1, 2, false) == [Cell('b', CLEAR)]
    ensures Meaning(CLEAR, text) == [Cell('b', BOLD)]
  {
    BoldAndReset();
    var bold, reset := Code(SgrOf("1")), Code(SgrOf("0"));
    ExampleReads(w, bold, reset);
    CodesOfExample(w, line, bold, reset);
    ExampleStyles(w, bold, reset);
    OneCell(Meaning(CLEAR, text), 'b', BOLD);
  }

  lemma CodesOfExample(w: Columns, line: seq<Item>, bold: Item, reset: Item)
    requires w('a') == 1 && bold.Code? && reset.Code?
    requires line == [bold] + [Glyph('a')] + [reset] + [Glyph('b')]
    ensures CodesBefore(w, line, 0, 1) == [bold] && CodesAt(w, line, 0, 1) == [reset]
  {
    var r1, r2, r3 := [Glyph('a'), reset, Glyph('b')], [reset, Glyph('b')], [Glyph('b')];
    assert line[1..] == r1 && r1[1..] == r2 && r2[1..] == r3;
    assert CodesBefore(w, r2, 1, 1) == [] && CodesBefore(w, r1, 0, 1) == [];
    assert CodesAt(w, r3, 1, 1) == [] && CodesAt(w, r2, 1, 1) == [reset];
    assert CodesAt(w, r1, 0, 1) == [reset];
  }
}
