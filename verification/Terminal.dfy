/** The terminal both renderers write to: scrollback, a screen of rows and a cursor. */
module Terminal {

  import opened Common

  /**
   A row holds either nothing, one whole line printed from column 0 of an empty row, or
   something else (`Garbled`): printing over old content, or away from column 0, is never
   what the renderers want, so its result is not described.
   */
  datatype Row = Blank | Shown(text: string) | Garbled

  /** The control functions of ECMA-48 that the renderers emit, CR, LF, and text. */
  datatype Op =
    | Up(n: nat)            // CSI n A
    | Down(n: nat)          // CSI n B
    | Column(n: nat)        // CSI n G, counted from 1
    | Home                  // CSI H
    | MoveTo(row: nat, column: nat) // CSI n;m H, counted from 1
    | EraseScreen           // CSI 2 J
    | EraseLine             // CSI 2 K
    | CarriageReturn
    | LineFeed
    | Print(text: string)

  /** A move with parameter 0 moves by 1 (section 8.3.22 of ECMA-48). */
  function Count(n: nat): nat { if n == 0 then 1 else n }

  /** The column of the cursor is not known after text, whose width is not modelled. */
  datatype Screen = Screen(cols: nat, history: seq<Row>, rows: seq<Row>, row: nat, col: Option<int>) {

    predicate AtMargin() {
      col == Some(0)
    }

    /** Columns count from 1 in a move, and stop at the edges. */
    function ColumnAt(n: nat): Option<int> {
      Some(Max(0, Min(n, cols) - 1))
    }


    ghost predicate Valid() {
      0 < cols && row < |rows|
    }

    function Apply(op: Op): (s: Screen)
      requires Valid()
      ensures s.Valid() && s.cols == cols && |s.rows| == |rows|
    {
      match op
      case Up(n) => this.(row := Max(0, row - Count(n)))
      case Down(n) => this.(row := Min(|rows| - 1, row + Count(n)))
      case Column(n) => this.(col := ColumnAt(n))
      case Home => this.(row := 0, col := Some(0))
      case MoveTo(r, c) => this.(row := Max(0, Min(|rows|, r) - 1), col := ColumnAt(c))
      case EraseScreen => this.(rows := seq(|rows|, _ => Blank))
      case EraseLine => this.(rows := rows[row := Blank])
      case CarriageReturn => this.(col := Some(0))
      case LineFeed =>
        if row + 1 < |rows| then this.(row := row + 1)
        else this.(history := history + [rows[0]], rows := rows[1..] + [Blank])
      case Print(text) =>
        this.(rows := rows[row := if AtMargin() && rows[row] == Blank then Shown(text) else Garbled],
              col := None)
    }

    /** Relative move of `d` rows, as the renderer emits it: nothing at all for 0. */
    function MoveBy(d: int): (s: Screen)
      requires Valid()
      ensures s == this.(row := Max(0, Min(|rows| - 1, row + d)))
    {
      if d > 0 then Apply(Down(d)) else if d < 0 then Apply(Up(-d)) else this
    }

    /** CR LF. */
    function NewLine(): Screen
      requires Valid()
    {
      Apply(CarriageReturn).Apply(LineFeed)
    }

    /** EL then a line. */
    function Rewrite(text: string): (s: Screen)
      requires Valid()
      ensures AtMargin() ==> s == this.(rows := rows[row := Shown(text)], col := None)
    {
      Apply(EraseLine).Apply(Print(text))
    }
  }

  // ---- What a screen shows -------------------------------------------------

  function RowOf(lines: seq<string>, i: nat): Row {
    if i < |lines| then Shown(lines[i]) else Blank
  }

  /** The `h` rows of `lines` from line `top` on, blank past the end. */
  function Window(lines: seq<string>, top: nat, h: nat): (w: seq<Row>)
    ensures |w| == h
    ensures forall r :: 0 <= r < h ==> w[r] == RowOf(lines, top + r)
  {
    seq(h, r requires r >= 0 => RowOf(lines, top + r))
  }

  function Rows(lines: seq<string>): (w: seq<Row>)
    ensures |w| == |lines| && forall i :: 0 <= i < |w| ==> w[i] == Shown(lines[i])
  {
    seq(|lines|, i requires 0 <= i < |lines| => Shown(lines[i]))
  }

  /** CR LF either moves down a row or scrolls the window by one line. */
  lemma NewLineStep(s: Screen, lines: seq<string>, top: nat)
    requires s.Valid() && s.rows == Window(lines, top, |s.rows|)
    requires |lines| <= top + |s.rows|
    ensures s.NewLine() == if s.row + 1 < |s.rows|
                           then s.(row := s.row + 1, col := Some(0))
                           else s.(rows := Window(lines, top + 1, |s.rows|),
                                   history := s.history + [RowOf(lines, top)], col := Some(0))
  {
    if s.row + 1 == |s.rows| {
      assert s.rows[1..] + [Blank] == Window(lines, top + 1, |s.rows|);
    }
  }
}
