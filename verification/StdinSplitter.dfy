/**
 Splitting terminal input into complete sequences, as a state machine fed chunks of any
 size, and exactly when the way the input is cut into chunks makes no difference.
 */
module StdinSplitter {

  import opened Common

  const PASTE_START: string := [ESC, '[', '2', '0', '0', '~']
  const PASTE_END: string := [ESC, '[', '2', '0', '1', '~']

  // ---- One sequence ----------------------------------------------------------

  datatype Status = Complete | Incomplete | NotEscape

  /** `<` digits `;` digits `;` digits, then `M` or `m`. */
  predicate SgrMouse(payload: string)
    requires payload != ""
  {
    var last := payload[|payload| - 1];
    && 2 <= |payload| && payload[0] == '<' && (last == 'M' || last == 'm')
    && var parts := SplitOn(payload[1..|payload| - 1], ';');
       |parts| == 3 && forall k :: 0 <= k < 3 ==> Digits(parts[k])
  }

  function CsiStatus(data: string): Status
    requires 2 <= |data|
  {
    if |data| < 3 then Incomplete
    else
      var payload := data[2..];
      var last := payload[|payload| - 1];
      if '@' <= last <= '~' then
        if payload[0] == '<' && !SgrMouse(payload) then Incomplete else Complete
      else Incomplete
  }

  function IsCompleteSequence(data: string): Status {
    if data == "" || data[0] != ESC then NotEscape
    else if |data| == 1 then Incomplete
    else if data[1] == '[' then
      if 3 <= |data| && data[2] == 'M' then (if 6 <= |data| then Complete else Incomplete)
      else CsiStatus(data)
    else if data[1] == ']' then
      if EndsWith(data, [ESC, '\\']) || EndsWith(data, [BEL]) then Complete else Incomplete
    else if data[1] == 'P' || data[1] == '_' then
      if EndsWith(data, [ESC, '\\']) then Complete else Incomplete
    else if data[1] == 'O' then
      if 3 <= |data| then Complete else Incomplete
    else Complete
  }

  // ---- Cutting a buffer --------------------------------------------------------

  /** Length of the sequence `s` starts with, from candidate length `k` on; past the end when none is complete. */
  function SequenceEnd(s: string, k: nat): (e: nat)
    requires 1 <= k <= |s| + 1
    ensures k <= e <= |s| + 1
    ensures e <= |s| ==> IsCompleteSequence(s[..e]) != Incomplete
    decreases |s| + 1 - k
  {
    if k == |s| + 1 || IsCompleteSequence(s[..k]) != Incomplete then k else SequenceEnd(s, k + 1)
  }

  datatype Cut = Cut(sequences: seq<string>, remainder: string)

  function Extract(buffer: string): Cut
    decreases |buffer|
  {
    if buffer == "" then Cut([], "")
    else
      var e := if buffer[0] == ESC then SequenceEnd(buffer, 1) else 1;
      if |buffer| < e then Cut([], buffer)
      else
        var rest := Extract(buffer[e..]);
        Cut([buffer[..e]] + rest.sequences, rest.remainder)
  }

  function Concat(parts: seq<string>): string {
    if parts == [] then "" else parts[0] + Concat(parts[1..])
  }

  lemma KeepsInput(buffer: string, e: nat, c: Cut, rest: Cut)
    requires e <= |buffer| && c == Cut([buffer[..e]] + rest.sequences, rest.remainder)
    requires Concat(rest.sequences) + rest.remainder == buffer[e..]
    ensures Concat(c.sequences) + c.remainder == buffer
  {
    assert c.sequences[1..] == rest.sequences;
    assert buffer == buffer[..e] + buffer[e..];
  }

  /** Nothing is lost: the sequences and the remainder spell the buffer. */
  lemma {:induction false} ExtractKeepsInput(buffer: string)
    ensures Concat(Extract(buffer).sequences) + Extract(buffer).remainder == buffer
    decreases |buffer|
  {
    if buffer != "" {
      var e := if buffer[0] == ESC then SequenceEnd(buffer, 1) else 1;
      if e <= |buffer| {
        ExtractKeepsInput(buffer[e..]);
        KeepsInput(buffer, e, Extract(buffer), Extract(buffer[e..]));
      }
    }
  }

  /** Cutting is online: cutting more input continues from the remainder. */
  lemma {:induction false} ExtractContinues(x: string, y: string)
    ensures var e := Extract(x); var f := Extract(e.remainder + y);
            Extract(x + y) == Cut(e.sequences + f.sequences, f.remainder)
    decreases |x|
  {
    if x == "" {
      assert x + y == y;
    } else {
      var e := if x[0] == ESC then SequenceEnd(x, 1) else 1;
      if |x| < e {
        assert Extract(x) == Cut([], x);
      } else {
        if x[0] == ESC {
          SequenceEndOfPrefix(x, y, 1);
        }
        assert (x + y)[..e] == x[..e] && (x + y)[e..] == x[e..] + y;
        ExtractContinues(x[e..], y);
        var rest := Extract(x[e..]);
        var f := Extract(rest.remainder + y);
        assert [x[..e]] + (rest.sequences + f.sequences) == ([x[..e]] + rest.sequences) + f.sequences;
      }
    }
  }

  lemma {:induction false} SequenceEndOfPrefix(x: string, y: string, k: nat)
    requires 1 <= k <= |x| + 1 && SequenceEnd(x, k) <= |x|
    ensures SequenceEnd(x + y, k) == SequenceEnd(x, k)
    decreases |x| - k
  {
    assert (x + y)[..k] == x[..k];
    if IsCompleteSequence(x[..k]) == Incomplete {
      SequenceEndOfPrefix(x, y, k + 1);
    }
  }

  // ---- Online cutters --------------------------------------------------------------

  /** Names a pair of inputs at which the law below is wanted. */
  predicate Probe(x: string, y: string) { true }

  /**
   What the machine needs of the way a buffer is cut: more input continues from the
   remainder, which is the end of the buffer.
   */
  ghost predicate Online(cut: string -> Cut) {
    forall x, y {:trigger Probe(x, y)} :: Probe(x, y) ==>
      var e := cut(x);
      var f := cut(e.remainder + y);
      && cut(x + y) == Cut(e.sequences + f.sequences, f.remainder)
      && |e.remainder| <= |x| && x[|x| - |e.remainder|..] == e.remainder
      && (e.sequences == [] ==> e.remainder == x)
  }

  lemma Continues(cut: string -> Cut, x: string, y: string)
    requires Online(cut)
    ensures var e := cut(x); var f := cut(e.remainder + y);
            cut(x + y) == Cut(e.sequences + f.sequences, f.remainder)
  {
    assert Probe(x, y);
  }

  lemma Remains(cut: string -> Cut, x: string)
    requires Online(cut)
    ensures var r := cut(x).remainder; |r| <= |x| && x[|x| - |r|..] == r
    ensures cut(x).sequences == [] ==> cut(x).remainder == x
  {
    assert Probe(x, "");
  }

  lemma ExtractIsOnline()
    ensures Online(Extract)
  {
    forall x, y | Probe(x, y)
      ensures var e := Extract(x); var f := Extract(e.remainder + y);
              && Extract(x + y) == Cut(e.sequences + f.sequences, f.remainder)
              && |e.remainder| <= |x| && x[|x| - |e.remainder|..] == e.remainder
              && (e.sequences == [] ==> e.remainder == x)
    {
      ExtractContinues(x, y);
      ExtractKeepsInput(x);
    }
  }

  /** A buffer that yields no sequence had none in any of its prefixes. */
  lemma StuckPrefix(cut: string -> Cut, x: string, y: string)
    requires Online(cut) && cut(x + y).sequences == []
    ensures cut(x) == Cut([], x)
  {
    Continues(cut, x, y);
    Remains(cut, x);
  }

  // ---- Searching ----------------------------------------------------------------

  predicate At(s: string, pat: string, i: int) {
    0 <= i && i + |pat| <= |s| && s[i..i + |pat|] == pat
  }

  /** First occurrence of `pat`, or -1. */
  function IndexOf(s: string, pat: string): (i: int)
    ensures -1 <= i
    ensures i >= 0 ==> At(s, pat, i)
    ensures forall j :: 0 <= j && (i == -1 || j < i) ==> !At(s, pat, j)
  {
    SearchFrom(s, pat, 0)
  }

  function SearchFrom(s: string, pat: string, k: nat): (i: int)
    requires k <= |s|
    ensures i == -1 || k <= i
    ensures i >= 0 ==> At(s, pat, i)
    ensures forall j :: k <= j && (i == -1 || j < i) ==> !At(s, pat, j)
    decreases |s| - k
  {
    if At(s, pat, k) then k else if k == |s| then -1 else SearchFrom(s, pat, k + 1)
  }

  lemma IndexOfIs(s: string, pat: string, i: nat)
    requires At(s, pat, i) && forall j :: 0 <= j < i ==> !At(s, pat, j)
    ensures IndexOf(s, pat) == i
  {
  }

  /** An occurrence inside a prefix is one of the whole, and conversely when it ends inside. */
  lemma AtPrefix(x: string, y: string, pat: string, i: int)
    ensures At(x, pat, i) ==> At(x + y, pat, i)
    ensures At(x + y, pat, i) && i + |pat| <= |x| ==> At(x, pat, i)
  {
    if 0 <= i && i + |pat| <= |x| {
      assert (x + y)[i..i + |pat|] == x[i..i + |pat|];
    }
  }

  lemma IndexOfPrefix(x: string, y: string, pat: string)
    requires var i := IndexOf(x + y, pat); i == -1 || i + |pat| <= |x|
    ensures IndexOf(x, pat) == IndexOf(x + y, pat)
  {
    var i := IndexOf(x + y, pat);
    forall j ensures At(x, pat, j) ==> At(x + y, pat, j) {
      AtPrefix(x, y, pat, j);
    }
    AtPrefix(x, y, pat, i);
  }

  lemma NotInPrefix(x: string, y: string, pat: string)
    requires var i := IndexOf(x + y, pat); i == -1 || |x| < i + |pat|
    ensures IndexOf(x, pat) == -1
  {
    if IndexOf(x, pat) != -1 {
      AtPrefix(x, y, pat, IndexOf(x, pat));
    }
  }

  /** Dropping `o` characters that hold no occurrence's start moves the first occurrence by `o`. */
  lemma AtSuffix(s: string, pat: string, o: nat, j: int)
    requires o <= |s|
    ensures At(s[o..], pat, j) <==> 0 <= j && At(s, pat, j + o)
  {
    if 0 <= j && j + o + |pat| <= |s| {
      assert s[o..][j..j + |pat|] == s[j + o..j + o + |pat|];
    }
  }

  lemma IndexOfSuffix(s: string, pat: string, o: nat)
    requires o <= |s| && (IndexOf(s, pat) == -1 || o <= IndexOf(s, pat))
    ensures IndexOf(s[o..], pat) == if IndexOf(s, pat) == -1 then -1 else IndexOf(s, pat) - o
  {
    var i, k := IndexOf(s, pat), IndexOf(s[o..], pat);
    if i != -1 {
      AtSuffix(s, pat, o, i - o);
    }
    if k != -1 {
      AtSuffix(s, pat, o, k);
    }
  }

  // ---- Events --------------------------------------------------------------------

  datatype Event = Data(sequence: string) | Paste(content: string)

  /** ESC [ digits, optionally `:` digits? and `:` digits, then `u`: the code point, if printable. */
  function KittyPrintable(sequence: string): Option<nat> {
    if |sequence| < 4 || sequence[0] != ESC || sequence[1] != '[' || sequence[|sequence| - 1] != 'u' then None
    else
      var parts := SplitOn(sequence[2..|sequence| - 1], ':');
      if && |parts| <= 3 && Digits(parts[0])
         && (2 <= |parts| ==> parts[1] == "" || Digits(parts[1]))
         && (3 == |parts| ==> Digits(parts[2]))
      then (var n := ParseNat(parts[0]); if 32 <= n then Some(n) else None)
      else None
  }

  /** The code point just reported in full, whose bare repetition is to be dropped. */
  type Pending = Option<nat>

  datatype Emitted = Emitted(pending: Pending, events: seq<Event>)

  function EmitOne(pending: Pending, sequence: string): Emitted {
    if |sequence| == 1 && pending == Some(sequence[0] as nat) then Emitted(None, [])
    else Emitted(KittyPrintable(sequence), [Data(sequence)])
  }

  function EmitAll(pending: Pending, sequences: seq<string>): Emitted
    decreases |sequences|
  {
    if sequences == [] then Emitted(pending, [])
    else
      var first := EmitOne(pending, sequences[0]);
      var rest := EmitAll(first.pending, sequences[1..]);
      Emitted(rest.pending, first.events + rest.events)
  }

  lemma JoinEvents(x: seq<Event>, y: seq<Event>, z: seq<Event>)
    ensures x + (y + z) == (x + y) + z
  {
  }

  lemma {:induction false} EmitAllAppends(pending: Pending, a: seq<string>, b: seq<string>)
    ensures var x := EmitAll(pending, a); var y := EmitAll(x.pending, b);
            EmitAll(pending, a + b) == Emitted(y.pending, x.events + y.events)
    decreases |a|
  {
    if a == [] {
      assert a + b == b;
    } else {
      var f := EmitOne(pending, a[0]);
      EmitAllAppends(f.pending, a[1..], b);
      assert (a + b)[0] == a[0] && (a + b)[1..] == a[1..] + b;
      var x := EmitAll(f.pending, a[1..]);
      JoinEvents(f.events, x.events, EmitAll(x.pending, b).events);
    }
  }

  // ---- The machine ------------------------------------------------------------------

  datatype State = State(buffer: string, pasteMode: bool, pasteBuffer: string, pending: Pending)

  const IDLE := State("", false, "", None)

  datatype Fed = Fed(state: State, events: seq<Event>) {
    /** What was already emitted comes first. */
    function After(earlier: seq<Event>): Fed {
      Fed(state, earlier + events)
    }
  }

  /** One call of `process` with a string. */
  function Feed(cut: string -> Cut, st: State, str: string): Fed
    decreases |st.buffer| + |st.pasteBuffer| + |str|, 2
  {
    if str == "" && st.buffer == "" then
      var e := EmitOne(st.pending, "");
      Fed(st.(pending := e.pending), e.events)
    else if st.pasteMode then Absorb(cut, st.pasteBuffer + (st.buffer + str), st.pending)
    else Scan(cut, st.buffer + str, st.pending)
  }

  /** Outside a paste: look for the start of one in everything buffered. */
  function Scan(cut: string -> Cut, buffer: string, pending: Pending): Fed
    decreases |buffer|, 1
  {
    var start := IndexOf(buffer, PASTE_START);
    if start != -1 then
      var before := EmitAll(pending, cut(buffer[..start]).sequences);
      Absorb(cut, buffer[start + 6..], None).After(before.events)
    else
      var c := cut(buffer);
      var e := EmitAll(pending, c.sequences);
      Fed(State(c.remainder, false, "", e.pending), e.events)
  }

  /** Paste mode with everything pasted so far: deliver the paste once its end is there, then go on. */
  function Absorb(cut: string -> Cut, pasted: string, pending: Pending): Fed
    decreases |pasted|, 0
  {
    var end := IndexOf(pasted, PASTE_END);
    if end == -1 then Fed(State("", true, pasted, pending), [])
    else
      var rest := pasted[end + 6..];
      (if rest == "" then Fed(IDLE, []) else Feed(cut, IDLE, rest)).After([Paste(pasted[..end])])
  }

  function FeedAll(cut: string -> Cut, st: State, chunks: seq<string>): Fed
    decreases |chunks|
  {
    if chunks == [] then Fed(st, [])
    else
      var first := Feed(cut, st, chunks[0]);
      FeedAll(cut, first.state, chunks[1..]).After(first.events)
  }

  /** Between calls: a pasting machine buffers nothing else, another one only an unfinished sequence. */
  ghost predicate Settled(cut: string -> Cut, st: State) {
    if st.pasteMode then st.buffer == "" && st.pending == None && IndexOf(st.pasteBuffer, PASTE_END) == -1
    else st.pasteBuffer == "" && cut(st.buffer) == Cut([], st.buffer) && IndexOf(st.buffer, PASTE_START) == -1
  }

  // ---- When chunks do not matter ------------------------------------------------------

  /** No strict prefix of the paste marker completes the sequence still open before it. */
  predicate MarkerSafe(cut: string -> Cut, before: string) {
    var open := cut(before).remainder;
    cut(open + PASTE_START[..5]).sequences == []
  }

  /** Every paste in the input begins at a safe place. */
  predicate Safe(cut: string -> Cut, st: State, str: string)
    decreases |st.buffer| + |st.pasteBuffer| + |str|, 1
  {
    var buffer := st.buffer + str;
    if st.pasteMode then SafePaste(cut, st.pasteBuffer + buffer)
    else
      var start := IndexOf(buffer, PASTE_START);
      start != -1 ==> MarkerSafe(cut, buffer[..start]) && SafePaste(cut, buffer[start + 6..])
  }

  predicate SafePaste(cut: string -> Cut, pasted: string)
    decreases |pasted|, 0
  {
    var end := IndexOf(pasted, PASTE_END);
    end != -1 ==> Safe(cut, IDLE, pasted[end + 6..])
  }

  /** Where the remainder of `x` begins. */
  function OpenAt(cut: string -> Cut, x: string): (o: nat)
    requires Online(cut)
    ensures o <= |x| && x[o..] == cut(x).remainder
  {
    Remains(cut, x);
    |x| - |cut(x).remainder|
  }

  /** A marker that starts inside `x` but ends after it adds nothing but an open remainder. */
  lemma MarkerStraddles(cut: string -> Cut, before: string, k: nat)
    requires Online(cut)
    requires MarkerSafe(cut, before) && k <= 5
    ensures var open := cut(before).remainder;
            && cut(before + PASTE_START[..k]) == Cut(cut(before).sequences, open + PASTE_START[..k])
            && cut(open) == Cut([], open)
  {
    var open, p := cut(before).remainder, PASTE_START[..5];
    var head, tail := p[..k], p[k..];
    assert open + p == (open + head) + tail;
    StuckPrefix(cut, open + head, tail);
    StuckPrefix(cut, open, p);
    Continues(cut, before, head);
    assert cut(before).sequences + [] == cut(before).sequences;
    assert PASTE_START[..k] == head;
  }

  lemma StraddleOpens(cut: string -> Cut, before: string, k: nat)
    requires Online(cut)
    requires MarkerSafe(cut, before) && k <= 5
    ensures var x := before + PASTE_START[..k];
            && OpenAt(cut, x) <= |before|
            && cut(x).sequences == cut(before).sequences
            && cut(before[OpenAt(cut, x)..]) == Cut([], cut(before).remainder)
  {
    MarkerStraddles(cut, before, k);
    Remains(cut, before);
  }

  /** What cutting `x`, then its remainder with `y`, yields before a marker at `start` of the whole. */
  lemma SplitBefore(cut: string -> Cut, x: string, y: string, start: nat)
    requires Online(cut)
    requires At(x + y, PASTE_START, start) && |x| < start + 6
    requires MarkerSafe(cut, (x + y)[..start])
    ensures OpenAt(cut, x) <= start
    ensures var before, tail := cut((x + y)[..start]), cut((x + y)[OpenAt(cut, x)..start]);
            before.sequences == cut(x).sequences + tail.sequences && before.remainder == tail.remainder
  {
    var b, o := x + y, OpenAt(cut, x);
    if |x| <= start {
      var y' := y[..start - |x|];
      assert b[..start] == x + y';
      assert b[o..start] == x[o..] + y';
      Continues(cut, x, y');
    } else {
      StraddlingPrefix(x, y, PASTE_START, start);
      StraddleOpens(cut, b[..start], |x| - start);
      assert b[o..start] == b[..start][o..];
      assert cut(x).sequences + [] == cut(x).sequences;
    }
  }

  lemma StraddlingPrefix(x: string, y: string, pat: string, start: nat)
    requires At(x + y, pat, start) && start <= |x| < start + |pat|
    ensures x == (x + y)[..start] + pat[..|x| - start]
  {
    var k := |x| - start;
    assert pat[..k] == (x + y)[start..start + |pat|][..k] == (x + y)[start..start + k];
  }

  /** Feeding `a + b` at once or in two pieces is the same, if every paste begins at a safe place. */
  lemma {:induction false} FeedSplits(cut: string -> Cut, st: State, a: string, b: string)
    requires Online(cut)
    requires Settled(cut, st) && a != "" && b != "" && Safe(cut, st, a + b)
    ensures SplitsAt(cut, Feed(cut, st, a + b), Feed(cut, st, a), b)
    decreases |st.buffer| + |st.pasteBuffer| + |a| + |b|, 1
  {
    var x := st.buffer + a;
    assert st.buffer + (a + b) == x + b;
    if st.pasteMode {
      assert st.pasteBuffer + (x + b) == (st.pasteBuffer + x) + b;
      AbsorbSplits(cut, st.pasteBuffer + x, b);
    } else {
      var start := IndexOf(x + b, PASTE_START);
      if start != -1 && start + 6 <= |x| {
        FeedSplitsInPaste(cut, st, a, b, start);
      } else {
        NotInPrefix(x, b, PASTE_START);
        if start == -1 {
          FeedSplitsOpen(cut, st, a, b);
        } else {
          FeedSplitsAtMarker(cut, st, a, b, start);
        }
      }
    }
  }

  /** `whole` is what feeding `b` after `x` amounts to. */
  ghost predicate SplitsAt(cut: string -> Cut, whole: Fed, x: Fed, b: string) {
    && Settled(cut, x.state)
    && Safe(cut, x.state, b)
    && whole == Feed(cut, x.state, b).After(x.events)
  }

  lemma SplitsAfter(cut: string -> Cut, whole: Fed, x: Fed, b: string, earlier: seq<Event>)
    requires SplitsAt(cut, whole, x, b)
    ensures SplitsAt(cut, whole.After(earlier), x.After(earlier), b)
  {
    var y := Feed(cut, x.state, b).events;
    assert earlier + (x.events + y) == (earlier + x.events) + y;
  }

  /** The three ways a paste goes on. */
  lemma AbsorbIs(cut: string -> Cut, pasted: string, pending: Pending, end: int)
    requires end == IndexOf(pasted, PASTE_END)
    ensures end == -1 ==> Absorb(cut, pasted, pending) == Fed(State("", true, pasted, pending), [])
    ensures end != -1 && pasted[end + 6..] == "" ==> Absorb(cut, pasted, pending) == Fed(IDLE, [Paste(pasted[..end])])
    ensures end != -1 && pasted[end + 6..] != "" ==>
              Absorb(cut, pasted, pending) == Feed(cut, IDLE, pasted[end + 6..]).After([Paste(pasted[..end])])
  {
    assert [Paste("")] + [] == [Paste("")];
  }

  /** The marker is whole in the first piece already. */
  lemma WholeMarker(st: State, a: string, b: string, start: nat)
    requires !st.pasteMode && a != "" && b != ""
    requires IndexOf(st.buffer + a + b, PASTE_START) == start && start + 6 <= |st.buffer + a|
    ensures var x := st.buffer + a;
            && MeetsMarker(st, a + b, x[..start], x[start + 6..] + b)
            && MeetsMarker(st, a, x[..start], x[start + 6..])
  {
    var x := st.buffer + a;
    assert st.buffer + (a + b) == x + b;
    IndexOfPrefix(x, b, PASTE_START);
    assert (x + b)[..start] == x[..start];
    assert (x + b)[start + 6..] == x[start + 6..] + b;
  }

  /** The marker lies in the first piece. */
  lemma {:induction false} FeedSplitsInPaste(cut: string -> Cut, st: State, a: string, b: string, start: nat)
    requires Online(cut)
    requires Settled(cut, st) && !st.pasteMode && a != "" && b != "" && Safe(cut, st, a + b)
    requires IndexOf(st.buffer + a + b, PASTE_START) == start && start + 6 <= |st.buffer + a|
    ensures SplitsAt(cut, Feed(cut, st, a + b), Feed(cut, st, a), b)
    decreases |st.buffer| + |st.pasteBuffer| + |a| + |b|, 0
  {
    var x := st.buffer + a;
    assert st.buffer + (a + b) == x + b;
    WholeMarker(st, a, b, start);
    FeedAtMarker(cut, st, a + b, x[..start], x[start + 6..] + b);
    FeedAtMarker(cut, st, a, x[..start], x[start + 6..]);
    AbsorbSplits(cut, x[start + 6..], b);
    var e := EmitAll(st.pending, cut(x[..start]).sequences);
    SplitsAfter(cut, Absorb(cut, x[start + 6..] + b, None), Absorb(cut, x[start + 6..], None), b, e.events);
  }

  lemma EndInPrefix(pasted: string, b: string, end: nat)
    requires IndexOf(pasted + b, PASTE_END) == end && end + 6 <= |pasted|
    ensures IndexOf(pasted, PASTE_END) == end
    ensures (pasted + b)[..end] == pasted[..end] && (pasted + b)[end + 6..] == pasted[end + 6..] + b
  {
    IndexOfPrefix(pasted, b, PASTE_END);
  }

  lemma {:induction false} AbsorbSplits(cut: string -> Cut, pasted: string, b: string)
    requires Online(cut)
    requires b != "" && SafePaste(cut, pasted + b)
    ensures SplitsAt(cut, Absorb(cut, pasted + b, None), Absorb(cut, pasted, None), b)
    decreases |pasted| + |b|, 0
  {
    var all := pasted + b;
    var end := IndexOf(all, PASTE_END);
    if end != -1 && end + 6 <= |pasted| {
      var rest := pasted[end + 6..];
      var p := [Paste(pasted[..end])];
      EndInPrefix(pasted, b, end);
      IdleIsSettled(cut);
      if rest == "" {
        assert rest + b == b;
        SplitsAfter(cut, Feed(cut, IDLE, b), Fed(IDLE, []), b, p);
      } else {
        FeedSplits(cut, IDLE, rest, b);
        SplitsAfter(cut, Feed(cut, IDLE, rest + b), Feed(cut, IDLE, rest), b, p);
      }
    } else {
      NotInPrefix(pasted, b, PASTE_END);
      assert pasted + ("" + b) == all;
    }
  }

  lemma IdleIsSettled(cut: string -> Cut)
    requires Online(cut)
    ensures Settled(cut, IDLE)
    ensures forall b :: b != "" ==> Feed(cut, IDLE, b).After([]) == Feed(cut, IDLE, b)
  {
    Remains(cut, "");
    Continues(cut, "", "");
    assert "" + "" == "" && |cut("").sequences| == |cut("").sequences| + |cut("").sequences|;
  }

  /** No marker anywhere. */
  lemma FeedSplitsOpen(cut: string -> Cut, st: State, a: string, b: string)
    requires Online(cut)
    requires Settled(cut, st) && !st.pasteMode && a != "" && b != ""
    requires IndexOf(st.buffer + a, PASTE_START) == -1
    requires IndexOf(st.buffer + a + b, PASTE_START) == -1
    ensures SplitsAt(cut, Feed(cut, st, a + b), Feed(cut, st, a), b)
  {
    var x := st.buffer + a;
    assert st.buffer + (a + b) == x + b;
    var o, c := OpenAt(cut, x), cut(x);
    RemainderSettles(cut, x);
    assert (x + b)[o..] == x[o..] + b;
    IndexOfSuffix(x + b, PASTE_START, o);
    Continues(cut, x, b);
    EmitAllAppends(st.pending, c.sequences, cut(x[o..] + b).sequences);
  }

  lemma OpenIsStuck(cut: string -> Cut, x: string)
    requires Online(cut)
    ensures var r := cut(x).remainder; cut(r) == Cut([], r)
  {
    var r := cut(x).remainder;
    Continues(cut, x, "");
    assert x + "" == x && r + "" == r;
    var none := cut(r + "").sequences;
    assert cut(x).sequences == cut(x).sequences + none;
    assert |cut(x).sequences + none| == |cut(x).sequences| + |none|;
    Remains(cut, r);
  }

  lemma RemainderSettles(cut: string -> Cut, x: string)
    requires Online(cut) && IndexOf(x, PASTE_START) == -1
    ensures var r := cut(x).remainder; cut(r) == Cut([], r) && IndexOf(r, PASTE_START) == -1
  {
    OpenIsStuck(cut, x);
    IndexOfSuffix(x, PASTE_START, OpenAt(cut, x));
  }

  /** `str` brings the first marker of the buffer, with `before` in front of it and `after` behind. */
  ghost predicate MeetsMarker(st: State, str: string, before: string, after: string) {
    var w, start := st.buffer + str, IndexOf(st.buffer + str, PASTE_START);
    && !st.pasteMode && str != "" && start != -1
    && before == w[..start] && after == w[start + 6..]
  }

  lemma FeedAtMarker(cut: string -> Cut, st: State, str: string, before: string, after: string)
    requires MeetsMarker(st, str, before, after)
    ensures Feed(cut, st, str) == Absorb(cut, after, None).After(EmitAll(st.pending, cut(before).sequences).events)
    ensures Safe(cut, st, str) <==> MarkerSafe(cut, before) && SafePaste(cut, after)
  {
  }

  /** Two machines that meet the same marker, one of them further on by `seqs`. */
  lemma SameFromMarker(cut: string -> Cut, st: State, str: string, before: string, seqs: seq<string>,
                       st': State, str': string, before': string, after: string)
    requires MeetsMarker(st, str, before, after) && MeetsMarker(st', str', before', after)
    requires cut(before).sequences == seqs + cut(before').sequences
    requires st'.pending == EmitAll(st.pending, seqs).pending
    ensures Feed(cut, st, str) == Feed(cut, st', str').After(EmitAll(st.pending, seqs).events)
  {
    FeedAtMarker(cut, st, str, before, after);
    FeedAtMarker(cut, st', str', before', after);
    var tail := cut(before').sequences;
    EmitAllAppends(st.pending, seqs, tail);
    AfterTwice(Absorb(cut, after, None), EmitAll(st'.pending, tail).events, EmitAll(st.pending, seqs).events);
  }

  lemma AfterTwice(z: Fed, f: seq<Event>, e: seq<Event>)
    ensures z.After(f).After(e) == z.After(e + f)
  {
    assert e + (f + z.events) == (e + f) + z.events;
  }

  /** The marker ends in the second piece. */
  lemma FeedSplitsAtMarker(cut: string -> Cut, st: State, a: string, b: string, start: nat)
    requires Online(cut)
    requires Settled(cut, st) && !st.pasteMode && a != "" && b != "" && Safe(cut, st, a + b)
    requires IndexOf(st.buffer + a, PASTE_START) == -1
    requires IndexOf(st.buffer + a + b, PASTE_START) == start && |st.buffer + a| < start + 6
    ensures SplitsAt(cut, Feed(cut, st, a + b), Feed(cut, st, a), b)
  {
    var x := st.buffer + a;
    var w := x + b;
    assert st.buffer + (a + b) == w;
    var o, c := OpenAt(cut, x), cut(x);
    RemainderSettles(cut, x);
    SplitBefore(cut, x, b, start);
    var middle := State(c.remainder, false, "", EmitAll(st.pending, c.sequences).pending);
    assert w[o..] == middle.buffer + b;
    SameMarker(st, a, b, middle, o, start);
    FeedAtMarker(cut, st, a + b, w[..start], w[start + 6..]);
    FeedAtMarker(cut, middle, b, w[o..start], w[start + 6..]);
    SameFromMarker(cut, st, a + b, w[..start], c.sequences, middle, b, w[o..start], w[start + 6..]);
  }

  /** The marker seen from a machine that has passed the first `o` characters. */
  lemma MarkerIn(st: State, str: string, w: string, start: nat)
    requires !st.pasteMode && str != "" && st.buffer + str == w && IndexOf(w, PASTE_START) == start
    ensures MeetsMarker(st, str, w[..start], w[start + 6..])
  {
  }

  lemma MarkerInRest(middle: State, b: string, w: string, o: nat, start: nat)
    requires !middle.pasteMode && b != "" && o <= start
    requires IndexOf(w, PASTE_START) == start && w[o..] == middle.buffer + b
    ensures MeetsMarker(middle, b, w[o..start], w[start + 6..])
  {
    IndexOfSuffix(w, PASTE_START, o);
    MarkerIn(middle, b, w[o..], start - o);
    assert w[o..][..start - o] == w[o..start];
    assert w[o..][start - o + 6..] == w[start + 6..];
  }

  lemma SameMarker(st: State, a: string, b: string, middle: State, o: nat, start: nat)
    requires !st.pasteMode && a != "" && b != "" && !middle.pasteMode && o <= start
    requires IndexOf(st.buffer + a + b, PASTE_START) == start
    requires (st.buffer + a + b)[o..] == middle.buffer + b
    ensures var w := st.buffer + a + b;
            MeetsMarker(st, a + b, w[..start], w[start + 6..]) && MeetsMarker(middle, b, w[o..start], w[start + 6..])
  {
    var w := st.buffer + a + b;
    assert st.buffer + (a + b) == w;
    MarkerIn(st, a + b, w, start);
    MarkerInRest(middle, b, w, o, start);
  }

  ghost predicate NonEmpty(chunks: seq<string>) {
    chunks != [] && forall k :: 0 <= k < |chunks| ==> chunks[k] != ""
  }

  /** However a safe input is cut into chunks, the events and the final state are the same. */
  lemma {:induction false} ChunksDoNotMatter(cut: string -> Cut, st: State, chunks: seq<string>)
    requires Online(cut) && Settled(cut, st) && NonEmpty(chunks) && Safe(cut, st, Concat(chunks))
    ensures FeedAll(cut, st, chunks) == Feed(cut, st, Concat(chunks))
    decreases |chunks|
  {
    var a, rest := chunks[0], chunks[1..];
    var x := Feed(cut, st, a);
    if rest == [] {
      assert Concat(chunks) == a + "" == a;
      assert x.events + [] == x.events;
    } else {
      assert Concat(rest) != "" by {
        assert Concat(rest) == rest[0] + Concat(rest[1..]);
      }
      FeedSplits(cut, st, a, Concat(rest));
      ChunksDoNotMatter(cut, x.state, rest);
    }
  }

  // ---- When they do ---------------------------------------------------------------------

  /** The paste marker is itself a sequence, and no sequence that begins like one is a single character. */
  ghost predicate Escaping(cut: string -> Cut) {
    && cut(PASTE_START[..5]).sequences == []
    && forall r, y {:trigger Probe(r, y)} :: Probe(r, y) ==>
         cut(r) == Cut([], r) && r != "" && cut(r + y).sequences != [] ==> 2 <= |cut(r + y).sequences[0]|
  }

  /** Feeding `a` then `b` yields other events than `whole`. */
  ghost predicate Differs(cut: string -> Cut, whole: Fed, x: Fed, b: string) {
    whole.events != x.events + Feed(cut, x.state, b).events
  }

  lemma DiffersAfter(cut: string -> Cut, whole: Fed, x: Fed, b: string, e: seq<Event>)
    requires Differs(cut, whole, x, b)
    ensures Differs(cut, whole.After(e), x.After(e), b)
  {
    var y := Feed(cut, x.state, b).events;
    assert e + (x.events + y) == (e + x.events) + y;
    assert (e + whole.events)[|e|..] == whole.events && (e + (x.events + y))[|e|..] == x.events + y;
  }

  /** An unsafe marker completes at least one sequence, of two characters or more, with its first five. */
  lemma SwallowsPrefix(cut: string -> Cut, before: string) returns (more: seq<string>)
    requires Online(cut) && Escaping(cut) && !MarkerSafe(cut, before)
    ensures cut(before + PASTE_START[..5]).sequences == cut(before).sequences + more
    ensures more != [] && 2 <= |more[0]|
  {
    var five, open := PASTE_START[..5], cut(before).remainder;
    more := cut(open + five).sequences;
    Continues(cut, before, five);
    assert open == "" ==> open + five == five;
    OpenIsStuck(cut, before);
    assert Probe(open, five);
  }

  /** An open sequence already holding five characters of a marker would have been completed. */
  lemma MarkerNotYetIn(cut: string -> Cut, buffer: string, before: string, tail: string)
    requires Online(cut) && cut(buffer).sequences == [] && !MarkerSafe(cut, before)
    ensures buffer != before + PASTE_START[..5] + tail
  {
    if buffer == before + PASTE_START[..5] + tail {
      StuckPrefix(cut, before + PASTE_START[..5], tail);
      Continues(cut, before, PASTE_START[..5]);
    }
  }

  lemma MarkerHead(w: string, start: nat)
    requires At(w, PASTE_START, start)
    ensures w[..start + 5] == w[..start] + PASTE_START[..5]
  {
    assert w[start..start + 6] == PASTE_START;
    assert w[start..start + 5] == w[start..start + 6][..5];
  }

  lemma UnsafeMeetsMarker(cut: string -> Cut, st: State, str: string)
    requires Settled(cut, st) && !st.pasteMode && !Safe(cut, st, str)
    ensures var w, start := st.buffer + str, IndexOf(st.buffer + str, PASTE_START);
            start != -1 && MeetsMarker(st, str, w[..start], w[start + 6..])
            && (MarkerSafe(cut, w[..start]) ==> !SafePaste(cut, w[start + 6..]))
  {
    assert str == "" ==> st.buffer + str == st.buffer;
  }

  /** A marker that would complete the sequence open before it: cutting just before its last character shows. */
  lemma SwallowedMarker(cut: string -> Cut, st: State, str: string, before: string, after: string)
    returns (a: string, b: string)
    requires Online(cut) && Escaping(cut) && Settled(cut, st)
    requires MeetsMarker(st, str, before, after) && !MarkerSafe(cut, before)
    ensures a != "" && b != "" && a + b == str && Differs(cut, Feed(cut, st, str), Feed(cut, st, a), b)
  {
    var w, p := st.buffer + str, before + PASTE_START[..5];
    MarkerHead(w, |before|);
    if |p| <= |st.buffer| {
      assert st.buffer == p + st.buffer[|p|..];
      MarkerNotYetIn(cut, st.buffer, before, st.buffer[|p|..]);
      assert false;
    }
    a, b := w[|st.buffer|..|p|], w[|p|..];
    assert a + b == str && st.buffer + a == p;
    assert p + b == w;
    NotInPrefix(p, b, PASTE_START);
    var more := SwallowsPrefix(cut, before);
    FeedAtMarker(cut, st, str, before, after);
    ShowsEarly(cut, st, a, b, before, more, Absorb(cut, after, None));
  }

  lemma ShowsEarly(cut: string -> Cut, st: State, a: string, b: string, before: string, more: seq<string>,
                   absorbed: Fed)
    requires !st.pasteMode && a != "" && IndexOf(st.buffer + a, PASTE_START) == -1
    requires cut(st.buffer + a).sequences == cut(before).sequences + more && more != [] && 2 <= |more[0]|
    requires absorbed.events == [] || absorbed.events[0].Paste?
    ensures Differs(cut, absorbed.After(EmitAll(st.pending, cut(before).sequences).events), Feed(cut, st, a), b)
  {
    var e := EmitAll(st.pending, cut(before).sequences);
    EmitAllAppends(st.pending, cut(before).sequences, more);
    var tail := EmitAll(e.pending, more).events;
    ShownEarly(cut, absorbed, e, more);
    var y := Feed(cut, Feed(cut, st, a).state, b).events;
    assert Feed(cut, st, a).events == e.events + tail;
    assert (e.events + tail + y)[|e.events|] == tail[0];
  }

  lemma ShownEarly(cut: string -> Cut, absorbed: Fed, e: Emitted, more: seq<string>)
    requires more != [] && 2 <= |more[0]|
    requires absorbed.events == [] || absorbed.events[0].Paste?
    ensures var tail := EmitAll(e.pending, more).events;
            tail != [] && tail[0].Data? && (absorbed.events != [] ==> absorbed.events[0] != tail[0])
  {
  }

  /** An input with an unsafe paste has a cut that changes its events. */
  lemma {:induction false} UnsafeSplits(cut: string -> Cut, st: State, str: string) returns (a: string, b: string)
    requires Online(cut) && Escaping(cut) && Settled(cut, st) && !Safe(cut, st, str)
    ensures a != "" && b != "" && a + b == str && Differs(cut, Feed(cut, st, str), Feed(cut, st, a), b)
    decreases |st.buffer| + |st.pasteBuffer| + |str|, 1
  {
    var w := st.buffer + str;
    if st.pasteMode {
      assert w == str;
      assert st.pasteBuffer + "" == st.pasteBuffer;
      var x;
      x, b := UnsafePasteSplits(cut, st.pasteBuffer + str);
      a := UnsafeInPaste(cut, st, str, x, b);
    } else {
      var start := IndexOf(w, PASTE_START);
      var before, after := w[..start], w[start + 6..];
      UnsafeMeetsMarker(cut, st, str);
      if !MarkerSafe(cut, before) {
        a, b := SwallowedMarker(cut, st, str, before, after);
      } else {
        var x;
        x, b := UnsafePasteSplits(cut, after);
        a := UnsafeAfterMarker(cut, st, str, before, after, x, b);
      }
    }
  }

  lemma UnsafeInPaste(cut: string -> Cut, st: State, str: string, x: string, b: string) returns (a: string)
    requires Settled(cut, st) && st.pasteMode && b != "" && st.pasteBuffer + str == x + b && str != ""
    requires IndexOf(x, PASTE_END) != -1
    requires Differs(cut, Absorb(cut, st.pasteBuffer + str, None), Absorb(cut, x, None), b)
    ensures a != "" && a + b == str && Differs(cut, Feed(cut, st, str), Feed(cut, st, a), b)
  {
    var held := st.pasteBuffer;
    if |x| <= |held| {
      assert held == (held + str)[..|held|] == (x + b)[..|held|];
      assert held == x + held[|x|..];
      AtPrefix(x, held[|x|..], PASTE_END, IndexOf(x, PASTE_END));
      assert false;
    }
    a := x[|held|..];
    assert x == held + a by {
      assert held == (x + b)[..|held|];
    }
    assert a + b == (x + b)[|held|..];
    assert st.buffer + a == a && st.buffer + str == str;
  }

  lemma UnsafeAfterMarker(cut: string -> Cut, st: State, str: string, before: string, after: string, x: string,
                          b: string)
    returns (a: string)
    requires Settled(cut, st) && MeetsMarker(st, str, before, after) && after == x + b && b != ""
    requires Differs(cut, Absorb(cut, after, None), Absorb(cut, x, None), b)
    ensures a != "" && a + b == str && Differs(cut, Feed(cut, st, str), Feed(cut, st, a), b)
  {
    var w' := MarkerPieces(st, str, before, after, x, b);
    a := w'[|st.buffer|..];
    assert st.buffer + a == w';
    assert a + b == (w' + b)[|st.buffer|..];
    FeedAtMarker(cut, st, str, before, after);
    FeedAtMarker(cut, st, a, before, x);
    DiffersAfter(cut, Absorb(cut, after, None), Absorb(cut, x, None), b,
                 EmitAll(st.pending, cut(before).sequences).events);
  }

  /** The input up to and including `x`: it meets the same marker, and the marker ends in the new part. */
  lemma MarkerPieces(st: State, str: string, before: string, after: string, x: string, b: string) returns (w': string)
    requires IndexOf(st.buffer, PASTE_START) == -1
    requires MeetsMarker(st, str, before, after) && after == x + b && b != ""
    ensures st.buffer + str == w' + b && |st.buffer| < |w'| && st.buffer <= w'
    ensures IndexOf(w', PASTE_START) == |before| && w'[..|before|] == before && w'[|before| + 6..] == x
  {
    var w, start := st.buffer + str, |before|;
    w' := w[..start + 6 + |x|];
    assert w == w' + b by {
      assert w[start + 6 + |x|..] == after[|x|..] == b;
    }
    if start + 6 <= |st.buffer| {
      AtPrefix(st.buffer, str, PASTE_START, start);
      assert false;
    }
    IndexOfPrefix(w', b, PASTE_START);
    assert w'[..start] == w[..start] && w'[start + 6..] == after[..|x|] == x;
  }

  lemma {:induction false} UnsafePasteSplits(cut: string -> Cut, pasted: string) returns (x: string, b: string)
    requires Online(cut) && Escaping(cut) && !SafePaste(cut, pasted)
    ensures b != "" && x + b == pasted && IndexOf(x, PASTE_END) != -1
    ensures Differs(cut, Absorb(cut, pasted, None), Absorb(cut, x, None), b)
    decreases |pasted|, 0
  {
    var end := IndexOf(pasted, PASTE_END);
    var inner := pasted[end + 6..];
    IdleIsSettled(cut);
    var a;
    a, b := UnsafeSplits(cut, IDLE, inner);
    x := pasted[..end + 6] + a;
    assert x + b == pasted[..end + 6] + (a + b) == pasted;
    IndexOfPrefix(x, b, PASTE_END);
    assert x[end + 6..] == a && x[..end] == pasted[..end];
    DiffersAfter(cut, Feed(cut, IDLE, inner), Feed(cut, IDLE, a), b, [Paste(pasted[..end])]);
  }

  lemma TwoChunks(cut: string -> Cut, st: State, str: string, a: string, b: string) returns (chunks: seq<string>)
    requires a != "" && b != "" && a + b == str
    requires Differs(cut, Feed(cut, st, str), Feed(cut, st, a), b)
    ensures NonEmpty(chunks) && Concat(chunks) == str
    ensures FeedAll(cut, st, chunks).events != Feed(cut, st, str).events
  {
    chunks := [a, b];
    assert chunks[1..] == [b];
    assert [b][1..] == [];
    assert Concat([b]) == b + "" == b;
    var x := Feed(cut, st, a);
    var y := Feed(cut, x.state, b);
    assert FeedAll(cut, x.state, [b]).events == y.events + [] == y.events;
    assert FeedAll(cut, st, chunks).events == x.events + y.events;
  }

  // ---- The splitter of this program -------------------------------------------------------

  lemma {:induction false} SequenceEndAtLeast(s: string, k: nat, m: nat)
    requires 1 <= k <= m <= |s| + 1
    requires forall j :: k <= j < m ==> IsCompleteSequence(s[..j]) == Incomplete
    ensures m <= SequenceEnd(s, k)
    decreases m - k
  {
    if k < m {
      assert IsCompleteSequence(s[..k]) == Incomplete;
      SequenceEndAtLeast(s, k + 1, m);
    }
  }

  lemma MarkerPrefixIsOpen()
    ensures Extract(PASTE_START[..5]) == Cut([], PASTE_START[..5])
  {
    var s := PASTE_START[..5];
    assert s == [ESC, '[', '2', '0', '0'];
    assert s[..1] == [ESC] && s[..2] == [ESC, '['] && s[..3] == [ESC, '[', '2'];
    assert s[..4] == [ESC, '[', '2', '0'] && s[..5] == s;
    SequenceEndAtLeast(s, 1, 6);
  }

  lemma ExtractIsEscaping()
    ensures Escaping(Extract)
  {
    MarkerPrefixIsOpen();
    forall r, y | Probe(r, y) && Extract(r) == Cut([], r) && r != "" && Extract(r + y).sequences != []
      ensures 2 <= |Extract(r + y).sequences[0]|
    {
      StartsWithEscape(r);
      var s := r + y;
      assert s[..1] == [ESC];
      SequenceEndAtLeast(s, 1, 2);
    }
  }

  lemma StartsWithEscape(r: string)
    requires Extract(r) == Cut([], r) && r != ""
    ensures r[0] == ESC
  {
  }

  /**
   The events of an input are independent of how it is cut into chunks exactly when every
   paste in it begins where the marker cannot complete a sequence still open.
   */
  lemma ChunksMatterExactlyWhenUnsafe(st: State, str: string)
    requires Settled(Extract, st) && str != ""
    ensures Safe(Extract, st, str) <==>
            forall chunks :: NonEmpty(chunks) && Concat(chunks) == str ==>
              FeedAll(Extract, st, chunks).events == Feed(Extract, st, str).events
  {
    ExtractIsOnline();
    if Safe(Extract, st, str) {
      forall chunks | NonEmpty(chunks) && Concat(chunks) == str
        ensures FeedAll(Extract, st, chunks).events == Feed(Extract, st, str).events
      {
        ChunksDoNotMatter(Extract, st, chunks);
      }
    } else {
      ExtractIsEscaping();
      var a, b := UnsafeSplits(Extract, st, str);
      var chunks := TwoChunks(Extract, st, str, a, b);
    }
  }

  /** A paste that begins with no sequence open is safe. */
  lemma NothingOpenIsSafe(before: string)
    requires Extract(before).remainder == ""
    ensures MarkerSafe(Extract, before)
  {
    MarkerPrefixIsOpen();
    assert "" + PASTE_START[..5] == PASTE_START[..5];
  }

  lemma NewIsSettled(st: State)
    requires st == IDLE
    ensures Settled(Extract, st)
  {
    ExtractIsOnline();
    IdleIsSettled(Extract);
  }

  lemma EscapeKeepsMarkerOpen(st: State, str: string)
    requires st == IDLE && str == [ESC] + PASTE_START
    ensures Settled(Extract, st) && str != "" && !Safe(Extract, st, str)
  {
    NewIsSettled(st);
    var s := [ESC] + PASTE_START[..5];
    assert [ESC][..1] == [ESC];
    SequenceEndAtLeast([ESC], 1, 2);
    assert Extract([ESC]) == Cut([], [ESC]);
    assert s[..1] == [ESC] && s[..2] == [ESC, ESC];
    assert SequenceEnd(s, 1) == SequenceEnd(s, 2) == 2;
    var w := [ESC] + PASTE_START;
    assert !At(w, PASTE_START, 0) by {
      assert w[1] == ESC;
    }
    assert At(w, PASTE_START, 1);
    IndexOfIs(w, PASTE_START, 1);
    assert w[..1] == [ESC] && "" + w == w;
  }

  /** Where splitting is unsafe there are chunks that show it. */
  lemma UnsafeChunks(st: State, str: string) returns (chunks: seq<string>)
    requires Settled(Extract, st) && str != "" && !Safe(Extract, st, str)
    ensures NonEmpty(chunks) && Concat(chunks) == str
    ensures FeedAll(Extract, st, chunks).events != Feed(Extract, st, str).events
  {
    ChunksMatterExactlyWhenUnsafe(st, str);
    chunks :| NonEmpty(chunks) && Concat(chunks) == str
              && FeedAll(Extract, st, chunks).events != Feed(Extract, st, str).events;
  }

  /**
   A lone ESC right before a paste is not safe, as ESC ESC is already complete: some division
   of the two gives other events than the whole.
   */
  lemma EscapeBeforePasteIsUnsafe(st: State, str: string) returns (chunks: seq<string>)
    requires st == IDLE && str == [ESC] + PASTE_START
    ensures NonEmpty(chunks) && Concat(chunks) == str
    ensures FeedAll(Extract, st, chunks).events != Feed(Extract, st, str).events
  {
    EscapeKeepsMarkerOpen(st, str);
    chunks := UnsafeChunks(st, str);
  }
}
