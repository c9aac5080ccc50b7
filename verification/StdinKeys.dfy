/**
 What a terminal sends, as keys and reports with a spelling each, and that cutting the input
 gives back exactly what was spelled.
 */
module StdinKeys {

  import opened Common
  import opened StdinSplitter

  /** How an operating system command ends. */
  datatype Terminator = Bell | StringTerminator

  /** One unit of input: a character, or one of the escape sequences of ECMA-48 and of xterm. */
  datatype Key =
    | Char(c: char)
    | Meta(c: char)                       // ESC c
    | SingleShift(c: char)                // ESC O c, as for F1 to F4
    | Csi(parameters: string, final: char)
    | X10Mouse(button: char, x: char, y: char)
    | Mouse(b: string, px: string, py: string, pressed: bool)
    | Osc(body: string, end: Terminator)
    | Dcs(body: string)
    | Apc(body: string)
  {
    ghost predicate Valid() {
      match this
      case Char(c) => c != ESC
      case Meta(c) => c != '[' && c != ']' && c != 'P' && c != '_' && c != 'O'
      case SingleShift(_) => true
      case Csi(parameters, final) =>
        && Final(final) && (forall i :: 0 <= i < |parameters| ==> !Final(parameters[i]))
        && (parameters == "" ==> final != 'M') && (parameters != "" ==> parameters[0] != '<')
      case X10Mouse(_, _, _) => true
      case Mouse(b, px, py, _) => Digits(b) && Digits(px) && Digits(py)
      case Osc(body, _) => BEL !in body && Unterminated(body)
      case Dcs(body) => Unterminated(body)
      case Apc(body) => Unterminated(body)
    }

    function Spell(): string {
      match this
      case Char(c) => [c]
      case Meta(c) => [ESC, c]
      case SingleShift(c) => [ESC, 'O', c]
      case Csi(parameters, final) => [ESC, '['] + parameters + [final]
      case X10Mouse(button, x, y) => [ESC, '[', 'M', button, x, y]
      case Mouse(b, px, py, pressed) =>
        [ESC, '[', '<'] + (b + [';'] + (px + [';'] + py)) + [if pressed then 'M' else 'm']
      case Osc(body, end) => [ESC, ']'] + body + if end == Bell then [BEL] else [ESC, '\\']
      case Dcs(body) => [ESC, 'P'] + body + [ESC, '\\']
      case Apc(body) => [ESC, '_'] + body + [ESC, '\\']
    }
  }

  predicate Final(c: char) { '@' <= c <= '~' }

  // ---- A spelled key is complete, and not earlier -----------------------------------------------

  /** The whole of `data` is the first of its prefixes that is a sequence. */
  ghost predicate CompleteAtLast(data: string) {
    && data != "" && IsCompleteSequence(data) == Complete
    && forall n :: 1 <= n < |data| ==> IsCompleteSequence(data[..n]) == Incomplete
  }

  lemma CsiIsComplete(parameters: string, final: char)
    requires Csi(parameters, final).Valid()
    ensures CompleteAtLast(Csi(parameters, final).Spell())
  {
    var data := Csi(parameters, final).Spell();
    assert data[|data| - 1] == final;
    forall n | 1 <= n < |data| ensures IsCompleteSequence(data[..n]) == Incomplete {
      if 2 < n {
        assert data[n - 1] == parameters[n - 3] && data[2] == parameters[0];
      }
    }
  }

  lemma ThreeParts(a: string, b: string, c: string)
    requires Digits(a) && Digits(b) && Digits(c)
    ensures SplitOn(a + [';'] + (b + [';'] + c), ';') == [a, b, c]
  {
    SplitAppend(a, b + [';'] + c, ';');
    SplitAppend(b, c, ';');
    forall s | s in [a, b, c] ensures ';' !in s {
      forall k | 0 <= k < |s| ensures s[k] != ';' { assert Digit(s[k]); }
    }
    SplitPlain(a, ';');
    SplitPlain(b, ';');
    SplitPlain(c, ';');
  }

  lemma MouseIsComplete(b: string, px: string, py: string, pressed: bool)
    requires Digits(b) && Digits(px) && Digits(py)
    ensures CompleteAtLast(Mouse(b, px, py, pressed).Spell())
  {
    var data, report := Mouse(b, px, py, pressed).Spell(), b + [';'] + (px + [';'] + py);
    ThreeParts(b, px, py);
    var payload := data[2..];
    assert payload == ['<'] + report + [data[|data| - 1]];
    assert payload[1..|payload| - 1] == report;
    forall i | 0 <= i < |report| ensures report[i] == ';' || Digit(report[i]) {
      if i < |b| {
        assert Digit(b[i]);
      } else if |b| < i < |b| + 1 + |px| {
        assert Digit(px[i - |b| - 1]);
      } else if |b| + 1 + |px| < i {
        assert Digit(py[i - |b| - |px| - 2]);
      }
    }
    forall n | 1 <= n < |data| ensures IsCompleteSequence(data[..n]) == Incomplete {
      assert 3 < n ==> data[n - 1] == report[n - 4];
    }
  }

  /** A string that starts with ESC and a letter and goes on to its terminator. */
  lemma StringIsComplete(letter: char, body: string, end: string)
    requires letter == 'P' || letter == '_' || (letter == ']' && BEL !in body)
    requires end == [ESC, '\\'] || (letter == ']' && end == [BEL])
    requires Unterminated(body)
    ensures CompleteAtLast([ESC, letter] + body + end)
  {
    var data := [ESC, letter] + body + end;
    assert data[|data| - |end|..] == end;
    forall n | 1 <= n < |data| ensures IsCompleteSequence(data[..n]) == Incomplete {
      if 2 < n {
        assert n <= |body| + 2 ==> data[n - 1] == body[n - 3];
        assert data[..n][n - 1..] == [data[n - 1]] && data[..n][n - 2..] == [data[n - 2], data[n - 1]];
        if n <= |body| + 2 && 3 < n {
          assert data[n - 2] == body[n - 4];
        }
      } else if n == 2 {
        assert data[..n] == [ESC, letter] && data[..n][1..] == [letter];
      }
    }
  }

  lemma KeyIsComplete(k: Key)
    requires k.Valid() && !k.Char?
    ensures k.Spell()[0] == ESC && CompleteAtLast(k.Spell())
  {
    match k
    case Csi(parameters, final) => CsiIsComplete(parameters, final);
    case Mouse(b, px, py, pressed) => MouseIsComplete(b, px, py, pressed);
    case Osc(body, end) => StringIsComplete(']', body, if end == Bell then [BEL] else [ESC, '\\']);
    case Dcs(body) => StringIsComplete('P', body, [ESC, '\\']);
    case Apc(body) => StringIsComplete('_', body, [ESC, '\\']);
    case _ =>
  }

  // ---- What is complete is a spelled key -----------------------------------------------------------

  /** No complete sequence begins another. */
  lemma NotLonger(data: string, other: string)
    requires CompleteAtLast(data) && other <= data && other != "" && IsCompleteSequence(other) == Complete
    ensures other == data
  {
    assert other == data[..|other|];
  }

  lemma PartsOfThree(s: string)
    requires |SplitOn(s, ';')| == 3
    ensures var parts := SplitOn(s, ';'); s == parts[0] + [';'] + (parts[1] + [';'] + parts[2])
  {
    var parts := SplitOn(s, ';');
    SplitFirst(s, ';');
    var rest := s[|parts[0]| + 1..];
    SplitFirst(rest, ';');
    SplitFirst(rest[|parts[1]| + 1..], ';');
  }

  lemma ReportParts(payload: string) returns (b: string, px: string, py: string)
    requires payload != "" && SgrMouse(payload)
    ensures Digits(b) && Digits(px) && Digits(py)
    ensures payload == ['<'] + (b + [';'] + (px + [';'] + py)) + [payload[|payload| - 1]]
    ensures payload[|payload| - 1] == 'M' || payload[|payload| - 1] == 'm'
  {
    var report := payload[1..|payload| - 1];
    var parts := SplitOn(report, ';');
    b, px, py := parts[0], parts[1], parts[2];
    PartsOfThree(report);
    assert payload == [payload[0]] + report + [payload[|payload| - 1]];
  }

  lemma CompleteMouse(data: string) returns (k: Key)
    requires 3 <= |data| && data[..3] == [ESC, '[', '<'] && CompleteAtLast(data)
    ensures k.Valid() && k.Mouse? && k.Spell() == data
  {
    var payload := data[2..];
    assert data[0] == ESC && data[1] == '[' && data[2] == '<' && payload[0] == '<';
    assert CsiStatus(data) == Complete;
    var b, px, py := ReportParts(payload);
    k := Mouse(b, px, py, payload[|payload| - 1] == 'M');
    assert data == [ESC, '['] + payload;
    SpellsMouse(b + [';'] + (px + [';'] + py), payload[|payload| - 1], data);
  }

  lemma SpellsMouse(report: string, last: char, data: string)
    requires data == [ESC, '['] + (['<'] + report + [last])
    ensures data == [ESC, '[', '<'] + report + [last]
  {
  }

  lemma CompleteCsi(data: string) returns (k: Key)
    requires 3 <= |data| && data[..2] == [ESC, '['] && data[2] != '<' && data[2] != 'M' && CompleteAtLast(data)
    ensures k.Valid() && k.Csi? && k.Spell() == data
  {
    assert data[0] == ESC && data[1] == '[';
    var parameters := data[2..|data| - 1];
    forall i | 0 <= i < |parameters| ensures !Final(parameters[i]) {
      var before := data[..i + 3];
      assert before[|before| - 1] == parameters[i] && before[2] == data[2];
      assert IsCompleteSequence(before) == Incomplete;
    }
    assert data[|data| - 1] == data[2..][|data| - 3];
    k := Csi(parameters, data[|data| - 1]);
    assert data == data[..2] + parameters + [data[|data| - 1]];
  }

  lemma EndsInTerminator(s: string)
    ensures EndsWith(s, [ESC, '\\']) <==> 2 <= |s| && s[|s| - 2] == ESC && s[|s| - 1] == '\\'
    ensures EndsWith(s, [BEL]) <==> s != "" && s[|s| - 1] == BEL
  {
    if 2 <= |s| {
      assert s[|s| - 2..] == [s[|s| - 2], s[|s| - 1]];
    }
    if s != "" {
      assert s[|s| - 1..] == [s[|s| - 1]];
    }
  }

  /** Before its end, such a string has not been terminated. */
  lemma NotYetTerminated(data: string, n: nat)
    requires 2 <= n < |data| && data[0] == ESC && CompleteAtLast(data)
    requires data[1] == ']' || data[1] == 'P' || data[1] == '_'
    ensures data[n - 2] != ESC || data[n - 1] != '\\'
    ensures data[1] == ']' ==> data[n - 1] != BEL
  {
    EndsInTerminator(data[..n]);
    assert IsCompleteSequence(data[..n]) == Incomplete;
  }

  lemma CompleteString(data: string) returns (body: string, bell: bool)
    requires 2 <= |data| && data[0] == ESC && CompleteAtLast(data)
    requires data[1] == ']' || data[1] == 'P' || data[1] == '_'
    ensures Unterminated(body) && (data[1] == ']' ==> BEL !in body) && (bell ==> data[1] == ']')
    ensures data == [ESC, data[1]] + body + if bell then [BEL] else [ESC, '\\']
  {
    EndsInTerminator(data);
    bell := data[1] == ']' && data[|data| - 1] == BEL;
    var n := if bell then |data| - 1 else |data| - 2;
    body := data[2..n];
    forall i | 0 <= i < |body| ensures data[1] == ']' ==> body[i] != BEL {
      NotYetTerminated(data, i + 3);
    }
    forall i | 0 <= i < |body| - 1 ensures body[i] != ESC || body[i + 1] != '\\' {
      NotYetTerminated(data, i + 4);
    }
    Reassembled(data, n);
  }

  lemma Reassembled(data: string, n: nat)
    requires 2 <= n < |data|
    ensures data == [data[0], data[1]] + data[2..n] + if n == |data| - 1 then [data[n]] else data[n..]
    ensures n == |data| - 2 ==> data[n..] == [data[n], data[n + 1]]
  {
  }

  lemma CompleteIsKey(data: string) returns (k: Key)
    requires data != "" && data[0] == ESC && CompleteAtLast(data)
    ensures k.Valid() && !k.Char? && k.Spell() == data
  {
    if data[1] == '[' && data[2] == 'M' {
      NotLonger(data, data[..6]);
      k := X10Mouse(data[3], data[4], data[5]);
    } else if data[1] == '[' && data[2] == '<' {
      k := CompleteMouse(data);
    } else if data[1] == '[' {
      k := CompleteCsi(data);
    } else if data[1] == ']' || data[1] == 'P' || data[1] == '_' {
      var body, bell := CompleteString(data);
      k := if data[1] == 'P' then Dcs(body) else if data[1] == '_' then Apc(body)
           else Osc(body, if bell then Bell else StringTerminator);
    } else if data[1] == 'O' {
      NotLonger(data, data[..3]);
      k := SingleShift(data[2]);
    } else {
      NotLonger(data, data[..2]);
      k := Meta(data[1]);
    }
  }

  // ---- Cutting is parsing ---------------------------------------------------------------------------

  ghost predicate AllValid(keys: seq<Key>) {
    forall i :: 0 <= i < |keys| ==> keys[i].Valid()
  }

  function Spellings(keys: seq<Key>): (s: seq<string>)
    ensures |s| == |keys| && forall i :: 0 <= i < |s| ==> s[i] == keys[i].Spell()
  {
    seq(|keys|, i requires 0 <= i < |keys| => keys[i].Spell())
  }

  /** No key can be read from it yet. */
  ghost predicate Open(rest: string) {
    forall k: Key :: k.Valid() ==> !(k.Spell() <= rest)
  }

  lemma {:induction false} SequenceEndIsFirst(s: string, k: nat, n: nat)
    requires 1 <= k <= n <= |s| && IsCompleteSequence(s[..n]) != Incomplete
    requires forall j :: k <= j < n ==> IsCompleteSequence(s[..j]) == Incomplete
    ensures SequenceEnd(s, k) == n
    decreases n - k
  {
    if k < n {
      SequenceEndIsFirst(s, k + 1, n);
    }
  }

  lemma {:induction false} BeforeSequenceEnd(s: string, k: nat, j: nat)
    requires 1 <= k <= j && k <= |s| + 1 && j < SequenceEnd(s, k)
    ensures j <= |s| && IsCompleteSequence(s[..j]) == Incomplete
    decreases j - k
  {
    if k < j {
      BeforeSequenceEnd(s, k + 1, j);
    }
  }

  /** One key is cut off. */
  lemma ExtractKey(k: Key, rest: string)
    requires k.Valid()
    ensures var c := Extract(rest);
            Extract(k.Spell() + rest) == Cut([k.Spell()] + c.sequences, c.remainder)
  {
    var data := k.Spell();
    var s, n := data + rest, |data|;
    assert s[..n] == data && s[n..] == rest;
    if !k.Char? {
      KeyIsComplete(k);
      forall j | 1 <= j < n ensures IsCompleteSequence(s[..j]) == Incomplete {
        assert s[..j] == data[..j];
      }
      SequenceEndIsFirst(s, 1, n);
    }
  }

  /** What is cut off first is a key. */
  lemma FirstIsKey(buffer: string) returns (k: Key, rest: string)
    requires Extract(buffer).sequences != []
    ensures k.Valid() && buffer == k.Spell() + rest
  {
    var e := if buffer[0] == ESC then SequenceEnd(buffer, 1) else 1;
    var data := buffer[..e];
    rest := buffer[e..];
    assert buffer == data + rest;
    if buffer[0] != ESC {
      k := Char(buffer[0]);
    } else {
      forall j | 1 <= j < e ensures IsCompleteSequence(data[..j]) == Incomplete {
        BeforeSequenceEnd(buffer, 1, j);
        assert data[..j] == buffer[..j];
      }
      k := CompleteIsKey(data);
    }
  }

  /** Nothing can be cut off exactly where no key can be read. */
  lemma OpenExactlyWhen(rest: string)
    ensures Open(rest) <==> Extract(rest) == Cut([], rest)
  {
    if Extract(rest).sequences != [] {
      var k, tail := FirstIsKey(rest);
      assert k.Spell() <= rest;
    } else if !Open(rest) {
      var k: Key :| k.Valid() && k.Spell() <= rest;
      assert rest == k.Spell() + rest[|k.Spell()|..];
      ExtractKey(k, rest[|k.Spell()|..]);
    }
  }

  function SpellAll(keys: seq<Key>): string {
    Concat(Spellings(keys))
  }

  lemma SpellFirst(keys: seq<Key>)
    requires keys != []
    ensures Spellings(keys) == [keys[0].Spell()] + Spellings(keys[1..])
    ensures SpellAll(keys) == keys[0].Spell() + SpellAll(keys[1..])
  {
    assert Spellings(keys)[1..] == Spellings(keys[1..]);
  }

  lemma ValidRest(keys: seq<Key>)
    requires keys != [] && AllValid(keys)
    ensures keys[0].Valid() && AllValid(keys[1..])
  {
  }

  lemma Associates(a: string, b: string, c: string)
    ensures a + b + c == a + (b + c)
  {
  }

  lemma ExtractOneMore(k: Key, tail: string, more: seq<string>, rest: string)
    requires k.Valid() && Extract(tail) == Cut(more, rest)
    ensures Extract(k.Spell() + tail) == Cut([k.Spell()] + more, rest)
  {
    ExtractKey(k, tail);
  }

  lemma {:induction false} ExtractSpelled(keys: seq<Key>, rest: string)
    requires AllValid(keys) && Open(rest)
    ensures Extract(SpellAll(keys) + rest) == Cut(Spellings(keys), rest)
    decreases |keys|
  {
    if keys == [] {
      assert SpellAll(keys) + rest == rest;
      OpenExactlyWhen(rest);
    } else {
      ValidRest(keys);
      ExtractSpelled(keys[1..], rest);
      ExtractOneMore(keys[0], SpellAll(keys[1..]) + rest, Spellings(keys[1..]), rest);
      SpellFirst(keys);
      Associates(keys[0].Spell(), SpellAll(keys[1..]), rest);
    }
  }

  /**
   Cutting is parsing: the sequences are the spellings of some keys, with a rest, exactly when
   the input spells those keys and then the rest, from which no key can be read.
   */
  lemma {:induction false} CutsIntoKeysExactlyWhen(buffer: string, keys: seq<Key>, rest: string)
    requires AllValid(keys)
    ensures Extract(buffer) == Cut(Spellings(keys), rest) <==> buffer == SpellAll(keys) + rest && Open(rest)
  {
    if Extract(buffer) == Cut(Spellings(keys), rest) {
      ExtractKeepsInput(buffer);
      RemainderIsStuck(buffer);
      OpenExactlyWhen(rest);
    }
    if buffer == SpellAll(keys) + rest && Open(rest) {
      ExtractSpelled(keys, rest);
    }
  }

  lemma RemainderIsStuck(buffer: string)
    ensures var rest := Extract(buffer).remainder; Extract(rest) == Cut([], rest)
  {
    ExtractContinues(buffer, "");
    var e := Extract(buffer);
    assert buffer + "" == buffer && e.remainder + "" == e.remainder;
    assert |e.sequences + Extract(e.remainder).sequences| == |e.sequences|;
  }

  /** Whatever comes in, what is delivered is keys. */
  lemma {:induction false} CutsIntoKeys(buffer: string) returns (keys: seq<Key>)
    ensures AllValid(keys) && Extract(buffer).sequences == Spellings(keys)
    decreases |buffer|
  {
    if Extract(buffer).sequences == [] {
      keys := [];
    } else {
      var k, rest := FirstIsKey(buffer);
      assert k.Spell() != "";
      var more := CutsIntoKeys(rest);
      ExtractKey(k, rest);
      keys := [k] + more;
      SpellFirst(keys);
    }
  }

  lemma UnfinishedIsOpen(data: string, n: nat)
    requires CompleteAtLast(data) && data[0] == ESC && n < |data|
    ensures Extract(data[..n]) == Cut([], data[..n])
  {
    var part := data[..n];
    forall e | 1 <= e <= n ensures IsCompleteSequence(part[..e]) == Incomplete {
      assert part[..e] == data[..e];
    }
  }

  /** A key that has not arrived completely is waited for. */
  lemma UnfinishedKeyIsOpen(k: Key, n: nat)
    requires k.Valid() && n < |k.Spell()|
    ensures Extract(k.Spell()[..n]) == Cut([], k.Spell()[..n])
  {
    if 0 < n {
      KeyIsComplete(k);
      UnfinishedIsOpen(k.Spell(), n);
    }
  }

  // ---- Keys arrive ------------------------------------------------------------------------------------

  /** The parameters report a code: by itself, or with the shifted code, or with that and the base layout's. */
  ghost predicate ReportsCode(parameters: string, code: string) {
    || parameters == code
    || (exists shifted :: (shifted == "" || Digits(shifted)) && parameters == code + ":" + shifted)
    || (exists shifted, base ::
          (shifted == "" || Digits(shifted)) && Digits(base) && parameters == code + ":" + (shifted + ":" + base))
  }

  /** An unmodified printable character, as the Kitty keyboard protocol reports it. */
  ghost predicate Reports(k: Key, n: nat) {
    && k.Csi? && k.final == 'u' && 32 <= n
    && exists code :: Digits(code) && ParseNat(code) == n && ReportsCode(k.parameters, code)
  }

  lemma NoColon(s: string)
    requires s == "" || Digits(s)
    ensures ':' !in s
  {
    forall k | 0 <= k < |s| ensures s[k] != ':' { assert Digit(s[k]); }
  }

  lemma TwoFields(code: string, shifted: string)
    requires Digits(code) && (shifted == "" || Digits(shifted))
    ensures SplitOn(code + ":" + shifted, ':') == [code, shifted]
  {
    NoColon(code);
    NoColon(shifted);
    SplitPlain(code, ':');
    SplitPlain(shifted, ':');
    SplitAppend(code, shifted, ':');
  }

  lemma ThreeFields(code: string, shifted: string, base: string)
    requires Digits(code) && (shifted == "" || Digits(shifted)) && Digits(base)
    ensures SplitOn(code + ":" + (shifted + ":" + base), ':') == [code, shifted, base]
  {
    NoColon(code);
    NoColon(shifted);
    NoColon(base);
    SplitPlain(code, ':');
    SplitPlain(shifted, ':');
    SplitPlain(base, ':');
    SplitAppend(shifted, base, ':');
    SplitAppend(code, shifted + ":" + base, ':');
  }

  /** A code and the fields allowed behind it. */
  predicate CodeFields(parts: seq<string>, code: string) {
    && 1 <= |parts| <= 3 && parts[0] == code
    && (2 <= |parts| ==> parts[1] == "" || Digits(parts[1]))
    && (3 == |parts| ==> Digits(parts[2]))
  }

  lemma FieldsOfReport(parameters: string, code: string)
    requires Digits(code) && ReportsCode(parameters, code)
    ensures CodeFields(SplitOn(parameters, ':'), code)
  {
    NoColon(code);
    SplitPlain(code, ':');
    if parameters == code {
    } else if exists shifted :: (shifted == "" || Digits(shifted)) && parameters == code + ":" + shifted {
      var shifted :| (shifted == "" || Digits(shifted)) && parameters == code + ":" + shifted;
      TwoFields(code, shifted);
    } else {
      var shifted, base :| (shifted == "" || Digits(shifted)) && Digits(base)
                           && parameters == code + ":" + (shifted + ":" + base);
      ThreeFields(code, shifted, base);
    }
  }

  lemma ReportOfFields(parameters: string, code: string)
    requires CodeFields(SplitOn(parameters, ':'), code)
    ensures ReportsCode(parameters, code)
  {
    var parts := SplitOn(parameters, ':');
    SplitFirst(parameters, ':');
    if |parts| >= 2 {
      var rest := parameters[|code| + 1..];
      SplitFirst(rest, ':');
      if |parts| == 3 {
        var base := rest[|parts[1]| + 1..];
        SplitFirst(base, ':');
        assert parameters == code + ":" + (parts[1] + ":" + base);
      } else {
        assert parameters == code + ":" + parts[1];
      }
    }
  }

  lemma OthersReportNothing(k: Key)
    requires k.Valid() && !k.Csi?
    ensures KittyPrintable(k.Spell()) == None
  {
    if k.X10Mouse? {
      var sequence := k.Spell();
      assert sequence[2..5] == ['M'] + [k.button, k.x] && SplitOn(sequence[2..5], ':')[0][0] == 'M';
      assert !Digit('M');
    }
  }

  /** The code that the machine takes from a sequence is the one reported, if it is printable. */
  lemma KittyExactlyWhen(k: Key, n: nat)
    requires k.Valid()
    ensures KittyPrintable(k.Spell()) == Some(n) <==> Reports(k, n)
  {
    var sequence := k.Spell();
    if k.Csi? {
      assert sequence[2..|sequence| - 1] == k.parameters && sequence[|sequence| - 1] == k.final;
      var parts := SplitOn(k.parameters, ':');
      if KittyPrintable(sequence) == Some(n) {
        ReportOfFields(k.parameters, parts[0]);
      }
      if Reports(k, n) {
        var code :| Digits(code) && ParseNat(code) == n && ReportsCode(k.parameters, code);
        FieldsOfReport(k.parameters, code);
      }
    } else {
      OthersReportNothing(k);
    }
  }

  /** A character right behind the report of itself. */
  ghost predicate Repeats(keys: seq<Key>, i: nat)
    requires i < |keys|
  {
    0 < i && keys[i].Char? && Reports(keys[i - 1], keys[i].c as nat)
  }

  ghost function Delivered(keys: seq<Key>): seq<Event> {
    if keys == [] then []
    else
      var n := |keys| - 1;
      Delivered(keys[..n]) + if Repeats(keys, n) then [] else [Data(keys[n].Spell())]
  }

  lemma LastSpelling(keys: seq<Key>)
    requires keys != []
    ensures Spellings(keys) == Spellings(keys[..|keys| - 1]) + [keys[|keys| - 1].Spell()]
  {
  }

  lemma {:induction false} EmitsDelivered(keys: seq<Key>)
    requires AllValid(keys)
    ensures EmitAll(None, Spellings(keys)).events == Delivered(keys)
    ensures EmitAll(None, Spellings(keys)).pending ==
            if keys == [] then None else KittyPrintable(keys[|keys| - 1].Spell())
    decreases |keys|
  {
    if keys != [] {
      var init, last := keys[..|keys| - 1], keys[|keys| - 1];
      EmitsDelivered(init);
      LastSpelling(keys);
      EmitAllAppends(None, Spellings(init), [last.Spell()]);
      EmitsLast(EmitAll(None, Spellings(init)).pending, last.Spell());
      OneCharacter(last);
      if init != [] && last.Char? {
        KittyExactlyWhen(init[|init| - 1], last.c as nat);
      }
    }
  }

  lemma EmitsLast(pending: Pending, sequence: string)
    ensures EmitAll(pending, [sequence]) == EmitOne(pending, sequence)
  {
    var one := EmitOne(pending, sequence);
    assert [sequence][1..] == [];
    assert one.events + [] == one.events;
  }

  lemma OneCharacter(k: Key)
    ensures |k.Spell()| == 1 <==> k.Char?
    ensures k.Char? ==> KittyPrintable(k.Spell()) == None
  {
  }

  // ---- A whole session -----------------------------------------------------------------------------------

  /** Some keys, and then a paste. */
  datatype Stretch = Stretch(keys: seq<Key>, pasted: string)

  /** What the terminal sends. */
  function Sent(stretches: seq<Stretch>, last: seq<Key>): string {
    if stretches == [] then SpellAll(last)
    else SpellAll(stretches[0].keys) + (PASTE_START + (stretches[0].pasted + (PASTE_END + Sent(stretches[1..], last))))
  }

  /** What the listeners must receive. */
  ghost function Received(stretches: seq<Stretch>, last: seq<Key>): seq<Event> {
    if stretches == [] then Delivered(last)
    else Delivered(stretches[0].keys) + ([Paste(stretches[0].pasted)] + Received(stretches[1..], last))
  }

  /** The first marker behind the keys is the one that was sent, and so is the first one behind the paste. */
  ghost predicate Bracketed(s: Stretch) {
    && AllValid(s.keys)
    && IndexOf(SpellAll(s.keys) + PASTE_START, PASTE_START) == |SpellAll(s.keys)|
    && IndexOf(s.pasted + PASTE_END, PASTE_END) == |s.pasted|
  }

  ghost predicate Proper(stretches: seq<Stretch>, last: seq<Key>) {
    && (forall i :: 0 <= i < |stretches| ==> Bracketed(stretches[i]))
    && AllValid(last) && IndexOf(SpellAll(last), PASTE_START) == -1
  }

  lemma FirstInWhole(before: string, pat: string, tail: string)
    requires IndexOf(before + pat, pat) == |before| && pat != ""
    ensures IndexOf(before + (pat + tail), pat) == |before|
  {
    var s := before + (pat + tail);
    assert s == (before + pat) + tail;
    assert s[|before|..|before| + |pat|] == pat;
    forall j | 0 <= j < |before| ensures !At(s, pat, j) {
      AtPrefix(before + pat, tail, pat, j);
    }
    IndexOfIs(s, pat, |before|);
  }

  /** The input is safe to cut anywhere, and fed at once it gives these events and leaves nothing open. */
  ghost predicate Arrives(cut: string -> Cut, input: string, events: seq<Event>) {
    && Safe(cut, IDLE, input)
    && if input == "" then events == []
       else
         var fed := Feed(cut, IDLE, input);
         fed.events == events && fed.state.buffer == "" && !fed.state.pasteMode
  }

  /** Input without a paste, which is cut up completely. */
  lemma PlainArrives(cut: string -> Cut, input: string, sequences: seq<string>)
    requires IndexOf(input, PASTE_START) == -1 && cut(input) == Cut(sequences, "")
    requires input == "" ==> sequences == []
    ensures Arrives(cut, input, EmitAll(None, sequences).events)
  {
    assert "" + input == input;
  }

  /** The marker behind the keys is met first. */
  lemma KeysMeetMarker(before: string, pasted: string)
    requires IndexOf(before + PASTE_START, PASTE_START) == |before|
    ensures MeetsMarker(IDLE, before + (PASTE_START + pasted), before, pasted)
  {
    FirstInWhole(before, PASTE_START, pasted);
    assert "" + (before + (PASTE_START + pasted)) == before + (PASTE_START + pasted);
  }

  /** The end of the paste is the first one behind the marker. */
  lemma PasteEnds(pasted: string, rest: string)
    requires IndexOf(pasted + PASTE_END, PASTE_END) == |pasted|
    ensures var all := pasted + (PASTE_END + rest);
            IndexOf(all, PASTE_END) == |pasted| && all[..|pasted|] == pasted && all[|pasted| + 6..] == rest
  {
    FirstInWhole(pasted, PASTE_END, rest);
  }

  /** What a paste that is complete becomes, followed by something that arrives. */
  lemma PasteIsAbsorbed(cut: string -> Cut, pasted: string, rest: string, events: seq<Event>)
    requires IndexOf(pasted + PASTE_END, PASTE_END) == |pasted| && Arrives(cut, rest, events)
    ensures var fed := Absorb(cut, pasted + (PASTE_END + rest), None);
            fed.events == [Paste(pasted)] + events && fed.state.buffer == "" && !fed.state.pasteMode
    ensures SafePaste(cut, pasted + (PASTE_END + rest))
  {
    PasteEnds(pasted, rest);
    AbsorbIs(cut, pasted + (PASTE_END + rest), None, |pasted|);
    assert [Paste(pasted)] + [] == [Paste(pasted)];
  }

  /** Input before a paste that arrives. */
  lemma PasteArrives(cut: string -> Cut, before: string, sequences: seq<string>, after: string, events: seq<Event>)
    requires cut(before) == Cut(sequences, "") && MarkerSafe(cut, before)
    requires IndexOf(before + PASTE_START, PASTE_START) == |before|
    requires var fed := Absorb(cut, after, None);
             fed.events == events && fed.state.buffer == "" && !fed.state.pasteMode
    requires SafePaste(cut, after)
    ensures Arrives(cut, before + (PASTE_START + after), EmitAll(None, sequences).events + events)
  {
    KeysMeetMarker(before, after);
    FeedAtMarker(cut, IDLE, before + (PASTE_START + after), before, after);
  }

  lemma KeysAreCut(keys: seq<Key>)
    requires AllValid(keys)
    ensures Extract(SpellAll(keys)) == Cut(Spellings(keys), "")
  {
    OpenExactlyWhen("");
    ExtractSpelled(keys, "");
    assert SpellAll(keys) + "" == SpellAll(keys);
  }

  /** `cut` cuts what was spelled into the keys, and a paste may follow. */
  ghost predicate Parses(cut: string -> Cut) {
    forall keys :: AllValid(keys) ==>
      cut(SpellAll(keys)) == Cut(Spellings(keys), "") && MarkerSafe(cut, SpellAll(keys))
  }

  lemma ExtractParses()
    ensures Parses(Extract)
  {
    forall keys | AllValid(keys)
      ensures Extract(SpellAll(keys)) == Cut(Spellings(keys), "") && MarkerSafe(Extract, SpellAll(keys))
    {
      KeysAreCut(keys);
      NothingOpenIsSafe(SpellAll(keys));
    }
  }

  lemma StretchArrives(cut: string -> Cut, s: Stretch, rest: string, received: seq<Event>)
    requires Parses(cut) && Bracketed(s) && Arrives(cut, rest, received)
    ensures Arrives(cut, SpellAll(s.keys) + (PASTE_START + (s.pasted + (PASTE_END + rest))),
                    Delivered(s.keys) + ([Paste(s.pasted)] + received))
  {
    EmitsDelivered(s.keys);
    PasteIsAbsorbed(cut, s.pasted, rest, received);
    PasteArrives(cut, SpellAll(s.keys), Spellings(s.keys), s.pasted + (PASTE_END + rest),
                 [Paste(s.pasted)] + received);
  }

  lemma {:induction false} SessionArrives(cut: string -> Cut, stretches: seq<Stretch>, last: seq<Key>)
    requires Parses(cut) && Proper(stretches, last)
    ensures Arrives(cut, Sent(stretches, last), Received(stretches, last))
    decreases |stretches|
  {
    if stretches == [] {
      EmitsDelivered(last);
      NoKeysNoText(last);
      PlainArrives(cut, SpellAll(last), Spellings(last));
    } else {
      SessionArrives(cut, stretches[1..], last);
      StretchArrives(cut, stretches[0], Sent(stretches[1..], last), Received(stretches[1..], last));
    }
  }

  lemma NoKeysNoText(keys: seq<Key>)
    ensures SpellAll(keys) == "" ==> keys == []
  {
    if keys != [] {
      SpellFirst(keys);
    }
  }

  /**
   A session of keys and pastes is received as it was sent, however its bytes arrive: each paste
   whole, and each key by itself; all that is left out is a character right behind its own report.
   */
  lemma SessionIsReceived(stretches: seq<Stretch>, last: seq<Key>, chunks: seq<string>)
    requires Proper(stretches, last)
    requires NonEmpty(chunks) && Concat(chunks) == Sent(stretches, last)
    ensures FeedAll(Extract, IDLE, chunks).events == Received(stretches, last)
    ensures var state := FeedAll(Extract, IDLE, chunks).state; state.buffer == "" && !state.pasteMode
  {
    assert Concat(chunks) == chunks[0] + Concat(chunks[1..]);
    ExtractParses();
    SessionArrives(Extract, stretches, last);
    NewIsSettled(IDLE);
    ExtractIsOnline();
    ChunksDoNotMatter(Extract, IDLE, chunks);
  }
}
