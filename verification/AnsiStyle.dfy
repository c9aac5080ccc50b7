/**
 The style that SGR and OSC 8 codes build up: how a code changes it, how a style
 is printed back as codes, and why replaying the printed codes restores it.
 */
module AnsiStyle {

  import opened Common
  import opened AnsiScan

  // ---- Styles -------------------------------------------------------------------

  /** `terminator` is the one the link was opened with, BEL or ST. */
  datatype Hyperlink = Hyperlink(params: string, url: string, terminator: string)

  datatype Attributes = Attributes(
    bold: bool, dim: bool, italic: bool, underline: bool,
    blink: bool, inverse: bool, hidden: bool, strikethrough: bool)

  const NO_ATTRIBUTES := Attributes(false, false, false, false, false, false, false, false)

  datatype Style = Style(
    attributes: Attributes,
    fgColor: Option<string>,  // the parameters that set it, such as "31" or "38;5;240"
    bgColor: Option<string>,
    hyperlink: Option<Hyperlink>)

  const CLEAR := Style(NO_ATTRIBUTES, None, None, None)

  /** SGR 0 leaves the hyperlink alone. */
  function Reset(st: Style): Style {
    CLEAR.(hyperlink := st.hyperlink)
  }

  // ---- Hyperlink codes --------------------------------------------------------------

  const ST: string := [ESC, '\\']
  const OSC8: string := [ESC, ']', '8', ';']

  function FirstIndex(s: string, c: char): (i: int)
    ensures -1 <= i < |s|
    ensures i >= 0 ==> s[i] == c
    ensures forall k :: 0 <= k < |s| && (i == -1 || k < i) ==> s[k] != c
  {
    if s == "" then -1
    else if s[0] == c then 0
    else var i := FirstIndex(s[1..], c); if i == -1 then -1 else i + 1
  }

  datatype ParsedLink = NotALink | Closes | Opens(link: Hyperlink)

  function ParseOsc8(code: string): ParsedLink {
    if !(OSC8 <= code) then NotALink
    else
      var terminator := if EndsWith(code, [BEL]) then [BEL] else ST;
      var body := code[4..Max(4, |code| - |terminator|)];
      var separator := FirstIndex(body, ';');
      if separator == -1 then NotALink
      else
        var url := body[separator + 1..];
        if url == "" then Closes else Opens(Hyperlink(body[..separator], url, terminator))
  }

  function FormatOsc8(link: Hyperlink): string {
    OSC8 + link.params + ";" + link.url + link.terminator
  }

  function FormatOsc8Close(terminator: string): string {
    OSC8 + ";" + terminator
  }

  // ---- SGR codes -----------------------------------------------------------------------

  /** Number of a parameter; an empty one is not a number. */
  function ParseInt(part: string): int {
    if Digits(part) then ParseNat(part) else -1
  }

  function Decimal(n: nat): string {
    if n < 10 then [('0' as int + n) as char]
    else Decimal(n / 10) + [('0' as int + n % 10) as char]
  }

  function Join(parts: seq<string>): string {
    if parts == [] then ""
    else if |parts| == 1 then parts[0]
    else parts[0] + ";" + Join(parts[1..])
  }

  predicate IsFgCode(n: int) { 30 <= n <= 37 || 90 <= n <= 97 }

  predicate IsBgCode(n: int) { 40 <= n <= 47 || 100 <= n <= 107 }

  function SetAttribute(a: Attributes, n: int): Attributes {
    if n == 1 then a.(bold := true)
    else if n == 2 then a.(dim := true)
    else if n == 3 then a.(italic := true)
    else if n == 4 then a.(underline := true)
    else if n == 5 then a.(blink := true)
    else if n == 7 then a.(inverse := true)
    else if n == 8 then a.(hidden := true)
    else if n == 9 then a.(strikethrough := true)
    else a
  }

  function ClearAttribute(a: Attributes, n: int): Attributes {
    if n == 21 then a.(bold := false)
    else if n == 22 then a.(bold := false, dim := false)
    else if n == 23 then a.(italic := false)
    else if n == 24 then a.(underline := false)
    else if n == 25 then a.(blink := false)
    else if n == 27 then a.(inverse := false)
    else if n == 28 then a.(hidden := false)
    else if n == 29 then a.(strikethrough := false)
    else a
  }

  function StandardColorCode(st: Style, n: int): Style {
    if n == 39 then st.(fgColor := None)
    else if n == 49 then st.(bgColor := None)
    else if IsFgCode(n) then st.(fgColor := Some(Decimal(n)))
    else if IsBgCode(n) then st.(bgColor := Some(Decimal(n)))
    else st
  }

  /** One parameter on its own. */
  function SgrOne(st: Style, n: int): Style {
    if n == 0 then Reset(st)
    else if n < 10 then st.(attributes := SetAttribute(st.attributes, n))
    else if n < 30 then st.(attributes := ClearAttribute(st.attributes, n))
    else StandardColorCode(st, n)
  }

  /** How many parameters the colour that starts `parts` takes: 3 for 256 colours, 5 for RGB, 0 for none. */
  function ColorLength(parts: seq<string>): nat {
    if parts == [] || (ParseInt(parts[0]) != 38 && ParseInt(parts[0]) != 48) then 0
    else if 3 <= |parts| && parts[1] == "5" then 3
    else if 5 <= |parts| && parts[1] == "2" then 5
    else 0
  }

  function SetColor(st: Style, foreground: bool, color: string): Style {
    if foreground then st.(fgColor := Some(color)) else st.(bgColor := Some(color))
  }

  function ApplySgr(st: Style, parts: seq<string>): Style
    decreases |parts|
  {
    if parts == [] then st
    else
      var n := ColorLength(parts);
      if n > 0 then ApplySgr(SetColor(st, ParseInt(parts[0]) == 38, Join(parts[..n])), parts[n..])
      else ApplySgr(SgrOne(st, ParseInt(parts[0])), parts[1..])
  }

  predicate SgrChar(c: char) { Digit(c) || c == ';' }

  predicate SgrText(s: string) { forall k :: 0 <= k < |s| ==> SgrChar(s[k]) }

  /** A code in which only digits and semicolons stand between CSI and `m`. */
  predicate IsSgr(code: string) {
    3 <= |code| && code[0] == ESC && code[1] == '[' && code[|code| - 1] == 'm' && SgrText(code[2..|code| - 1])
  }

  /** What one escape sequence does to the style. */
  function Process(st: Style, code: string): Style {
    match ParseOsc8(code)
    case Opens(link) => st.(hyperlink := Some(link))
    case Closes => st.(hyperlink := None)
    case NotALink =>
      if !IsSgr(code) then st
      else
        var params := code[2..|code| - 1];
        if params == "" || params == "0" then Reset(st) else ApplySgr(st, SplitOn(params, ';'))
  }

  /** What reading a text does to the style. */
  function Replay(st: Style, items: seq<Item>): Style
    decreases |items|
  {
    if items == [] then st
    else Replay(if items[0].Code? then Process(st, items[0].code) else st, items[1..])
  }

  // ---- Printing a style ---------------------------------------------------------------

  function Flag(on: bool, digit: string): seq<string> { if on then [digit] else [] }

  function ColorCode(color: Option<string>): seq<string> { if color.Some? then [color.value] else [] }

  function ColorCodes(st: Style): seq<string> {
    ColorCode(st.fgColor) + ColorCode(st.bgColor)
  }

  function LateCodes(a: Attributes, colors: seq<string>): seq<string> {
    Flag(a.hidden, "8") + (Flag(a.strikethrough, "9") + colors)
  }

  function MiddleCodes(a: Attributes, colors: seq<string>): seq<string> {
    Flag(a.blink, "5") + (Flag(a.inverse, "7") + LateCodes(a, colors))
  }

  function SgrCodes(st: Style): seq<string> {
    var a := st.attributes;
    Flag(a.bold, "1") + (Flag(a.dim, "2") + (Flag(a.italic, "3") + (Flag(a.underline, "4")
    + MiddleCodes(a, ColorCodes(st)))))
  }

  function SgrOf(params: string): string { [ESC, '['] + params + "m" }

  /** The codes that bring a cleared terminal to the style. */
  function ActiveCodes(st: Style): seq<Item> {
    var codes := SgrCodes(st);
    (if codes != [] then [Code(SgrOf(Join(codes)))] else [])
    + (if st.hyperlink.Some? then [Code(FormatOsc8(st.hyperlink.value))] else [])
  }

  /** The codes that end what must not reach past the end of a line. */
  function LineEndReset(st: Style): seq<Item> {
    (if st.attributes.underline then [Code(SgrOf("24"))] else [])
    + (if st.hyperlink.Some? then [Code(FormatOsc8Close(st.hyperlink.value.terminator))] else [])
  }

  // ---- Splitting and joining -------------------------------------------------------------

  ghost predicate Plain(part: string) { ';' !in part && SgrText(part) }

  /** The parameters that a list of codes, joined, stands for. */
  function Flatten(codes: seq<string>): seq<string> {
    if codes == [] then [] else SplitOn(codes[0], ';') + Flatten(codes[1..])
  }

  lemma {:induction false} SplitJoin(codes: seq<string>)
    requires codes != []
    ensures SplitOn(Join(codes), ';') == Flatten(codes)
    decreases |codes|
  {
    if |codes| == 1 {
      assert Flatten(codes[1..]) == [];
      assert SplitOn(codes[0], ';') + [] == SplitOn(codes[0], ';');
    } else {
      SplitAppend(codes[0], Join(codes[1..]), ';');
      SplitJoin(codes[1..]);
    }
  }

  lemma {:induction false} FlattenAppends(a: seq<string>, b: seq<string>)
    ensures Flatten(a + b) == Flatten(a) + Flatten(b)
    decreases |a|
  {
    if a == [] {
      assert a + b == b;
    } else {
      assert (a + b)[1..] == a[1..] + b;
      FlattenAppends(a[1..], b);
    }
  }

  lemma {:induction false} SplitParts(s: string)
    requires SgrText(s)
    ensures forall k :: 0 <= k < |SplitOn(s, ';')| ==> Plain(SplitOn(s, ';')[k])
    decreases |s|
  {
    if s != "" {
      SplitParts(s[1..]);
    }
  }

  lemma {:induction false} FlattenPlain(parts: seq<string>)
    requires forall k :: 0 <= k < |parts| ==> ';' !in parts[k]
    ensures Flatten(parts) == parts
    decreases |parts|
  {
    if parts != [] {
      SplitPlain(parts[0], ';');
      FlattenPlain(parts[1..]);
    }
  }

  lemma {:induction false} JoinText(parts: seq<string>)
    requires forall k :: 0 <= k < |parts| ==> SgrText(parts[k])
    ensures SgrText(Join(parts))
    decreases |parts|
  {
    if |parts| > 1 {
      JoinText(parts[1..]);
    }
  }

  // ---- Styles that codes can produce ---------------------------------------------------------

  /** The parameters of one colour, of the kind (38 or 48) and range given. */
  ghost predicate IsColor(color: string, foreground: bool) {
    var parts := SplitOn(color, ';');
    && color != "" && color != "0" && SgrText(color)
    && if |parts| == 1 then
         && parts[0] == color && Digits(color) && Decimal(ParseNat(color)) == color
         && (if foreground then IsFgCode(ParseNat(color)) else IsBgCode(ParseNat(color)))
       else
         && ParseInt(parts[0]) == (if foreground then 38 else 48)
         && |parts| == (if parts[1] == "5" then 3 else 5)
         && (parts[1] == "5" || parts[1] == "2")
  }

  ghost predicate IsLink(link: Hyperlink) {
    var code := FormatOsc8(link);
    && IsCode(code) && ParseOsc8(code) == Opens(link)
    && (link.terminator == [BEL] || link.terminator == ST)
  }

  ghost predicate WellFormed(st: Style) {
    && (st.fgColor.Some? ==> IsColor(st.fgColor.value, true))
    && (st.bgColor.Some? ==> IsColor(st.bgColor.value, false))
    && (st.hyperlink.Some? ==> IsLink(st.hyperlink.value))
  }

  /** Numbers are printed as digits that read as the number. */
  lemma {:induction false} DecimalReads(n: nat)
    ensures Digits(Decimal(n)) && ParseNat(Decimal(n)) == n
    ensures 10 <= n ==> |Decimal(n)| >= 2
  {
    var s := Decimal(n);
    if 10 <= n {
      DecimalReads(n / 10);
      assert s[..|s| - 1] == Decimal(n / 10);
    } else {
      assert s[..|s| - 1] == "";
    }
  }

  lemma StandardColor(n: nat, foreground: bool)
    requires if foreground then IsFgCode(n) else IsBgCode(n)
    ensures IsColor(Decimal(n), foreground)
  {
    DecimalReads(n);
    SplitPlain(Decimal(n), ';');
  }

  lemma PackedColor(parts: seq<string>, n: nat)
    requires forall k :: 0 <= k < |parts| ==> Plain(parts[k])
    requires n == ColorLength(parts) > 0
    ensures n <= |parts| && IsColor(Join(parts[..n]), ParseInt(parts[0]) == 38)
  {
    var color := Join(parts[..n]);
    SplitJoin(parts[..n]);
    FlattenPlain(parts[..n]);
    JoinText(parts[..n]);
    assert SplitOn(color, ';') == parts[..n];
    assert color == parts[0] + ";" + Join(parts[..n][1..]);
    assert |color| >= 2;
  }

  lemma ForegroundKeeps(st: Style, n: int)
    requires WellFormed(st) && IsFgCode(n)
    ensures WellFormed(SetColor(st, true, Decimal(n)))
  {
    StandardColor(n, true);
    SetColorKeeps(st, true, Decimal(n));
  }

  lemma BackgroundKeeps(st: Style, n: int)
    requires WellFormed(st) && IsBgCode(n)
    ensures WellFormed(SetColor(st, false, Decimal(n)))
  {
    StandardColor(n, false);
    SetColorKeeps(st, false, Decimal(n));
  }

  lemma StandardColorKeeps(st: Style, n: int)
    requires WellFormed(st)
    ensures WellFormed(StandardColorCode(st, n)) && StandardColorCode(st, n).hyperlink == st.hyperlink
  {
    if n == 39 || n == 49 {
    } else if IsFgCode(n) {
      ForegroundKeeps(st, n);
    } else if IsBgCode(n) {
      BackgroundKeeps(st, n);
    }
  }

  lemma SgrOneKeeps(st: Style, n: int)
    requires WellFormed(st)
    ensures WellFormed(SgrOne(st, n)) && SgrOne(st, n).hyperlink == st.hyperlink
  {
    StandardColorKeeps(st, n);
  }

  lemma SetColorKeeps(st: Style, foreground: bool, color: string)
    requires WellFormed(st) && IsColor(color, foreground)
    ensures WellFormed(SetColor(st, foreground, color)) && SetColor(st, foreground, color).hyperlink == st.hyperlink
  {
  }

  lemma {:induction false} ApplyKeepsWellFormed(st: Style, parts: seq<string>)
    requires WellFormed(st) && forall k :: 0 <= k < |parts| ==> Plain(parts[k])
    ensures WellFormed(ApplySgr(st, parts)) && ApplySgr(st, parts).hyperlink == st.hyperlink
    decreases |parts|
  {
    if parts != [] {
      var n := ColorLength(parts);
      if n > 0 {
        PackedColor(parts, n);
        SetColorKeeps(st, ParseInt(parts[0]) == 38, Join(parts[..n]));
        ApplyKeepsWellFormed(SetColor(st, ParseInt(parts[0]) == 38, Join(parts[..n])), parts[n..]);
      } else {
        SgrOneKeeps(st, ParseInt(parts[0]));
        ApplyKeepsWellFormed(SgrOne(st, ParseInt(parts[0])), parts[1..]);
      }
    }
  }

  lemma LinkBody(code: string, n: nat, link: Hyperlink)
    requires 4 <= |code| - n && code[..4] == OSC8 && code[|code| - n..] == link.terminator
    requires code[4..|code| - n] == link.params + ";" + link.url
    ensures FormatOsc8(link) == code
  {
    assert code == code[..4] + code[4..|code| - n] + code[|code| - n..];
  }

  lemma LinkPrints(code: string, link: Hyperlink)
    requires IsCode(code) && ParseOsc8(code) == Opens(link)
    ensures FormatOsc8(link) == code
  {
    ControlEndsTerminated(code, 2);
    var n := |link.terminator|;
    var body := code[4..|code| - n];
    assert body == link.params + ";" + link.url;
    LinkBody(code, n, link);
  }

  /** A link read from a code is printed as that code. */
  lemma LinkOfCode(code: string)
    requires IsCode(code) && ParseOsc8(code).Opens?
    ensures FormatOsc8(ParseOsc8(code).link) == code && IsLink(ParseOsc8(code).link)
  {
    LinkPrints(code, ParseOsc8(code).link);
  }

  /** A control string ends in BEL or ST, and has room for its terminator after the introducer. */
  lemma {:induction false} ControlEndsTerminated(code: string, j: nat)
    requires ControlEnd(code, j, true) == Some(|code|)
    ensures EndsWith(code, [BEL]) || EndsWith(code, ST)
    ensures |code| >= j + (if EndsWith(code, [BEL]) then 1 else 2)
    decreases |code| - j
  {
    if code[j] == BEL {
      assert code[|code| - 1..] == [BEL];
    } else if EscapeAt(code, j, '\\') {
      assert code[|code| - 2..] == ST;
      assert code[|code| - 1..] == ['\\'];
    } else {
      ControlEndsTerminated(code, j + 1);
    }
  }

  lemma ProcessKeepsWellFormed(st: Style, code: string)
    requires WellFormed(st) && IsCode(code)
    ensures WellFormed(Process(st, code))
  {
    match ParseOsc8(code)
    case Opens(link) => LinkOfCode(code);
    case Closes =>
    case NotALink =>
      if IsSgr(code) {
        SplitParts(code[2..|code| - 1]);
        ApplyKeepsWellFormed(st, SplitOn(code[2..|code| - 1], ';'));
      }
  }

  lemma {:induction false} ReplayKeepsWellFormed(st: Style, items: seq<Item>)
    requires WellFormed(st) && forall k :: 0 <= k < |items| && items[k].Code? ==> IsCode(items[k].code)
    ensures WellFormed(Replay(st, items))
    decreases |items|
  {
    if items != [] {
      if items[0].Code? {
        ProcessKeepsWellFormed(st, items[0].code);
      }
      ReplayKeepsWellFormed(if items[0].Code? then Process(st, items[0].code) else st, items[1..]);
    }
  }

  lemma {:induction false} ReplayAppends(st: Style, a: seq<Item>, b: seq<Item>)
    ensures Replay(st, a + b) == Replay(Replay(st, a), b)
    decreases |a|
  {
    if a == [] {
      assert a + b == b;
    } else {
      assert (a + b)[0] == a[0] && (a + b)[1..] == a[1..] + b;
      ReplayAppends(if a[0].Code? then Process(st, a[0].code) else st, a[1..], b);
    }
  }

  // ---- Printing and reading back ------------------------------------------------------------------

  lemma DigitValue(c: char)
    requires Digit(c)
    ensures ParseInt([c]) == c as int - '0' as int
  {
    var s := [c];
    assert s[..|s| - 1] == "" && s[|s| - 1] == c;
    assert Digits(s);
    assert ParseNat("") == 0;
  }

  lemma DigitParts(digit: char, rest: seq<string>)
    requires Digit(digit)
    ensures Flatten([[digit]] + rest) == [[digit]] + Flatten(rest)
  {
    SplitPlain([digit], ';');
    assert ([[digit]] + rest)[1..] == rest;
  }

  lemma PlainApplies(st: Style, part: string, parts: seq<string>)
    requires ParseInt(part) != 38 && ParseInt(part) != 48
    ensures ApplySgr(st, [part] + parts) == ApplySgr(SgrOne(st, ParseInt(part)), parts)
  {
    assert ([part] + parts)[1..] == parts;
  }

  lemma FlagCode(st: Style, n: nat)
    requires 1 <= n <= 9
    ensures SgrOne(st, n) == st.(attributes := SetAttribute(st.attributes, n))
  {
  }

  lemma DigitApplies(st: Style, digit: char, parts: seq<string>)
    requires Digit(digit) && digit != '0'
    ensures ApplySgr(st, [[digit]] + parts)
            == ApplySgr(st.(attributes := SetAttribute(st.attributes, digit as int - '0' as int)), parts)
  {
    DigitValue(digit);
    PlainApplies(st, [digit], parts);
    FlagCode(st, digit as int - '0' as int);
  }

  lemma FlagStep(st: Style, on: bool, digit: char, a: Attributes, rest: seq<string>)
    requires Digit(digit) && digit != '0'
    requires a == if on then SetAttribute(st.attributes, digit as int - '0' as int) else st.attributes
    ensures ApplySgr(st, Flatten(Flag(on, [digit]) + rest)) == ApplySgr(st.(attributes := a), Flatten(rest))
  {
    if on {
      DigitParts(digit, rest);
      DigitApplies(st, digit, Flatten(rest));
    } else {
      assert [] + rest == rest;
    }
  }

  lemma ColorStep(st: Style, color: Option<string>, foreground: bool, rest: seq<string>)
    requires color.Some? ==> IsColor(color.value, foreground)
    ensures ApplySgr(st, Flatten(ColorCode(color) + rest))
         == ApplySgr(if color.Some? then SetColor(st, foreground, color.value) else st, Flatten(rest))
  {
    if color.Some? {
      assert ([color.value] + rest)[1..] == rest;
      OneColorStep(st, color.value, foreground, Flatten(rest));
    } else {
      assert [] + rest == rest;
    }
  }

  lemma OneColorStep(st: Style, color: string, foreground: bool, rest: seq<string>)
    requires IsColor(color, foreground)
    ensures ApplySgr(st, SplitOn(color, ';') + rest) == ApplySgr(SetColor(st, foreground, color), rest)
  {
    var parts := SplitOn(color, ';');
    var all := parts + rest;
    assert all[0] == parts[0] && all[|parts|..] == rest;
    if |parts| == 1 {
      assert ColorLength(all) == 0;
    } else {
      JoinOfSplit(color);
      assert ColorLength(all) == |parts|;
      assert all[..|parts|] == parts;
    }
  }

  lemma {:induction false} JoinOfSplit(s: string)
    ensures Join(SplitOn(s, ';')) == s
    decreases |s|
  {
    if s != "" {
      JoinOfSplit(s[1..]);
      var rest := SplitOn(s[1..], ';');
      var parts := SplitOn(s, ';');
      if s[0] == ';' {
        assert parts[1..] == rest;
        assert s == "" + ";" + s[1..];
      } else {
        assert parts[1..] == rest[1..];
        assert s == [s[0]] + s[1..];
      }
    }
  }

  lemma ColorsRestore(st: Style, target: Style)
    requires WellFormed(target) && st.fgColor == None && st.bgColor == None
    ensures ApplySgr(st, Flatten(ColorCodes(target))) == st.(fgColor := target.fgColor, bgColor := target.bgColor)
  {
    ColorStep(st, target.fgColor, true, ColorCode(target.bgColor));
    assert ColorCode(target.bgColor) + [] == ColorCode(target.bgColor);
    ColorStep(st.(fgColor := target.fgColor), target.bgColor, false, []);
  }

  lemma PairStep(st: Style, on1: bool, d1: char, a1: Attributes, on2: bool, d2: char, a2: Attributes, rest: seq<string>)
    requires Digit(d1) && d1 != '0' && Digit(d2) && d2 != '0'
    requires a1 == if on1 then SetAttribute(st.attributes, d1 as int - '0' as int) else st.attributes
    requires a2 == if on2 then SetAttribute(a1, d2 as int - '0' as int) else a1
    ensures ApplySgr(st, Flatten(Flag(on1, [d1]) + (Flag(on2, [d2]) + rest)))
         == ApplySgr(st.(attributes := a2), Flatten(rest))
  {
    FlagStep(st, on1, d1, a1, Flag(on2, [d2]) + rest);
    FlagStep(st.(attributes := a1), on2, d2, a2, rest);
  }

  lemma LateRestore(st: Style, a: Attributes, a4: Attributes, colors: seq<string>)
    requires !st.attributes.hidden && !st.attributes.strikethrough
    requires a4 == st.attributes.(hidden := a.hidden, strikethrough := a.strikethrough)
    ensures ApplySgr(st, Flatten(LateCodes(a, colors))) == ApplySgr(st.(attributes := a4), Flatten(colors))
  {
    PairStep(st, a.hidden, '8', st.attributes.(hidden := a.hidden), a.strikethrough, '9', a4, colors);
  }

  lemma MiddleRestore(st: Style, a: Attributes, a2: Attributes, a4: Attributes, colors: seq<string>)
    requires !st.attributes.blink && !st.attributes.inverse && !st.attributes.hidden && !st.attributes.strikethrough
    requires a2 == st.attributes.(blink := a.blink, inverse := a.inverse)
    requires a4 == a2.(hidden := a.hidden, strikethrough := a.strikethrough)
    ensures ApplySgr(st, Flatten(MiddleCodes(a, colors))) == ApplySgr(st.(attributes := a4), Flatten(colors))
  {
    PairStep(st, a.blink, '5', st.attributes.(blink := a.blink), a.inverse, '7', a2, LateCodes(a, colors));
    LateRestore(st.(attributes := a2), a, a4, colors);
  }

  /** Reading the printed attributes and colours from a cleared style. */
  lemma FrontRestore(a: Attributes, a4: Attributes, rest: seq<string>)
    requires a4 == NO_ATTRIBUTES.(bold := a.bold, dim := a.dim, italic := a.italic, underline := a.underline)
    ensures ApplySgr(CLEAR, Flatten(Flag(a.bold, "1")
                                    + (Flag(a.dim, "2") + (Flag(a.italic, "3") + (Flag(a.underline, "4") + rest)))))
         == ApplySgr(CLEAR.(attributes := a4), Flatten(rest))
  {
    var a1 := NO_ATTRIBUTES.(bold := a.bold);
    var a2 := a1.(dim := a.dim);
    PairStep(CLEAR, a.bold, '1', a1, a.dim, '2', a2, Flag(a.italic, "3") + (Flag(a.underline, "4") + rest));
    PairStep(CLEAR.(attributes := a2), a.italic, '3', a2.(italic := a.italic), a.underline, '4', a4, rest);
  }

  lemma PrintedSgrRestores(st: Style)
    requires WellFormed(st)
    ensures ApplySgr(CLEAR, Flatten(SgrCodes(st))) == st.(hyperlink := None)
  {
    var a, colors := st.attributes, ColorCodes(st);
    var a4 := NO_ATTRIBUTES.(bold := a.bold, dim := a.dim, italic := a.italic, underline := a.underline);
    FrontRestore(a, a4, MiddleCodes(a, colors));
    MiddleRestore(CLEAR.(attributes := a4), a, a4.(blink := a.blink, inverse := a.inverse), a, colors);
    ColorsRestore(CLEAR.(attributes := a), st);
  }

  ghost predicate Printable(codes: seq<string>) {
    forall k :: 0 <= k < |codes| ==> SgrText(codes[k]) && codes[k] != "" && codes[k] != "0"
  }

  lemma JoinPrintable(codes: seq<string>)
    requires Printable(codes) && codes != []
    ensures SgrText(Join(codes)) && Join(codes) != "" && Join(codes) != "0"
  {
    JoinText(codes);
    if |codes| > 1 {
      assert Join(codes)[|codes[0]|] == ';';
    }
  }

  lemma FlagPrintable(on: bool, digit: char, rest: seq<string>)
    requires Digit(digit) && digit != '0' && Printable(rest)
    ensures Printable(Flag(on, [digit]) + rest)
  {
  }

  lemma ColorsPrintable(st: Style)
    requires WellFormed(st)
    ensures Printable(ColorCodes(st))
  {
  }

  lemma SgrCodesText(st: Style)
    requires WellFormed(st) && SgrCodes(st) != []
    ensures SgrText(Join(SgrCodes(st))) && Join(SgrCodes(st)) != "" && Join(SgrCodes(st)) != "0"
  {
    var a, r8 := st.attributes, ColorCodes(st);
    ColorsPrintable(st);
    FlagPrintable(a.strikethrough, '9', r8);
    var r7 := Flag(a.strikethrough, "9") + r8;
    FlagPrintable(a.hidden, '8', r7);
    var r6 := Flag(a.hidden, "8") + r7;
    FlagPrintable(a.inverse, '7', r6);
    FlagPrintable(a.blink, '5', Flag(a.inverse, "7") + r6);
    var r4 := MiddleCodes(a, r8);
    FlagPrintable(a.underline, '4', r4);
    var r3 := Flag(a.underline, "4") + r4;
    FlagPrintable(a.italic, '3', r3);
    var r2 := Flag(a.italic, "3") + r3;
    FlagPrintable(a.dim, '2', r2);
    FlagPrintable(a.bold, '1', Flag(a.dim, "2") + r2);
    JoinPrintable(SgrCodes(st));
  }

  lemma {:induction false} ParametersEnd(code: string, j: nat)
    requires IsSgr(code) && 2 <= j < |code|
    ensures CsiEnd(code, j, false) == Some(|code|)
    decreases |code| - j
  {
    if j < |code| - 1 {
      assert code[j] == code[2..|code| - 1][j - 2];
      ParametersEnd(code, j + 1);
    }
  }

  lemma SgrIsCode(params: string)
    requires SgrText(params)
    ensures IsSgr(SgrOf(params)) && IsCode(SgrOf(params)) && ParseOsc8(SgrOf(params)) == NotALink
    ensures SgrOf(params)[2..|SgrOf(params)| - 1] == params
  {
    var code := SgrOf(params);
    assert code[2..|code| - 1] == params;
    ParametersEnd(code, 2);
    assert code[1] == '[';
    assert OSC8[1] == ']';
  }

  /** The printed codes are whole codes, so any text they are put into still scans as it should. */
  lemma ActiveCodesAreClean(st: Style)
    requires WellFormed(st)
    ensures Clean(ActiveCodes(st))
  {
    if SgrCodes(st) != [] {
      SgrCodesText(st);
      SgrIsCode(Join(SgrCodes(st)));
    }
  }

  /** Replaying the active codes on a cleared style rebuilds the style. */
  lemma ActiveCodesRestore(st: Style)
    requires WellFormed(st)
    ensures Replay(CLEAR, ActiveCodes(st)) == st
  {
    var codes := SgrCodes(st);
    var base := st.(hyperlink := None);
    var sgr: seq<Item> := if codes != [] then [Code(SgrOf(Join(codes)))] else [];
    var link: seq<Item> := if st.hyperlink.Some? then [Code(FormatOsc8(st.hyperlink.value))] else [];
    PrintedSgrRestores(st);
    if codes != [] {
      SgrCodesText(st);
      SgrIsCode(Join(codes));
      SplitJoin(codes);
      ReplayOne(CLEAR, SgrOf(Join(codes)));
    }
    assert Replay(CLEAR, sgr) == base;
    if st.hyperlink.Some? {
      ReplayOne(base, FormatOsc8(st.hyperlink.value));
    }
    assert Replay(base, link) == st;
    ReplayAppends(CLEAR, sgr, link);
  }

  lemma ReplayOne(st: Style, code: string)
    ensures Replay(st, [Code(code)]) == Process(st, code)
  {
    assert [Code(code)][1..] == [];
  }

  /**
   Replay round trip, on strings: after any codes whatever, scanning the printed form of the
   resulting style from a cleared one gives that style back.
   */
  lemma ReplayRoundTrip(codes: seq<Item>)
    requires forall k :: 0 <= k < |codes| && codes[k].Code? ==> IsCode(codes[k].code)
    ensures var st := Replay(CLEAR, codes);
            Replay(CLEAR, Lex(Text(ActiveCodes(st)))) == st
  {
    ReplayKeepsWellFormed(CLEAR, codes);
    var st := Replay(CLEAR, codes);
    ActiveCodesAreClean(st);
    LexOfText(ActiveCodes(st));
    ActiveCodesRestore(st);
  }

  function WithoutUnderline(st: Style): Style {
    st.(attributes := st.attributes.(underline := false))
  }

  lemma UnderlineCloses(st: Style)
    ensures var codes: seq<Item> := if st.attributes.underline then [Code(SgrOf("24"))] else [];
            Clean(codes) && Replay(st, codes) == WithoutUnderline(st)
  {
    SgrIsCode("24");
    UnderlineOff(st);
    ReplayOne(st, SgrOf("24"));
  }

  lemma HyperlinkCloses(st: Style)
    requires st.hyperlink.Some? ==> IsLink(st.hyperlink.value)
    ensures var codes: seq<Item> :=
              if st.hyperlink.Some? then [Code(FormatOsc8Close(st.hyperlink.value.terminator))] else [];
            Clean(codes) && Replay(st, codes) == st.(hyperlink := None)
  {
    if st.hyperlink.Some? {
      CloseIsCode(st.hyperlink.value.terminator);
      ReplayOne(st, FormatOsc8Close(st.hyperlink.value.terminator));
    }
  }

  /** The codes at a line's end close the underline and the hyperlink, and leave the rest of the style. */
  lemma LineEndResetCloses(st: Style)
    requires WellFormed(st)
    ensures Clean(LineEndReset(st))
    ensures Replay(st, LineEndReset(st)) == WithoutUnderline(st).(hyperlink := None)
  {
    var under: seq<Item> := if st.attributes.underline then [Code(SgrOf("24"))] else [];
    var close: seq<Item> := if st.hyperlink.Some? then [Code(FormatOsc8Close(st.hyperlink.value.terminator))] else [];
    UnderlineCloses(st);
    HyperlinkCloses(WithoutUnderline(st));
    ReplayAppends(st, under, close);
  }

  lemma UnderlineOff(st: Style)
    ensures ApplySgr(st, SplitOn("24", ';')) == WithoutUnderline(st)
  {
    SplitPlain("24", ';');
    assert "24"[..1] == "2" && "2"[..0] == "";
    assert ParseNat("2") == 2 && ParseInt("24") == 24;
    assert ["24"][1..] == [];
  }

  lemma CloseEnds(code: string, terminator: string)
    requires terminator == [BEL] || terminator == ST
    requires code == [ESC, ']', '8', ';', ';'] + terminator
    ensures IsCode(code)
  {
    assert ControlEnd(code, 5, true) == Some(|code|);
    assert ControlEnd(code, 4, true) == ControlEnd(code, 5, true);
    assert ControlEnd(code, 3, true) == ControlEnd(code, 4, true);
    assert ControlEnd(code, 2, true) == ControlEnd(code, 3, true);
  }

  lemma CloseParses(code: string, terminator: string)
    requires terminator == (if EndsWith(code, [BEL]) then [BEL] else ST)
    requires OSC8 <= code && 4 <= |code| - |terminator| && code[4..|code| - |terminator|] == [';']
    ensures ParseOsc8(code) == Closes
  {
    assert FirstIndex([';'], ';') == 0;
    assert [';'][1..] == "";
  }

  lemma CloseIsCode(terminator: string)
    requires terminator == [BEL] || terminator == ST
    ensures IsCode(FormatOsc8Close(terminator)) && ParseOsc8(FormatOsc8Close(terminator)) == Closes
  {
    var code := FormatOsc8Close(terminator);
    assert code == [ESC, ']', '8', ';', ';'] + terminator;
    CloseEnds(code, terminator);
    assert code[|code| - 1..] == terminator[|terminator| - 1..];
    CloseParses(code, terminator);
  }

  lemma OpenTitleRuns(text: string, close: string)
    requires text == [ESC, ']', '0', ';', 't'] && close == FormatOsc8Close([BEL])
    ensures IsCode(text + close) && AnsiEnd(text, 0) == None
  {
    var all := text + close;
    assert all == [ESC, ']', '0', ';', 't', ESC, ']', '8', ';', ';', BEL];
    assert ControlEnd(all, 10, true) == Some(11);
    assert ControlEnd(all, 8, true) == ControlEnd(all, 9, true) == Some(11);
    assert ControlEnd(all, 6, true) == ControlEnd(all, 7, true) == Some(11);
    assert ControlEnd(all, 4, true) == ControlEnd(all, 5, true) == Some(11);
    assert ControlEnd(all, 2, true) == ControlEnd(all, 3, true) == Some(11);
    assert ControlEnd(text, 4, true) == ControlEnd(text, 5, true) == None;
    assert ControlEnd(text, 2, true) == ControlEnd(text, 3, true) == None;
  }

  /**
   A title left open takes the code that closes a hyperlink with it: as one text they are a
   single code, which leaves the hyperlink open.
   */
  lemma CloseCanBeSwallowed(st: Style, text: string, close: string)
    requires text == [ESC, ']', '0', ';', 't'] && close == FormatOsc8Close([BEL])
    ensures !StaysOpenIn(text, close) && Lex(text + close) == [Code(text + close)]
    ensures Replay(st, Lex(text + close)) == st && Replay(st, [Code(close)]).hyperlink == None
  {
    OpenTitleRuns(text, close);
    var all := text + close;
    AnsiEndBounds(all, 0);
    assert all[..|all|] == all && all[|all|..] == "";
    assert all[2] == '0' && !(OSC8 <= all);
    ReplayOne(st, all);
    CloseIsCode([BEL]);
    ReplayOne(st, close);
  }

  // ---- Closing a hyperlink behind any text ----------------------------------------------------

  /** The code that closes a hyperlink, with either terminator. */
  predicate IsClose(close: string) {
    close == FormatOsc8Close([BEL]) || close == FormatOsc8Close(ST)
  }

  lemma CloseSpelled(close: string) returns (terminator: string)
    requires IsClose(close)
    ensures close == [ESC, ']', '8', ';', ';'] + terminator
    ensures terminator == if EndsWith(close, [BEL]) then [BEL] else ST
  {
    terminator := if close == FormatOsc8Close([BEL]) then [BEL] else ST;
    assert close == [ESC, ']', '8', ';', ';'] + terminator;
    assert close[|close| - 1..] == [terminator[|terminator| - 1]];
  }

  lemma CloseRuns(line: string, close: string, allowBel: bool)
    requires IsClose(close)
    ensures var e := ControlEnd(line + close, |line|, allowBel); e.Some? ==> e == Some(|line + close|)
  {
    var all, n := line + close, |line|;
    var terminator := CloseSpelled(close);
    assert forall k :: 0 <= k < |close| ==> all[n + k] == close[k];
    if terminator == [BEL] {
      assert ControlEnd(all, n + 6, allowBel) == None;
    } else {
      assert EscapeAt(all, n + 5, '\\');
    }
    assert ControlEnd(all, n + 4, allowBel) == ControlEnd(all, n + 5, allowBel);
    assert ControlEnd(all, n + 2, allowBel) == ControlEnd(all, n + 3, allowBel) == ControlEnd(all, n + 4, allowBel);
    assert ControlEnd(all, n, allowBel) == ControlEnd(all, n + 1, allowBel) == ControlEnd(all, n + 2, allowBel);
  }

  /** A control string left open in `line` ends nowhere before the end of the close behind it. */
  lemma {:induction false} RunsToTheEnd(line: string, close: string, j: nat, allowBel: bool)
    requires IsClose(close) && j <= |line| && ControlEnd(line, j, allowBel) == None
    ensures ControlEnd(line + close, j, allowBel).Some? ==>
              ControlEnd(line + close, j, allowBel) == Some(|line + close|)
    decreases |line| - j
  {
    var all, n := line + close, |line|;
    if j < n {
      assert EscapeAt(all, j, '\\') ==> EscapeAt(line, j, '\\');
      RunsToTheEnd(line, close, j + 1, allowBel);
    } else {
      CloseRuns(line, close, allowBel);
    }
  }

  /** A CSI sequence left open is not ended by it at all. */
  lemma {:induction false} CsiStaysOpen(line: string, close: string, j: nat, hasIntermediate: bool)
    requires IsClose(close) && j <= |line| && CsiEnd(line, j, hasIntermediate) == None
    ensures CsiEnd(line + close, j, hasIntermediate) == None
    decreases |line| - j
  {
    if j == |line| {
      assert (line + close)[j] == ESC;
    } else if '0' <= line[j] <= '?' && !hasIntermediate {
      CsiStaysOpen(line, close, j + 1, false);
    } else if ' ' <= line[j] <= '/' {
      CsiStaysOpen(line, close, j + 1, true);
    }
  }

  /** So an ESC that only the close completes makes one code of all the rest, which does not close anything. */
  lemma CompletedTakesAll(line: string, close: string)
    requires IsClose(close) && line != "" && AnsiEnd(line, 0) == None && AnsiEnd(line + close, 0).Some?
    ensures Lex(line + close) == [Code(line + close)]
    ensures !IsSgr(line + close) && ParseOsc8(line + close) != Closes
  {
    var all := line + close;
    assert all[|line|] == ESC;
    assert all[0] == line[0] && all[1] == line[1];
    if line[1] == '[' {
      CsiStaysOpen(line, close, 2, false);
    } else {
      RunsToTheEnd(line, close, 2, AcceptsBel(line[1]));
    }
    assert AnsiEnd(all, 0) == Some(|all|);
    assert all[..|all|] == all && all[|all|..] == "";
    CompletedIsNoClose(line, close);
  }

  lemma CompletedIsNoClose(line: string, close: string)
    requires IsClose(close) && |line| >= 2
    ensures ParseOsc8(line + close) != Closes
  {
    var all := line + close;
    var terminator := CloseSpelled(close);
    assert close[|close| - 1..] == all[|all| - 1..];
    var body := all[4..|all| - |terminator|];
    assert body[|body| - 2] == close[3] == ';';
  }

  /** The style in front of the first ESC in `line` that `close` completes, and the text from there on. */
  function Completed(st: Style, line: string, close: string): (Style, string)
    requires !StaysOpenIn(line, close)
    decreases |line|
  {
    AnsiEndBounds(line, 0);
    match AnsiEnd(line, 0)
    case Some(e) => Completed(Process(st, line[..e]), line[e..], close)
    case None => if AnsiEnd(line + close, 0).Some? then (st, line) else Completed(st, line[1..], close)
  }

  lemma {:induction false} CompletedReads(st: Style, line: string, close: string)
    requires IsClose(close) && !StaysOpenIn(line, close)
    ensures var (before, rest) := Completed(st, line, close);
            && Replay(st, Lex(line + close)) == Process(before, rest + close)
            && !IsSgr(rest + close) && ParseOsc8(rest + close) != Closes
    decreases |line|
  {
    match AnsiEnd(line, 0)
    case Some(e) =>
      FoundStays(line, close, e);
      CompletedReads(Process(st, line[..e]), line[e..], close);
      ReplayHead(st, Code(line[..e]), Lex(line[e..] + close));
    case None =>
      if AnsiEnd(line + close, 0).Some? {
        CompletedTakesAll(line, close);
        ReplayOne(st, line + close);
      } else {
        assert (line + close)[0] == line[0] && (line + close)[1..] == line[1..] + close;
        CompletedReads(st, line[1..], close);
        ReplayHead(st, Glyph(line[0]), Lex(line[1..] + close));
      }
  }

  lemma ReplayHead(st: Style, head: Item, rest: seq<Item>)
    ensures Replay(st, [head] + rest) == Replay(if head.Code? then Process(st, head.code) else st, rest)
  {
    assert ([head] + rest)[1..] == rest;
  }

  lemma LexClose(close: string)
    requires IsClose(close)
    ensures Lex(close) == [Code(close)] && ParseOsc8(close) == Closes
  {
    CloseIsCode([BEL]);
    CloseIsCode(ST);
    LexCode(close, "");
    assert close + "" == close;
  }

  /**
   Behind any text, the code that closes a hyperlink leaves none open exactly when the text has
   no ESC that it completes, or else when none was open in front of the first such ESC and the
   code that becomes of the rest opens none.
   */
  lemma CloseTakesExactlyWhen(st: Style, line: string, close: string)
    requires IsClose(close)
    ensures Replay(st, Lex(line + close)).hyperlink == None
            <==> StaysOpenIn(line, close)
                 || (var (before, rest) := Completed(st, line, close);
                     before.hyperlink == None && ParseOsc8(rest + close) == NotALink)
  {
    if StaysOpenIn(line, close) {
      TextsJoinExactlyWhen(line, close);
      LexClose(close);
      ReplayAppends(st, Lex(line), [Code(close)]);
      ReplayOne(Replay(st, Lex(line)), close);
    } else {
      CompletedReads(st, line, close);
    }
  }
}
