/**
 What the escape sequences of a text are, and what the style codes among them say, stated as
 ECMA-48 lists them: the scanner recognises exactly these sequences, and the style follows them.
 */
module AnsiCodes {

  import opened Common
  import opened AnsiScan
  import opened AnsiStyle

  // ---- Sequences ---------------------------------------------------------------------------

  /** `Osc` and `Apc` may end with BEL; the others only with the string terminator. */
  datatype Sequence =
    | Csi(parameters: string, intermediates: string, final: char)
    | Osc(body: string, bell: bool)
    | Apc(body: string, bell: bool)
    | Dcs(body: string)
    | Pm(body: string)
    | Sos(body: string)
  {
    ghost predicate Valid() {
      match this
      case Csi(parameters, intermediates, final) =>
        && (forall k :: 0 <= k < |parameters| ==> '0' <= parameters[k] <= '?')
        && (forall k :: 0 <= k < |intermediates| ==> ' ' <= intermediates[k] <= '/')
        && '@' <= final <= '~'
      case Osc(body, _) => Unterminated(body) && BEL !in body
      case Apc(body, _) => Unterminated(body) && BEL !in body
      case _ => Unterminated(body)
    }

    function Spell(): string {
      match this
      case Csi(parameters, intermediates, final) => [ESC, '['] + parameters + intermediates + [final]
      case Osc(body, bell) => [ESC, ']'] + body + End(bell)
      case Apc(body, bell) => [ESC, '_'] + body + End(bell)
      case Dcs(body) => [ESC, 'P'] + body + End(false)
      case Pm(body) => [ESC, '^'] + body + End(false)
      case Sos(body) => [ESC, 'X'] + body + End(false)
    }
  }

  function End(bell: bool): string {
    if bell then [BEL] else [ESC, '\\']
  }

  /** Parameters from `j` to `n`, intermediates from there to `m`, and the final byte. */
  ghost predicate CsiParts(s: string, j: nat, n: nat, m: nat) {
    && j <= n <= m < |s|
    && (forall k :: j <= k < n ==> '0' <= s[k] <= '?')
    && (forall k :: n <= k < m ==> ' ' <= s[k] <= '/')
    && '@' <= s[m] <= '~'
  }

  lemma {:induction false} CsiEndsAt(s: string, j: nat, n: nat, m: nat, hasIntermediate: bool)
    requires CsiParts(s, j, n, m) && (hasIntermediate ==> n == j)
    ensures CsiEnd(s, j, hasIntermediate) == Some(m + 1)
    decreases m - j
  {
    if j < n {
      CsiEndsAt(s, j + 1, n, m, false);
    } else if j < m {
      CsiEndsAt(s, j + 1, j + 1, m, true);
    }
  }

  lemma {:induction false} PartsOfCsi(s: string, j: nat, hasIntermediate: bool) returns (n: nat, m: nat)
    requires CsiEnd(s, j, hasIntermediate).Some?
    ensures CsiParts(s, j, n, m) && (hasIntermediate ==> n == j) && CsiEnd(s, j, hasIntermediate) == Some(m + 1)
    decreases |s| - j
  {
    if '0' <= s[j] <= '?' && !hasIntermediate {
      n, m := PartsOfCsi(s, j + 1, false);
    } else if ' ' <= s[j] <= '/' {
      n, m := PartsOfCsi(s, j + 1, true);
      n := j;
    } else {
      n, m := j, j;
    }
  }

  /** The terminator at `k` is the first from `j` on. */
  ghost predicate EndsFirstAt(s: string, j: nat, k: nat, allowBel: bool) {
    && j <= k < |s|
    && ((allowBel && s[k] == BEL) || EscapeAt(s, k, '\\'))
    && forall i :: j <= i < k ==> !(allowBel && s[i] == BEL) && !EscapeAt(s, i, '\\')
  }

  function After(s: string, k: nat): nat
    requires k < |s|
  {
    if s[k] == BEL then k + 1 else k + 2
  }

  lemma {:induction false} ControlEndsAt(s: string, j: nat, k: nat, allowBel: bool)
    requires EndsFirstAt(s, j, k, allowBel)
    ensures ControlEnd(s, j, allowBel) == Some(After(s, k))
    decreases k - j
  {
    if j < k {
      ControlEndsAt(s, j + 1, k, allowBel);
    }
  }

  lemma {:induction false} EndOfControl(s: string, j: nat, allowBel: bool) returns (k: nat)
    requires ControlEnd(s, j, allowBel).Some?
    ensures EndsFirstAt(s, j, k, allowBel) && ControlEnd(s, j, allowBel) == Some(After(s, k))
    decreases |s| - j
  {
    if (allowBel && s[j] == BEL) || EscapeAt(s, j, '\\') {
      k := j;
    } else {
      k := EndOfControl(s, j + 1, allowBel);
    }
  }

  lemma StringIsCode(letter: char, body: string, bell: bool)
    requires letter in {']', '_'} || (letter in {'P', '^', 'X'} && !bell)
    requires Unterminated(body) && (letter in {']', '_'} ==> BEL !in body)
    ensures IsCode([ESC, letter] + body + End(bell))
  {
    var s, k := [ESC, letter] + body + End(bell), 2 + |body|;
    assert s[0] == ESC && s[1] == letter && s[k] == End(bell)[0];
    forall i | 2 <= i < k ensures s[i] == body[i - 2] && !EscapeAt(s, i, '\\') {
      assert i + 1 < k ==> s[i + 1] == body[i - 1];
      assert i + 1 == k ==> s[i + 1] == End(bell)[0];
    }
    if !bell {
      assert s[k + 1] == '\\';
    }
    ControlEndsAt(s, 2, k, letter in {']', '_'});
  }

  lemma SequenceIsCode(q: Sequence)
    requires q.Valid()
    ensures IsCode(q.Spell())
  {
    match q
    case Csi(parameters, intermediates, final) =>
      var s, n := q.Spell(), 2 + |parameters|;
      assert forall k :: 2 <= k < n ==> s[k] == parameters[k - 2];
      assert forall k :: n <= k < n + |intermediates| ==> s[k] == intermediates[k - n];
      assert s[0] == ESC && s[1] == '[' && s[n + |intermediates|] == final;
      CsiEndsAt(s, 2, n, n + |intermediates|, false);
    case Osc(body, bell) => StringIsCode(']', body, bell);
    case Apc(body, bell) => StringIsCode('_', body, bell);
    case Dcs(body) => StringIsCode('P', body, false);
    case Pm(body) => StringIsCode('^', body, false);
    case Sos(body) => StringIsCode('X', body, false);
  }

  lemma CodeIsString(s: string) returns (body: string, bell: bool)
    requires IsCode(s) && 2 <= |s| && s[1] != '['
    ensures s[1] in {']', '_'} || (s[1] in {'P', '^', 'X'} && !bell)
    ensures Unterminated(body) && (s[1] in {']', '_'} ==> BEL !in body)
    ensures s == [ESC, s[1]] + body + End(bell)
  {
    var allowBel := s[1] in {']', '_'};
    var k := EndOfControl(s, 2, allowBel);
    body, bell := s[2..k], s[k] == BEL;
    assert s == s[..2] + body + s[k..];
    assert s[k..] == End(bell);
    forall i | 0 <= i < |body| - 1 ensures body[i] != ESC || body[i + 1] != '\\' {
      assert !EscapeAt(s, i + 2, '\\');
    }
  }

  lemma CsiSpells(s: string, n: nat, m: nat)
    requires 2 <= n <= m == |s| - 1 && s[0] == ESC && s[1] == '['
    ensures Csi(s[2..n], s[n..m], s[m]).Spell() == s
  {
    assert s[..2] == [ESC, '['];
    assert s[..n] == s[..2] + s[2..n];
    assert s[..m] == s[..n] + s[n..m];
    assert s == s[..m] + [s[m]];
  }

  lemma CodeIsSequence(s: string) returns (q: Sequence)
    requires IsCode(s)
    ensures q.Valid() && q.Spell() == s
  {
    AnsiEndBounds(s, 0);
    if s[1] == '[' {
      var n, m := PartsOfCsi(s, 2, false);
      q := Csi(s[2..n], s[n..m], s[m]);
      CsiSpells(s, n, m);
    } else {
      var body, bell := CodeIsString(s);
      q := if s[1] == ']' then Osc(body, bell) else if s[1] == '_' then Apc(body, bell)
           else if s[1] == 'P' then Dcs(body) else if s[1] == '^' then Pm(body) else Sos(body);
    }
  }

  /** The whole escape sequences that the scanner knows are exactly these. */
  lemma CodesExactlyWhen(s: string)
    ensures IsCode(s) <==> exists q: Sequence :: q.Valid() && q.Spell() == s
  {
    if IsCode(s) {
      var q := CodeIsSequence(s);
      assert q.Valid() && q.Spell() == s;
    }
    if q: Sequence :| q.Valid() && q.Spell() == s {
      SequenceIsCode(q);
    }
  }

  /** So the codes of any text are such sequences. */
  lemma CodesOfText(text: string, k: nat) returns (q: Sequence)
    requires k < |Lex(text)| && Lex(text)[k].Code?
    ensures q.Valid() && q.Spell() == Lex(text)[k].code
  {
    LexedCodesAreCodes(text, k);
    q := CodeIsSequence(Lex(text)[k].code);
  }

  // ---- What style codes say --------------------------------------------------------------------

  datatype Attribute = Bold | Dim | Italic | Underline | Blink | Inverse | Hidden | Strikethrough

  function Has(a: Attributes, x: Attribute): bool {
    match x
    case Bold => a.bold
    case Dim => a.dim
    case Italic => a.italic
    case Underline => a.underline
    case Blink => a.blink
    case Inverse => a.inverse
    case Hidden => a.hidden
    case Strikethrough => a.strikethrough
  }

  /** The code that turns an attribute on. */
  function On(x: Attribute): nat {
    match x
    case Bold => 1
    case Dim => 2
    case Italic => 3
    case Underline => 4
    case Blink => 5
    case Inverse => 7
    case Hidden => 8
    case Strikethrough => 9
  }

  /** The codes that turn it off: everything ends at 0, and 22 ends bold and dim alike. */
  predicate TurnsOff(n: nat, x: Attribute) {
    n == 0 || if x.Bold? then n == 21 || n == 22 else n == 20 + On(x)
  }

  function With(a: Attributes, x: Attribute, on: bool): Attributes {
    match x
    case Bold => a.(bold := on)
    case Dim => a.(dim := on)
    case Italic => a.(italic := on)
    case Underline => a.(underline := on)
    case Blink => a.(blink := on)
    case Inverse => a.(inverse := on)
    case Hidden => a.(hidden := on)
    case Strikethrough => a.(strikethrough := on)
  }

  lemma HasWith(a: Attributes, y: Attribute, on: bool, x: Attribute)
    ensures Has(With(a, y, on), x) == if x == y then on else Has(a, x)
  {
  }

  lemma OnCode(a: Attributes, x: Attribute)
    ensures SetAttribute(a, On(x)) == With(a, x, true)
  {
  }

  lemma OffCode(a: Attributes, x: Attribute)
    ensures !x.Dim? ==> ClearAttribute(a, 20 + On(x)) == With(a, x, false)
    ensures ClearAttribute(a, 22) == With(With(a, Bold, false), Dim, false)
  {
  }

  lemma OtherCode(a: Attributes, n: nat)
    ensures (forall x :: n != On(x)) ==> SetAttribute(a, n) == a
    ensures (forall x :: !TurnsOff(n, x)) ==> ClearAttribute(a, n) == a
  {
    assert On(Bold) == 1 && On(Dim) == 2 && On(Italic) == 3 && On(Underline) == 4;
    assert On(Blink) == 5 && On(Inverse) == 7 && On(Hidden) == 8 && On(Strikethrough) == 9;
    assert TurnsOff(21, Bold) && TurnsOff(22, Dim) && TurnsOff(23, Italic) && TurnsOff(24, Underline);
    assert TurnsOff(25, Blink) && TurnsOff(27, Inverse) && TurnsOff(28, Hidden) && TurnsOff(29, Strikethrough);
  }

  lemma OneCode(st: Style, n: nat, x: Attribute)
    ensures Has(SgrOne(st, n).attributes, x) <==> n == On(x) || (Has(st.attributes, x) && !TurnsOff(n, x))
  {
    var a := st.attributes;
    OtherCode(a, n);
    if y :| n == On(y) {
      OnCode(a, y);
      HasWith(a, y, true, x);
    } else if n == 22 {
      OffCode(a, Bold);
      HasWith(With(a, Bold, false), Dim, false, x);
      HasWith(a, Bold, false, x);
    } else if y :| n != 0 && TurnsOff(n, y) {
      OffCode(a, y);
      HasWith(a, y, false, x);
    }
  }

  function Decimals(numbers: seq<nat>): (parts: seq<string>)
    ensures |parts| == |numbers| && forall k :: 0 <= k < |parts| ==> parts[k] == Decimal(numbers[k])
  {
    seq(|numbers|, k requires 0 <= k < |numbers| => Decimal(numbers[k]))
  }

  /** What SGR parameters say one after the other: a code, or a colour of the 256, or one given by three numbers. */
  datatype Directive = One(n: nat) | Packed(foreground: bool, numbers: seq<nat>) {
    predicate Valid() {
      match this
      case One(n) => n != 38 && n != 48
      case Packed(_, numbers) => |numbers| == 1 || |numbers| == 3
    }

    function Parts(): seq<string> {
      match this
      case One(n) => [Decimal(n)]
      case Packed(foreground, numbers) =>
        [if foreground then "38" else "48", if |numbers| == 1 then "5" else "2"] + Decimals(numbers)
    }

    function Then(st: Style): Style {
      match this
      case One(n) => SgrOne(st, n)
      case Packed(foreground, _) => SetColor(st, foreground, Join(Parts()))
    }
  }

  predicate AllValid(ds: seq<Directive>) {
    forall k :: 0 <= k < |ds| ==> ds[k].Valid()
  }

  function AllParts(ds: seq<Directive>): seq<string>
    decreases |ds|
  {
    if ds == [] then [] else ds[0].Parts() + AllParts(ds[1..])
  }

  function Apply(st: Style, ds: seq<Directive>): Style
    decreases |ds|
  {
    if ds == [] then st else Apply(ds[0].Then(st), ds[1..])
  }

  lemma NumberIsPlain(n: nat)
    ensures Plain(Decimal(n)) && Decimal(n) != ""
  {
    DecimalReads(n);
    var s := Decimal(n);
    forall k | 0 <= k < |s| ensures s[k] != ';' && SgrChar(s[k]) {
      assert Digit(s[k]);
    }
  }

  /** Parts that are numbers. */
  predicate Numbers(parts: seq<string>) {
    forall k :: 0 <= k < |parts| ==> ';' !in parts[k] && SgrText(parts[k]) && parts[k] != ""
  }

  lemma PartsAreNumbers(d: Directive)
    ensures Numbers(d.Parts()) && d.Parts() != []
  {
    forall k | 0 <= k < |d.Parts()| ensures Plain(d.Parts()[k]) && d.Parts()[k] != "" {
      if d.One? {
        NumberIsPlain(d.n);
      } else if 2 <= k {
        NumberIsPlain(d.numbers[k - 2]);
      }
    }
  }

  lemma {:induction false} AllPartsAreNumbers(ds: seq<Directive>)
    ensures Numbers(AllParts(ds)) && (ds != [] ==> AllParts(ds) != [])
    decreases |ds|
  {
    if ds != [] {
      PartsAreNumbers(ds[0]);
      AllPartsAreNumbers(ds[1..]);
      JoinNumbers(ds[0].Parts(), AllParts(ds[1..]));
    }
  }

  lemma JoinNumbers(a: seq<string>, b: seq<string>)
    requires Numbers(a) && Numbers(b)
    ensures Numbers(a + b)
  {
  }

  lemma ThirtyEight()
    ensures ParseInt("38") == 38 && ParseInt("48") == 48
  {
    assert ParseNat("38"[..1][..0]) == 0 && ParseNat("48"[..1][..0]) == 0;
  }

  /** A directive is read from its parts, none of which is read as another, whatever follows. */
  lemma ReadsFirst(st: Style, d: Directive, rest: seq<string>)
    requires d.Valid()
    ensures ApplySgr(st, d.Parts() + rest) == ApplySgr(d.Then(st), rest)
  {
    var parts := d.Parts() + rest;
    match d
    case One(n) =>
      DecimalReads(n);
      assert parts[0] == Decimal(n) && parts[1..] == rest;
    case Packed(foreground, numbers) =>
      ThirtyEight();
      var n := |d.Parts()|;
      assert parts[0] == d.Parts()[0] && parts[1] == d.Parts()[1];
      assert parts[..n] == d.Parts() && parts[n..] == rest;
      assert ColorLength(parts) == n;
  }

  lemma {:induction false} PartsApply(st: Style, ds: seq<Directive>)
    requires AllValid(ds)
    ensures ApplySgr(st, AllParts(ds)) == Apply(st, ds)
    decreases |ds|
  {
    if ds != [] {
      ReadsFirst(st, ds[0], AllParts(ds[1..]));
      PartsApply(ds[0].Then(st), ds[1..]);
    }
  }

  lemma SgrIsNoLink(params: string)
    requires SgrText(params)
    ensures var code := SgrOf(params);
            && code[2..|code| - 1] == params && IsSgr(code)
            && ParseOsc8(code) == NotALink
  {
    var code := SgrOf(params);
    assert code[2..|code| - 1] == params && code[1] == '[' && OSC8[1] == ']';
  }

  lemma ZeroResets(st: Style)
    ensures ApplySgr(st, ["0"]) == AnsiStyle.Reset(st)
  {
    assert ParseNat("0"[..0]) == 0 && ParseInt("0") == 0;
    assert ["0"][1..] == [];
  }

  lemma SgrIsRead(st: Style, parts: seq<string>)
    requires parts != [] && Numbers(parts)
    ensures Process(st, SgrOf(Join(parts))) == ApplySgr(st, parts)
  {
    SplitJoin(parts);
    FlattenPlain(parts);
    JoinText(parts);
    SgrIsNoLink(Join(parts));
    assert |parts[0]| <= |Join(parts)|;
    if Join(parts) == "0" {
      SplitPlain("0", ';');
      ZeroResets(st);
    }
  }

  /** As text: the directives take effect one after the other. */
  lemma DirectivesAreRead(st: Style, ds: seq<Directive>)
    requires ds != [] && AllValid(ds)
    ensures Process(st, SgrOf(Join(AllParts(ds)))) == Apply(st, ds)
  {
    AllPartsAreNumbers(ds);
    SgrIsRead(st, AllParts(ds));
    PartsApply(st, ds);
  }

  /** Some code turns it on, and none after that off. */
  predicate EndsOn(ds: seq<Directive>, x: Attribute) {
    exists k :: 0 <= k < |ds| && ds[k] == One(On(x)) && NoneOff(ds[k + 1..], x)
  }

  predicate NoneOff(ds: seq<Directive>, x: Attribute) {
    forall k :: 0 <= k < |ds| && ds[k].One? ==> !TurnsOff(ds[k].n, x)
  }

  lemma NoneOffSplits(ds: seq<Directive>, x: Attribute)
    requires ds != []
    ensures NoneOff(ds, x) <==> (ds[0].One? ==> !TurnsOff(ds[0].n, x)) && NoneOff(ds[1..], x)
  {
    if NoneOff(ds, x) {
      forall k | 0 <= k < |ds[1..]| && ds[1..][k].One? ensures !TurnsOff(ds[1..][k].n, x) {
        assert ds[1..][k] == ds[k + 1];
      }
    }
  }

  lemma EndsOnSplits(ds: seq<Directive>, x: Attribute)
    requires ds != []
    ensures EndsOn(ds, x) <==> EndsOn(ds[1..], x) || (ds[0] == One(On(x)) && NoneOff(ds[1..], x))
  {
    var rest := ds[1..];
    if EndsOn(rest, x) {
      var k :| 0 <= k < |rest| && rest[k] == One(On(x)) && NoneOff(rest[k + 1..], x);
      assert ds[k + 1] == One(On(x)) && ds[k + 1 + 1..] == rest[k + 1..];
    }
    if EndsOn(ds, x) {
      var k :| 0 <= k < |ds| && ds[k] == One(On(x)) && NoneOff(ds[k + 1..], x);
      if k > 0 {
        assert rest[k - 1] == One(On(x)) && rest[k - 1 + 1..] == ds[k + 1..];
      }
    }
  }

  lemma {:induction false} LastCodeWins(st: Style, ds: seq<Directive>, x: Attribute)
    ensures Has(Apply(st, ds).attributes, x) <==> EndsOn(ds, x) || (Has(st.attributes, x) && NoneOff(ds, x))
    decreases |ds|
  {
    if ds != [] {
      if ds[0].One? {
        OneCode(st, ds[0].n, x);
      }
      LastCodeWins(ds[0].Then(st), ds[1..], x);
      NoneOffSplits(ds, x);
      EndsOnSplits(ds, x);
    }
  }

  /** An attribute is on behind SGR parameters exactly when the last that speaks of it, or what was before, says so. */
  lemma AttributeIsLastSaid(st: Style, ds: seq<Directive>, x: Attribute)
    requires ds != [] && AllValid(ds)
    ensures Has(Process(st, SgrOf(Join(AllParts(ds)))).attributes, x) <==>
            EndsOn(ds, x) || (Has(st.attributes, x) && NoneOff(ds, x))
  {
    DirectivesAreRead(st, ds);
    LastCodeWins(st, ds, x);
  }

  /** What one directive makes of the foreground; the others leave it. */
  function Foreground(d: Directive, before: Option<string>): Option<string> {
    match d
    case One(n) =>
      if n == 0 || n == 39 then None else if 30 <= n <= 37 || 90 <= n <= 97 then Some(Decimal(n)) else before
    case Packed(foreground, _) => if foreground then Some(Join(d.Parts())) else before
  }

  function Background(d: Directive, before: Option<string>): Option<string> {
    match d
    case One(n) =>
      if n == 0 || n == 49 then None else if 40 <= n <= 47 || 100 <= n <= 107 then Some(Decimal(n)) else before
    case Packed(foreground, _) => if foreground then before else Some(Join(d.Parts()))
  }

  lemma ThenColors(st: Style, d: Directive)
    ensures d.Then(st).fgColor == Foreground(d, st.fgColor) && d.Then(st).bgColor == Background(d, st.bgColor)
    ensures d.Then(st).hyperlink == st.hyperlink
  {
  }

  lemma OneMoreIsRead(st: Style, ds: seq<Directive>, last: Directive)
    requires AllValid(ds) && last.Valid()
    ensures var before := if ds == [] then st else Process(st, SgrOf(Join(AllParts(ds))));
            Process(st, SgrOf(Join(AllParts(ds + [last])))) == last.Then(before)
  {
    if ds != [] {
      DirectivesAreRead(st, ds);
    }
    DirectivesAreRead(st, ds + [last]);
    ApplyLast(st, ds, last);
  }

  /** The colours before the last directive, and what that makes of them; the hyperlink stays. */
  lemma ColorsAreLastSaid(st: Style, ds: seq<Directive>, last: Directive)
    requires AllValid(ds) && last.Valid()
    ensures var before := if ds == [] then st else Process(st, SgrOf(Join(AllParts(ds))));
            var after := Process(st, SgrOf(Join(AllParts(ds + [last]))));
            && after.fgColor == Foreground(last, before.fgColor)
            && after.bgColor == Background(last, before.bgColor)
            && after.hyperlink == st.hyperlink
  {
    if ds != [] {
      DirectivesAreRead(st, ds);
    }
    OneMoreIsRead(st, ds, last);
    LinkStays(st, ds);
    ThenColors(if ds == [] then st else Process(st, SgrOf(Join(AllParts(ds)))), last);
  }

  lemma {:induction false} ApplyLast(st: Style, ds: seq<Directive>, last: Directive)
    ensures Apply(st, ds + [last]) == last.Then(Apply(st, ds))
    decreases |ds|
  {
    if ds == [] {
      assert [] + [last] == [last] && [last][1..] == [];
    } else {
      assert (ds + [last])[1..] == ds[1..] + [last];
      ApplyLast(ds[0].Then(st), ds[1..], last);
    }
  }

  lemma {:induction false} LinkStays(st: Style, ds: seq<Directive>)
    ensures Apply(st, ds).hyperlink == st.hyperlink
    decreases |ds|
  {
    if ds != [] {
      ThenColors(st, ds[0]);
      LinkStays(ds[0].Then(st), ds[1..]);
    }
  }
}
