/**
 Recognising escape sequences in a string: the scanner, the cache that keeps a
 scan over malformed control strings linear, and the items a text consists of.
 */
module AnsiScan {

  import opened Common

  // ---- The stateless scanner -----------------------------------------------------

  predicate EscapeAt(str: string, i: nat, next: char) {
    i + 1 < |str| && str[i] == ESC && str[i + 1] == next
  }

  /** Where the control string whose body starts at `j` ends: after the first BEL (if allowed) or ST. */
  function ControlEnd(str: string, j: nat, allowBel: bool): Option<nat>
    decreases |str| - j
  {
    if |str| <= j then None
    else if allowBel && str[j] == BEL then Some(j + 1)
    else if EscapeAt(str, j, '\\') then Some(j + 2)
    else ControlEnd(str, j + 1, allowBel)
  }

  /** Parameter bytes, then intermediate bytes, then one final byte. */
  function CsiEnd(str: string, j: nat, hasIntermediate: bool): Option<nat>
    decreases |str| - j
  {
    if |str| <= j then None
    else if '0' <= str[j] <= '?' && !hasIntermediate then CsiEnd(str, j + 1, false)
    else if ' ' <= str[j] <= '/' then CsiEnd(str, j + 1, true)
    else if '@' <= str[j] <= '~' then Some(j + 1)
    else None
  }

  predicate AcceptsBel(next: char) { next == ']' || next == '_' }

  predicate NeedsSt(next: char) { next == 'P' || next == '^' || next == 'X' }

  /** End of the escape sequence at `pos`, if there is one. */
  function AnsiEnd(str: string, pos: nat): Option<nat> {
    if |str| <= pos + 1 || str[pos] != ESC then None
    else
      var next := str[pos + 1];
      if next == '[' then CsiEnd(str, pos + 2, false)
      else if AcceptsBel(next) then ControlEnd(str, pos + 2, true)
      else if NeedsSt(next) then ControlEnd(str, pos + 2, false)
      else None
  }

  lemma {:induction false} ControlEndBounds(str: string, j: nat, allowBel: bool)
    ensures ControlEnd(str, j, allowBel).Some? ==> j < ControlEnd(str, j, allowBel).value <= |str|
    decreases |str| - j
  {
    if j < |str| {
      ControlEndBounds(str, j + 1, allowBel);
    }
  }

  lemma {:induction false} CsiEndBounds(str: string, j: nat, hasIntermediate: bool)
    ensures CsiEnd(str, j, hasIntermediate).Some? ==> j < CsiEnd(str, j, hasIntermediate).value <= |str|
    decreases |str| - j
  {
    if j < |str| {
      CsiEndBounds(str, j + 1, hasIntermediate);
      CsiEndBounds(str, j + 1, false);
      CsiEndBounds(str, j + 1, true);
    }
  }

  lemma AnsiEndBounds(str: string, pos: nat)
    ensures AnsiEnd(str, pos).Some? ==> pos + 2 < AnsiEnd(str, pos).value <= |str|
  {
    ControlEndBounds(str, pos + 2, true);
    ControlEndBounds(str, pos + 2, false);
    CsiEndBounds(str, pos + 2, false);
  }

  // ---- The cache --------------------------------------------------------------------

  type Ends = map<nat, Option<nat>>

  /** Every cached position gets the answer of the forward search. */
  ghost predicate Faithful(str: string, ends: Ends) {
    forall i :: i in ends ==>
      && i + 1 < |str| && str[i] == ESC
      && (AcceptsBel(str[i + 1]) || NeedsSt(str[i + 1]))
      && ends[i] == ControlEnd(str, i + 2, AcceptsBel(str[i + 1]))
  }

  /** `k` is the first BEL at or after `i`, or -1. */
  ghost predicate NextBel(str: string, i: nat, k: int) {
    && (k == -1 || (i <= k < |str| && str[k] == BEL))
    && forall j :: i <= j < |str| && (k == -1 || j < k) ==> str[j] != BEL
  }

  /** `k` is the first ST at or after `i`, or -1. */
  ghost predicate NextSt(str: string, i: nat, k: int) {
    && (k == -1 || (i <= k && EscapeAt(str, k, '\\')))
    && forall j :: i <= j && (k == -1 || j < k) ==> !EscapeAt(str, j, '\\')
  }

  /** The forward search finds the nearer of the two terminators. */
  lemma {:induction false} ControlEndIsNearest(str: string, j: nat, bel: int, st: int, allowBel: bool)
    requires NextBel(str, j, bel) && NextSt(str, j, st)
    ensures ControlEnd(str, j, allowBel) == Nearest(bel, st, allowBel)
    decreases |str| - j
  {
    if j < |str| && !(allowBel && str[j] == BEL) && !EscapeAt(str, j, '\\') {
      var bel' := bel;
      if bel == j {
        // BEL does not end this kind of string, so where the next one lies is irrelevant
        bel' := FindBel(str, j + 1);
      }
      ControlEndIsNearest(str, j + 1, bel', st, allowBel);
    }
  }

  lemma FindBel(str: string, i: nat) returns (k: int)
    ensures NextBel(str, i, k)
    decreases |str| - i
  {
    if |str| <= i {
      k := -1;
    } else if str[i] == BEL {
      k := i;
    } else {
      k := FindBel(str, i + 1);
    }
  }

  /** The nearer of the next BEL, if it counts, and the next ST. */
  function Nearest(bel: int, st: int, allowBel: bool): Option<nat>
    requires -1 <= bel && -1 <= st
  {
    if allowBel && bel != -1 && (st == -1 || bel < st) then Some(bel + 1)
    else if st == -1 then None else Some(st + 2)
  }

  predicate OpensControlString(str: string, i: nat) {
    i + 1 < |str| && str[i] == ESC && (AcceptsBel(str[i + 1]) || NeedsSt(str[i + 1]))
  }

  /** Every control string that opens at `from` or later is cached. */
  ghost predicate Covers(str: string, ends: Ends, from: nat) {
    forall i: nat :: from <= i && OpensControlString(str, i) ==> i in ends
  }

  lemma CacheStep(str: string, i: nat, bel: int, st: int, ends: Ends)
    requires OpensControlString(str, i) && NextBel(str, i, bel) && NextSt(str, i, st)
    requires Faithful(str, ends) && Covers(str, ends, i + 1)
    ensures var ends' := ends[i := Nearest(bel, st, AcceptsBel(str[i + 1]))];
            Faithful(str, ends') && Covers(str, ends', i)
  {
    ControlEndIsNearest(str, i + 2, bel, st, AcceptsBel(str[i + 1]));
  }

  /** The single backward pass that fills the cache. */
  method CacheControlStringEnds(str: string, from: nat) returns (ends: Ends)
    requires from <= |str|
    ensures Faithful(str, ends) && Covers(str, ends, from)
  {
    ends := map[];
    var nextBel, nextSt := -1, -1;
    var i := |str|;
    while from < i
      invariant from <= i <= |str|
      invariant NextBel(str, i, nextBel) && NextSt(str, i, nextSt)
      invariant Faithful(str, ends) && Covers(str, ends, i)
    {
      i := i - 1;
      if str[i] == BEL {
        nextBel := i;
      }
      if EscapeAt(str, i, '\\') {
        nextSt := i;
      }
      if OpensControlString(str, i) {
        CacheStep(str, i, nextBel, nextSt, ends);
        ends := ends[i := Nearest(nextBel, nextSt, AcceptsBel(str[i + 1]))];
      }
    }
  }

  /** A scanner of one string that remembers where its control strings end once one of them turned out open. */
  class AnsiScanner {
    const str: string
    var controlStringEnds: Option<Ends>

    ghost predicate Valid()
      reads this
    {
      controlStringEnds.Some? ==> Faithful(str, controlStringEnds.value)
    }

    constructor (str: string)
      ensures this.str == str && Valid()
    {
      this.str := str;
      controlStringEnds := None;
    }

    method ExtractControlStringEnd(pos: nat, allowBel: bool) returns (end: Option<nat>)
      requires Valid() && pos + 1 < |str| && str[pos] == ESC
      requires if allowBel then AcceptsBel(str[pos + 1]) else NeedsSt(str[pos + 1])
      modifies this
      ensures Valid() && end == ControlEnd(str, pos + 2, allowBel)
    {
      if controlStringEnds.Some? && pos in controlStringEnds.value {
        return controlStringEnds.value[pos];
      }
      var j := pos + 2;
      while j < |str|
        invariant pos + 2 <= j <= |str|
        invariant ControlEnd(str, pos + 2, allowBel) == ControlEnd(str, j, allowBel)
      {
        if allowBel && str[j] == BEL {
          return Some(j + 1);
        }
        if EscapeAt(str, j, '\\') {
          return Some(j + 2);
        }
        j := j + 1;
      }
      var ends := CacheControlStringEnds(str, pos);
      controlStringEnds := Some(ends);
      end := None;
    }

    /** Whatever was asked before, the answer is the stateless one. */
    method ExtractAnsiEnd(pos: nat) returns (end: Option<nat>)
      requires Valid()
      modifies this
      ensures Valid() && end == AnsiEnd(str, pos)
    {
      if pos + 1 >= |str| || str[pos] != ESC {
        return None;
      }
      var next := str[pos + 1];
      if next == '[' {
        var j := pos + 2;
        var hasIntermediate := false;
        while j < |str|
          invariant pos + 2 <= j <= |str|
          invariant CsiEnd(str, pos + 2, false) == CsiEnd(str, j, hasIntermediate)
        {
          if '0' <= str[j] <= '?' && !hasIntermediate {
            j := j + 1;
          } else if ' ' <= str[j] <= '/' {
            hasIntermediate := true;
            j := j + 1;
          } else if '@' <= str[j] <= '~' {
            return Some(j + 1);
          } else {
            return None;
          }
        }
        return None;
      }
      if AcceptsBel(next) {
        end := ExtractControlStringEnd(pos, true);
      } else if NeedsSt(next) {
        end := ExtractControlStringEnd(pos, false);
      } else {
        end := None;
      }
    }
  }

  // ---- Codes and glyphs -----------------------------------------------------------------

  /** A whole escape sequence and nothing else. */
  predicate IsCode(code: string) {
    AnsiEnd(code, 0) == Some(|code|)
  }

  lemma {:induction false} ControlEndLocal(pre: string, code: string, post: string, j: nat, allowBel: bool)
    requires ControlEnd(code, j, allowBel) == Some(|code|)
    ensures ControlEnd(pre + code + post, |pre| + j, allowBel) == Some(|pre| + |code|)
    decreases |code| - j
  {
    var text := pre + code + post;
    assert text[|pre| + j] == code[j];
    if !(allowBel && code[j] == BEL) && !EscapeAt(code, j, '\\') {
      assert j + 1 < |code| by {
        ControlEndBounds(code, j + 1, allowBel);
      }
      assert text[|pre| + j + 1] == code[j + 1];
      ControlEndLocal(pre, code, post, j + 1, allowBel);
    } else if !(allowBel && code[j] == BEL) {
      assert text[|pre| + j + 1] == code[j + 1];
    }
  }

  lemma {:induction false} CsiEndLocal(pre: string, code: string, post: string, j: nat, hasIntermediate: bool)
    requires CsiEnd(code, j, hasIntermediate) == Some(|code|)
    ensures CsiEnd(pre + code + post, |pre| + j, hasIntermediate) == Some(|pre| + |code|)
    decreases |code| - j
  {
    assert (pre + code + post)[|pre| + j] == code[j];
    if '0' <= code[j] <= '?' && !hasIntermediate {
      CsiEndLocal(pre, code, post, j + 1, false);
    } else if ' ' <= code[j] <= '/' {
      CsiEndLocal(pre, code, post, j + 1, true);
    }
  }

  /** A code is recognised wherever it stands. */
  lemma CodeIsLocal(pre: string, code: string, post: string)
    requires IsCode(code)
    ensures AnsiEnd(pre + code + post, |pre|) == Some(|pre| + |code|)
  {
    AnsiEndBounds(code, 0);
    var text, next := pre + code + post, code[1];
    assert text[|pre|] == code[0] && text[|pre| + 1] == next;
    if next == '[' {
      CsiEndLocal(pre, code, post, 2, false);
    } else {
      ControlEndLocal(pre, code, post, 2, AcceptsBel(next));
    }
  }

  lemma {:induction false} ControlEndCut(text: string, pos: nat, j: nat, allowBel: bool)
    requires pos <= |text| && ControlEnd(text, pos + j, allowBel).Some?
    requires ControlEnd(text, pos + j, allowBel).value <= |text|
    ensures var e := ControlEnd(text, pos + j, allowBel).value;
            pos + j < e && ControlEnd(text[pos..e], j, allowBel) == Some(e - pos)
    decreases |text| - j
  {
    var e := ControlEnd(text, pos + j, allowBel).value;
    ControlEndBounds(text, pos + j, allowBel);
    assert text[pos..e][j] == text[pos + j];
    if !(allowBel && text[pos + j] == BEL) && !EscapeAt(text, pos + j, '\\') {
      ControlEndCut(text, pos, j + 1, allowBel);
      if j + 1 < e - pos {
        assert text[pos..e][j + 1] == text[pos + j + 1];
      }
    } else if !(allowBel && text[pos + j] == BEL) {
      assert text[pos..e][j + 1] == text[pos + j + 1];
    }
  }

  lemma {:induction false} CsiEndCut(text: string, pos: nat, j: nat, hasIntermediate: bool)
    requires pos <= |text| && CsiEnd(text, pos + j, hasIntermediate).Some?
    requires CsiEnd(text, pos + j, hasIntermediate).value <= |text|
    ensures var e := CsiEnd(text, pos + j, hasIntermediate).value;
            pos + j < e && CsiEnd(text[pos..e], j, hasIntermediate) == Some(e - pos)
    decreases |text| - j
  {
    var e := CsiEnd(text, pos + j, hasIntermediate).value;
    CsiEndBounds(text, pos + j, hasIntermediate);
    assert text[pos..e][j] == text[pos + j];
    if '0' <= text[pos + j] <= '?' && !hasIntermediate {
      CsiEndCut(text, pos, j + 1, false);
    } else if ' ' <= text[pos + j] <= '/' {
      CsiEndCut(text, pos, j + 1, true);
    }
  }

  /** What the scanner recognises is a code on its own. */
  lemma FoundIsCode(text: string, pos: nat)
    requires AnsiEnd(text, pos).Some?
    ensures pos < AnsiEnd(text, pos).value <= |text| && IsCode(text[pos..AnsiEnd(text, pos).value])
  {
    AnsiEndBounds(text, pos);
    var e := AnsiEnd(text, pos).value;
    assert text[pos..e][0] == text[pos] && text[pos..e][1] == text[pos + 1];
    if text[pos + 1] == '[' {
      CsiEndCut(text, pos, 2, false);
    } else {
      ControlEndCut(text, pos, 2, AcceptsBel(text[pos + 1]));
    }
  }

  /** A text is a list of codes and visible characters; `Glyph` stands for a whole grapheme. */
  datatype Item = Code(code: string) | Glyph(c: char)

  function Lex(text: string): seq<Item>
    decreases |text|
  {
    if text == "" then []
    else
      AnsiEndBounds(text, 0);
      match AnsiEnd(text, 0)
      case Some(e) => [Code(text[..e])] + Lex(text[e..])
      case None => [Glyph(text[0])] + Lex(text[1..])
  }

  lemma {:induction false} ControlEndShifts(text: string, i: nat, j: nat, allowBel: bool)
    requires i <= |text|
    ensures ControlEnd(text, i + j, allowBel)
         == match ControlEnd(text[i..], j, allowBel) case Some(e) => Some(i + e) case None => None
    decreases |text| - j
  {
    if i + j < |text| {
      assert text[i..][j] == text[i + j];
      if i + j + 1 < |text| {
        assert text[i..][j + 1] == text[i + j + 1];
      }
      ControlEndShifts(text, i, j + 1, allowBel);
    }
  }

  lemma {:induction false} CsiEndShifts(text: string, i: nat, j: nat, hasIntermediate: bool)
    requires i <= |text|
    ensures CsiEnd(text, i + j, hasIntermediate)
         == match CsiEnd(text[i..], j, hasIntermediate) case Some(e) => Some(i + e) case None => None
    decreases |text| - j
  {
    if i + j < |text| {
      assert text[i..][j] == text[i + j];
      CsiEndShifts(text, i, j + 1, false);
      CsiEndShifts(text, i, j + 1, true);
    }
  }

  lemma AnsiEndShifts(text: string, i: nat)
    requires i < |text|
    ensures AnsiEnd(text, i) == match AnsiEnd(text[i..], 0) case Some(e) => Some(i + e) case None => None
  {
    var rest := text[i..];
    if i + 1 < |text| && text[i] == ESC {
      assert rest[0] == text[i] && rest[1] == text[i + 1];
      CsiEndShifts(text, i, 2, false);
      ControlEndShifts(text, i, 2, true);
      ControlEndShifts(text, i, 2, false);
    }
  }

  /** Scanning at `i` is scanning the rest of the text. */
  lemma LexAt(text: string, i: nat)
    requires i < |text|
    ensures match AnsiEnd(text, i)
            case Some(e) => i < e <= |text| && Lex(text[i..]) == [Code(text[i..e])] + Lex(text[e..])
            case None => Lex(text[i..]) == [Glyph(text[i])] + Lex(text[i + 1..])
  {
    AnsiEndBounds(text, i);
    AnsiEndShifts(text, i);
    var rest := text[i..];
    match AnsiEnd(rest, 0)
    case Some(e) => assert rest[..e] == text[i..i + e] && rest[e..] == text[i + e..];
    case None => assert rest[1..] == text[i + 1..];
  }

  function ItemText(item: Item): string {
    match item
    case Code(code) => code
    case Glyph(c) => [c]
  }

  function Text(items: seq<Item>): string {
    if items == [] then "" else ItemText(items[0]) + Text(items[1..])
  }

  /** Whole codes, and no stray ESC among the characters. */
  ghost predicate Clean(items: seq<Item>) {
    forall k :: 0 <= k < |items| ==> if items[k].Code? then IsCode(items[k].code) else items[k].c != ESC
  }

  lemma {:induction false} TextOfLex(text: string)
    ensures Text(Lex(text)) == text
    decreases |text|
  {
    if text != "" {
      AnsiEndBounds(text, 0);
      match AnsiEnd(text, 0)
      case Some(e) =>
        TextOfLex(text[e..]);
        assert text == text[..e] + text[e..];
      case None =>
        TextOfLex(text[1..]);
        assert text == [text[0]] + text[1..];
    }
  }

  lemma LexCode(code: string, rest: string)
    requires IsCode(code)
    ensures Lex(code + rest) == [Code(code)] + Lex(rest)
  {
    CodeIsLocal("", code, rest);
    AnsiEndBounds(code, 0);
    var text := code + rest;
    assert "" + code + rest == text;
    assert text[..|code|] == code && text[|code|..] == rest;
  }

  lemma LexGlyph(c: char, rest: string)
    requires c != ESC
    ensures Lex([c] + rest) == [Glyph(c)] + Lex(rest)
  {
    assert ([c] + rest)[0] == c && ([c] + rest)[1..] == rest;
  }

  /** Clean items survive being written out and scanned again, whatever they are next to. */
  lemma {:induction false} LexOfText(items: seq<Item>)
    requires Clean(items)
    ensures Lex(Text(items)) == items
    decreases |items|
  {
    if items != [] {
      LexOfText(items[1..]);
      match items[0]
      case Code(code) => LexCode(code, Text(items[1..]));
      case Glyph(c) => LexGlyph(c, Text(items[1..]));
    }
  }

  /** The codes of any text, as the scanner delivers them, are whole codes. */
  lemma {:induction false} LexedCodesAreCodes(text: string, k: nat)
    requires k < |Lex(text)| && Lex(text)[k].Code?
    ensures IsCode(Lex(text)[k].code)
    decreases |text|
  {
    AnsiEndBounds(text, 0);
    match AnsiEnd(text, 0)
    case Some(e) =>
      FoundIsCode(text, 0);
      assert text[0..e] == text[..e];
      if k > 0 {
        LexedCodesAreCodes(text[e..], k - 1);
      }
    case None =>
      LexedCodesAreCodes(text[1..], k - 1);
  }

  /** Every ESC of `a` that starts no code there starts none in front of `b` either. */
  predicate StaysOpenIn(a: string, b: string)
    decreases |a|
  {
    if a == "" then true
    else
      AnsiEndBounds(a, 0);
      match AnsiEnd(a, 0)
      case Some(e) => StaysOpenIn(a[e..], b)
      case None => AnsiEnd(a + b, 0).None? && StaysOpenIn(a[1..], b)
  }

  lemma FoundStays(a: string, b: string, e: nat)
    requires AnsiEnd(a, 0) == Some(e)
    ensures 0 < e <= |a| && AnsiEnd(a + b, 0) == Some(e)
    ensures (a + b)[..e] == a[..e] && (a + b)[e..] == a[e..] + b
  {
    FoundIsCode(a, 0);
    CodeIsLocal("", a[..e], a[e..] + b);
    assert "" + a[..e] + (a[e..] + b) == a + b;
  }

  /** Two texts read as they do apart exactly when no ESC left over in the first is completed by the second. */
  lemma {:induction false} TextsJoinExactlyWhen(a: string, b: string)
    ensures Lex(a + b) == Lex(a) + Lex(b) <==> StaysOpenIn(a, b)
    decreases |a|
  {
    if a == "" {
      assert a + b == b;
      return;
    }
    match AnsiEnd(a, 0)
    case Some(e) =>
      FoundStays(a, b, e);
      TextsJoinExactlyWhen(a[e..], b);
      HeadJoins(Code(a[..e]), Lex(a[e..]), Lex(b), Lex(a[e..] + b));
    case None =>
      assert (a + b)[0] == a[0] && (a + b)[1..] == a[1..] + b;
      TextsJoinExactlyWhen(a[1..], b);
      HeadJoins(Glyph(a[0]), Lex(a[1..]), Lex(b), Lex(a[1..] + b));
      if AnsiEnd(a + b, 0).Some? {
        assert Lex(a + b)[0].Code? && (Lex(a) + Lex(b))[0].Glyph?;
      }
  }

  lemma HeadJoins(head: Item, x: seq<Item>, y: seq<Item>, z: seq<Item>)
    ensures [head] + z == ([head] + x) + y <==> z == x + y
  {
    assert ([head] + x) + y == [head] + (x + y);
    assert ([head] + z)[1..] == z && ([head] + (x + y))[1..] == x + y;
  }

  /** Nothing is left over in a text that is clean. */
  lemma {:induction false} CleanJoins(a: string, b: string)
    requires Clean(Lex(a))
    ensures StaysOpenIn(a, b)
    decreases |a|
  {
    if a != "" {
      AnsiEndBounds(a, 0);
      match AnsiEnd(a, 0)
      case Some(e) =>
        assert Lex(a)[1..] == Lex(a[e..]);
        CleanJoins(a[e..], b);
      case None =>
        assert Lex(a)[0] == Glyph(a[0]) && Lex(a)[1..] == Lex(a[1..]);
        CleanJoins(a[1..], b);
    }
  }
}
