/** The tracker object: it follows a text's codes by updating its fields, as `AnsiStyle.Replay` says. */
module AnsiTracker {

  import opened Common
  import opened AnsiScan
  import opened AnsiStyle

  class AnsiCodeTracker {
    var attributes: Attributes
    var fgColor: Option<string>
    var bgColor: Option<string>
    var activeHyperlink: Option<Hyperlink>

    function Abstract(): Style
      reads this
    {
      Style(attributes, fgColor, bgColor, activeHyperlink)
    }

    constructor ()
      ensures Abstract() == CLEAR
    {
      attributes, fgColor, bgColor, activeHyperlink := NO_ATTRIBUTES, None, None, None;
    }

    /** SGR reset: the hyperlink stays. */
    method Reset()
      modifies this`attributes, this`fgColor, this`bgColor
      ensures Abstract() == AnsiStyle.Reset(old(Abstract()))
    {
      attributes, fgColor, bgColor := NO_ATTRIBUTES, None, None;
    }

    method Clear()
      modifies this
      ensures Abstract() == CLEAR
    {
      Reset();
      activeHyperlink := None;
    }

    method ProcessCode(ansiCode: string)
      modifies this
      ensures Abstract() == Process(old(Abstract()), ansiCode)
    {
      var hyperlink := ParseOsc8(ansiCode);
      if hyperlink != NotALink {
        activeHyperlink := if hyperlink.Opens? then Some(hyperlink.link) else None;
        return;
      }
      if !IsSgr(ansiCode) {
        return;
      }
      var params := ansiCode[2..|ansiCode| - 1];
      if params == "" || params == "0" {
        Reset();
        return;
      }
      ApplyParts(SplitOn(params, ';'));
    }

    /** The loop over the parameters, taking three or five of them for a packed colour. */
    method ApplyParts(parts: seq<string>)
      modifies this`attributes, this`fgColor, this`bgColor
      ensures Abstract() == ApplySgr(old(Abstract()), parts)
    {
      var i := 0;
      assert parts[0..] == parts;
      while i < |parts|
        invariant i <= |parts|
        invariant ApplySgr(Abstract(), parts[i..]) == ApplySgr(old(Abstract()), parts)
      {
        ghost var rest := parts[i..];
        var code := ParseInt(parts[i]);
        if code == 38 || code == 48 {
          if i + 2 < |parts| && parts[i + 1] == "5" {
            var colorCode := Join(parts[i..i + 3]);
            PackedAt(parts, i, 3);
            if code == 38 {
              fgColor := Some(colorCode);
            } else {
              bgColor := Some(colorCode);
            }
            i := i + 3;
            continue;
          } else if i + 4 < |parts| && parts[i + 1] == "2" {
            var colorCode := Join(parts[i..i + 5]);
            PackedAt(parts, i, 5);
            if code == 38 {
              fgColor := Some(colorCode);
            } else {
              bgColor := Some(colorCode);
            }
            i := i + 5;
            continue;
          }
        }
        assert ColorLength(rest) == 0 && rest[1..] == parts[i + 1..];
        ApplyOne(code);
        i := i + 1;
      }
      assert parts[i..] == [];
    }

    method ApplyOne(code: int)
      modifies this`attributes, this`fgColor, this`bgColor
      ensures Abstract() == SgrOne(old(Abstract()), code)
    {
      if code == 0 {
        Reset();
      } else if code < 10 {
        attributes := SetAttribute(attributes, code);
      } else if code < 30 {
        attributes := ClearAttribute(attributes, code);
      } else if code == 39 {
        fgColor := None;
      } else if code == 49 {
        bgColor := None;
      } else if IsFgCode(code) {
        fgColor := Some(Decimal(code));
      } else if IsBgCode(code) {
        bgColor := Some(Decimal(code));
      }
    }

    /** Follows every code of a text, scanning it with a cache of its own. */
    method UpdateFromText(text: string)
      modifies this
      ensures Abstract() == Replay(old(Abstract()), Lex(text))
    {
      var i := 0;
      var scanner := new AnsiScanner(text);
      assert text[0..] == text;
      while i < |text|
        invariant i <= |text| && scanner.Valid() && fresh(scanner) && scanner.str == text
        invariant Replay(Abstract(), Lex(text[i..])) == Replay(old(Abstract()), Lex(text))
      {
        var end := scanner.ExtractAnsiEnd(i);
        LexAt(text, i);
        if end.Some? {
          AnsiEndBounds(text, i);
          ReplayFirst(Abstract(), Code(text[i..end.value]), Lex(text[end.value..]));
          ProcessCode(text[i..end.value]);
          i := end.value;
        } else {
          ReplayFirst(Abstract(), Glyph(text[i]), Lex(text[i + 1..]));
          i := i + 1;
        }
      }
      assert text[i..] == "";
    }
  }

  lemma ReplayFirst(st: Style, item: Item, rest: seq<Item>)
    ensures Replay(st, [item] + rest) == Replay(if item.Code? then Process(st, item.code) else st, rest)
  {
    assert ([item] + rest)[0] == item && ([item] + rest)[1..] == rest;
  }

  lemma PackedAt(parts: seq<string>, i: nat, n: nat)
    requires 3 <= n && i + n <= |parts| && (ParseInt(parts[i]) == 38 || ParseInt(parts[i]) == 48)
    requires (n == 3 && parts[i + 1] == "5") || (n == 5 && parts[i + 1] == "2")
    ensures var rest := parts[i..];
            ColorLength(rest) == n && rest[..n] == parts[i..i + n] && rest[n..] == parts[i + n..]
  {
  }
}
