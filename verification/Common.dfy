/** Small definitions shared by the modules of this project. */
module Common {

  datatype Option<+T> = None | Some(value: T)

  function Max(a: int, b: int): int { if a > b then a else b }

  function Min(a: int, b: int): int { if a < b then a else b }

  const ESC: char := '\U{1B}'
  const BEL: char := '\U{07}'

  /** No string terminator. */
  ghost predicate Unterminated(body: string) {
    forall k :: 0 <= k < |body| - 1 ==> body[k] != ESC || body[k + 1] != '\\'
  }

  predicate Digit(c: char) { '0' <= c <= '9' }

  predicate Digits(s: string) {
    s != "" && forall k :: 0 <= k < |s| ==> Digit(s[k])
  }

  /** The parts of `s` between occurrences of `sep`; there is always at least one. */
  function SplitOn(s: string, sep: char): (parts: seq<string>)
    ensures parts != []
  {
    if s == "" then [""]
    else
      var rest := SplitOn(s[1..], sep);
      if s[0] == sep then [""] + rest else [[s[0]] + rest[0]] + rest[1..]
  }

  lemma {:induction false} SplitPlain(part: string, sep: char)
    requires sep !in part
    ensures SplitOn(part, sep) == [part]
    decreases |part|
  {
    if part != "" {
      assert part == [part[0]] + part[1..];
      SplitPlain(part[1..], sep);
    }
  }

  lemma {:induction false} SplitAppend(a: string, b: string, sep: char)
    ensures SplitOn(a + [sep] + b, sep) == SplitOn(a, sep) + SplitOn(b, sep)
    decreases |a|
  {
    var s := a + [sep] + b;
    if a == "" {
      assert s[0] == sep && s[1..] == b;
    } else {
      assert s[0] == a[0] && s[1..] == a[1..] + [sep] + b;
      SplitAppend(a[1..], b, sep);
    }
  }

  /** The first part, and what follows its separator. */
  lemma {:induction false} SplitFirst(s: string, sep: char)
    ensures var parts := SplitOn(s, sep);
            if |parts| == 1 then parts[0] == s
            else |parts[0]| < |s| && s == parts[0] + [sep] + s[|parts[0]| + 1..]
                 && parts[1..] == SplitOn(s[|parts[0]| + 1..], sep)
    decreases |s|
  {
    if s != "" && s[0] != sep {
      SplitFirst(s[1..], sep);
    }
  }

  predicate EndsWith(s: string, suffix: string) {
    |suffix| <= |s| && s[|s| - |suffix|..] == suffix
  }

  function ParseNat(s: string): nat
    requires forall k :: 0 <= k < |s| ==> Digit(s[k])
  {
    if s == "" then 0 else assert Digit(s[|s| - 1]); ParseNat(s[..|s| - 1]) * 10 + (s[|s| - 1] as int - '0' as int)
  }
}
