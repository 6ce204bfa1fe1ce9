/**
 fixUnescapedQuotes of pkg/encoding/json/json.go: a pass over model output that escapes the quotes
 it takes to be part of a string.
 */
module JsonRepair {
  import opened JsonText

  datatype Mode = Normal | InString | EscapeNext

  /** isClosingQuote, on the text after the quote: its first non-blank character, if any, is a
      delimiter. */
  predicate Closes(rest: string) {
    rest == [] || (if IsBlank(rest[0]) then Closes(rest[1..]) else rest[0] in ",}]:")
  }

  predicate AllBlank(s: string) {
    forall i :: 0 <= i < |s| ==> s[i] == ' ' || s[i] == '\t' || s[i] == '\n' || s[i] == '\r'
  }

  /** The first character that is not blank is a comma, a closing brace or bracket, or a colon. */
  predicate DelimiterAt(s: string, k: nat) {
    k < |s| && AllBlank(s[..k]) && (s[k] == ',' || s[k] == '}' || s[k] == ']' || s[k] == ':')
  }

  /** Only blanks come before a delimiter or the end. */
  ghost predicate DelimiterFollows(s: string) {
    AllBlank(s) || exists k: nat :: DelimiterAt(s, k)
  }

  lemma {:induction false} ClosesIff(rest: string)
    ensures Closes(rest) <==> DelimiterFollows(rest)
  {
    if rest != [] && IsBlank(rest[0]) {
      var tail := rest[1..];
      ClosesIff(tail);
      assert rest == [rest[0]] + tail;
      if k: nat :| DelimiterAt(tail, k) {
        assert rest[..k + 1] == [rest[0]] + tail[..k];
        assert DelimiterAt(rest, k + 1);
      }
      if k: nat :| DelimiterAt(rest, k) {
        assert tail[..k - 1] == rest[1..k] == rest[..k][1..];
        assert DelimiterAt(tail, k - 1);
      }
    } else if rest != [] {
      assert Closes(rest) ==> DelimiterAt(rest, 0);
    }
  }

  /** What the pass makes of the text from a given mode on. */
  function Repair(mode: Mode, s: string): string
    decreases |s|
  {
    if s == [] then []
    else
      var ch, rest := s[0], s[1..];
      match mode
      case Normal => [ch] + Repair(if ch == '"' then InString else Normal, rest)
      case InString =>
        if ch == '\\' then [ch] + Repair(EscapeNext, rest)
        else if ch == '"' then
          if Closes(rest) then [ch] + Repair(Normal, rest) else "\\\"" + Repair(InString, rest)
        else [ch] + Repair(InString, rest)
      case EscapeNext => [ch] + Repair(InString, rest)
  }

  // ----- the loops of the source -----

  method IsClosingQuote(data: string, i: nat) returns (r: bool)
    requires i < |data|
    ensures r == Closes(data[i + 1..])
    ensures r <==> DelimiterFollows(data[i + 1..])
  {
    ClosesIff(data[i + 1..]);
    for j := i + 1 to |data|
      invariant Closes(data[i + 1..]) == Closes(data[j..])
    {
      assert data[j..][0] == data[j] && data[j..][1..] == data[j + 1..];
      if IsBlank(data[j]) {
        continue;
      }
      return data[j] in ",}]:";
    }
    assert data[|data|..] == [];
    return true;
  }

  method FixUnescapedQuotes(data: string) returns (result: string)
    ensures result == Repair(Normal, data)
  {
    result := [];
    var state := Normal;
    assert data[0..] == data;
    for i := 0 to |data|
      invariant result + Repair(state, data[i..]) == Repair(Normal, data)
    {
      var closing := false;
      if state == InString && data[i] == '"' {
        closing := IsClosingQuote(data, i);
      }
      var out, next := Emit(state, data[i], closing, data[i + 1..]);
      assert data[i..] == [data[i]] + data[i + 1..];
      Assoc(result, out, Repair(next, data[i + 1..]));
      result := result + out;
      state := next;
    }
    assert data[|data|..] == [];
  }

  lemma Assoc(a: string, b: string, c: string)
    ensures a + (b + c) == a + b + c
  {
  }

  lemma Head(c: char, t: string)
    ensures ([c] + t)[0] == c && ([c] + t)[1..] == t
  {
  }

  /** The body of the loop: what one byte appends to the result, and the next state. */
  method Emit(state: Mode, ch: char, closing: bool, ghost rest: string) returns (out: string, next: Mode)
    requires state == InString && ch == '"' ==> closing == Closes(rest)
    ensures Repair(state, [ch] + rest) == out + Repair(next, rest)
  {
    Head(ch, rest);
    out, next := [ch], state;
    match state {
      case Normal =>
        if ch == '"' {
          next := InString;
        }
      case InString =>
        if ch == '\\' {
          next := EscapeNext;
        } else if ch == '"' {
          if closing {
            next := Normal;
          } else {
            out := "\\\"";
          }
        }
      case EscapeNext =>
        next := InString;
    }
  }

  // ----- what the pass does to a text -----

  /** `out` is `s` with backslashes inserted, each in front of a quote, and nothing else changed. */
  predicate OnlyEscapesQuotes(s: string, out: string)
    decreases |s|
  {
    if s == [] then out == []
    else
      || (out != [] && out[0] == s[0] && OnlyEscapesQuotes(s[1..], out[1..]))
      || (s[0] == '"' && |out| >= 2 && out[0] == '\\' && out[1] == '"' && OnlyEscapesQuotes(s[1..], out[2..]))
  }

  /** A standard lexer (a string ends at its first unescaped quote) finds every string closed in
      front of a delimiter. */
  predicate StringsDelimited(mode: Mode, s: string)
    decreases |s|
  {
    if s == [] then true
    else
      var ch, rest := s[0], s[1..];
      match mode
      case Normal => StringsDelimited(if ch == '"' then InString else Normal, rest)
      case InString =>
        if ch == '\\' then StringsDelimited(EscapeNext, rest)
        else if ch == '"' then Closes(rest) && StringsDelimited(Normal, rest)
        else StringsDelimited(InString, rest)
      case EscapeNext => StringsDelimited(InString, rest)
  }

  /** Outside strings the pass keeps what a closing quote is recognized by. */
  lemma {:induction false} ClosesKept(s: string)
    ensures Closes(Repair(Normal, s)) == Closes(s)
    decreases |s|
  {
    if s != [] {
      var next := if s[0] == '"' then InString else Normal;
      Head(s[0], Repair(next, s[1..]));
      if IsBlank(s[0]) {
        ClosesKept(s[1..]);
      }
    }
  }

  /** The repaired text is the input with backslashes inserted before quotes: deleting them gives
      the input back. */
  lemma {:induction false} RepairOnlyEscapes(mode: Mode, s: string)
    ensures OnlyEscapesQuotes(s, Repair(mode, s))
    decreases |s|
  {
    if s != [] {
      var ch, rest := s[0], s[1..];
      forall m: Mode
        ensures OnlyEscapesQuotes(rest, Repair(m, rest)) && ([ch] + Repair(m, rest))[1..] == Repair(m, rest)
      {
        RepairOnlyEscapes(m, rest);
      }
      var t := Repair(InString, rest);
      assert ("\\\"" + t)[2..] == t;
    }
  }

  /** After repair, a standard lexer sees every string closed in front of a delimiter. */
  lemma {:induction false} RepairDelimits(mode: Mode, s: string)
    ensures StringsDelimited(mode, Repair(mode, s))
    decreases |s|
  {
    if s != [] {
      var ch, rest := s[0], s[1..];
      forall m: Mode ensures StringsDelimited(m, Repair(m, rest)) && ([ch] + Repair(m, rest))[1..] == Repair(m, rest) {
        RepairDelimits(m, rest);
      }
      ClosesKept(rest);
      var t := Repair(InString, rest);
      assert ("\\\"" + t)[0] == '\\' && ("\\\"" + t)[1..] == "\"" + t && ("\"" + t)[1..] == t;
    }
  }

  /** The texts the pass leaves alone are exactly those. */
  lemma {:induction false} FixedIffDelimited(mode: Mode, s: string)
    ensures Repair(mode, s) == s <==> StringsDelimited(mode, s)
    decreases |s|
  {
    if s != [] {
      var ch, rest := s[0], s[1..];
      assert s == [ch] + rest;
      forall m: Mode
        ensures (Repair(m, rest) == rest <==> StringsDelimited(m, rest))
          && ([ch] + Repair(m, rest) == s <==> Repair(m, rest) == rest)
      {
        FixedIffDelimited(m, rest);
        Head(ch, Repair(m, rest));
      }
    }
  }

  /** Repairing twice is repairing once. */
  lemma RepairIdempotent(s: string)
    ensures Repair(Normal, Repair(Normal, s)) == Repair(Normal, s)
  {
    RepairDelimits(Normal, s);
    FixedIffDelimited(Normal, Repair(Normal, s));
  }
}
