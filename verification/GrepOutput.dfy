/**
 What the line output of a search says about the source text itself: which lines are printed, with which text and
 which numbers.
 */
module GrepOutput {
  import opened Decimals
  import opened GrepLines
  import opened GrepRender
  import opened Integers

  // ----- lines of the source, by counting newlines -----

  /** The 1-based line of an offset. Before the text it is the first, after it the last line. */
  function LineNo(content: string, offset: int): nat
    requires content != ""
  {
    1 + Newlines(content[..Max(0, Min(offset, |content| - 1))])
  }

  function LineCount(content: string): nat {
    if content == "" then 0 else LineNo(content, |content|)
  }

  /** Line ln is the text from o to e: after a newline or at the beginning, up to a newline or the end. */
  ghost predicate IsLine(content: string, ln: int, o: nat, e: nat) {
    && o < |content| && o <= e <= |content|
    && (o == 0 || content[o - 1] == '\n') && (e == |content| || content[e] == '\n')
    && (forall k :: o <= k < e ==> content[k] != '\n')
    && ln == 1 + Newlines(content[..o])
  }

  /** The text of a line, less a final carriage return. */
  predicate IsText(line: string, text: string) {
    line == text + "\r" || (line == text && (line == "" || line[|line| - 1] != '\r'))
  }

  /** A row is the text of its line, after a numeral and a colon if the lines are numbered. */
  ghost predicate IsRow(content: string, row: string, ln: int, numbered: bool) {
    exists o: nat, e: nat ::
      && IsLine(content, ln, o, e)
      && if numbered then IsNumberedText(content[o..e], row, ln) else IsText(content[o..e], row)
  }

  ghost predicate IsNumberedText(line: string, row: string, ln: int) {
    exists n :: 0 <= n < |row| && IsNumeral(row[..n]) && Value(row[..n]) == ln && row[n] == ':'
                && IsText(line, row[n + 1..])
  }

  lemma LineOfIs(content: string, lines: seq<string>, starts: seq<int>, offset: int)
    requires Split(content, lines, starts) && content != ""
    ensures starts != [] && LineOf(starts, offset) == LineNo(content, offset)
  {
    assert LineStart(content, 0) && 0 in starts;
    var last := |content| - 1;
    if offset < 0 {
      LineCountsNewlines(content, lines, starts, 0);
    } else if offset <= last {
      LineCountsNewlines(content, lines, starts, offset);
    } else {
      LineCountsNewlines(content, lines, starts, last);
      forall k | 0 <= k < |starts| ensures starts[k] <= last {
        assert starts[k] in starts;
      }
      UpToIs(starts, last, |starts|);
      UpToIs(starts, offset, |starts|);
    }
  }

  lemma SomeMember(xs: seq<int>)
    requires xs != []
    ensures exists x :: x in xs
  {
    var x := xs[0];
    assert x in xs;
  }

  lemma CountIs(content: string, lines: seq<string>, starts: seq<int>)
    requires Split(content, lines, starts)
    ensures |starts| == LineCount(content)
  {
    if content == "" {
      if starts != [] {
        SomeMember(starts);
      }
    } else {
      LineOfIs(content, lines, starts, |content|);
      forall k | 0 <= k < |starts| ensures starts[k] <= |content| {
        assert starts[k] in starts;
      }
      UpToIs(starts, |content|, |starts|);
    }
  }

  lemma {:induction false} LineEndMeaning(content: string, o: nat)
    requires o <= |content|
    ensures var e := LineEnd(content, o);
            && (e == |content| || content[e] == '\n')
            && (forall k :: o <= k < e ==> content[k] != '\n')
    decreases |content| - o
  {
    if o < |content| && content[o] != '\n' {
      LineEndMeaning(content, o + 1);
    }
  }

  /** The i-th start begins line i + 1. */
  lemma StartIsLine(content: string, lines: seq<string>, starts: seq<int>, i: nat)
    requires Split(content, lines, starts) && i < |starts|
    ensures 0 <= starts[i] < |content|
    ensures IsLine(content, i + 1, starts[i], LineEnd(content, starts[i]))
    ensures IsText(content[starts[i]..LineEnd(content, starts[i])], lines[i])
  {
    var o := starts[i];
    assert o in starts && LineStart(content, o);
    LineEndMeaning(content, o);
    LineCountsNewlines(content, lines, starts, o);
    UpToIs(starts, o, i + 1);
    var line := content[o..LineEnd(content, o)];
    TrimmedText(line);
  }

  lemma TrimmedText(line: string)
    ensures IsText(line, TrimCr(line))
  {
    if line != "" && line[|line| - 1] == '\r' {
      assert line == line[..|line| - 1] + "\r";
    }
  }

  lemma RowIs(content: string, lines: seq<string>, starts: seq<int>, ln: int, numbered: bool)
    requires Split(content, lines, starts) && 1 <= ln <= |lines|
    ensures IsRow(content, Row(lines, ln, numbered), ln, numbered)
  {
    StartIsLine(content, lines, starts, ln - 1);
    var o, text := starts[ln - 1], lines[ln - 1];
    var e := LineEnd(content, o);
    if numbered {
      NumberedText(content[o..e], text, ln);
    }
    assert IsLine(content, ln, o, e);
  }

  lemma NumberedText(line: string, text: string, ln: nat)
    requires IsText(line, text)
    ensures IsNumberedText(line, Decimal(ln) + ":" + text, ln)
  {
    var row, n := Decimal(ln) + ":" + text, |Decimal(ln)|;
    DecimalReads(ln);
    assert row[..n] == Decimal(ln) && row[n] == ':' && row[n + 1..] == text;
  }

  // ----- the lines to print -----

  /** The match meets the line. */
  predicate Meets(content: string, m: Match, ln: int)
    requires content != ""
  {
    var first := LineNo(content, m.0);
    var last := LineNo(content, if m.1 > m.0 then m.1 - 1 else m.1);
    first <= ln <= Max(first, last)
  }

  ghost predicate IsHit(content: string, matches: seq<Match>, ln: int) {
    content != "" && exists i :: 0 <= i < |matches| && Meets(content, matches[i], ln)
  }

  /** A line is within the context of a hit line. A positive Context replaces the other two, and a negative number
      counts as none. */
  predicate Near(p: Params, hit: int, ln: int) {
    if p.context > 0 then hit - p.context <= ln <= hit + p.context
    else hit - Max(p.before, 0) <= ln <= hit + Max(p.after, 0)
  }

  /** The end of the context behind a hit line fits in 64 bits. */
  predicate EndFits(p: Params, hit: int) {
    hit + (if p.context > 0 then p.context else Max(p.after, 0)) <= MAX64
  }

  /** The line is to be printed, if the limit allows. */
  ghost predicate IsWanted(content: string, matches: seq<Match>, p: Params, ln: int) {
    && 1 <= ln <= LineCount(content)
    && (exists hit :: IsHit(content, matches, hit) && Near(p, hit, ln))
    && (exists hit :: IsHit(content, matches, hit) && EndFits(p, hit))
  }

  /** The first wanted lines, each once, ascending: all of them, or as many as a positive limit allows. */
  ghost predicate Selected(content: string, matches: seq<Match>, p: Params, nums: seq<int>) {
    && Ascending(nums)
    && (forall ln :: ln in nums ==> IsWanted(content, matches, p, ln))
    && (p.headLimit > 0 ==> |nums| <= p.headLimit)
    && (forall ln :: IsWanted(content, matches, p, ln) && ln !in nums ==>
          p.headLimit > 0 && |nums| == p.headLimit && forall k :: 0 <= k < |nums| ==> nums[k] < ln)
  }

  lemma MeetsIs(content: string, lines: seq<string>, starts: seq<int>, m: Match, ln: int)
    requires Split(content, lines, starts) && content != ""
    ensures Meets(content, m, ln) <==> FirstLine(starts, m) <= ln <= LastLine(starts, m)
  {
    LineOfIs(content, lines, starts, m.0);
    LineOfIs(content, lines, starts, if m.1 > m.0 then m.1 - 1 else m.1);
  }

  lemma HitIs(content: string, lines: seq<string>, starts: seq<int>, matches: seq<Match>, ln: int)
    requires Split(content, lines, starts) && content != ""
    ensures IsHit(content, matches, ln) <==> Hit(starts, matches, ln)
  {
    forall i | 0 <= i < |matches|
      ensures Meets(content, matches[i], ln) <==> FirstLine(starts, matches[i]) <= ln <= LastLine(starts, matches[i])
    {
      MeetsIs(content, lines, starts, matches[i], ln);
    }
  }

  lemma PrintedIs(content: string, lines: seq<string>, starts: seq<int>, matches: seq<Match>, p: Params, nums: seq<int>)
    requires Split(content, lines, starts) && Printed(starts, matches, p, nums)
    ensures forall ln :: ln in nums <==> IsWanted(content, matches, p, ln)
  {
    CountIs(content, lines, starts);
    if content == "" {
      NothingWanted(starts, matches, p, nums);
    } else {
      forall hit ensures IsHit(content, matches, hit) <==> Hit(starts, matches, hit) {
        HitIs(content, lines, starts, matches, hit);
      }
      FitsIs(content, starts, matches, p);
      forall ln ensures ln in nums <==> IsWanted(content, matches, p, ln) {
        WantedIs(content, starts, matches, p, ln);
      }
    }
  }

  lemma NothingWanted(starts: seq<int>, matches: seq<Match>, p: Params, nums: seq<int>)
    requires starts == [] && Printed(starts, matches, p, nums)
    ensures nums == []
  {
    if nums != [] {
      SomeMember(nums);
    }
  }

  lemma FitsIs(content: string, starts: seq<int>, matches: seq<Match>, p: Params)
    requires forall hit :: IsHit(content, matches, hit) <==> Hit(starts, matches, hit)
    ensures ContextFits(starts, matches, p) <==> exists hit :: IsHit(content, matches, hit) && EndFits(p, hit)
  {
    if hit :| IsHit(content, matches, hit) && EndFits(p, hit) {
      assert Hit(starts, matches, hit) && hit + Max(After(p), 0) <= MAX64;
    }
  }

  lemma WantedIs(content: string, starts: seq<int>, matches: seq<Match>, p: Params, ln: int)
    requires forall hit :: IsHit(content, matches, hit) <==> Hit(starts, matches, hit)
    requires |starts| == LineCount(content)
    ensures Wanted(starts, matches, p, ln)
       <==> 1 <= ln <= LineCount(content) && exists hit :: IsHit(content, matches, hit) && Near(p, hit, ln)
  {
    if hit :| IsHit(content, matches, hit) && Near(p, hit, ln) {
      assert Hit(starts, matches, hit) && hit - Max(Before(p), 0) <= ln <= hit + Max(After(p), 0);
    }
  }

  lemma CutIsSelected(content: string, matches: seq<Match>, p: Params, all: seq<int>)
    requires Ascending(all) && forall ln :: ln in all <==> IsWanted(content, matches, p, ln)
    ensures Selected(content, matches, p, Cut(all, p.headLimit))
  {
    var nums := Cut(all, p.headLimit);
    forall ln | ln in all
      ensures ln in nums || (p.headLimit > 0 && |nums| == p.headLimit && forall k :: 0 <= k < |nums| ==> nums[k] < ln)
    {
      var j :| 0 <= j < |all| && all[j] == ln;
      if j < |nums| {
        assert nums[j] == ln;
      }
    }
    forall ln | ln in nums ensures ln in all {
      var j :| 0 <= j < |nums| && nums[j] == ln;
      assert all[j] == ln;
    }
  }

  // ----- the printed text -----

  /** The pieces of a text between its newlines. */
  function Pieces(text: string): (pieces: seq<string>)
    ensures pieces != []
  {
    if text == "" then [""]
    else
      var n := |text| - 1;
      var front := Pieces(text[..n]);
      if text[n] == '\n' then front + [""]
      else front[|front| - 1 := front[|front| - 1] + [text[n]]]
  }

  predicate OneLine(s: string) {
    '\n' !in s
  }

  lemma {:induction false} PiecesNext(text: string, more: string)
    requires OneLine(more)
    ensures var p := Pieces(text); Pieces(text + more) == p[|p| - 1 := p[|p| - 1] + more]
    decreases |more|
  {
    if more == "" {
      assert text + more == text;
      assert Pieces(text)[|Pieces(text)| - 1] + more == Pieces(text)[|Pieces(text)| - 1];
    } else {
      var n := |more| - 1;
      PiecesNext(text, more[..n]);
      assert (text + more)[..|text| + n] == text + more[..n];
      assert more[n] in more;
      var p := Pieces(text);
      assert p[|p| - 1] + more[..n] + [more[n]] == p[|p| - 1] + more;
    }
  }

  lemma PiecesAfterNewline(text: string, more: string)
    requires OneLine(more)
    ensures Pieces(text + "\n" + more) == Pieces(text) + [more]
  {
    var open := text + "\n";
    assert open[..|text|] == text;
    assert Pieces(open) == Pieces(text) + [""];
    PiecesNext(open, more);
    assert "" + more == more;
  }

  /** Joined rows are told apart at the newlines. */
  lemma {:induction false} JoinedPieces(rows: seq<string>)
    requires rows != [] && forall i :: 0 <= i < |rows| ==> OneLine(rows[i])
    ensures Pieces(JoinLines(rows)) == rows
    decreases |rows|
  {
    var n := |rows| - 1;
    if n == 0 {
      PiecesNext("", rows[0]);
      assert "" + rows[0] == rows[0];
    } else {
      JoinedPieces(rows[..n]);
      PiecesAfterNewline(JoinLines(rows[..n]), rows[n]);
      assert rows == rows[..n] + [rows[n]];
    }
  }

  lemma TextIsOneLine(content: string, o: nat, e: nat, text: string)
    requires o <= e <= |content| && (forall k :: o <= k < e ==> content[k] != '\n') && IsText(content[o..e], text)
    ensures OneLine(text)
  {
    assert OneLine(content[o..e]);
    if content[o..e] == text + "\r" {
      assert forall c :: c in text ==> c in content[o..e];
    }
  }

  lemma RowIsOneLine(content: string, lines: seq<string>, starts: seq<int>, ln: int, numbered: bool)
    requires Split(content, lines, starts) && 1 <= ln <= |lines|
    ensures OneLine(Row(lines, ln, numbered))
  {
    StartIsLine(content, lines, starts, ln - 1);
    TextIsOneLine(content, starts[ln - 1], LineEnd(content, starts[ln - 1]), lines[ln - 1]);
    assert OneLine(Decimal(ln));
  }

  /** The printed text is nothing if no line is selected; otherwise its pieces between newlines are the rows of the
      selected lines, one for each. */
  ghost predicate Says(content: string, p: Params, nums: seq<int>, text: string) {
    if nums == [] then text == ""
    else
      && |Pieces(text)| == |nums|
      && forall i :: 0 <= i < |nums| ==> IsRow(content, Pieces(text)[i], nums[i], p.lineNumber)
  }

  lemma RowsSay(content: string, lines: seq<string>, starts: seq<int>, p: Params, nums: seq<int>)
    requires Split(content, lines, starts) && InText(lines, nums)
    ensures Says(content, p, nums, JoinLines(Rows(lines, nums, p.lineNumber)))
  {
    var rows := Rows(lines, nums, p.lineNumber);
    forall i | 0 <= i < |nums| ensures OneLine(rows[i]) && IsRow(content, rows[i], nums[i], p.lineNumber) {
      RowIsOneLine(content, lines, starts, nums[i], p.lineNumber);
      RowIs(content, lines, starts, nums[i], p.lineNumber);
    }
    if nums != [] {
      JoinedPieces(rows);
    }
  }

  /** For every text, matches and parameters: the output's rows are the source's own lines, in order, with their
      numbers if asked for, and exactly those in the context of a hit line, up to the limit. */
  lemma OutputSays(source: string, matches: seq<Match>, p: Params, text: string)
    requires Rendered(source, matches, p, text)
    ensures exists nums: seq<int> :: Selected(source, matches, p, nums) && Says(source, p, nums, text)
  {
    var lines, starts, all :| RenderedAs(source, matches, p, text, lines, starts, all);
    PrintedIs(source, lines, starts, matches, p, all);
    CutIsSelected(source, matches, p, all);
    RowsSay(source, lines, starts, p, Cut(all, p.headLimit));
    assert Says(source, p, Cut(all, p.headLimit), text);
  }

  // ----- which lines a match meets, byte by byte -----

  lemma {:induction false} LineNoSteps(content: string, a: nat, b: nat, ln: int)
    requires a <= b < |content| && LineNo(content, a) <= ln <= LineNo(content, b)
    ensures exists k :: a <= k <= b && LineNo(content, k) == ln
    decreases b
  {
    if LineNo(content, b) == ln {
      assert a <= b <= b;
    } else if a < b {
      assert content[..b][..b - 1] == content[..b - 1];
      LineNoSteps(content, a, b - 1, ln);
    }
  }

  lemma {:induction false} LineNoMonotone(content: string, a: nat, b: nat)
    requires a <= b < |content|
    ensures LineNo(content, a) <= LineNo(content, b)
    decreases b
  {
    if a < b {
      assert content[..b][..b - 1] == content[..b - 1];
      LineNoMonotone(content, a, b - 1);
    }
  }

  /** A nonempty match inside the text meets the lines of its bytes, and an empty one the line of its position. */
  lemma MeetsBytes(content: string, m: Match, ln: int)
    requires content != "" && 0 <= m.0 <= m.1 <= |content|
    ensures m.0 < m.1 ==> (Meets(content, m, ln) <==> exists k :: m.0 <= k < m.1 && LineNo(content, k) == ln)
    ensures m.0 == m.1 ==> (Meets(content, m, ln) <==> LineNo(content, m.0) == ln)
  {
    if m.0 < m.1 {
      LineNoMonotone(content, m.0, m.1 - 1);
      if Meets(content, m, ln) {
        LineNoSteps(content, m.0, m.1 - 1, ln);
      }
      if k :| m.0 <= k < m.1 && LineNo(content, k) == ln {
        LineNoMonotone(content, m.0, k);
        LineNoMonotone(content, k, m.1 - 1);
      }
    }
  }

  // ----- a search that hits everything -----

  /** The source without the newline at its end. */
  function Unended(content: string): string {
    if content != "" && content[|content| - 1] == '\n' then content[..|content| - 1] else content
  }

  /** The next line starts behind the newline that ends this one. */
  lemma NextStart(content: string, lines: seq<string>, starts: seq<int>, i: nat)
    requires Split(content, lines, starts) && i < |starts|
    ensures 0 <= starts[i] <= |content|
    ensures i + 1 < |starts| ==> starts[i + 1] == LineEnd(content, starts[i]) + 1
    ensures i + 1 == |starts| ==> LineEnd(content, starts[i]) + 1 >= |content|
  {
    StartIsLine(content, lines, starts, i);
    LineEndMeaning(content, starts[i]);
    StartsPart(content, lines, starts);
    StartAfter(content, starts, i, starts[i], LineEnd(content, starts[i]));
  }

  /** The part of the specification that is about the starts. */
  ghost predicate AreStarts(content: string, starts: seq<int>) {
    Ascending(starts) && forall o :: o in starts <==> LineStart(content, o)
  }

  lemma StartsPart(content: string, lines: seq<string>, starts: seq<int>)
    requires Split(content, lines, starts)
    ensures AreStarts(content, starts)
  {
  }

  lemma StartAfter(content: string, starts: seq<int>, i: nat, o: nat, e: nat)
    requires AreStarts(content, starts) && i < |starts| && starts[i] == o <= e <= |content|
    requires (e == |content| || content[e] == '\n') && forall k :: o <= k < e ==> content[k] != '\n'
    ensures i + 1 < |starts| ==> starts[i + 1] == e + 1
    ensures i + 1 == |starts| ==> e + 1 >= |content|
  {
    forall x | x in starts ensures !(o < x < e + 1) {
      NoStartInside(content, o, e, x);
    }
    if i + 1 < |starts| {
      Follows(starts, i);
    }
    if e + 1 < |content| {
      assert LineStart(content, e + 1);
      Successor(starts, i, e + 1);
    }
  }

  lemma NoStartInside(content: string, o: nat, e: nat, x: int)
    requires o <= e <= |content| && (forall k :: o <= k < e ==> content[k] != '\n') && LineStart(content, x)
    ensures !(o < x < e + 1)
  {
  }

  lemma Follows(starts: seq<int>, i: nat)
    requires Ascending(starts) && i + 1 < |starts|
    ensures starts[i] < starts[i + 1] && starts[i + 1] in starts
  {
  }

  lemma Successor(starts: seq<int>, i: nat, x: int)
    requires Ascending(starts) && i < |starts| && x in starts && starts[i] < x
    requires forall y :: y in starts ==> !(starts[i] < y < x)
    ensures i + 1 < |starts| && starts[i + 1] == x
  {
    var k :| 0 <= k < |starts| && starts[k] == x;
    assert i < k;
    Follows(starts, i);
  }

  /** The first k lines, joined, are the text up to the end of the line that starts at o. */
  ghost predicate JoinsTo(content: string, lines: seq<string>, o: int, k: nat) {
    k <= |lines| && 0 <= o <= |content| && JoinLines(lines[..k]) == content[..LineEnd(content, o)]
  }

  lemma {:induction false} LinesJoined(content: string, lines: seq<string>, starts: seq<int>, k: nat)
    requires Split(content, lines, starts) && 0 < k <= |starts| && '\r' !in content
    ensures JoinsTo(content, lines, starts[k - 1], k)
    decreases k
  {
    LineIsSlice(content, lines, starts, k - 1);
    if k == 1 {
      FirstLineJoined(content, lines, starts);
    } else {
      LinesJoined(content, lines, starts, k - 1);
      NextLineFollows(content, lines, starts, k - 2);
      OneMoreJoined(content, lines, starts[k - 2], starts[k - 1], k);
    }
  }

  lemma NextLineFollows(content: string, lines: seq<string>, starts: seq<int>, i: nat)
    requires Split(content, lines, starts) && i + 1 < |starts|
    ensures 0 <= starts[i] <= |content|
    ensures starts[i + 1] == LineEnd(content, starts[i]) + 1 <= |content|
    ensures content[LineEnd(content, starts[i])] == '\n'
  {
    NextStart(content, lines, starts, i);
    StartIsLine(content, lines, starts, i + 1);
    LineEndMeaning(content, starts[i]);
  }

  lemma LineIsSlice(content: string, lines: seq<string>, starts: seq<int>, i: nat)
    requires Split(content, lines, starts) && i < |starts| && '\r' !in content
    ensures 0 <= starts[i] < |content| && lines[i] == content[starts[i]..LineEnd(content, starts[i])]
  {
    StartIsLine(content, lines, starts, i);
    NoneInside(content, starts[i], LineEnd(content, starts[i]));
    PlainText(content[starts[i]..LineEnd(content, starts[i])], lines[i]);
  }

  lemma NoneInside(content: string, o: nat, e: nat)
    requires o <= e <= |content| && '\r' !in content
    ensures '\r' !in content[o..e]
  {
  }

  lemma FirstLineJoined(content: string, lines: seq<string>, starts: seq<int>)
    requires Split(content, lines, starts) && 0 < |starts|
    requires 0 <= starts[0] < |content| && lines[0] == content[starts[0]..LineEnd(content, starts[0])]
    ensures JoinsTo(content, lines, starts[0], 1)
  {
    assert LineStart(content, 0) && 0 in starts;
    FirstIsLeast(starts, 0);
    assert lines[..1] == [lines[0]];
  }

  lemma OneMoreJoined(content: string, lines: seq<string>, before: nat, o: nat, k: nat)
    requires 1 < k <= |lines| && JoinsTo(content, lines, before, k - 1)
    requires 0 < o == LineEnd(content, before) + 1 <= |content| && content[o - 1] == '\n'
    requires lines[k - 1] == content[o..LineEnd(content, o)]
    ensures JoinsTo(content, lines, o, k)
  {
    JoinNext(lines, k);
    Glue(content, o, LineEnd(content, o));
  }

  lemma JoinNext(lines: seq<string>, k: nat)
    requires 1 < k <= |lines|
    ensures JoinLines(lines[..k]) == JoinLines(lines[..k - 1]) + "\n" + lines[k - 1]
  {
    assert lines[..k][..k - 1] == lines[..k - 1];
  }

  lemma Glue(content: string, o: nat, e: nat)
    requires 0 < o <= e <= |content| && content[o - 1] == '\n'
    ensures content[..o - 1] + "\n" + content[o..e] == content[..e]
  {
  }

  lemma PlainText(line: string, text: string)
    requires '\r' !in line && IsText(line, text)
    ensures text == line
  {
    assert line != "" ==> line[|line| - 1] in line;
  }

  /** When matches meet all lines, and without numbers, limit and carriage returns, the output is the source, less a
      newline at its end. */
  lemma WholeSource(source: string, matches: seq<Match>, p: Params, text: string)
    requires Rendered(source, matches, p, text) && !p.lineNumber && p.headLimit <= 0 && '\r' !in source
    requires forall ln :: 1 <= ln <= LineCount(source) ==> IsHit(source, matches, ln)
    requires exists hit :: IsHit(source, matches, hit) && EndFits(p, hit)
    ensures text == Unended(source)
  {
    var lines: seq<string>, starts: seq<int>, all: seq<int> :| RenderedAs(source, matches, p, text, lines, starts, all);
    PrintedIs(source, lines, starts, matches, p, all);
    CountIs(source, lines, starts);
    forall ln | 1 <= ln <= |starts| ensures ln in all {
      assert IsHit(source, matches, ln) && Near(p, ln, ln);
    }
    SpanMembers(1, |starts|);
    AscendingUnique(all, Span(1, |starts|));
    AllRows(lines, all, p.lineNumber);
    LinesAreSource(source, lines, starts);
  }

  lemma LinesAreSource(source: string, lines: seq<string>, starts: seq<int>)
    requires Split(source, lines, starts) && source != "" && '\r' !in source
    ensures JoinLines(lines) == Unended(source)
  {
    CountIs(source, lines, starts);
    var n := |starts|;
    LinesJoined(source, lines, starts, n);
    NextStart(source, lines, starts, n - 1);
    StartIsLine(source, lines, starts, n - 1);
    assert lines[..n] == lines;
    LastEnd(source, starts[n - 1], LineEnd(source, starts[n - 1]));
  }

  /** The last line ends at the end of the source, or just before the newline there. */
  lemma LastEnd(source: string, o: nat, e: nat)
    requires o < |source| && o <= e <= |source| <= e + 1 && (e == |source| || source[e] == '\n')
    requires forall k :: o <= k < e ==> source[k] != '\n'
    ensures source[..e] == Unended(source)
  {
  }

  lemma AllRows(lines: seq<string>, all: seq<int>, numbered: bool)
    requires all == Span(1, |lines|) && InText(lines, all) && !numbered
    ensures Rows(lines, all, numbered) == lines
  {
    forall i: nat | i < |lines| ensures |all| == |lines| && all[i] == i + 1 {
      CountedUp(all, |lines|, i);
    }
    SpanLength(1, |lines|);
    PlainRows(lines, all, Rows(lines, all, numbered));
  }

  lemma CountedUp(all: seq<int>, n: nat, i: nat)
    requires all == Span(1, n) && i < n
    ensures |all| == n && all[i] == i + 1
  {
    SpanAt(1, n, i + 1);
  }

  lemma PlainRows(lines: seq<string>, all: seq<int>, rows: seq<string>)
    requires |all| == |lines| && (forall i :: 0 <= i < |lines| ==> all[i] == i + 1)
    requires InText(lines, all) && rows == Rows(lines, all, false)
    ensures rows == lines
  {
  }
}
