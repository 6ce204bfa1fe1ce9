/**
 Line output of a search (pkg/rg/grep.go, collectMatchLines and renderLineOutput). The regular
 expression's match positions are an input.
 */
module GrepRender {
  import opened Decimals
  import opened GrepLines
  import opened GrepRanges
  import opened Integers

  type Match = (int, int)

  datatype Params = Params(before: Int64, after: Int64, context: Int64, lineNumber: bool, headLimit: Int64)

  function FirstLine(starts: seq<int>, m: Match): nat {
    LineOf(starts, m.0)
  }

  /** The line of the match's last byte; an empty match is on the line of its position. */
  function LastLine(starts: seq<int>, m: Match): nat {
    var e := LineOf(starts, if m.1 > m.0 then m.1 - 1 else m.1);
    if e < FirstLine(starts, m) then FirstLine(starts, m) else e
  }

  /** Some match meets the line. */
  ghost predicate Hit(starts: seq<int>, matches: seq<Match>, ln: int) {
    exists i :: 0 <= i < |matches| && FirstLine(starts, matches[i]) <= ln <= LastLine(starts, matches[i])
  }

  // ----- sorting line numbers -----

  /** sort.Ints; insertion stands in for the library's algorithm. */
  function Insert(xs: seq<int>, x: int): seq<int> {
    if xs == [] || x <= xs[0] then [x] + xs else [xs[0]] + Insert(xs[1..], x)
  }

  function SortInts(xs: seq<int>): seq<int> {
    if xs == [] then [] else Insert(SortInts(xs[1..]), xs[0])
  }

  lemma {:induction false} InsertAscends(xs: seq<int>, x: int)
    requires Ascending(xs) && x !in xs
    ensures Ascending(Insert(xs, x)) && forall y :: y in Insert(xs, x) <==> y == x || y in xs
    decreases |xs|
  {
    if xs != [] && x > xs[0] {
      var rest := Insert(xs[1..], x);
      InsertAscends(xs[1..], x);
      assert xs == [xs[0]] + xs[1..];
      forall j | 0 <= j < |rest| ensures xs[0] < rest[j] {
        assert rest[j] in rest;
      }
    }
  }

  lemma {:induction false} SortAscends(xs: seq<int>)
    requires Distinct(xs)
    ensures Ascending(SortInts(xs)) && forall y :: y in SortInts(xs) <==> y in xs
    decreases |xs|
  {
    if xs != [] {
      SortAscends(xs[1..]);
      assert xs == [xs[0]] + xs[1..];
      InsertAscends(SortInts(xs[1..]), xs[0]);
    }
  }

  predicate Distinct(xs: seq<int>) {
    forall i, j :: 0 <= i < j < |xs| ==> xs[i] != xs[j]
  }

  // ----- the lines that matches meet -----

  method AddLines(lines: seq<int>, seen: set<int>, first: nat, last: nat) returns (l: seq<int>, s: set<int>)
    requires Distinct(lines) && (forall x :: x in seen <==> x in lines) && first <= last
    ensures Distinct(l) && (forall x :: x in s <==> x in l)
    ensures forall x :: x in l <==> x in lines || first <= x <= last
  {
    l, s := lines, seen;
    for ln := first to last + 1
      invariant Distinct(l) && (forall x :: x in s <==> x in l)
      invariant forall x :: x in l <==> x in lines || first <= x < ln
    {
      if ln in s {
        continue;
      }
      s := s + {ln};
      l := l + [ln];
    }
  }

  lemma HitNext(starts: seq<int>, matches: seq<Match>, n: nat, ln: int)
    requires n < |matches|
    ensures Hit(starts, matches[..n + 1], ln)
        <==> Hit(starts, matches[..n], ln) || FirstLine(starts, matches[n]) <= ln <= LastLine(starts, matches[n])
  {
    if Hit(starts, matches[..n], ln) {
      var i :| 0 <= i < n && FirstLine(starts, matches[..n][i]) <= ln <= LastLine(starts, matches[..n][i]);
      assert matches[..n + 1][i] == matches[..n][i];
    }
    if FirstLine(starts, matches[n]) <= ln <= LastLine(starts, matches[n]) {
      assert matches[..n + 1][n] == matches[n];
    }
  }

  /** Each line some match meets, once, ascending. */
  method CollectMatchLines(matches: seq<Match>, starts: seq<int>) returns (lines: seq<int>)
    requires Ascending(starts)
    ensures Ascending(lines) && forall ln :: ln in lines <==> Hit(starts, matches, ln)
  {
    var seen: set<int> := {};
    lines := [];
    for i := 0 to |matches|
      invariant Distinct(lines) && (forall x :: x in seen <==> x in lines)
      invariant forall ln :: ln in lines <==> Hit(starts, matches[..i], ln)
    {
      var (s, e) := matches[i];
      var startLine := LineByOffset(starts, s);
      var endOffset := e;
      if endOffset > s {
        endOffset := endOffset - 1;
      }
      var endLine := LineByOffset(starts, endOffset);
      if endLine < startLine {
        endLine := startLine;
      }
      forall ln
        ensures Hit(starts, matches[..i + 1], ln) <==> Hit(starts, matches[..i], ln) || startLine <= ln <= endLine
      {
        HitNext(starts, matches, i, ln);
      }
      lines, seen := AddLines(lines, seen, startLine, endLine);
    }
    assert matches[..|matches|] == matches;
    SortAscends(lines);
    lines := SortInts(lines);
  }

  // ----- rows -----

  function Row(lines: seq<string>, ln: int, numbered: bool): string
    requires 1 <= ln <= |lines|
  {
    if numbered then Decimal(ln) + ":" + lines[ln - 1] else lines[ln - 1]
  }

  predicate InText(lines: seq<string>, nums: seq<int>) {
    forall i :: 0 <= i < |nums| ==> 1 <= nums[i] <= |lines|
  }

  function Rows(lines: seq<string>, nums: seq<int>, numbered: bool): (rows: seq<string>)
    requires InText(lines, nums)
    ensures |rows| == |nums|
  {
    seq(|nums|, i requires 0 <= i < |nums| => Row(lines, nums[i], numbered))
  }

  /** A positive limit keeps that many. */
  function Cut(nums: seq<int>, limit: int): seq<int> {
    if 0 < limit < |nums| then nums[..limit] else nums
  }

  /** strings.Join(rows, "\n") */
  function JoinLines(rows: seq<string>): string {
    if rows == [] then "" else if |rows| == 1 then rows[0]
    else JoinLines(rows[..|rows| - 1]) + "\n" + rows[|rows| - 1]
  }

  /** a, a + 1, ..., b */
  function Span(a: int, b: int): seq<int>
    decreases b - a
  {
    if b < a then [] else Span(a, b - 1) + [b]
  }

  /** The line numbers of the ranges, range after range. */
  function Flat(ranges: seq<Range>): seq<int> {
    if ranges == [] then []
    else Flat(ranges[..|ranges| - 1]) + Span(ranges[|ranges| - 1].0, ranges[|ranges| - 1].1)
  }

  lemma {:induction false} SpanMembers(a: int, b: int)
    ensures Ascending(Span(a, b)) && forall x :: x in Span(a, b) <==> a <= x <= b
    decreases b - a
  {
    if a <= b {
      SpanMembers(a, b - 1);
      ConcatAscends(Span(a, b - 1), [b], b);
    }
  }

  /** Ranges that are apart list every covered line once, in order. */
  lemma {:induction false} FlatMembers(ranges: seq<Range>, total: int)
    requires Apart(ranges, total)
    ensures Ascending(Flat(ranges)) && forall ln :: ln in Flat(ranges) <==> Covered(ranges, ln)
    decreases |ranges|
  {
    if ranges != [] {
      var n := |ranges| - 1;
      var front, last := ranges[..n], ranges[n];
      FlatMembers(front, total);
      SpanMembers(last.0, last.1);
      forall ln ensures ln in Flat(ranges) <==> Covered(ranges, ln) {
        CoveredNext(ranges, ln);
      }
      forall ln | ln in Flat(front) ensures ln < last.0 {
        var i :| 0 <= i < n && front[i].0 <= ln <= front[i].1;
        assert ranges[i].1 + 1 < ranges[n].0;
      }
      ConcatAscends(Flat(front), Span(last.0, last.1), last.0);
    }
  }

  lemma CoveredNext(ranges: seq<Range>, ln: int)
    requires ranges != []
    ensures var n := |ranges| - 1;
      Covered(ranges, ln) <==> Covered(ranges[..n], ln) || ranges[n].0 <= ln <= ranges[n].1
  {
    var n := |ranges| - 1;
    if Covered(ranges[..n], ln) {
      var i :| 0 <= i < n && ranges[..n][i].0 <= ln <= ranges[..n][i].1;
      assert ranges[i].0 <= ln <= ranges[i].1;
    }
    if Covered(ranges, ln) {
      var i :| 0 <= i < |ranges| && ranges[i].0 <= ln <= ranges[i].1;
      if i < n {
        assert ranges[..n][i].0 <= ln <= ranges[..n][i].1;
      }
    }
  }

  lemma ConcatAscends(a: seq<int>, b: seq<int>, cut: int)
    requires Ascending(a) && Ascending(b)
    requires (forall x :: x in a ==> x < cut) && (forall x :: x in b ==> cut <= x)
    ensures Ascending(a + b)
  {
    var ab := a + b;
    forall i, j | 0 <= i < j < |ab| ensures ab[i] < ab[j] {
      if i < |a| <= j {
        assert a[i] in a && b[j - |a|] in b;
      }
    }
  }

  /** Ranges whose ends lie before the text print nothing. */
  lemma {:induction false} FlatEmpty(ranges: seq<Range>)
    requires forall i :: 0 <= i < |ranges| ==> ranges[i].1 < ranges[i].0
    ensures Flat(ranges) == []
    decreases |ranges|
  {
    if ranges != [] {
      FlatEmpty(ranges[..|ranges| - 1]);
    }
  }

  // ----- output -----

  predicate RangeInText(lines: seq<string>, r: Range) {
    r.0 <= r.1 ==> 1 <= r.0 && r.1 <= |lines|
  }

  lemma SpanInText(lines: seq<string>, nums: seq<int>, r: Range)
    requires InText(lines, nums) && RangeInText(lines, r)
    ensures InText(lines, nums + Span(r.0, r.1))
  {
    var span := Span(r.0, r.1);
    SpanMembers(r.0, r.1);
    forall i | 0 <= i < |span| ensures 1 <= span[i] <= |lines| {
      assert span[i] in span;
    }
  }

  /** The rows of one range; full says that the limit was reached. */
  method AppendRange(lines: seq<string>, out: seq<string>, r: Range, numbered: bool, limit: int, ghost nums: seq<int>)
    returns (more: seq<string>, full: bool)
    requires RangeInText(lines, r) && InText(lines, nums) && out == Rows(lines, nums, numbered)
    requires limit > 0 ==> |out| < limit
    ensures InText(lines, nums + Span(r.0, r.1))
    ensures full ==> limit > 0 && |more| == limit <= |nums + Span(r.0, r.1)|
                     && more == Rows(lines, nums + Span(r.0, r.1), numbered)[..limit]
    ensures !full ==> more == Rows(lines, nums + Span(r.0, r.1), numbered) && (limit > 0 ==> |more| < limit)
  {
    more := out;
    ghost var all := nums + Span(r.0, r.1);
    SpanInText(lines, nums, r);
    var ln := r.0;
    while ln <= r.1
      invariant r.0 <= ln && (ln <= r.1 + 1 || ln == r.0)
      invariant |more| <= |all| && more == Rows(lines, all, numbered)[..|more|]
      invariant |more| == |nums| + ln - r.0
      invariant limit > 0 ==> |more| < limit
      decreases r.1 - ln
    {
      SpanAt(r.0, r.1, ln);
      assert all[|more|] == ln;
      more := more + [Row(lines, ln, numbered)];
      if limit > 0 && |more| >= limit {
        return more, true;
      }
      ln := ln + 1;
    }
    SpanLength(r.0, r.1);
    full := false;
  }

  lemma {:induction false} SpanLength(a: int, b: int)
    ensures |Span(a, b)| == if b < a then 0 else b - a + 1
    decreases b - a
  {
    if a <= b {
      SpanLength(a, b - 1);
    }
  }

  lemma {:induction false} SpanAt(a: int, b: int, x: int)
    requires a <= x <= b
    ensures |Span(a, b)| == b - a + 1 && Span(a, b)[x - a] == x
    decreases b - a
  {
    SpanLength(a, b);
    SpanLength(a, b - 1);
    if x < b {
      SpanAt(a, b - 1, x);
    }
  }

  /** All ranges, until the limit. */
  method RenderRanges(lines: seq<string>, ranges: seq<Range>, numbered: bool, limit: int) returns (out: seq<string>)
    requires forall i :: 0 <= i < |ranges| ==> RangeInText(lines, ranges[i])
    ensures InText(lines, Flat(ranges)) && out == Rows(lines, Cut(Flat(ranges), limit), numbered)
  {
    FlatInText(lines, ranges);
    out := [];
    for i := 0 to |ranges|
      invariant InText(lines, Flat(ranges[..i])) && out == Rows(lines, Flat(ranges[..i]), numbered)
      invariant limit > 0 ==> |out| < limit
    {
      assert ranges[..i + 1][..i] == ranges[..i];
      var more, full := AppendRange(lines, out, ranges[i], numbered, limit, Flat(ranges[..i]));
      if full {
        FlatPrefix(ranges, i + 1);
        CutRows(lines, Flat(ranges[..i + 1]), Flat(ranges), numbered, limit);
        return more;
      }
      out := more;
    }
    assert ranges[..|ranges|] == ranges;
  }

  lemma {:induction false} FlatInText(lines: seq<string>, ranges: seq<Range>)
    requires forall i :: 0 <= i < |ranges| ==> RangeInText(lines, ranges[i])
    ensures InText(lines, Flat(ranges))
    decreases |ranges|
  {
    if ranges != [] {
      FlatInText(lines, ranges[..|ranges| - 1]);
      var last := ranges[|ranges| - 1];
      SpanInText(lines, Flat(ranges[..|ranges| - 1]), last);
    }
  }

  lemma {:induction false} FlatPrefix(ranges: seq<Range>, n: nat)
    requires n <= |ranges|
    ensures Flat(ranges[..n]) <= Flat(ranges)
    decreases |ranges|
  {
    if n == |ranges| {
      assert ranges[..n] == ranges;
    } else {
      FlatPrefix(ranges[..|ranges| - 1], n);
      assert ranges[..|ranges| - 1][..n] == ranges[..n];
    }
  }

  lemma CutRows(lines: seq<string>, some: seq<int>, all: seq<int>, numbered: bool, limit: int)
    requires InText(lines, all) && InText(lines, some) && some <= all && 0 < limit <= |some|
    ensures InText(lines, Cut(all, limit))
    ensures Rows(lines, some, numbered)[..limit] == Rows(lines, Cut(all, limit), numbered)
  {
  }

  function Before(p: Params): Int64 {
    if p.context > 0 then p.context else p.before
  }

  function After(p: Params): Int64 {
    if p.context > 0 then p.context else p.after
  }

  /** Line ln is within the context of a line some match meets. */
  ghost predicate Wanted(starts: seq<int>, matches: seq<Match>, p: Params, ln: int) {
    && 1 <= ln <= |starts|
    && exists m :: Hit(starts, matches, m) && m - Max(Before(p), 0) <= ln <= m + Max(After(p), 0)
  }

  /** Some hit line's after-context ends within 64 bits: so does the first one's. */
  ghost predicate ContextFits(starts: seq<int>, matches: seq<Match>, p: Params) {
    exists m :: Hit(starts, matches, m) && m + Max(After(p), 0) <= MAX64
  }

  /** The numbers of the lines that are printed when there is no limit. */
  ghost predicate Printed(starts: seq<int>, matches: seq<Match>, p: Params, nums: seq<int>) {
    && Ascending(nums)
    && (ContextFits(starts, matches, p) ==> forall ln :: ln in nums <==> Wanted(starts, matches, p, ln))
    && (!ContextFits(starts, matches, p) ==> nums == [])
  }

  lemma HitInText(starts: seq<int>, matches: seq<Match>, ln: int)
    requires starts != [] && Hit(starts, matches, ln)
    ensures 1 <= ln <= |starts|
  {
  }

  lemma MergedInText(lines: seq<int>, total: int, before: Int64, after: Int64)
    requires MatchLines(lines, total) && before >= 0 && after >= 0 && lines != []
    ensures var r := Merged(lines, total, before, after);
      forall i :: 0 <= i < |r| && r[i].0 <= r[i].1 ==> 1 <= r[i].0 && r[i].1 <= total
    decreases |lines|
  {
    var n := |lines| - 1;
    if n > 0 {
      MergedInText(lines[..n], total, before, after);
    } else {
      assert lines[..0] == [];
    }
  }

  /** The ranges of the hit lines list what is to be printed. */
  lemma FlatIsPrinted(starts: seq<int>, matches: seq<Match>, p: Params, hits: seq<int>)
    requires MatchLines(hits, |starts|) && hits != [] && forall ln :: ln in hits <==> Hit(starts, matches, ln)
    ensures Printed(starts, matches, p, Flat(Merged(hits, |starts|, Max(Before(p), 0), Max(After(p), 0))))
  {
    var before, after := Max(Before(p), 0), Max(After(p), 0);
    var ranges := Merged(hits, |starts|, before, after);
    assert hits[0] in hits;
    MergedIffFits(hits, |starts|, before, after);
    if hits[0] + after <= MAX64 {
      FlatMembers(ranges, |starts|);
      forall ln ensures Shown(hits, |starts|, before, after, ln) <==> Wanted(starts, matches, p, ln) {
        ShownIsWanted(starts, matches, p, hits, ln);
      }
    } else {
      AllWrap(hits, |starts|, before, after);
      FromPositive(hits, |starts|, before, after);
      FlatEmpty(ranges);
    }
  }

  lemma ShownIsWanted(starts: seq<int>, matches: seq<Match>, p: Params, hits: seq<int>, ln: int)
    requires forall m :: m in hits <==> Hit(starts, matches, m)
    ensures Shown(hits, |starts|, Max(Before(p), 0), Max(After(p), 0), ln) <==> Wanted(starts, matches, p, ln)
  {
  }

  lemma {:induction false} FromPositive(lines: seq<int>, total: int, before: Int64, after: Int64)
    ensures forall i :: 0 <= i < |Merged(lines, total, before, after)| ==> Merged(lines, total, before, after)[i].0 >= 1
    decreases |lines|
  {
    if lines != [] {
      var n := |lines| - 1;
      FromPositive(lines[..n], total, before, after);
      var front := Merged(lines[..n], total, before, after);
      var start, end := From(lines[n], before), To(lines[n], total, after);
      forall i | 0 <= i < |Add(front, start, end)| ensures Add(front, start, end)[i].0 >= 1 {
        if i < |front| {
          assert front[i].0 >= 1;
        }
      }
    }
  }

  lemma HitsAreMatchLines(starts: seq<int>, matches: seq<Match>, hits: seq<int>)
    requires 0 < |starts| < 0x4000_0000_0000_0000
    requires Ascending(hits) && forall ln :: ln in hits <==> Hit(starts, matches, ln)
    ensures MatchLines(hits, |starts|)
  {
    forall i | 0 <= i < |hits| ensures 1 <= hits[i] <= |starts| {
      assert hits[i] in hits;
      HitInText(starts, matches, hits[i]);
    }
  }

  /** The text is the rows of the printed lines, cut to the limit and joined. */
  ghost predicate RenderedAs(source: string, matches: seq<Match>, p: Params, text: string,
                             lines: seq<string>, starts: seq<int>, nums: seq<int>) {
    && Split(source, lines, starts) && Printed(starts, matches, p, nums)
    && InText(lines, nums) && text == JoinLines(Rows(lines, Cut(nums, p.headLimit), p.lineNumber))
  }

  ghost predicate Rendered(source: string, matches: seq<Match>, p: Params, text: string) {
    exists lines, starts, nums :: RenderedAs(source, matches, p, text, lines, starts, nums)
  }

  /** A text has fewer than 2^62 bytes. */
  method RenderLineOutput(source: string, matches: seq<Match>, p: Params) returns (text: string)
    requires |source| < 0x4000_0000_0000_0000
    ensures Rendered(source, matches, p, text)
  {
    var lines, starts := SplitLines(source);
    if |lines| == 0 {
      assert RenderedAs(source, matches, p, "", lines, starts, []);
      return "";
    }
    StartsBound(source, lines, starts);
    var matchLines := CollectMatchLines(matches, starts);
    if |matchLines| == 0 {
      assert RenderedAs(source, matches, p, "", lines, starts, []);
      return "";
    }
    HitsAreMatchLines(starts, matches, matchLines);
    var before, after := p.before, p.after;
    if p.context > 0 {
      before, after := p.context, p.context;
    }
    var ranges := MergeRanges(matchLines, |lines|, before, after);
    MergedInText(matchLines, |lines|, Max(before, 0), Max(after, 0));
    FlatIsPrinted(starts, matches, p, matchLines);
    var out := RenderRanges(lines, ranges, p.lineNumber, p.headLimit);
    text := JoinLines(out);
    assert RenderedAs(source, matches, p, text, lines, starts, Flat(ranges));
  }

  /** Ascending lists with the same members are equal. */
  lemma {:induction false} AscendingUnique(a: seq<int>, b: seq<int>)
    requires Ascending(a) && Ascending(b) && forall x :: x in a <==> x in b
    ensures a == b
    decreases |a|
  {
    assert a != [] ==> a[0] in a;
    assert b != [] ==> b[0] in b;
    if a != [] {
      var m, n := |a| - 1, |b| - 1;
      assert a[m] in b && b[n] in a;
      assert a[m] == b[n];
      forall x ensures x in a[..m] <==> x in b[..n] {
        Front(a, x);
        Front(b, x);
      }
      AscendingUnique(a[..m], b[..n]);
      assert a == a[..m] + [a[m]] && b == b[..n] + [b[n]];
    }
  }

  lemma Front(a: seq<int>, x: int)
    requires Ascending(a) && a != []
    ensures x in a[..|a| - 1] <==> x in a && x != a[|a| - 1]
  {
    assert a == a[..|a| - 1] + [a[|a| - 1]];
  }

  /** The specification leaves nothing open: it determines the text. */
  lemma RenderedUnique(source: string, matches: seq<Match>, p: Params, text: string, other: string)
    requires Rendered(source, matches, p, text) && Rendered(source, matches, p, other)
    ensures text == other
  {
    var lines, starts, nums :| RenderedAs(source, matches, p, text, lines, starts, nums);
    var lines', starts', nums' :| RenderedAs(source, matches, p, other, lines', starts', nums');
    AscendingUnique(starts, starts');
    assert lines == lines';
    AscendingUnique(nums, nums');
  }

  lemma StartsBound(content: string, lines: seq<string>, starts: seq<int>)
    requires Split(content, lines, starts)
    ensures |starts| <= |content|
  {
    AscendingBound(starts, |content|);
  }

  lemma {:induction false} AscendingBound(xs: seq<int>, n: nat)
    requires Ascending(xs) && forall x :: x in xs ==> 0 <= x < n
    ensures |xs| <= n
    decreases |xs|
  {
    if xs != [] {
      var last := |xs| - 1;
      assert xs[last] in xs;
      forall x | x in xs[..last] ensures 0 <= x < xs[last] {
        assert x in xs;
      }
      AscendingBound(xs[..last], xs[last]);
    }
  }

  /** The window specification is met exactly when the first hit line's context does not wrap: otherwise
      nothing is printed although every hit line is wanted. */
  lemma OutputRightIff(starts: seq<int>, matches: seq<Match>, p: Params, nums: seq<int>)
    requires starts != [] && matches != [] && Printed(starts, matches, p, nums)
    ensures (forall ln :: ln in nums <==> Wanted(starts, matches, p, ln)) <==> ContextFits(starts, matches, p)
  {
    var ln := FirstLine(starts, matches[0]);
    assert Hit(starts, matches, ln);
    HitInText(starts, matches, ln);
    assert Wanted(starts, matches, p, ln);
  }
}
