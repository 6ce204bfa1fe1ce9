/**
 Lines and offsets of a text (pkg/rg/grep.go, splitLines and lineByOffset). A char stands for one byte.
 */
module GrepLines {

  ghost predicate Ascending(xs: seq<int>) {
    forall i, j :: 0 <= i < j < |xs| ==> xs[i] < xs[j]
  }

  /** A line starts at o: the text goes on there, after a newline or at the very beginning. */
  predicate LineStart(content: string, o: int) {
    0 <= o < |content| && (o == 0 || content[o - 1] == '\n')
  }

  /** Where the line through o ends. */
  function LineEnd(content: string, o: nat): (e: nat)
    requires o <= |content|
    ensures o <= e <= |content|
    decreases |content| - o
  {
    if o == |content| || content[o] == '\n' then o else LineEnd(content, o + 1)
  }

  /** strings.TrimSuffix(s, "\r") */
  function TrimCr(s: string): string {
    if s != "" && s[|s| - 1] == '\r' then s[..|s| - 1] else s
  }

  function LineText(content: string, o: nat): string
    requires o <= |content|
  {
    TrimCr(content[o..LineEnd(content, o)])
  }

  /** starts are exactly the line starts below a bound, in order, and lines their texts. */
  ghost predicate SplitBelow(content: string, bound: int, lines: seq<string>, starts: seq<int>) {
    && |lines| == |starts| && Ascending(starts)
    && (forall o :: o in starts <==> LineStart(content, o) && o < bound)
    && (forall i :: 0 <= i < |starts| ==> 0 <= starts[i] <= |content| && lines[i] == LineText(content, starts[i]))
  }

  ghost predicate Split(content: string, lines: seq<string>, starts: seq<int>) {
    SplitBelow(content, |content|, lines, starts)
  }

  lemma {:induction false} LineEndIs(content: string, o: nat, e: nat)
    requires o <= e <= |content| && (e == |content| || content[e] == '\n')
    requires forall k :: o <= k < e ==> content[k] != '\n'
    ensures LineEnd(content, o) == e
    decreases e - o
  {
    if o < e {
      LineEndIs(content, o + 1, e);
    }
  }

  /** One more line, whose end is known. */
  lemma NextLine(content: string, start: nat, e: nat, lines: seq<string>, starts: seq<int>)
    requires SplitBelow(content, start, lines, starts) && LineStart(content, start)
    requires start <= e <= |content| && (e == |content| || content[e] == '\n')
    requires forall k :: start <= k < e ==> content[k] != '\n'
    ensures SplitBelow(content, e + 1, lines + [TrimCr(content[start..e])], starts + [start])
  {
    LineEndIs(content, start, e);
    var now := starts + [start];
    forall o ensures o in now <==> LineStart(content, o) && o < e + 1 {
      assert start <= o - 1 < e ==> content[o - 1] != '\n';
    }
    forall i, j | 0 <= i < j < |now| ensures now[i] < now[j] {
      assert now[i] in starts;
    }
  }

  /** The lines of the text and where they start. */
  method SplitLines(content: string) returns (lines: seq<string>, starts: seq<int>)
    ensures Split(content, lines, starts)
  {
    if content == "" {
      return [], [];
    }
    lines, starts := [], [];
    var start := 0;
    for i := 0 to |content|
      invariant 0 <= start <= i
      invariant forall k :: start <= k < i ==> content[k] != '\n'
      invariant start < |content| ==> LineStart(content, start)
      invariant SplitBelow(content, start, lines, starts)
    {
      if content[i] != '\n' {
        continue;
      }
      NextLine(content, start, i, lines, starts);
      lines := lines + [TrimCr(content[start..i])];
      starts := starts + [start];
      start := i + 1;
    }
    if start < |content| {
      NextLine(content, start, |content|, lines, starts);
      lines := lines + [TrimCr(content[start..])];
      starts := starts + [start];
      assert content[start..] == content[start..|content|];
    }
  }

  // ----- offsets -----

  /** Linear scan from the end: how many starts are at or before x. */
  function UpTo(starts: seq<int>, x: int): (n: nat)
    ensures n <= |starts|
  {
    if starts == [] then 0
    else if starts[|starts| - 1] <= x then |starts|
    else UpTo(starts[..|starts| - 1], x)
  }

  lemma {:induction false} UpToIs(starts: seq<int>, x: int, n: nat)
    requires n <= |starts|
    requires n == 0 || starts[n - 1] <= x
    requires forall k :: n <= k < |starts| ==> x < starts[k]
    ensures UpTo(starts, x) == n
    decreases |starts|
  {
    if n < |starts| {
      UpToIs(starts[..|starts| - 1], x, n);
    }
  }

  /** The 1-based line of an offset; offsets before the text count as its beginning. */
  function LineOf(starts: seq<int>, offset: int): (n: nat)
    ensures n <= |starts|
    ensures starts != [] ==> n >= 1
  {
    var n := UpTo(starts, if offset < 0 then 0 else offset);
    if starts != [] && n == 0 then 1 else n
  }

  /** sort.Search for the first start past the offset. */
  method Search(starts: seq<int>, offset: int) returns (i: nat)
    requires Ascending(starts)
    ensures i == UpTo(starts, offset)
  {
    i := 0;
    var j := |starts|;
    while i < j
      invariant i <= j <= |starts|
      invariant i == 0 || starts[i - 1] <= offset
      invariant j == |starts| || starts[j] > offset
    {
      var h := (i + j) / 2;
      if !(starts[h] > offset) {
        i := h + 1;
      } else {
        j := h;
      }
    }
    UpToIs(starts, offset, i);
  }

  /** The binary search agrees with the linear scan. */
  method LineByOffset(starts: seq<int>, offset: int) returns (line: nat)
    requires Ascending(starts)
    ensures line == LineOf(starts, offset)
  {
    if |starts| == 0 {
      return 0;
    }
    var at := offset;
    if at < 0 {
      at := 0;
    }
    if at <= starts[0] {
      assert UpTo(starts, at) <= 1 by { FirstOrNone(starts, at); }
      return 1;
    }
    var idx := Search(starts, at);
    if idx == 0 {
      return 1;
    }
    if idx >= |starts| {
      return |starts|;
    }
    line := idx;
  }

  lemma FirstOrNone(starts: seq<int>, x: int)
    requires Ascending(starts) && starts != [] && x <= starts[0]
    ensures UpTo(starts, x) <= 1
  {
    UpToIs(starts, x, if starts[0] <= x then 1 else 0);
  }

  function Newlines(s: string): nat {
    if s == "" then 0 else Newlines(s[..|s| - 1]) + (if s[|s| - 1] == '\n' then 1 else 0)
  }

  /** The line of an offset inside the text is one more than the newlines before it. */
  lemma {:induction false} LineCountsNewlines(content: string, lines: seq<string>, starts: seq<int>, offset: nat)
    requires Split(content, lines, starts) && offset < |content|
    ensures UpTo(starts, offset) == LineOf(starts, offset) == 1 + Newlines(content[..offset])
    decreases offset
  {
    assert LineStart(content, 0) && 0 in starts;
    assert starts[0] == 0 by { FirstIsLeast(starts, 0); }
    if offset == 0 {
      UpToIs(starts, 0, 1);
    } else {
      LineCountsNewlines(content, lines, starts, offset - 1);
      UpToNext(starts, offset);
      assert content[..offset][..offset - 1] == content[..offset - 1];
      assert offset in starts <==> content[offset - 1] == '\n';
    }
  }

  lemma FirstIsLeast(starts: seq<int>, o: int)
    requires Ascending(starts) && o in starts
    ensures starts[0] <= o
  {
  }

  lemma {:induction false} UpToNext(starts: seq<int>, x: int)
    requires Ascending(starts)
    ensures UpTo(starts, x) == UpTo(starts, x - 1) + (if x in starts then 1 else 0)
    decreases |starts|
  {
    if starts != [] {
      var n := |starts| - 1;
      var front := starts[..n];
      assert starts == front + [starts[n]];
      if starts[n] > x {
        UpToNext(front, x);
      } else if starts[n] == x {
        UpToIs(starts, x - 1, n);
      } else {
        assert x !in starts;
      }
    }
  }
}
