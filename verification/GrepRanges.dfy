/**
 Context windows merged into output ranges (pkg/rg/grep.go, mergeRanges), in 64-bit arithmetic.
 */
module GrepRanges {
  import opened GrepLines
  import opened Integers

  type Range = (int, int)

  function From(line: int, before: int): int {
    Max(1, Wrap64(line - before))
  }

  function To(line: int, total: int, after: int): int {
    Min(total, Wrap64(line + after))
  }

  /** One more window: it extends the last range when it overlaps or touches it. */
  function Add(ranges: seq<Range>, start: int, end: int): seq<Range> {
    if ranges == [] then [(start, end)]
    else
      var last := ranges[|ranges| - 1];
      if start > last.1 + 1 then ranges + [(start, end)]
      else ranges[|ranges| - 1 := (last.0, Max(last.1, end))]
  }

  function Merged(lines: seq<int>, total: int, before: int, after: int): seq<Range> {
    if lines == [] then []
    else
      var n := |lines| - 1;
      Add(Merged(lines[..n], total, before, after), From(lines[n], before), To(lines[n], total, after))
  }

  /** The body of the loop: append the window, or move the last range's end. */
  method AddWindow(ranges: seq<Range>, start: int, end: int) returns (r: seq<Range>)
    ensures r == Add(ranges, start, end)
  {
    if |ranges| == 0 {
      return ranges + [(start, end)];
    }
    var last := ranges[|ranges| - 1];
    if start <= last.1 + 1 {
      r := ranges;
      if end > last.1 {
        r := ranges[|ranges| - 1 := (last.0, end)];
      }
      return;
    }
    r := ranges + [(start, end)];
  }

  method MergeRanges(lines: seq<int>, total: int, before: Int64, after: Int64) returns (ranges: seq<Range>)
    ensures ranges == if total <= 0 then [] else Merged(lines, total, Max(before, 0), Max(after, 0))
  {
    if |lines| == 0 || total <= 0 {
      return [];
    }
    var b, a := before, after;
    if b < 0 {
      b := 0;
    }
    if a < 0 {
      a := 0;
    }
    ranges := [];
    for i := 0 to |lines|
      invariant ranges == Merged(lines[..i], total, b, a)
    {
      assert lines[..i + 1][..i] == lines[..i];
      var start, end := From(lines[i], b), To(lines[i], total, a);
      ranges := AddWindow(ranges, start, end);
    }
    assert lines[..|lines|] == lines;
  }

  // ----- what merging means -----

  /** Line ln is within the window of one of the lines. */
  ghost predicate Shown(lines: seq<int>, total: int, before: int, after: int, ln: int) {
    1 <= ln <= total && exists m :: m in lines && m - before <= ln <= m + after
  }

  ghost predicate Covered(ranges: seq<Range>, ln: int) {
    exists i :: 0 <= i < |ranges| && ranges[i].0 <= ln <= ranges[i].1
  }

  /** Nonempty, inside 1..total, sorted, disjoint and not even adjacent. */
  ghost predicate Apart(ranges: seq<Range>, total: int) {
    && (forall i :: 0 <= i < |ranges| ==> 1 <= ranges[i].0 <= ranges[i].1 <= total)
    && (forall i, j :: 0 <= i < j < |ranges| ==> ranges[i].1 + 1 < ranges[j].0)
  }

  /** Match lines as the renderer passes them; a text has fewer than 2^62 lines. */
  ghost predicate MatchLines(lines: seq<int>, total: int) {
    && Ascending(lines) && total < 0x4000_0000_0000_0000
    && (forall i :: 0 <= i < |lines| ==> 1 <= lines[i] <= total)
  }

  /** Adding a window that starts no earlier than the last range keeps the ranges apart. */
  lemma AddApart(ranges: seq<Range>, total: int, start: int, end: int)
    requires Apart(ranges, total) && 1 <= start <= end <= total
    requires ranges != [] ==> ranges[|ranges| - 1].0 <= start
    ensures Apart(Add(ranges, start, end), total)
    ensures var now := Add(ranges, start, end); now != [] && now[|now| - 1].0 <= start
  {
  }

  /** And covers just the window more. */
  lemma AddCovers(ranges: seq<Range>, start: int, end: int, ln: int)
    requires ranges != [] ==> ranges[|ranges| - 1].0 <= start && ranges[|ranges| - 1].0 <= ranges[|ranges| - 1].1
    requires start <= end
    ensures Covered(Add(ranges, start, end), ln) <==> Covered(ranges, ln) || start <= ln <= end
  {
    var now := Add(ranges, start, end);
    var n := |now| - 1;
    if Covered(ranges, ln) {
      var i :| 0 <= i < |ranges| && ranges[i].0 <= ln <= ranges[i].1;
      assert now[i].0 <= ln <= now[i].1;
    }
    if start <= ln <= end {
      assert now[n].0 <= ln <= now[n].1;
    }
    if Covered(now, ln) {
      var i :| 0 <= i < |now| && now[i].0 <= ln <= now[i].1;
      if i < |ranges| && ranges[i].0 <= ln <= ranges[i].1 {
      } else {
        assert i == n;
      }
    }
  }

  lemma WindowBounds(line: int, total: int, before: Int64, after: Int64)
    requires 1 <= line <= total < 0x4000_0000_0000_0000 && before >= 0 && 0 <= after && line + after <= MAX64
    ensures From(line, before) == Max(1, line - before) <= line <= To(line, total, after) == Min(total, line + after)
  {
  }

  /** While no sum wraps, the ranges are apart and cover exactly the windows. */
  lemma {:induction false} MergedIsUnion(lines: seq<int>, total: int, before: Int64, after: Int64)
    requires MatchLines(lines, total) && before >= 0 && after >= 0
    requires forall i :: 0 <= i < |lines| ==> lines[i] + after <= MAX64
    ensures Apart(Merged(lines, total, before, after), total)
    ensures forall ln :: Covered(Merged(lines, total, before, after), ln) <==> Shown(lines, total, before, after, ln)
    ensures lines != [] ==> var r := Merged(lines, total, before, after);
              r != [] && r[|r| - 1].0 <= Max(1, lines[|lines| - 1] - before)
    decreases |lines|
  {
    if lines != [] {
      var n := |lines| - 1;
      var front, line := lines[..n], lines[n];
      MergedIsUnion(front, total, before, after);
      var ranges, start, end := Merged(front, total, before, after), From(line, before), To(line, total, after);
      WindowBounds(line, total, before, after);
      AddApart(ranges, total, start, end);
      forall ln ensures Covered(Add(ranges, start, end), ln) <==> Shown(lines, total, before, after, ln) {
        AddCovers(ranges, start, end, ln);
        ShownNext(front, line, total, before, after, ln);
        assert lines == front + [line];
      }
    }
  }

  lemma ShownNext(front: seq<int>, line: int, total: int, before: int, after: int, ln: int)
    ensures Shown(front + [line], total, before, after, ln)
        <==> Shown(front, total, before, after, ln) || (1 <= ln <= total && line - before <= ln <= line + after)
  {
    var lines := front + [line];
    if Shown(front, total, before, after, ln) {
      var m :| m in front && m - before <= ln <= m + after;
      assert m in lines;
    }
    if 1 <= ln <= total && line - before <= ln <= line + after {
      assert line in lines;
    }
  }

  /** A context longer than the text: the first window already reaches the end. */
  lemma {:induction false} LongContext(lines: seq<int>, total: int, before: Int64, after: Int64)
    requires MatchLines(lines, total) && before >= 0 && after >= total && lines != [] && lines[0] + after <= MAX64
    ensures Merged(lines, total, before, after) == [(Max(1, lines[0] - before), total)]
    decreases |lines|
  {
    var n := |lines| - 1;
    if n == 0 {
      WindowBounds(lines[0], total, before, after);
      assert lines[..0] == [];
    } else {
      LongContext(lines[..n], total, before, after);
      assert From(lines[n], before) <= lines[n] <= total;
      assert To(lines[n], total, after) <= total;
    }
  }

  /** When the first window's end wraps, every window ends before the text begins. */
  lemma {:induction false} AllWrap(lines: seq<int>, total: int, before: Int64, after: Int64)
    requires MatchLines(lines, total) && before >= 0 && after >= 0 && (lines != [] ==> lines[0] + after > MAX64)
    ensures forall i :: 0 <= i < |Merged(lines, total, before, after)| ==> Merged(lines, total, before, after)[i].1 < 0
    decreases |lines|
  {
    if lines != [] {
      var n := |lines| - 1;
      AllWrap(lines[..n], total, before, after);
      assert lines[0] <= lines[n];
      assert To(lines[n], total, after) < 0;
    }
  }

  /** For all contexts: if the first match line plus the after-context fits in 64 bits, the ranges are
      apart and cover exactly the windows of the match lines. */
  lemma MergedIffFits(lines: seq<int>, total: int, before: Int64, after: Int64)
    requires MatchLines(lines, total) && before >= 0 && after >= 0 && lines != []
    ensures var r := Merged(lines, total, before, after);
      var right := Apart(r, total) && forall ln :: Covered(r, ln) <==> Shown(lines, total, before, after, ln);
      right <==> lines[0] + after <= MAX64
  {
    var r := Merged(lines, total, before, after);
    if lines[0] + after > MAX64 {
      AllWrap(lines, total, before, after);
      assert r != [] && r[0].1 < 0;
    } else if after < total {
      MergedIsUnion(lines, total, before, after);
    } else {
      LongContext(lines, total, before, after);
      forall ln ensures Covered(r, ln) <==> Shown(lines, total, before, after, ln) {
        LongShown(lines, total, before, after, ln);
        if Max(1, lines[0] - before) <= ln <= total {
          assert r[0].0 <= ln <= r[0].1;
        }
      }
    }
  }

  lemma LongShown(lines: seq<int>, total: int, before: int, after: int, ln: int)
    requires MatchLines(lines, total) && before >= 0 && after >= total && lines != []
    ensures Shown(lines, total, before, after, ln) <==> Max(1, lines[0] - before) <= ln <= total
  {
    assert lines[0] in lines;
  }
}
