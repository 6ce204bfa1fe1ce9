/**
 Greedy packing of chunks (pkg/string/merge.go).

 A packing of chunks into contiguous groups is its list of cut points: 0, then the end of each group.
 */
module Merge {
  import opened TokenEstimate

  function Join(group: seq<Text>): Text {
    if group == [] then [] else Join(group[..|group| - 1]) + group[|group| - 1]
  }

  /** The sum of the estimates of a group. */
  function Tokens(u: Tables, group: seq<Text>): nat {
    if group == [] then 0 else Tokens(u, group[..|group| - 1]) + Estimated(u, group[|group| - 1])
  }

  predicate Cuts(cuts: seq<nat>, n: nat) {
    && cuts != [] && cuts[0] == 0
    && (forall i, j :: 0 <= i < j < |cuts| ==> cuts[i] < cuts[j])
    && (forall i :: 0 <= i < |cuts| ==> cuts[i] <= n)
  }

  function Group(chunks: seq<Text>, cuts: seq<nat>, k: nat): seq<Text>
    requires Cuts(cuts, |chunks|) && k + 1 < |cuts|
  {
    chunks[cuts[k]..cuts[k + 1]]
  }

  /** A group may be one chunk of any size, or several that together stay within the limit. */
  predicate Fits(u: Tables, limit: int, group: seq<Text>) {
    |group| == 1 || Tokens(u, group) <= limit
  }

  /** Every chunk is in a group that fits. */
  predicate Packing(u: Tables, chunks: seq<Text>, limit: int, cuts: seq<nat>) {
    && Cuts(cuts, |chunks|) && cuts[|cuts| - 1] == |chunks|
    && (forall k :: 0 <= k < |cuts| - 1 ==> Fits(u, limit, Group(chunks, cuts, k)))
  }

  /** Group k could not have taken the chunk that follows it. */
  predicate Full(u: Tables, chunks: seq<Text>, limit: int, cuts: seq<nat>, k: nat)
    requires Cuts(cuts, |chunks|) && k + 1 < |cuts|
  {
    cuts[k + 1] < |chunks| ==> Tokens(u, Group(chunks, cuts, k)) + Estimated(u, chunks[cuts[k + 1]]) > limit
  }

  /** The groups closed so far fit and are full. */
  predicate Greedy(u: Tables, chunks: seq<Text>, limit: int, cuts: seq<nat>) {
    && Cuts(cuts, |chunks|)
    && (forall k :: 0 <= k < |cuts| - 1 ==> Fits(u, limit, Group(chunks, cuts, k)) && Full(u, chunks, limit, cuts, k))
  }

  /** One output for each group. */
  function Joined(chunks: seq<Text>, cuts: seq<nat>): (r: seq<Text>)
    requires Cuts(cuts, |chunks|)
    ensures |r| == |cuts| - 1
  {
    var n := |cuts| - 1;
    if n == 0 then [] else Joined(chunks, cuts[..n]) + [Join(chunks[cuts[n - 1]..cuts[n]])]
  }

  // ----- sums and joins -----

  lemma {:induction false} TokensConcat(u: Tables, a: seq<Text>, b: seq<Text>)
    ensures Tokens(u, a + b) == Tokens(u, a) + Tokens(u, b)
    decreases |b|
  {
    if b == [] {
      assert a + b == a;
    } else {
      TokensConcat(u, a, b[..|b| - 1]);
      assert (a + b)[..|a + b| - 1] == a + b[..|b| - 1];
    }
  }

  lemma JoinSnoc(a: seq<Text>, x: Text)
    ensures Join(a + [x]) == Join(a) + x
  {
    assert (a + [x])[..|a|] == a;
  }

  lemma JoinOne(x: Text)
    ensures Join([x]) == x
  {
    JoinSnoc([], x);
    assert [] + [x] == [x];
  }

  lemma Associative(a: Text, b: Text, c: Text)
    ensures (a + b) + c == a + (b + c)
  {
  }

  lemma {:induction false} JoinConcat(a: seq<Text>, b: seq<Text>)
    ensures Join(a + b) == Join(a) + Join(b)
    decreases |b|
  {
    if b == [] {
      assert a + b == a;
    } else {
      var front, x := b[..|b| - 1], b[|b| - 1];
      JoinConcat(a, front);
      JoinSnoc(a + front, x);
      assert a + b == a + front + [x];
      Associative(Join(a), Join(front), x);
    }
  }

  lemma SliceTokens(u: Tables, chunks: seq<Text>, i: nat, i': nat, j': nat, j: nat)
    requires i <= i' <= j' <= j <= |chunks|
    ensures Tokens(u, chunks[i'..j']) <= Tokens(u, chunks[i..j])
  {
    assert chunks[i..j] == chunks[i..i'] + chunks[i'..j'] + chunks[j'..j];
    TokensConcat(u, chunks[i..i'] + chunks[i'..j'], chunks[j'..j]);
    TokensConcat(u, chunks[i..i'], chunks[i'..j']);
  }

  lemma OneMore(u: Tables, chunks: seq<Text>, i: nat, j: nat)
    requires i <= j < |chunks|
    ensures Tokens(u, chunks[i..j + 1]) == Tokens(u, chunks[i..j]) + Estimated(u, chunks[j])
  {
    assert chunks[i..j + 1][..j - i] == chunks[i..j];
  }

  /** The estimate of a joined group is at most the sum the packer kept. */
  lemma {:induction false} JoinEstimate(u: Tables, group: seq<Text>)
    ensures Estimated(u, Join(group)) <= Tokens(u, group)
    decreases |group|
  {
    if group != [] {
      var front, last := group[..|group| - 1], group[|group| - 1];
      JoinEstimate(u, front);
      EstimateSubadditive(u, Join(front), last);
    }
  }

  // ----- what a packing gives -----

  lemma {:induction false} JoinedKeepsText(chunks: seq<Text>, cuts: seq<nat>)
    requires Cuts(cuts, |chunks|)
    ensures Join(Joined(chunks, cuts)) == Join(chunks[..cuts[|cuts| - 1]])
    decreases |cuts|
  {
    var n := |cuts| - 1;
    if n > 0 {
      JoinedKeepsText(chunks, cuts[..n]);
      var before, group := chunks[..cuts[n - 1]], chunks[cuts[n - 1]..cuts[n]];
      JoinGroup(Joined(chunks, cuts[..n]), before, group);
      assert chunks[..cuts[n]] == before + group;
    }
  }

  lemma JoinGroup(outputs: seq<Text>, before: seq<Text>, group: seq<Text>)
    requires Join(outputs) == Join(before)
    ensures Join(outputs + [Join(group)]) == Join(before + group)
  {
    JoinSnoc(outputs, Join(group));
    JoinConcat(before, group);
  }

  /** A joined group is its only chunk, or within the limit. */
  lemma GroupOutput(u: Tables, limit: int, group: seq<Text>)
    requires Fits(u, limit, group)
    ensures Join(group) in group || Estimated(u, Join(group)) <= limit
  {
    if |group| == 1 {
      JoinOne(group[0]);
      assert group == [group[0]];
    } else {
      JoinEstimate(u, group);
    }
  }

  lemma JoinedGroup(chunks: seq<Text>, cuts: seq<nat>, k: nat)
    requires Cuts(cuts, |chunks|) && k + 1 < |cuts|
    ensures Joined(chunks, cuts)[k] == Join(Group(chunks, cuts, k))
    decreases |cuts|
  {
    if k + 2 < |cuts| {
      JoinedGroup(chunks, cuts[..|cuts| - 1], k);
    }
  }

  lemma OutputFits(u: Tables, chunks: seq<Text>, limit: int, cuts: seq<nat>, out: Text)
    requires Packing(u, chunks, limit, cuts) && out in Joined(chunks, cuts)
    ensures out in chunks || Estimated(u, out) <= limit
  {
    var k :| 0 <= k < |cuts| - 1 && Joined(chunks, cuts)[k] == out;
    JoinedGroup(chunks, cuts, k);
    GroupOutput(u, limit, Group(chunks, cuts, k));
  }

  // ----- greedy stays ahead -----

  lemma AheadStep(u: Tables, chunks: seq<Text>, limit: int, greedy: seq<nat>, other: seq<nat>, k: nat)
    requires Greedy(u, chunks, limit, greedy) && Packing(u, chunks, limit, other)
    requires k + 1 < |greedy| && k + 1 < |other| && other[k] <= greedy[k]
    ensures other[k + 1] <= greedy[k + 1]
  {
    if greedy[k + 1] < other[k + 1] {
      var next := greedy[k + 1];
      assert |Group(chunks, other, k)| > 1;
      assert Fits(u, limit, Group(chunks, other, k));
      assert Full(u, chunks, limit, greedy, k);
      OneMore(u, chunks, greedy[k], next);
      SliceTokens(u, chunks, other[k], greedy[k], next + 1, other[k + 1]);
    }
  }

  lemma {:induction false} Ahead(u: Tables, chunks: seq<Text>, limit: int, greedy: seq<nat>, other: seq<nat>, k: nat)
    requires Greedy(u, chunks, limit, greedy) && Packing(u, chunks, limit, other)
    requires k < |greedy| && k < |other|
    ensures other[k] <= greedy[k]
  {
    if k > 0 {
      Ahead(u, chunks, limit, greedy, other, k - 1);
      AheadStep(u, chunks, limit, greedy, other, k - 1);
    }
  }

  /** No contiguous packing uses fewer groups than the greedy one. */
  lemma GreedyIsOptimal(u: Tables, chunks: seq<Text>, limit: int, greedy: seq<nat>, other: seq<nat>)
    requires Greedy(u, chunks, limit, greedy) && Packing(u, chunks, limit, other)
    ensures |greedy| <= |other|
  {
    if |other| < |greedy| {
      assert greedy[|other| - 1] < greedy[|other|];
      Ahead(u, chunks, limit, greedy, other, |other| - 1);
    }
  }

  // ----- the program -----

  method AppendMergedChunkGroup(dst: seq<Text>, group: seq<Text>) returns (r: seq<Text>)
    ensures r == if group == [] then dst else dst + [Join(group)]
  {
    if |group| == 0 {
      return dst;
    }
    if |group| == 1 {
      JoinOne(group[0]);
      assert group == [group[0]];
      return dst + [group[0]];
    }
    var builder: Text := [];
    for i := 0 to |group|
      invariant builder == Join(group[..i])
    {
      assert group[..i + 1][..i] == group[..i];
      builder := builder + group[i];
    }
    assert group[..|group|] == group;
    r := dst + [builder];
  }

  lemma NextCut(cuts: seq<nat>, n: nat, end: nat)
    requires Cuts(cuts, n) && cuts[|cuts| - 1] < end <= n
    ensures Cuts(cuts + [end], n) && (cuts + [end])[..|cuts|] == cuts
  {
  }

  /** Groups closed earlier are not touched. */
  lemma OldGroup(u: Tables, chunks: seq<Text>, limit: int, cuts: seq<nat>, end: nat, k: nat)
    requires Greedy(u, chunks, limit, cuts) && k + 1 < |cuts| && Cuts(cuts + [end], |chunks|)
    ensures Fits(u, limit, Group(chunks, cuts + [end], k)) && Full(u, chunks, limit, cuts + [end], k)
  {
    assert Full(u, chunks, limit, cuts, k);
  }

  /** Closing a group that fits and is full. */
  lemma CloseGroup(u: Tables, chunks: seq<Text>, limit: int, cuts: seq<nat>, end: nat)
    requires Greedy(u, chunks, limit, cuts) && cuts[|cuts| - 1] < end <= |chunks|
    requires var group := chunks[cuts[|cuts| - 1]..end];
      Fits(u, limit, group) && (end < |chunks| ==> Tokens(u, group) + Estimated(u, chunks[end]) > limit)
    ensures Greedy(u, chunks, limit, cuts + [end])
    ensures Joined(chunks, cuts + [end]) == Joined(chunks, cuts) + [Join(chunks[cuts[|cuts| - 1]..end])]
  {
    var now, last := cuts + [end], |cuts| - 1;
    NextCut(cuts, |chunks|, end);
    assert Group(chunks, now, last) == chunks[cuts[last]..end];
    forall k | 0 <= k < last
      ensures Fits(u, limit, Group(chunks, now, k)) && Full(u, chunks, limit, now, k)
    {
      OldGroup(u, chunks, limit, cuts, end, k);
    }
  }

  /** The loop's state before chunk i: closed groups, and an open one with its running sum. */
  predicate Open(u: Tables, chunks: seq<Text>, limit: int, cuts: seq<nat>, start: nat, i: nat, sum: nat) {
    && Greedy(u, chunks, limit, cuts)
    && cuts[|cuts| - 1] == start < i <= |chunks|
    && sum == Tokens(u, chunks[start..i]) && Fits(u, limit, chunks[start..i])
  }

  lemma OpenFirst(u: Tables, chunks: seq<Text>, limit: int)
    requires chunks != []
    ensures Open(u, chunks, limit, [0], 0, 1, Estimated(u, chunks[0]))
  {
    OneMore(u, chunks, 0, 0);
  }

  lemma Extend(u: Tables, chunks: seq<Text>, limit: int, cuts: seq<nat>, start: nat, i: nat, sum: nat)
    requires Open(u, chunks, limit, cuts, start, i, sum) && i < |chunks| && sum + Estimated(u, chunks[i]) <= limit
    ensures Open(u, chunks, limit, cuts, start, i + 1, sum + Estimated(u, chunks[i]))
  {
    OneMore(u, chunks, start, i);
  }

  lemma Reopen(u: Tables, chunks: seq<Text>, limit: int, cuts: seq<nat>, start: nat, i: nat, sum: nat)
    requires Open(u, chunks, limit, cuts, start, i, sum) && i < |chunks| && sum + Estimated(u, chunks[i]) > limit
    ensures Open(u, chunks, limit, cuts + [i], i, i + 1, Estimated(u, chunks[i]))
    ensures Joined(chunks, cuts + [i]) == Joined(chunks, cuts) + [Join(chunks[start..i])]
  {
    CloseGroup(u, chunks, limit, cuts, i);
    OneMore(u, chunks, i, i);
  }

  /** For a positive limit the result is the greedy packing, joined group by group. */
  method MergeChunks(u: Tables, ascii: array<nat>, chunks: seq<Text>, limit: int)
    returns (merged: seq<Text>, ghost cuts: seq<nat>)
    requires ascii.Length == 128 && forall r :: 0 <= r < 128 ==> ascii[r] == SlowRuneWeight(u, r)
    ensures limit <= 0 ==> merged == chunks
    ensures limit > 0 ==>
      Greedy(u, chunks, limit, cuts) && cuts[|cuts| - 1] == |chunks| && merged == Joined(chunks, cuts)
  {
    cuts := [0];
    if |chunks| == 0 {
      return [], cuts;
    }
    if limit <= 0 {
      return chunks, cuts;
    }
    var start;
    merged, start, cuts := PackChunks(u, ascii, chunks, limit);
    merged := AppendMergedChunkGroup(merged, chunks[start..]);
    assert chunks[start..] == chunks[start..|chunks|];
    CloseGroup(u, chunks, limit, cuts, |chunks|);
    cuts := cuts + [|chunks|];
  }

  /** The greedy loop: all groups but the last, which begins at start. */
  method PackChunks(u: Tables, ascii: array<nat>, chunks: seq<Text>, limit: int)
    returns (merged: seq<Text>, start: nat, ghost cuts: seq<nat>)
    requires ascii.Length == 128 && forall r :: 0 <= r < 128 ==> ascii[r] == SlowRuneWeight(u, r)
    requires chunks != [] && limit > 0
    ensures start <= |chunks| && Open(u, chunks, limit, cuts, start, |chunks|, Tokens(u, chunks[start..|chunks|]))
    ensures merged == Joined(chunks, cuts)
  {
    merged, cuts, start := [], [0], 0;
    var currentToken: nat := Estimate(u, ascii, chunks[0]);
    OpenFirst(u, chunks, limit);
    for i := 1 to |chunks|
      invariant Open(u, chunks, limit, cuts, start, i, currentToken) && merged == Joined(chunks, cuts)
    {
      var chunk := chunks[i];
      var chunkToken := Estimate(u, ascii, chunk);
      if currentToken + chunkToken <= limit {
        Extend(u, chunks, limit, cuts, start, i, currentToken);
        currentToken := currentToken + chunkToken;
        continue;
      }
      assert chunks[start..i] != [];
      merged := AppendMergedChunkGroup(merged, chunks[start..i]);
      Reopen(u, chunks, limit, cuts, start, i, currentToken);
      cuts := cuts + [i];
      start := i;
      currentToken := chunkToken;
    }
  }

  /** Chunks that together stay within the limit, up to the last token, are merged into one text. */
  lemma WithinLimitMerged(u: Tables, chunks: seq<Text>, limit: int, cuts: seq<nat>)
    requires Greedy(u, chunks, limit, cuts) && cuts[|cuts| - 1] == |chunks| && chunks != []
    requires Tokens(u, chunks) <= limit
    ensures Joined(chunks, cuts) == [Join(chunks)]
  {
    var one := [0, |chunks|];
    assert chunks[0..|chunks|] == chunks;
    assert Packing(u, chunks, limit, one);
    GreedyIsOptimal(u, chunks, limit, cuts, one);
    assert cuts == one;
    assert one[..1] == [0] && Joined(chunks, [0]) == [];
  }

  /** ... and two neighbours that together exceed it never are, unless a chunk between them is empty. */
  lemma OverLimitApart(u: Tables, chunks: seq<Text>, limit: int, cuts: seq<nat>, k: nat)
    requires Greedy(u, chunks, limit, cuts) && cuts[|cuts| - 1] == |chunks| && k + 1 < |chunks|
    requires Estimated(u, chunks[k]) + Estimated(u, chunks[k + 1]) > limit
    ensures k + 1 in cuts
  {
    if k + 1 !in cuts {
      var g := GroupOf(chunks, cuts, k);
      Straddles(cuts, |chunks|, g, k);
      assert Fits(u, limit, Group(chunks, cuts, g));
      OneMore(u, chunks, k, k);
      OneMore(u, chunks, k, k + 1);
      SliceTokens(u, chunks, cuts[g], k, k + 2, cuts[g + 1]);
    }
  }

  lemma Straddles(cuts: seq<nat>, n: nat, g: nat, k: nat)
    requires Cuts(cuts, n) && g + 1 < |cuts| && cuts[g] <= k < cuts[g + 1] && k + 1 !in cuts
    ensures k + 2 <= cuts[g + 1]
  {
    assert cuts[g + 1] in cuts;
  }

  /** The group that a chunk is in. */
  lemma {:induction false} GroupOf(chunks: seq<Text>, cuts: seq<nat>, k: nat) returns (g: nat)
    requires Cuts(cuts, |chunks|) && k < cuts[|cuts| - 1]
    ensures g + 1 < |cuts| && cuts[g] <= k < cuts[g + 1]
    decreases |cuts|
  {
    var n := |cuts| - 1;
    if cuts[n - 1] <= k {
      g := n - 1;
    } else {
      g := GroupOf(chunks, cuts[..n], k);
    }
  }

  /** For a positive limit: the text is kept, every output is one of the chunks or within the limit,
      and no contiguous packing has fewer outputs. */
  lemma MergeIsCorrectAndOptimal(u: Tables, chunks: seq<Text>, limit: int, cuts: seq<nat>)
    requires Greedy(u, chunks, limit, cuts) && cuts[|cuts| - 1] == |chunks|
    ensures Join(Joined(chunks, cuts)) == Join(chunks)
    ensures forall out :: out in Joined(chunks, cuts) ==> out in chunks || Estimated(u, out) <= limit
    ensures forall other :: Packing(u, chunks, limit, other) ==> |Joined(chunks, cuts)| <= |other| - 1
  {
    JoinedKeepsText(chunks, cuts);
    assert chunks[..|chunks|] == chunks;
    forall out | out in Joined(chunks, cuts) ensures out in chunks || Estimated(u, out) <= limit {
      OutputFits(u, chunks, limit, cuts, out);
    }
    forall other | Packing(u, chunks, limit, other) ensures |cuts| <= |other| {
      GreedyIsOptimal(u, chunks, limit, cuts, other);
    }
  }
}
