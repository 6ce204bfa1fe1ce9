/** The white space of Go's strings package, on Latin-1. */
module Strings {

  predicate IsSpace(c: char) {
    c == ' ' || '\t' <= c <= '\r' || c as int == 0x85 || c as int == 0xA0
  }

  /** strings.TrimSpace */
  function TrimSpace(s: string): (t: string)
    ensures t == "" || (!IsSpace(t[0]) && !IsSpace(t[|t| - 1]))
    decreases |s|
  {
    if s == [] then []
    else if IsSpace(s[0]) then TrimSpace(s[1..])
    else if IsSpace(s[|s| - 1]) then TrimSpace(s[..|s| - 1])
    else s
  }

  /** t is the part of s from i to j, and all outside it is white space. */
  ghost predicate IsCore(s: string, t: string, i: nat, j: nat) {
    i <= j <= |s| && t == s[i..j] && forall k :: 0 <= k < i || j <= k < |s| ==> IsSpace(s[k])
  }

  lemma CoreOfTail(s: string, t: string, i: nat, j: nat)
    requires s != [] && IsSpace(s[0]) && IsCore(s[1..], t, i, j)
    ensures IsCore(s, t, i + 1, j + 1)
  {
    forall k | 0 <= k < i + 1 || j + 1 <= k < |s| ensures IsSpace(s[k]) {
      assert k > 0 ==> s[1..][k - 1] == s[k];
    }
  }

  lemma CoreOfFront(s: string, t: string, i: nat, j: nat)
    requires s != [] && IsSpace(s[|s| - 1]) && IsCore(s[..|s| - 1], t, i, j)
    ensures IsCore(s, t, i, j)
  {
    forall k | 0 <= k < i || j <= k < |s| ensures IsSpace(s[k]) {
      assert k < |s| - 1 ==> s[..|s| - 1][k] == s[k];
    }
  }

  /** What is cut off is white space; with the contract of TrimSpace, all that begins or ends the text. */
  lemma {:induction false} TrimmedIsSpace(s: string)
    ensures exists i: nat, j: nat :: IsCore(s, TrimSpace(s), i, j)
    decreases |s|
  {
    if s == [] {
      assert IsCore(s, TrimSpace(s), 0, 0);
    } else if IsSpace(s[0]) {
      TrimmedIsSpace(s[1..]);
      var i: nat, j: nat :| IsCore(s[1..], TrimSpace(s[1..]), i, j);
      CoreOfTail(s, TrimSpace(s[1..]), i, j);
      assert IsCore(s, TrimSpace(s), i + 1, j + 1);
    } else if IsSpace(s[|s| - 1]) {
      TrimmedIsSpace(s[..|s| - 1]);
      var i: nat, j: nat :| IsCore(s[..|s| - 1], TrimSpace(s[..|s| - 1]), i, j);
      CoreOfFront(s, TrimSpace(s[..|s| - 1]), i, j);
      assert IsCore(s, TrimSpace(s), i, j);
    } else {
      assert IsCore(s, TrimSpace(s), 0, |s|);
    }
  }
}
