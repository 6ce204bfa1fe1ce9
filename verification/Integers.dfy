/** 64-bit integers as Go's int stores them. */
module Integers {

  const MAX64: int := 0x7fff_ffff_ffff_ffff

  type Int64 = x: int | -MAX64 - 1 <= x <= MAX64

  /** The value the sum or difference of two 64-bit numbers is stored as. */
  function Wrap64(x: int): int {
    if x > MAX64 then x - 2 * MAX64 - 2 else if x < -MAX64 - 1 then x + 2 * MAX64 + 2 else x
  }

  function Max(a: int, b: int): int { if a < b then b else a }

  function Min(a: int, b: int): int { if a < b then a else b }

  function Sum(ws: seq<nat>): nat {
    if ws == [] then 0 else ws[0] + Sum(ws[1..])
  }

  lemma {:induction false} SumUpdate(ws: seq<nat>, i: nat, w: nat)
    requires i < |ws|
    ensures Sum(ws[i := w]) == Sum(ws) - ws[i] + w
  {
    if i == 0 {
      assert ws[0 := w][1..] == ws[1..];
    } else {
      SumUpdate(ws[1..], i - 1, w);
      assert ws[i := w][1..] == ws[1..][i - 1 := w];
    }
  }

  lemma {:induction false} SumAppend(ws: seq<nat>, w: nat)
    ensures Sum(ws + [w]) == Sum(ws) + w
  {
    if ws == [] {
    } else {
      SumAppend(ws[1..], w);
      assert (ws + [w])[1..] == ws[1..] + [w];
    }
  }
}
