/**
 Token estimation of a text (pkg/token/estimate.go). A text is a sequence of runes, and a weight is
 a whole number of 1/420 tokens, which represents every constant of the source exactly.
 */
module TokenEstimate {

  type Rune = nat
  type Text = seq<Rune>

  const UNIT: nat := 420

  /** The Unicode range tables the estimator consults. */
  datatype Tables = Tables(han: set<Rune>, hiragana: set<Rune>, katakana: set<Rune>, hangul: set<Rune>,
                           cyrillic: set<Rune>, arabic: set<Rune>, latin: set<Rune>, digit: set<Rune>,
                           so: set<Rune>, sk: set<Rune>, sm: set<Rune>, punct: set<Rune>, space: set<Rune>)

  function SlowRuneWeight(u: Tables, r: Rune): (w: nat)
    ensures 0 < w <= UNIT
  {
    if r in u.han then 350
    else if r in u.hiragana || r in u.katakana || r in u.hangul then 280
    else if r in u.cyrillic then 140
    else if r in u.arabic then 168
    else if r in u.latin then 120
    else if r in u.digit then 105
    else if r in u.so || r in u.sk || r in u.sm then 420
    else if r in u.punct then 210
    else if r in u.space then 84
    else 210
  }

  /** One rune, with the shortcuts for common ranges taken before the tables. */
  function RuneWeight(u: Tables, r: Rune): (w: nat)
    ensures 0 < w <= UNIT
  {
    if r < 128 then SlowRuneWeight(u, r)
    else if 0x4E00 <= r <= 0x9FFF then 350
    else if 0x3040 <= r <= 0x30FF then 280
    else if 0xAC00 <= r <= 0xD7AF then 280
    else SlowRuneWeight(u, r)
  }

  /** The tokens a rune counts for, from the tables. */
  function SlowRate(u: Tables, r: Rune): real {
    if r in u.han then 1.0 / 1.2
    else if r in u.hiragana + u.katakana + u.hangul then 1.0 / 1.5
    else if r in u.cyrillic then 1.0 / 3.0
    else if r in u.arabic then 1.0 / 2.5
    else if r in u.latin then 1.0 / 3.5
    else if r in u.digit then 1.0 / 4.0
    else if r in u.so + u.sk + u.sm then 1.0
    else if r in u.punct then 1.0 / 2.0
    else if r in u.space then 1.0 / 5.0
    else 1.0 / 2.0
  }

  /** The common ranges come first, except that ASCII has a table of its own. */
  function Rate(u: Tables, r: Rune): real {
    if 0x4E00 <= r <= 0x9FFF then 1.0 / 1.2
    else if 0x3040 <= r <= 0x30FF || 0xAC00 <= r <= 0xD7AF then 1.0 / 1.5
    else SlowRate(u, r)
  }

  /** The whole numbers are the rates, exactly. */
  lemma WeightIsRate(u: Tables, r: Rune)
    ensures RuneWeight(u, r) as real == 420.0 * Rate(u, r)
    ensures r < 128 ==> SlowRuneWeight(u, r) as real == 420.0 * Rate(u, r)
  {
  }

  /** A shortcut gives what the tables would exactly if they list the rune under the script it stands for. */
  lemma ShortcutIff(u: Tables, r: Rune)
    ensures 0x4E00 <= r <= 0x9FFF ==> (RuneWeight(u, r) == SlowRuneWeight(u, r) <==> r in u.han)
    ensures 0x3040 <= r <= 0x30FF || 0xAC00 <= r <= 0xD7AF ==>
      (RuneWeight(u, r) == SlowRuneWeight(u, r) <==> r !in u.han && r in u.hiragana + u.katakana + u.hangul)
  {
  }

  function Weight(u: Tables, text: Text): nat {
    if text == [] then 0 else Weight(u, text[..|text| - 1]) + RuneWeight(u, text[|text| - 1])
  }

  /** Nothing for nothing, otherwise the whole tokens and one more. */
  function Estimated(u: Tables, text: Text): nat {
    if text == [] then 0 else Weight(u, text) / UNIT + 1
  }

  method AsciiTable(u: Tables) returns (table: array<nat>)
    ensures fresh(table) && table.Length == 128
    ensures forall r :: 0 <= r < 128 ==> table[r] == SlowRuneWeight(u, r)
  {
    table := new nat[128];
    for i := 0 to 128
      invariant forall r :: 0 <= r < i ==> table[r] == SlowRuneWeight(u, r)
    {
      table[i] := SlowRuneWeight(u, i);
    }
  }

  method Estimate(u: Tables, ascii: array<nat>, text: Text) returns (n: nat)
    requires ascii.Length == 128
    requires forall r :: 0 <= r < 128 ==> ascii[r] == SlowRuneWeight(u, r)
    ensures n == Estimated(u, text)
  {
    if text == [] {
      return 0;
    }
    var tokens := 0;
    for i := 0 to |text|
      invariant tokens == Weight(u, text[..i])
    {
      var r := text[i];
      assert text[..i + 1][..i] == text[..i];
      if r < 128 {
        tokens := tokens + ascii[r];
        continue;
      }
      if r >= 0x4E00 && r <= 0x9FFF {
        tokens := tokens + 350;
        continue;
      }
      if r >= 0x3040 && r <= 0x30FF {
        tokens := tokens + 280;
        continue;
      }
      if r >= 0xAC00 && r <= 0xD7AF {
        tokens := tokens + 280;
        continue;
      }
      tokens := tokens + SlowRuneWeight(u, r);
    }
    assert text[..|text|] == text;
    n := tokens / UNIT + 1;
  }

  lemma {:induction false} WeightConcat(u: Tables, a: Text, b: Text)
    ensures Weight(u, a + b) == Weight(u, a) + Weight(u, b)
    decreases |b|
  {
    if b == [] {
      assert a + b == a;
    } else {
      WeightConcat(u, a, b[..|b| - 1]);
      assert (a + b)[..|a + b| - 1] == a + b[..|b| - 1];
    }
  }

  /** The tokens of a text, rune by rune. */
  function Tokens(u: Tables, text: Text): real {
    if text == [] then 0.0 else Rate(u, text[0]) + Tokens(u, text[1..])
  }

  lemma {:induction false} WeightIsTokens(u: Tables, text: Text)
    ensures Weight(u, text) as real == 420.0 * Tokens(u, text)
  {
    if text != [] {
      var first := text[..1];
      assert text == first + text[1..];
      WeightConcat(u, first, text[1..]);
      assert first[..0] == [];
      WeightIsRate(u, text[0]);
      WeightIsTokens(u, text[1..]);
    }
  }

  /** The estimate of a text that is not empty is the least whole number above its tokens. */
  lemma EstimateIsNextWhole(u: Tables, text: Text)
    requires text != []
    ensures Estimated(u, text) as real - 1.0 <= Tokens(u, text) < Estimated(u, text) as real
  {
    WeightIsTokens(u, text);
    var w, n := Weight(u, text), Estimated(u, text);
    assert 420 * (n - 1) <= w < 420 * n;
    assert 420.0 * (n as real - 1.0) <= w as real < 420.0 * n as real;
  }

  /** Joining two texts never raises the estimate above the sum, and drops it by at most one token;
      it never falls below either part. */
  lemma EstimateSubadditive(u: Tables, a: Text, b: Text)
    ensures Estimated(u, a + b) <= Estimated(u, a) + Estimated(u, b) <= Estimated(u, a + b) + 1
    ensures Estimated(u, a) <= Estimated(u, a + b) && Estimated(u, b) <= Estimated(u, a + b)
  {
    WeightConcat(u, a, b);
    if a == [] {
      assert a + b == b;
    } else if b == [] {
      assert a + b == a;
    }
  }
}
