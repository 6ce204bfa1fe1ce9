/**
 What the id generator promises over whole runs: which keys stay tracked, when the ids of one key
 increase, and that distinct (ms, idx) pairs print as distinct ids.
 */
module IdGenRuns {
  import opened Decimals
  import opened IdGen

  function Run(s: State, ops: seq<Op>): State
    requires Ok(s)
    decreases |ops|
  {
    if ops == [] then s else (StepOk(s, ops[0]); Run(Step(s, ops[0]), ops[1..]))
  }

  lemma {:induction false} RunOk(s: State, ops: seq<Op>)
    requires Ok(s)
    ensures Ok(Run(s, ops))
    decreases |ops|
  {
    if ops != [] {
      StepOk(s, ops[0]);
      RunOk(Step(s, ops[0]), ops[1..]);
    }
  }

  // ----- least recently used -----

  /** At every point, fewer distinct other keys were touched than the capacity in force. */
  predicate Fits(ops: seq<Op>, maxKeys: nat, others: set<string>)
    decreases |ops|
  {
    ops == [] ||
    match ops[0]
    case Get(k, _) => |others + {k}| < maxKeys && Fits(ops[1..], maxKeys, others + {k})
    case SetMaxKeys(n) => |others| < Capacity(n) && Fits(ops[1..], Capacity(n), others)
  }

  predicate Untouched(ops: seq<Op>, key: string) {
    forall i :: 0 <= i < |ops| && ops[i].Get? ==> ops[i].key != key
  }

  /** The keys in front of position i. */
  function Before(recs: seq<Rec>, i: nat): set<string>
    requires i <= |recs|
  {
    set j | 0 <= j < i :: recs[j].key
  }

  lemma {:induction false} BeforeCount(recs: seq<Rec>, i: nat)
    requires i <= |recs| && !Duplicates(recs)
    ensures |Before(recs, i)| == i
  {
    if i > 0 {
      BeforeCount(recs, i - 1);
      assert Before(recs, i) == Before(recs, i - 1) + {recs[i - 1].key};
      assert recs[i - 1].key !in Before(recs, i - 1);
    } else {
      assert Before(recs, 0) == {};
    }
  }

  /** Touching another key that is tracked: the key only moves back by what passes it. */
  lemma TouchTracked(s: State, key: string, k: string, now: int)
    requires Ok(s) && k != key && Tracked(s.recs, key) && Tracked(s.recs, k)
    ensures var i := Find(s.recs, key);
      var t := Step(s, Get(k, now));
      && |Before(s.recs, i) + {k}| < s.maxKeys
      && Tracked(t.recs, key)
      && t.recs[Find(t.recs, key)] == s.recs[i] && Before(t.recs, Find(t.recs, key)) == Before(s.recs, i) + {k}
  {
    var i, f := Find(s.recs, key), Find(s.recs, k);
    var t := Step(s, Get(k, now)).recs;
    var at := if f < i then i else i + 1;
    StepOk(s, Get(k, now));
    forall j | 1 <= j < |t| ensures t[j] == if j <= f then s.recs[j - 1] else s.recs[j] {
      assert t[j] == ToFront(s.recs, f)[j];
    }
    ShiftedBefore(s.recs, t, f, i, at);
    assert t[at] == s.recs[i];
    Unique(t, key, at);
    BeforeCount(t, at);
  }

  /** Touching a new key: the key moves back by one, or out if it was last in a full cache. */
  lemma TouchNew(s: State, key: string, k: string, now: int)
    requires Ok(s) && k != key && Tracked(s.recs, key) && !Tracked(s.recs, k)
    ensures var i := Find(s.recs, key);
      var t := Step(s, Get(k, now));
      var others := Before(s.recs, i) + {k};
      && (Tracked(t.recs, key) <==> |others| < s.maxKeys)
      && (Tracked(t.recs, key) ==>
            t.recs[Find(t.recs, key)] == s.recs[i] && Before(t.recs, Find(t.recs, key)) == others)
  {
    var i := Find(s.recs, key);
    var t := Step(s, Get(k, now)).recs;
    BeforeCount(s.recs, i);
    assert k !in Before(s.recs, i);
    StepOk(s, Get(k, now));
    forall j | 1 <= j < |t| ensures t[j] == s.recs[j - 1] {
      assert t[j] == Truncate(s.recs, s.maxKeys - 1)[j - 1];
    }
    if i + 1 < s.maxKeys {
      assert t[i + 1] == s.recs[i];
      Unique(t, key, i + 1);
      assert forall j :: 0 <= j < i ==> t[j + 1] == s.recs[j];
      InsertedBefore(s.recs, t, k, i);
    } else {
      forall j | 0 <= j < |t| ensures t[j].key != key {
        if j > 0 {
          assert t[j] == s.recs[j - 1];
        }
      }
    }
  }

  /** Touching another key: a tracked key keeps its record and gains that key in front of it, as
      long as there is room. */
  lemma TouchOther(s: State, key: string, k: string, now: int)
    requires Ok(s) && k != key && Tracked(s.recs, key)
    ensures var i := Find(s.recs, key);
      var t := Step(s, Get(k, now));
      var others := Before(s.recs, i) + {k};
      && (Tracked(t.recs, key) <==> |others| < s.maxKeys)
      && (Tracked(t.recs, key) ==>
            t.recs[Find(t.recs, key)] == s.recs[i] && Before(t.recs, Find(t.recs, key)) == others)
  {
    if Tracked(s.recs, k) {
      TouchTracked(s, key, k, now);
    } else {
      TouchNew(s, key, k, now);
    }
  }

  lemma InsertedBefore(recs: seq<Rec>, t: seq<Rec>, k: string, i: nat)
    requires i <= |recs| && i + 1 <= |t| && t[0].key == k
    requires forall j :: 0 <= j < i ==> t[j + 1] == recs[j]
    ensures Before(t, i + 1) == Before(recs, i) + {k}
  {
    forall x | x in Before(recs, i) ensures x in Before(t, i + 1) {
      var j :| 0 <= j < i && recs[j].key == x;
      assert t[j + 1].key == x;
    }
    forall x | x in Before(t, i + 1) ensures x in Before(recs, i) + {k} {
      var j :| 0 <= j < i + 1 && t[j].key == x;
      assert j > 0 ==> t[j] == recs[j - 1];
    }
  }

  /** Moving the record at f to the front. */
  lemma ShiftedBefore(recs: seq<Rec>, t: seq<Rec>, f: nat, i: nat, at: nat)
    requires f < |recs| && i < |recs| && f != i && |t| == |recs| && t[0].key == recs[f].key
    requires at == if f < i then i else i + 1
    requires forall j {:trigger t[j]} :: 1 <= j < |recs| ==> t[j] == if j <= f then recs[j - 1] else recs[j]
    ensures at < |t| && Before(t, at) == Before(recs, i) + {recs[f].key}
  {
    forall x | x in Before(recs, i) + {recs[f].key} ensures x in Before(t, at) {
      if x != recs[f].key {
        var j :| 0 <= j < i && recs[j].key == x;
        if j < f {
          assert t[j + 1].key == x;
        } else {
          assert j > f;
          assert t[j] == recs[j];
        }
      } else {
        assert t[0].key == x;
      }
    }
    forall x | x in Before(t, at) ensures x in Before(recs, i) + {recs[f].key} {
      var j :| 0 <= j < at && t[j].key == x;
      if j > 0 {
        assert t[j] == if j <= f then recs[j - 1] else recs[j];
      }
    }
  }

  lemma ShrinkOther(s: State, key: string, n: int)
    requires Ok(s) && Tracked(s.recs, key)
    ensures var i := Find(s.recs, key);
      var t := Step(s, SetMaxKeys(n));
      && (Tracked(t.recs, key) <==> |Before(s.recs, i)| < Capacity(n))
      && (Tracked(t.recs, key) ==>
            Find(t.recs, key) == i && t.recs[i] == s.recs[i] && Before(t.recs, i) == Before(s.recs, i))
  {
    var i := Find(s.recs, key);
    var t := Step(s, SetMaxKeys(n));
    BeforeCount(s.recs, i);
    StepOk(s, SetMaxKeys(n));
    if i < Capacity(n) {
      assert t.recs[i] == s.recs[i];
      Unique(t.recs, key, i);
    }
  }

  lemma {:induction false} StaysAbsent(s: State, key: string, ops: seq<Op>)
    requires Ok(s) && !Tracked(s.recs, key) && Untouched(ops, key)
    ensures !Tracked(Run(s, ops).recs, key)
    decreases |ops|
  {
    if ops != [] {
      var t := Step(s, ops[0]);
      StepOk(s, ops[0]);
      forall j | 0 <= j < |t.recs| ensures t.recs[j].key != key {
        assert t.recs[j].key in Before(s.recs, |s.recs|) || (ops[0].Get? && t.recs[j].key == ops[0].key) by {
          KeysAfter(s, ops[0], j);
        }
      }
      assert Untouched(ops[1..], key);
      StaysAbsent(t, key, ops[1..]);
    }
  }

  /** Only a Get brings in a key. */
  lemma KeysAfter(s: State, op: Op, j: nat)
    requires Ok(s) && j < |Step(s, op).recs|
    ensures Step(s, op).recs[j].key in Before(s.recs, |s.recs|) || (op.Get? && Step(s, op).recs[j].key == op.key)
  {
  }

  /** Exactly when a key survives: its record is kept, untouched, as long as at every point fewer
      distinct other keys have been touched since than the capacity then in force. */
  lemma {:induction false} SurvivesIff(s: State, key: string, ops: seq<Op>)
    requires Ok(s) && Tracked(s.recs, key) && Untouched(ops, key)
    ensures Tracked(Run(s, ops).recs, key) <==> Fits(ops, s.maxKeys, Before(s.recs, Find(s.recs, key)))
    ensures Tracked(Run(s, ops).recs, key) ==>
              Run(s, ops).recs[Find(Run(s, ops).recs, key)] == s.recs[Find(s.recs, key)]
    decreases |ops|
  {
    if ops != [] {
      var t := Step(s, ops[0]);
      StepOk(s, ops[0]);
      assert Untouched(ops[1..], key);
      match ops[0] {
        case Get(k, now) => TouchOther(s, key, k, now);
        case SetMaxKeys(n) => ShrinkOther(s, key, n);
      }
      if Tracked(t.recs, key) {
        SurvivesIff(t, key, ops[1..]);
      } else {
        StaysAbsent(t, key, ops[1..]);
      }
    }
  }

  /** What a Get returns and leaves, record by record: the key is first, with the next index of the millisecond or
      with index zero; the others keep their order, and if the key is new they are cut to the room that is left. */
  lemma GetSays(s: State, key: string, now: int)
    requires Ok(s)
    ensures var id, t := Counter(s, key, now), Step(s, Get(key, now));
            && id.key == key && id.ms == now && t.maxKeys == s.maxKeys
            && (forall i :: 0 <= i < |s.recs| && s.recs[i].key == key ==>
                  && id.idx == (if s.recs[i].ms == now then (s.recs[i].idx + 1) % 0x1_0000_0000_0000_0000 else 0)
                  && t.recs == [id] + s.recs[..i] + s.recs[i + 1..])
            && ((forall i :: 0 <= i < |s.recs| ==> s.recs[i].key != key) ==>
                  && id.idx == 0
                  && t.recs == [id] + if |s.recs| < s.maxKeys then s.recs else s.recs[..s.maxKeys - 1])
  {
    var id, t := Counter(s, key, now), Step(s, Get(key, now));
    forall i | 0 <= i < |s.recs| && s.recs[i].key == key
      ensures id.idx == (if s.recs[i].ms == now then (s.recs[i].idx + 1) % 0x1_0000_0000_0000_0000 else 0)
      ensures t.recs == [id] + s.recs[..i] + s.recs[i + 1..]
    {
      Unique(s.recs, key, i);
      MovedToFront(s.recs, i, id);
    }
  }

  lemma MovedToFront(recs: seq<Rec>, i: nat, id: Rec)
    requires i < |recs|
    ensures ToFront(recs, i)[0 := id] == [id] + recs[..i] + recs[i + 1..]
  {
  }

  /** SetMaxKeys keeps the most recently touched records that fit. */
  lemma SetMaxKeysSays(s: State, n: int)
    requires Ok(s)
    ensures var t := Step(s, SetMaxKeys(n));
            && t.maxKeys == (if n <= 0 then 102400 else n)
            && t.recs == if |s.recs| <= t.maxKeys then s.recs else s.recs[..t.maxKeys]
  {
  }

  // ----- ids of one key -----

  predicate Less(a: Rec, b: Rec) {
    a.ms < b.ms || (a.ms == b.ms && a.idx < b.idx)
  }

  /** Two consecutive Gets of a key, with any other operations between them: the second id is
      above the first exactly if the clock advanced, or stood still while the key stayed tracked
      and its 64-bit index did not wrap. */
  lemma ConsecutiveIdsIncreaseIff(s: State, key: string, now: int, ops: seq<Op>, later: int)
    requires Ok(s) && Untouched(ops, key)
    ensures Ok(Step(s, Get(key, now))) && Ok(Run(Step(s, Get(key, now)), ops))
    ensures var first := Counter(s, key, now);
      var second := Counter(Run(Step(s, Get(key, now)), ops), key, later);
      Less(first, second) <==>
        later > now || (later == now && Fits(ops, s.maxKeys, {}) && first.idx + 1 < UINT64)
  {
    var t := Step(s, Get(key, now));
    StepOk(s, Get(key, now));
    RunOk(t, ops);
    FrontAfterGet(s, key, now);
    SurvivesIff(t, key, ops);
  }

  /** A Get leaves its key in front, with nothing touched since. */
  lemma FrontAfterGet(s: State, key: string, now: int)
    requires Ok(s)
    ensures var t := Step(s, Get(key, now));
      && t.recs != [] && t.recs[0] == Counter(s, key, now) && t.maxKeys == s.maxKeys
      && Find(t.recs, key) == 0 && Tracked(t.recs, key) && Before(t.recs, 0) == {}
  {
    StepOk(s, Get(key, now));
    FrontAfterTouch(s, key, now);
    Unique(Step(s, Get(key, now)).recs, key, 0);
  }

  /** The pairs returned for one key over a run. */
  function Ids(s: State, ops: seq<Op>, key: string): seq<Rec>
    requires Ok(s)
    decreases |ops|
  {
    if ops == [] then []
    else
      StepOk(s, ops[0]);
      (if ops[0].Get? && ops[0].key == key then [Counter(s, key, ops[0].now)] else [])
      + Ids(Step(s, ops[0]), ops[1..], key)
  }

  /** Never is the key, returned last with `last`, inserted again in the millisecond of `last`,
      nor its index wrapped within one. */
  predicate NoSameMsReinsert(s: State, ops: seq<Op>, key: string, last: Rec)
    requires Ok(s)
    decreases |ops|
  {
    ops == [] ||
    (StepOk(s, ops[0]);
     if ops[0].Get? && ops[0].key == key then
       && (ops[0].now == last.ms ==> Tracked(s.recs, key) && last.idx + 1 < UINT64)
       && NoSameMsReinsert(Step(s, ops[0]), ops[1..], key, Counter(s, key, ops[0].now))
     else NoSameMsReinsert(Step(s, ops[0]), ops[1..], key, last))
  }

  predicate ClockFrom(ops: seq<Op>, now: int)
    decreases |ops|
  {
    ops == [] ||
    (if ops[0].Get? then now <= ops[0].now && ClockFrom(ops[1..], ops[0].now) else ClockFrom(ops[1..], now))
  }

  predicate Increasing(ids: seq<Rec>, last: Rec)
    decreases |ids|
  {
    ids == [] || (Less(last, ids[0]) && Increasing(ids[1..], ids[0]))
  }

  /** A tracked key's record is the pair it returned last. */
  ghost predicate Remembers(s: State, key: string, last: Rec) {
    Tracked(s.recs, key) ==> s.recs[Find(s.recs, key)] == last
  }

  lemma RemembersStep(s: State, key: string, last: Rec, op: Op)
    requires Ok(s) && Remembers(s, key, last)
    ensures Remembers(Step(s, op), key, if op.Get? && op.key == key then Counter(s, key, op.now) else last)
  {
    var t := Step(s, op);
    StepOk(s, op);
    if op.Get? && op.key == key {
      FrontAfterTouch(s, key, op.now);
      Unique(t.recs, key, 0);
    } else if Tracked(s.recs, key) {
      match op
      case Get(k, now) => TouchOther(s, key, k, now);
      case SetMaxKeys(n) => ShrinkOther(s, key, n);
    } else {
      assert Untouched([op], key);
      StaysAbsent(s, key, [op]);
      assert [op][1..] == [];
      assert Run(s, [op]) == t;
    }
  }

  /** With a clock that never goes back, the ids of a key strictly increase over the whole run if
      and only if the key is never inserted again within the millisecond of its last id. */
  lemma {:induction false} RunIdsIncreaseIff(s: State, ops: seq<Op>, key: string, last: Rec, clock: int)
    requires Ok(s) && Remembers(s, key, last) && last.key == key && last.ms <= clock && ClockFrom(ops, clock)
    ensures Increasing(Ids(s, ops, key), last) <==> NoSameMsReinsert(s, ops, key, last)
    decreases |ops|
  {
    if ops != [] {
      var op := ops[0];
      StepOk(s, op);
      RemembersStep(s, key, last, op);
      var clock' := if op.Get? then op.now else clock;
      if op.Get? && op.key == key {
        var id := Counter(s, key, op.now);
        var rest := Ids(Step(s, op), ops[1..], key);
        RunIdsIncreaseIff(Step(s, op), ops[1..], key, id, clock');
        assert Ids(s, ops, key) == [id] + rest;
        assert ([id] + rest)[1..] == rest;
      } else {
        RunIdsIncreaseIff(Step(s, op), ops[1..], key, last, clock');
        assert Ids(s, ops, key) == Ids(Step(s, op), ops[1..], key);
      }
    }
  }

  /** Increasing ids are pairwise distinct. */
  lemma {:induction false} IncreasingDistinct(ids: seq<Rec>, last: Rec, i: nat, j: nat)
    requires Increasing(ids, last) && i < j < |ids|
    ensures Less(last, ids[i]) && Less(ids[i], ids[j])
    decreases |ids|
  {
    if i == 0 {
      if j == 1 {
      } else {
        IncreasingDistinct(ids[1..], ids[0], 0, j - 1);
      }
    } else {
      IncreasingDistinct(ids[1..], ids[0], i - 1, j - 1);
    }
  }

  // ----- formatID -----

  /** strconv.AppendInt in base 10 */
  function SignedDecimal(n: int): string {
    if n < 0 then "-" + Decimal(-n) else Decimal(n)
  }

  function FormatId(ms: int, idx: nat): string {
    SignedDecimal(ms) + "-" + Decimal(idx)
  }

  /** The text is a number: a numeral, after a sign if it is negative. */
  predicate IsSigned(t: string, n: int) {
    if n < 0 then t != "" && t[0] == '-' && IsNumeral(t[1..]) && Value(t[1..]) == -n
    else IsNumeral(t) && Value(t) == n
  }

  /** The string is the two numbers with a dash between them. */
  ghost predicate IsId(s: string, ms: int, idx: nat) {
    exists k: nat :: SplitsAt(s, ms, idx, k)
  }

  predicate SplitsAt(s: string, ms: int, idx: nat, k: nat) {
    k < |s| && s[k] == '-' && IsSigned(s[..k], ms) && IsNumeral(s[k + 1..]) && Value(s[k + 1..]) == idx
  }

  lemma SignedIff(t: string, n: int)
    ensures IsSigned(t, n) <==> t == SignedDecimal(n)
  {
    if n < 0 {
      DecimalReads(-n);
      if IsSigned(t, n) {
        NumeralIsDecimal(t[1..]);
        assert t == "-" + t[1..];
      }
    } else {
      DecimalReads(n);
      if IsSigned(t, n) {
        NumeralIsDecimal(t);
      }
    }
  }

  /** The id of a pair is the only string that is read back as the pair. */
  lemma FormatIdReads(s: string, ms: int, idx: nat)
    ensures IsId(s, ms, idx) <==> s == FormatId(ms, idx)
  {
    if s == FormatId(ms, idx) {
      DashSplits(SignedDecimal(ms), Decimal(idx), ms, idx);
    }
    if k: nat :| SplitsAt(s, ms, idx, k) {
      SignedIff(s[..k], ms);
      NumeralIsDecimal(s[k + 1..]);
      Rejoin(s, k);
    }
  }

  lemma Rejoin(s: string, k: nat)
    requires k < |s| && s[k] == '-'
    ensures s == s[..k] + "-" + s[k + 1..]
  {
  }

  lemma DashSplits(a: string, b: string, ms: int, idx: nat)
    requires a == SignedDecimal(ms) && b == Decimal(idx)
    ensures SplitsAt(a + "-" + b, ms, idx, |a|)
  {
    var s := a + "-" + b;
    assert s[..|a|] == a && s[|a| + 1..] == b;
    SignedIff(a, ms);
    DecimalReads(idx);
  }

  lemma AfterDash(a: string, b: string, k: nat)
    requires |a| < k < |a + "-" + b|
    ensures (a + "-" + b)[k] in b
  {
    assert (a + "-" + b)[k] == b[k - |a| - 1];
  }

  /** Distinct pairs print as distinct ids. */
  lemma FormatIdInjective(ms: int, idx: nat, ms': int, idx': nat)
    requires FormatId(ms, idx) == FormatId(ms', idx')
    ensures ms == ms' && idx == idx'
  {
    var s := FormatId(ms, idx);
    var a, b, a', b' := SignedDecimal(ms), Decimal(idx), SignedDecimal(ms'), Decimal(idx');
    assert s[|a|] == '-' && s[|a'|] == '-';
    if |a| < |a'| {
      AfterDash(a, b, |a'|);
      assert false;
    } else if |a'| < |a| {
      AfterDash(a', b', |a|);
      assert false;
    }
    assert a == s[..|a|] == a';
    assert b == s[|a| + 1..] == b';
    DecimalInjective(idx, idx');
    assert ms < 0 <==> a[0] == '-' by { assert a[0] in a; }
    assert ms' < 0 <==> a'[0] == '-' by { assert a'[0] in a'; }
    if ms < 0 {
      assert Decimal(-ms) == a[1..] == Decimal(-ms');
      DecimalInjective(-ms, -ms');
    } else {
      DecimalInjective(ms, ms');
    }
  }

  // ----- the ids of a key, from the calls alone -----

  /** The condition as a caller sees it, on the calls and their times. `cap` is the capacity in force, `others`
      the distinct other keys since the last Get of the key, `kept` whether they always numbered fewer than the
      capacity then in force, and `last` the pair returned last. */
  predicate CallsIncrease(ops: seq<Op>, key: string, cap: nat, others: set<string>, kept: bool, last: Rec)
    decreases |ops|
  {
    ops == [] ||
    match ops[0]
    case Get(k, now) =>
      if k == key then
        && (now == last.ms ==> kept && last.idx + 1 < UINT64)
        && CallsIncrease(ops[1..], key, cap, {}, true, Rec(key, now, if now == last.ms then last.idx + 1 else 0))
      else CallsIncrease(ops[1..], key, cap, others + {k}, kept && |others + {k}| < cap, last)
    case SetMaxKeys(n) =>
      CallsIncrease(ops[1..], key, Capacity(n), others, kept && |others| < Capacity(n), last)
  }

  /** What the caller knows of the cache. */
  ghost predicate Knows(s: State, key: string, cap: nat, others: set<string>, kept: bool, last: Rec) {
    && s.maxKeys == cap && (kept <==> Tracked(s.recs, key))
    && (kept ==> s.recs[Find(s.recs, key)] == last && Before(s.recs, Find(s.recs, key)) == others)
  }

  lemma KnowsOther(s: State, key: string, cap: nat, others: set<string>, kept: bool, last: Rec, op: Op)
    requires Ok(s) && Knows(s, key, cap, others, kept, last) && (op.Get? ==> op.key != key)
    ensures match op
      case Get(k, _) => Knows(Step(s, op), key, cap, others + {k}, kept && |others + {k}| < cap, last)
      case SetMaxKeys(n) => Knows(Step(s, op), key, Capacity(n), others, kept && |others| < Capacity(n), last)
  {
    if kept {
      match op
      case Get(k, now) => TouchOther(s, key, k, now);
      case SetMaxKeys(n) => ShrinkOther(s, key, n);
    } else {
      assert Untouched([op], key) && [op][1..] == [];
      StaysAbsent(s, key, [op]);
      assert Run(s, [op]) == Step(s, op);
    }
  }

  lemma KnowsGet(s: State, key: string, now: int)
    requires Ok(s)
    ensures Knows(Step(s, Get(key, now)), key, s.maxKeys, {}, true, Counter(s, key, now))
  {
    var t := Step(s, Get(key, now));
    StepOk(s, Get(key, now));
    FrontAfterTouch(s, key, now);
    Unique(t.recs, key, 0);
    assert Before(t.recs, 0) == {};
  }

  lemma Wraps(idx: nat)
    requires idx < UINT64
    ensures (idx + 1) % UINT64 == if idx + 1 < UINT64 then idx + 1 else 0
  {
  }

  lemma CounterKnown(s: State, key: string, cap: nat, others: set<string>, kept: bool, last: Rec, now: int)
    requires Ok(s) && Knows(s, key, cap, others, kept, last) && last.key == key
    requires now == last.ms ==> kept && last.idx + 1 < UINT64
    ensures Counter(s, key, now) == Rec(key, now, if now == last.ms then last.idx + 1 else 0)
  {
    if now == last.ms {
      Wraps(last.idx);
    }
  }

  /** One Get of the key: the conditions ask the same of it and go on from the same point. */
  lemma DecideGet(s: State, ops: seq<Op>, key: string, others: set<string>, kept: bool, last: Rec)
    requires Ok(s) && Knows(s, key, s.maxKeys, others, kept, last) && last.key == key
    requires ops != [] && ops[0].Get? && ops[0].key == key
    ensures var now := ops[0].now;
      var t, id := Step(s, Get(key, now)), Rec(key, now, if now == last.ms then last.idx + 1 else 0);
      var fine := now == last.ms ==> kept && last.idx + 1 < UINT64;
      && Ok(t)
      && (NoSameMsReinsert(s, ops, key, last) <==> fine && NoSameMsReinsert(t, ops[1..], key, id))
      && (CallsIncrease(ops, key, s.maxKeys, others, kept, last) <==>
            fine && CallsIncrease(ops[1..], key, s.maxKeys, {}, true, id))
      && (fine ==> Knows(t, key, s.maxKeys, {}, true, id))
  {
    var now := ops[0].now;
    StepOk(s, ops[0]);
    assert ops[0] == Get(key, now);
    KnowsGet(s, key, now);
    if now == last.ms ==> kept && last.idx + 1 < UINT64 {
      CounterKnown(s, key, s.maxKeys, others, kept, last, now);
    }
  }

  /** The condition on the calls is the one on the cache's tracking. */
  lemma {:induction false} CallsDecide(s: State, ops: seq<Op>, key: string, others: set<string>, kept: bool, last: Rec)
    requires Ok(s) && Knows(s, key, s.maxKeys, others, kept, last) && last.key == key
    ensures NoSameMsReinsert(s, ops, key, last) <==> CallsIncrease(ops, key, s.maxKeys, others, kept, last)
    decreases |ops|
  {
    if ops != [] && ops[0].Get? && ops[0].key == key {
      var now := ops[0].now;
      DecideGet(s, ops, key, others, kept, last);
      if now == last.ms ==> kept && last.idx + 1 < UINT64 {
        var id := Rec(key, now, if now == last.ms then last.idx + 1 else 0);
        KnowsGet(s, key, now);
        CallsDecide(Step(s, Get(key, now)), ops[1..], key, {}, true, id);
      }
    } else if ops != [] {
      var op := ops[0];
      StepOk(s, op);
      KnowsOther(s, key, s.maxKeys, others, kept, last, op);
      var others' := if op.Get? then others + {op.key} else others;
      CallsDecide(Step(s, op), ops[1..], key, others', kept && |others'| < Step(s, op).maxKeys, last);
    }
  }

  /** An id that is not above the last one is the first id of that millisecond over again. */
  lemma FirstAgain(s: State, key: string, now: int, last: Rec)
    requires Ok(s) && Remembers(s, key, last) && last.key == key && last.ms <= now && last.idx < UINT64
    ensures var id := Counter(s, key, now);
      && id.idx < UINT64
      && (!Less(last, id) ==> id == Rec(key, last.ms, 0))
      && (id.idx > 0 ==> id.ms == last.ms)
  {
    if Tracked(s.recs, key) {
      Wraps(last.idx);
    }
  }

  /** Ids that do not increase repeat one of their own, or the first one of the millisecond before them. */
  lemma {:induction false} RepeatFound(s: State, ops: seq<Op>, key: string, last: Rec, clock: int)
    returns (i: int, j: nat)
    requires Ok(s) && Remembers(s, key, last) && last.key == key && last.idx < UINT64
    requires last.ms <= clock && ClockFrom(ops, clock) && !Increasing(Ids(s, ops, key), last)
    ensures -1 <= i < j < |Ids(s, ops, key)| || (i == -1 && j == 0 < |Ids(s, ops, key)|)
    ensures Ids(s, ops, key)[j] == if i == -1 then Rec(key, last.ms, 0) else Ids(s, ops, key)[i]
    decreases |ops|
  {
    var op := ops[0];
    var t := Step(s, op);
    StepOk(s, op);
    RemembersStep(s, key, last, op);
    var clock' := if op.Get? then op.now else clock;
    if op.Get? && op.key == key {
      var id := Counter(s, key, op.now);
      var rest := Ids(t, ops[1..], key);
      assert Ids(s, ops, key) == [id] + rest && ([id] + rest)[1..] == rest;
      FirstAgain(s, key, op.now, last);
      if !Less(last, id) {
        i, j := -1, 0;
      } else {
        i, j := RepeatFound(t, ops[1..], key, id, clock');
        j := j + 1;
        i := if i >= 0 then i + 1 else if id.idx == 0 then 0 else -1;
      }
    } else {
      assert Ids(s, ops, key) == Ids(t, ops[1..], key);
      i, j := RepeatFound(t, ops[1..], key, last, clock');
    }
  }

  lemma {:induction false} IdsFromClock(s: State, ops: seq<Op>, key: string, clock: int)
    requires Ok(s) && ClockFrom(ops, clock)
    ensures forall i :: 0 <= i < |Ids(s, ops, key)| ==> Ids(s, ops, key)[i].ms >= clock
    decreases |ops|
  {
    if ops != [] {
      StepOk(s, ops[0]);
      IdsFromClock(Step(s, ops[0]), ops[1..], key, if ops[0].Get? then ops[0].now else clock);
    }
  }

  /** The strings returned for one key. */
  function Strings(ids: seq<Rec>): (r: seq<string>)
    ensures |r| == |ids|
  {
    seq(|ids|, i requires 0 <= i < |ids| => FormatId(ids[i].ms, ids[i].idx))
  }

  ghost predicate PairwiseDistinct(r: seq<string>) {
    forall i, j :: 0 <= i < j < |r| ==> r[i] != r[j]
  }

  /** With a clock that never goes back, the strings returned for a key, from its first Get on, are pairwise
      distinct exactly under the condition on the calls. */
  lemma KeyStringsDistinctIff(s: State, ops: seq<Op>, key: string, clock: int)
    requires Ok(s) && !Tracked(s.recs, key) && ClockFrom(ops, clock)
    ensures PairwiseDistinct(Strings(Ids(s, ops, key))) <==>
      CallsIncrease(ops, key, s.maxKeys, {}, false, Rec(key, clock - 1, 0))
  {
    var ids, last := Ids(s, ops, key), Rec(key, clock - 1, 0);
    RunIdsIncreaseIff(s, ops, key, last, clock);
    CallsDecide(s, ops, key, {}, false, last);
    if Increasing(ids, last) {
      forall i, j | 0 <= i < j < |ids| ensures Strings(ids)[i] != Strings(ids)[j] {
        IncreasingDistinct(ids, last, i, j);
        if Strings(ids)[i] == Strings(ids)[j] {
          FormatIdInjective(ids[i].ms, ids[i].idx, ids[j].ms, ids[j].idx);
        }
      }
    } else {
      var i, j := RepeatFound(s, ops, key, last, clock);
      IdsFromClock(s, ops, key, clock);
      assert i >= 0;
      assert Strings(ids)[i] == Strings(ids)[j];
    }
  }
}
