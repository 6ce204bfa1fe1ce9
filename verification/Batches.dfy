/**
 Splitting items into batches and mapping them (pkg/batch/serial.go, and the shared state of
 pkg/batch/parallel.go).
 */
module Batches {
  import opened Integers
  import opened Wrappers

  datatype Error = NilMapper | BadBatchSize | BadConcurrency | ContextDone | FnError(e: string)
                 | Panicked   // a slice with a negative length or end

  type Mapper<!In, !Out> = seq<In> -> Result<seq<Out>, Error>

  // ----- batches -----

  /** How many batches of the given size n items make. */
  function Count(n: nat, size: nat): nat
    requires size > 0
  {
    if n == 0 then 0 else (n - 1) / size + 1
  }

  lemma InRange(n: nat, size: nat, i: nat)
    requires size > 0
    ensures i < Count(n, size) <==> i * size < n
    ensures i < Count(n, size) ==> ((i + 1) * size >= n <==> i + 1 == Count(n, size))
  {
    if n > 0 {
      Quotient(n, size);
      Between(n, size, i, Count(n, size) - 1);
    }
  }

  /** The last batch begins inside the items and ends with or after them. */
  lemma Quotient(n: nat, size: nat)
    requires size > 0 && n > 0
    ensures (Count(n, size) - 1) * size < n <= Count(n, size) * size
  {
    var q, r := (n - 1) / size, (n - 1) % size;
    assert n - 1 == q * size + r && r < size;
    assert (q + 1) * size == q * size + size;
  }

  lemma Between(n: nat, size: nat, i: nat, q: nat)
    requires size > 0 && q * size < n <= (q + 1) * size
    ensures i < q + 1 <==> i * size < n
    ensures i < q + 1 ==> ((i + 1) * size >= n <==> i == q)
  {
    if i < q {
      Scale(i, q, size);
      Scale(i + 1, q, size);
    } else if i > q {
      Scale(q + 1, i, size);
    }
  }

  lemma Scale(a: nat, b: nat, size: nat)
    requires a <= b
    ensures a * size <= b * size
  {
    assert b * size == a * size + (b - a) * size;
  }

  function BatchAt<T>(items: seq<T>, size: nat, i: nat): seq<T>
    requires size > 0 && i < Count(|items|, size)
  {
    InRange(|items|, size, i);
    items[i * size..Min(i * size + size, |items|)]
  }

  function Flatten<T>(parts: seq<seq<T>>): seq<T> {
    if parts == [] then [] else Flatten(parts[..|parts| - 1]) + parts[|parts| - 1]
  }

  function FirstBatches<T>(items: seq<T>, size: nat, k: nat): (r: seq<seq<T>>)
    requires size > 0 && k <= Count(|items|, size)
    ensures |r| == k
  {
    seq(k, i requires 0 <= i < k => BatchAt(items, size, i))
  }

  lemma CoverStep<T>(items: seq<T>, start: nat, end: nat)
    requires start <= end <= |items|
    ensures items[..end] == items[..start] + items[start..end]
  {
  }

  lemma BatchSize<T>(items: seq<T>, size: nat, i: nat)
    requires size > 0 && i < Count(|items|, size)
    ensures 1 <= |BatchAt(items, size, i)| <= size
    ensures i + 1 < Count(|items|, size) ==> |BatchAt(items, size, i)| == size
  {
    InRange(|items|, size, i);
    assert (i + 1) * size == i * size + size;
  }

  lemma LastBatch<T>(items: seq<T>, size: nat, k: nat)
    requires size > 0 && 0 < k <= Count(|items|, size)
    ensures Flatten(FirstBatches(items, size, k))
      == Flatten(FirstBatches(items, size, k - 1)) + BatchAt(items, size, k - 1)
  {
    assert FirstBatches(items, size, k)[..k - 1] == FirstBatches(items, size, k - 1);
  }

  /** Where batch i - 1 ends and batch i begins. */
  function Cut(n: nat, size: nat, i: nat): (c: nat)
    ensures c <= n
  {
    Min(i * size, n)
  }

  lemma BatchIs<T>(items: seq<T>, size: nat, i: nat)
    requires size > 0 && i < Count(|items|, size)
    ensures Cut(|items|, size, i) <= Cut(|items|, size, i + 1)
    ensures BatchAt(items, size, i) == items[Cut(|items|, size, i)..Cut(|items|, size, i + 1)]
  {
    InRange(|items|, size, i);
    assert (i + 1) * size == i * size + size;
  }

  /** The batches are the items, each once, in order. */
  lemma {:induction false} BatchesCover<T>(items: seq<T>, size: nat, k: nat)
    requires size > 0 && k <= Count(|items|, size)
    ensures Flatten(FirstBatches(items, size, k)) == items[..Cut(|items|, size, k)]
    decreases k
  {
    if k > 0 {
      BatchesCover(items, size, k - 1);
      LastBatch(items, size, k);
      BatchIs(items, size, k - 1);
      CoverStep(items, Cut(|items|, size, k - 1), Cut(|items|, size, k));
    }
  }

  lemma AllBatchesCover<T>(items: seq<T>, size: nat)
    requires size > 0
    ensures Flatten(FirstBatches(items, size, Count(|items|, size))) == items
    ensures forall i :: 0 <= i < Count(|items|, size) ==> 1 <= |BatchAt(items, size, i)| <= size
    ensures forall i :: 0 <= i < Count(|items|, size) - 1 ==> |BatchAt(items, size, i)| == size
  {
    var k := Count(|items|, size);
    BatchesCover(items, size, k);
    InRange(|items|, size, k);
    forall i | 0 <= i < k
      ensures 1 <= |BatchAt(items, size, i)| <= size && (i < k - 1 ==> |BatchAt(items, size, i)| == size)
    {
      BatchSize(items, size, i);
    }
  }

  // ----- one after the other -----

  /** All values joined, or the first error. */
  function SerialOf<T>(steps: seq<Result<seq<T>, Error>>): Result<seq<T>, Error> {
    if steps == [] then Ok([])
    else
      match SerialOf(steps[..|steps| - 1])
      case Err(e) => Err(e)
      case Ok(v) =>
        match steps[|steps| - 1]
        case Err(e) => Err(e)
        case Ok(w) => Ok(v + w)
  }

  lemma {:induction false} ErrorSticks<T>(steps: seq<Result<seq<T>, Error>>, k: nat)
    requires k <= |steps| && SerialOf(steps[..k]).Err?
    ensures SerialOf(steps) == SerialOf(steps[..k])
    decreases |steps|
  {
    if k == |steps| {
      assert steps[..k] == steps;
    } else {
      assert steps[..|steps| - 1][..k] == steps[..k];
      ErrorSticks(steps[..|steps| - 1], k);
    }
  }

  function Values<T>(steps: seq<Result<seq<T>, Error>>): (r: seq<seq<T>>)
    requires forall i :: 0 <= i < |steps| ==> steps[i].Ok?
    ensures |r| == |steps|
  {
    seq(|steps|, i requires 0 <= i < |steps| => steps[i].value)
  }

  /** It succeeds exactly when every step does, and then with the values in order. */
  lemma {:induction false} SerialOkIff<T>(steps: seq<Result<seq<T>, Error>>)
    ensures SerialOf(steps).Ok? <==> forall i :: 0 <= i < |steps| ==> steps[i].Ok?
    ensures SerialOf(steps).Ok? ==> SerialOf(steps) == Ok(Flatten(Values(steps)))
    decreases |steps|
  {
    if steps != [] {
      var n := |steps| - 1;
      SerialOkIff(steps[..n]);
      if SerialOf(steps).Ok? {
        assert forall i :: 0 <= i < n ==> steps[..n][i] == steps[i];
        assert Values(steps)[..n] == Values(steps[..n]);
      } else if SerialOf(steps[..n]).Err? {
        var i :| 0 <= i < n && steps[..n][i].Err?;
        assert steps[i].Err?;
      }
    }
  }

  /** What each batch gives when mapped while the context's state before it is as ctx says. The batch whose
      end wraps in 64 bits cannot be sliced. */
  function Steps<In, Out>(items: seq<In>, size: nat, fn: Mapper<In, Out>, ctx: nat -> bool)
    : (r: seq<Result<seq<Out>, Error>>)
    requires size > 0
    ensures |r| == Count(|items|, size)
  {
    seq(Count(|items|, size), i requires 0 <= i < Count(|items|, size) =>
      if ctx(i) then Err(ContextDone)
      else if i * size + size > MAX64 then Err(Panicked)
      else fn(BatchAt(items, size, i)))
  }

  /** A context that is never done. */
  predicate NeverDone(i: nat) {
    false
  }

  lemma SerialNext<T>(steps: seq<Result<seq<T>, Error>>, k: nat)
    requires k < |steps|
    ensures SerialOf(steps[..k + 1]) ==
      match SerialOf(steps[..k])
      case Err(e) => Err(e)
      case Ok(v) => (match steps[k] case Err(e) => Err(e) case Ok(w) => Ok(v + w))
  {
    assert steps[..k + 1][..k] == steps[..k];
  }

  /** The i-th batch is mapped: the context is not done before it, its end is a 64-bit number, and fn succeeds. */
  predicate Maps<In, Out>(items: seq<In>, size: nat, fn: Mapper<In, Out>, ctx: nat -> bool, i: nat)
    requires size > 0 && i < Count(|items|, size)
  {
    !ctx(i) && i * size + size <= MAX64 && fn(BatchAt(items, size, i)).Ok?
  }

  /** The first step that fails decides. */
  lemma FirstErrorDecides<T>(steps: seq<Result<seq<T>, Error>>, k: nat)
    requires k < |steps| && steps[k].Err? && forall i :: 0 <= i < k ==> steps[i].Ok?
    ensures SerialOf(steps) == Err(steps[k].error)
  {
    SerialOkIff(steps[..k]);
    SerialNext(steps, k);
    ErrorSticks(steps, k + 1);
  }

  /** Serial mapping of all batches: the values of all, in order, or why the first batch that is not mapped is not. A
      context that is done is seen before the batch, and a bound that wraps before fn is called. */
  lemma SerialSays<In, Out>(items: seq<In>, size: nat, fn: Mapper<In, Out>, ctx: nat -> bool, k: nat)
    requires size > 0 && k <= Count(|items|, size)
    requires forall i :: 0 <= i < k ==> Maps(items, size, fn, ctx, i)
    requires k < Count(|items|, size) ==> !Maps(items, size, fn, ctx, k)
    ensures var r := SerialOf(Steps(items, size, fn, ctx));
            if k == Count(|items|, size) then
              r == Ok(Flatten(seq(k, i requires 0 <= i < k && Maps(items, size, fn, ctx, i) =>
                fn(BatchAt(items, size, i)).value)))
            else if ctx(k) then r == Err(ContextDone)
            else if k * size + size > MAX64 then r == Err(Panicked)
            else r == Err(fn(BatchAt(items, size, k)).error)
  {
    var steps := Steps(items, size, fn, ctx);
    forall i | 0 <= i < k ensures steps[i] == fn(BatchAt(items, size, i)) && steps[i].Ok? {
      assert Maps(items, size, fn, ctx, i);
    }
    if k == Count(|items|, size) {
      SerialOkIff(steps);
      assert Values(steps) == seq(k, i requires 0 <= i < k && Maps(items, size, fn, ctx, i) =>
        fn(BatchAt(items, size, i)).value);
    } else {
      FirstErrorDecides(steps, k);
    }
  }

  method BatchMap<In, Out>(items: seq<In>, size: int, mapper: Option<Mapper<In, Out>>, ctx: nat -> bool)
    returns (r: Result<seq<Out>, Error>)
    requires |items| <= MAX64 && size <= MAX64
    ensures mapper.None? ==> r == Err(NilMapper)
    ensures mapper.Some? && size <= 0 ==> r == Err(BadBatchSize)
    ensures mapper.Some? && size > 0 ==> r == SerialOf(Steps(items, size, mapper.value, ctx))
  {
    if mapper.None? {
      return Err(NilMapper);
    }
    if size <= 0 {
      return Err(BadBatchSize);
    }
    if |items| == 0 {
      return Ok([]);
    }
    ghost var steps := Steps(items, size, mapper.value, ctx);
    var results: seq<Out> := [];
    var start, k: nat := 0, 0;
    while start < |items|
      invariant start == k * size && k <= Count(|items|, size)
      invariant start >= |items| <==> k == Count(|items|, size)
      invariant SerialOf(steps[..k]) == Ok(results)
      decreases |items| - start
    {
      InRange(|items|, size, k);
      SerialNext(steps, k);
      if ctx(k) {
        ErrorSticks(steps, k + 1);
        return Err(ContextDone);
      }
      var end := Wrap64(start + size);
      if end > |items| {
        end := |items|;
      }
      if end < start {
        ErrorSticks(steps, k + 1);
        return Err(Panicked);
      }
      assert items[start..end] == BatchAt(items, size, k);
      var rows := mapper.value(items[start..end]);
      if rows.Err? {
        ErrorSticks(steps, k + 1);
        return Err(rows.error);
      }
      results := results + rows.value;
      start := start + size;
      k := k + 1;
      assert k * size == (k - 1) * size + size;
    }
    assert steps[..k] == steps;
    r := Ok(results);
  }

  // ----- the state ParallelMap's workers share -----

  /** The number of batches as computed in 64 bits, the division truncating toward zero. */
  function BatchCount64(n: nat, size: nat): int
    requires 0 < size <= MAX64 && 0 < n <= MAX64
  {
    var sum := n + size - 1;
    if sum <= MAX64 then sum / size else -((2 * MAX64 + 2 - sum) / size)
  }

  lemma DivNonNegative(a: nat, size: nat)
    requires size > 0
    ensures a / size >= 0
  {
  }

  lemma BatchCountFits(n: nat, size: nat)
    requires 0 < size <= MAX64 && 0 < n <= MAX64 && n + size - 1 <= MAX64
    ensures BatchCount64(n, size) == Count(n, size)
  {
    var m := n - 1;
    assert n + size - 1 == m + size;
    DivPlus(m, size);
  }

  /** It is the number of batches exactly when the sum before the division fits; otherwise it is not even
      positive, and no batch is ever run. */
  lemma BatchCountIff(n: nat, size: nat)
    requires 0 < size <= MAX64 && 0 < n <= MAX64
    ensures BatchCount64(n, size) == Count(n, size) <==> n + size - 1 <= MAX64
    ensures n + size - 1 > MAX64 ==> BatchCount64(n, size) <= 0
  {
    DivNonNegative(n - 1, size);
    if n + size - 1 <= MAX64 {
      BatchCountFits(n, size);
    } else {
      DivNonNegative(2 * MAX64 + 2 - (n + size - 1), size);
    }
  }

  lemma DivPlus(a: nat, size: nat)
    requires size > 0
    ensures (a + size) / size == a / size + 1
  {
    var q, r := a / size, a % size;
    assert a + size == (q + 1) * size + r;
    DivIs(a + size, size, q + 1, r);
  }

  lemma DivIs(x: nat, size: nat, q: nat, r: nat)
    requires size > 0 && r < size && x == q * size + r
    ensures x / size == q
  {
    var q', r' := x / size, x % size;
    assert x == q' * size + r';
    if q < q' {
      Scale(q + 1, q', size);
    } else if q' < q {
      Scale(q' + 1, q, size);
    }
  }

  /** The sum that ParallelMap divides for its batch count is a 64-bit number. */
  predicate SumFits(n: nat, size: nat) {
    n == 0 || n + size - 1 <= MAX64
  }

  /** The slices ParallelMap's workers get, by the count as it is computed. */
  function Planned<T>(items: seq<T>, size: nat): Result<seq<seq<T>>, Error>
    requires 0 < size <= MAX64 && |items| <= MAX64
  {
    if items == [] then Ok([])
    else
      var count := BatchCount64(|items|, size);
      BatchCountIff(|items|, size);
      if count < 0 then Err(Panicked) else Ok(FirstBatches(items, size, count))
  }

  /** All batches while the sum fits. When it wraps there is no slice at all: the count is zero, or it is
      negative and make panics, which happens up to 2^64 for the number of items and twice the size. */
  lemma PlannedIs<T>(items: seq<T>, size: nat)
    requires 0 < size <= MAX64 && |items| <= MAX64
    ensures Planned(items, size) ==
      if SumFits(|items|, size) then Ok(FirstBatches(items, size, Count(|items|, size)))
      else if |items| + 2 * size - 1 > 2 * MAX64 + 2 then Ok([])
      else Err(Panicked)
  {
    if items != [] {
      BatchCountIff(|items|, size);
      if !SumFits(|items|, size) {
        ZeroQuotient(2 * MAX64 + 2 - (|items| + size - 1), size);
      }
    }
  }

  lemma ZeroQuotient(a: nat, size: nat)
    requires size > 0
    ensures a / size == 0 <==> a < size
  {
    var q, r := a / size, a % size;
    assert a == q * size + r && r < size;
    if q > 0 {
      Scale(1, q, size);
    }
  }

  /** ParallelMap's argument checks, and the slices its workers get. */
  method PlanBatches<In, Out>(items: seq<In>, size: int, max: int, mapper: Option<Mapper<In, Out>>)
    returns (r: Result<seq<seq<In>>, Error>)
    requires |items| <= MAX64 && size <= MAX64
    ensures mapper.None? ==> r == Err(NilMapper)
    ensures mapper.Some? && size <= 0 ==> r == Err(BadBatchSize)
    ensures mapper.Some? && size > 0 && max <= 0 ==> r == Err(BadConcurrency)
    ensures mapper.Some? && size > 0 && max > 0 ==> r == Planned(items, size)
  {
    if mapper.None? {
      return Err(NilMapper);
    }
    if size <= 0 {
      return Err(BadBatchSize);
    }
    if max <= 0 {
      return Err(BadConcurrency);
    }
    if |items| == 0 {
      return Ok([]);
    }
    var batchCount := BatchCount64(|items|, size);
    BatchCountIff(|items|, size);
    if batchCount < 0 {
      return Err(Panicked);
    }
    var slices: seq<seq<In>> := [];
    for i := 0 to batchCount
      invariant i <= Count(|items|, size) && slices == FirstBatches(items, size, i)
    {
      InRange(|items|, size, i);
      var start := i * size;
      var end := Min(start + size, |items|);
      slices := slices + [items[start..end]];
    }
    r := Ok(slices);
  }

  datatype Shared<Out> = Shared(results: seq<Option<seq<Out>>>, firstErr: Option<Error>, canceled: bool)

  /** setErr under the mutex: only the first error counts, and it cancels. */
  function AfterSetErr<Out>(s: Shared<Out>, e: Error): Shared<Out> {
    if s.firstErr.None? then s.(firstErr := Some(e), canceled := true) else s
  }

  function AfterStore<Out>(s: Shared<Out>, i: nat, rows: seq<Out>): Shared<Out>
    requires i < |s.results|
  {
    s.(results := s.results[i := Some(rows)])
  }

  /** An empty slot adds nothing. */
  function Slots<Out>(results: seq<Option<seq<Out>>>): (r: seq<seq<Out>>)
    ensures |r| == |results|
  {
    seq(|results|, i requires 0 <= i < |results| => if results[i].Some? then results[i].value else [])
  }

  function Outcome<Out>(s: Shared<Out>): Result<seq<Out>, Error> {
    if s.firstErr.Some? then Err(s.firstErr.value) else Ok(Flatten(Slots(s.results)))
  }

  class Run<Out> {
    var batchResults: seq<Option<seq<Out>>>
    var firstErr: Option<Error>
    var canceled: bool

    function State(): Shared<Out>
      reads this
    {
      Shared(batchResults, firstErr, canceled)
    }

    constructor (batchCount: nat)
      ensures State() == Shared(seq(batchCount, _ => None), None, false)
    {
      batchResults := seq(batchCount, _ => None);
      firstErr, canceled := None, false;
    }

    method SetErr(err: Error)
      modifies this
      ensures State() == AfterSetErr(old(State()), err)
      ensures firstErr == (if old(firstErr) == None then Some(err) else old(firstErr))
      ensures canceled == (old(firstErr) == None || old(canceled)) && batchResults == old(batchResults)
    {
      if firstErr == None {
        firstErr := Some(err);
        canceled := true;
      }
    }

    method Store(batchIdx: nat, result: seq<Out>)
      requires batchIdx < |batchResults|
      modifies this
      ensures State() == AfterStore(old(State()), batchIdx, result)
      ensures batchResults == old(batchResults)[batchIdx := Some(result)] && unchanged(`firstErr, `canceled)
    {
      batchResults := batchResults[batchIdx := Some(result)];
    }

    /** After all workers are done: the first error, or the slots one after the other. */
    method Collect() returns (r: Result<seq<Out>, Error>)
      ensures r == Outcome(State())
      ensures firstErr.Some? ==> r == Err(firstErr.value)
    {
      if firstErr != None {
        return Err(firstErr.value);
      }
      ghost var slots := Slots(batchResults);
      var flatten: seq<Out> := [];
      for i := 0 to |batchResults|
        invariant flatten == Flatten(slots[..i])
      {
        assert slots[..i + 1][..i] == slots[..i];
        if batchResults[i].Some? {
          flatten := flatten + batchResults[i].value;
        }
      }
      assert slots[..|slots|] == slots;
      r := Ok(flatten);
    }
  }
}
