/**
 ParallelMap as its goroutines interleave (pkg/batch/parallel.go): one worker a batch, a semaphore, the
 shared slots and first error of module Batches, and the wait for all workers.
 */
module ParallelProtocol {
  import opened Batches
  import opened Integers
  import opened Wrappers

  datatype Phase<Out> =
    | Waiting                      // about to select between a permit and cancellation
    | Running                      // has a permit, fn was called
    | Failed(e: Error)             // fn returned an error, setErr is next
    | Got(rows: seq<Out>)          // fn returned rows, the slot is next
    | Releasing                    // the permit is given back next
    | Exited

  /** What fn returns for each batch while the run is not cancelled; after that it may return anything. */
  datatype Config<Out> = Config(max: nat, steps: seq<Result<seq<Out>, Error>>)

  /** What a call of fn returned, and whether the run's context was live at that moment. */
  datatype Answer<Out> = Answer(r: Result<seq<Out>, Error>, live: bool)

  /** `called` and `answers` record the calls of fn and how they returned. */
  datatype State<Out> = State(spawned: nat, phases: seq<Phase<Out>>, held: nat, shared: Shared<Out>,
                              called: seq<nat>, answers: seq<Option<Answer<Out>>>, parentDone: bool, joined: bool)

  function Start<Out>(c: Config<Out>): State<Out> {
    var n := |c.steps|;
    State(0, seq(n, _ => Waiting), 0, Shared(seq(n, _ => None), None, false), [], seq(n, _ => None), false, false)
  }

  datatype Action<Out> =
    | Spawn
    | Acquire(i: nat)
    | GiveUp(i: nat)
    | Return(i: nat, r: Result<seq<Out>, Error>)
    | SetErr(i: nat)
    | Store(i: nat)
    | Release(i: nat)
    | ParentCancel
    | Join

  predicate RunDone<Out>(s: State<Out>) {
    s.shared.canceled || s.parentDone
  }

  ghost predicate AllExited<Out>(s: State<Out>) {
    forall i :: 0 <= i < |s.phases| ==> s.phases[i] == Exited
  }

  ghost predicate At<Out>(s: State<Out>, i: nat, p: Phase<Out>) {
    i < s.spawned && i < |s.phases| && s.phases[i] == p
  }

  ghost predicate Enabled<Out>(c: Config<Out>, s: State<Out>, a: Action<Out>) {
    && !s.joined
    && match a
       case Spawn => s.spawned < |c.steps|
       case Acquire(i) => At(s, i, Waiting) && s.held < c.max
       case GiveUp(i) => At(s, i, Waiting) && RunDone(s)
       case Return(i, r) =>
         At(s, i, Running) && i < |c.steps| && i < |s.answers| && (RunDone(s) || r == c.steps[i])
       case SetErr(i) => i < s.spawned && i < |s.phases| && s.phases[i].Failed?
       case Store(i) => i < s.spawned && i < |s.phases| && s.phases[i].Got? && i < |s.shared.results|
       case Release(i) => At(s, i, Releasing) && s.held > 0
       case ParentCancel => !s.parentDone
       case Join => s.spawned == |c.steps| && AllExited(s)
  }

  ghost function Next<Out>(c: Config<Out>, s: State<Out>, a: Action<Out>): State<Out>
    requires Enabled(c, s, a)
  {
    match a
    case Spawn => s.(spawned := s.spawned + 1)
    case Acquire(i) => s.(phases := s.phases[i := Running], held := s.held + 1, called := s.called + [i])
    case GiveUp(i) => s.(phases := s.phases[i := Exited])
    case Return(i, r) =>
      s.(phases := s.phases[i := match r case Ok(rows) => Got(rows) case Err(e) => Failed(e)],
         answers := s.answers[i := Some(Answer(r, !RunDone(s)))])
    case SetErr(i) => s.(phases := s.phases[i := Releasing], shared := AfterSetErr(s.shared, s.phases[i].e))
    case Store(i) => s.(phases := s.phases[i := Releasing], shared := AfterStore(s.shared, i, s.phases[i].rows))
    case Release(i) => s.(phases := s.phases[i := Exited], held := s.held - 1)
    case ParentCancel => s.(parentDone := true)
    case Join => s.(joined := true)
  }

  // ----- permits -----

  predicate Holds<Out>(p: Phase<Out>) {
    !p.Waiting? && !p.Exited?
  }

  function Holders<Out>(phases: seq<Phase<Out>>): nat {
    if phases == [] then 0
    else Holders(phases[..|phases| - 1]) + (if Holds(phases[|phases| - 1]) then 1 else 0)
  }

  function Callers<Out>(phases: seq<Phase<Out>>): nat {
    if phases == [] then 0
    else Callers(phases[..|phases| - 1]) + (if phases[|phases| - 1].Running? then 1 else 0)
  }

  lemma {:induction false} HoldersUpdate<Out>(phases: seq<Phase<Out>>, i: nat, p: Phase<Out>)
    requires i < |phases|
    ensures Holders(phases[i := p])
         == Holders(phases) - (if Holds(phases[i]) then 1 else 0) + (if Holds(p) then 1 else 0)
    decreases |phases|
  {
    var n := |phases| - 1;
    if i == n {
      assert phases[i := p][..n] == phases[..n];
    } else {
      assert phases[i := p][..n] == phases[..n][i := p];
      HoldersUpdate(phases[..n], i, p);
    }
  }

  lemma {:induction false} CallersHold<Out>(phases: seq<Phase<Out>>)
    ensures Callers(phases) <= Holders(phases)
    decreases |phases|
  {
    if phases != [] {
      CallersHold(phases[..|phases| - 1]);
    }
  }

  lemma {:induction false} NoHolders<Out>(phases: seq<Phase<Out>>)
    requires forall i :: 0 <= i < |phases| ==> !Holds(phases[i])
    ensures Holders(phases) == 0
    decreases |phases|
  {
    if phases != [] {
      NoHolders(phases[..|phases| - 1]);
    }
  }

  // ----- the invariant -----

  ghost predicate Shape<Out>(c: Config<Out>, s: State<Out>) {
    && |s.phases| == |s.shared.results| == |s.answers| == |c.steps| && s.spawned <= |c.steps|
    && (forall i :: s.spawned <= i < |s.phases| ==> s.phases[i] == Waiting)
    && s.held == Holders(s.phases) <= c.max
    && (s.joined ==> s.spawned == |c.steps| && AllExited(s))
  }

  /** Each batch is called at most once, and only by a worker past its wait. */
  ghost predicate CalledOnce<Out>(s: State<Out>) {
    && (forall j, k :: 0 <= j < k < |s.called| ==> s.called[j] != s.called[k])
    && (forall i :: i in s.called ==> i < |s.phases| && s.phases[i] != Waiting)
    && (forall i :: 0 <= i < |s.phases| && Holds(s.phases[i]) ==> i in s.called)
  }

  /** The slot an answer leaves. */
  function Kept<Out>(a: Option<Answer<Out>>): Option<seq<Out>> {
    if a.Some? && a.value.r.Ok? then Some(a.value.r.value) else None
  }

  predicate Past<Out>(p: Phase<Out>) {
    p.Releasing? || p.Exited?
  }

  /** One worker's phase, its call's answer and its slot fit together. */
  ghost predicate Tracks<Out>(c: Config<Out>, s: State<Out>, i: nat)
    requires Shape(c, s) && i < |c.steps|
  {
    var a := s.answers[i];
    && (a.Some? && a.value.live ==> a.value.r == c.steps[i])
    && (a.Some? ==> i in s.called)
    && s.shared.results[i] == (if Past(s.phases[i]) then Kept(a) else None)
    && match s.phases[i]
       case Waiting => a == None
       case Running => a == None
       case Failed(e) => a.Some? && a.value.r == Err(e)
       case Got(rows) => a.Some? && a.value.r == Ok(rows)
       case Releasing => a.Some?
       case Exited => true
  }

  /** The first error is what a call of fn returned, under a live parent while the run was live. */
  ghost predicate Genuine<Out>(s: State<Out>, e: Error) {
    exists i :: 0 <= i < |s.answers| && s.answers[i].Some? && s.answers[i].value.r == Err(e)
                && (s.parentDone || s.answers[i].value.live)
  }

  /** The first error and the cancellation it causes. */
  ghost predicate FirstErrOk<Out>(c: Config<Out>, s: State<Out>)
    requires Shape(c, s)
  {
    && (s.shared.canceled <==> s.shared.firstErr.Some?)
    && (s.shared.firstErr.Some? ==> Genuine(s, s.shared.firstErr.value))
    && (s.shared.firstErr.None? ==>
          forall i :: 0 <= i < |c.steps| && Past(s.phases[i]) && s.answers[i].Some? ==> s.answers[i].value.r.Ok?)
  }

  /** Until the run is cancelled nobody has left without an answer, and every answer was given live. */
  ghost predicate Undisturbed<Out>(c: Config<Out>, s: State<Out>)
    requires Shape(c, s)
  {
    !RunDone(s) ==>
      forall i :: 0 <= i < |c.steps| ==>
        && (s.phases[i].Exited? ==> s.answers[i].Some?)
        && (s.answers[i].Some? ==> s.answers[i].value.live)
  }

  ghost predicate Inv<Out>(c: Config<Out>, s: State<Out>) {
    && Shape(c, s) && CalledOnce(s) && FirstErrOk(c, s) && Undisturbed(c, s)
    && (forall i :: 0 <= i < |c.steps| ==> Tracks(c, s, i))
  }

  lemma StartOk<Out>(c: Config<Out>)
    ensures Inv(c, Start(c))
  {
    NoHolders(Start(c).phases);
  }

  predicate OfWorker<Out>(a: Action<Out>) {
    !(a.Spawn? || a.ParentCancel? || a.Join?)
  }

  lemma WorkerShapeKept<Out>(c: Config<Out>, s: State<Out>, a: Action<Out>)
    requires Shape(c, s) && Enabled(c, s, a) && OfWorker(a)
    ensures Shape(c, Next(c, s, a))
  {
    var t := Next(c, s, a);
    HoldersUpdate(s.phases, a.i, t.phases[a.i]);
    assert t.phases == s.phases[a.i := t.phases[a.i]];
  }

  lemma ShapeKept<Out>(c: Config<Out>, s: State<Out>, a: Action<Out>)
    requires Shape(c, s) && Enabled(c, s, a)
    ensures Shape(c, Next(c, s, a))
  {
    if OfWorker(a) {
      WorkerShapeKept(c, s, a);
    }
  }

  lemma CalledKept<Out>(c: Config<Out>, s: State<Out>, a: Action<Out>)
    requires Shape(c, s) && CalledOnce(s) && Enabled(c, s, a)
    ensures CalledOnce(Next(c, s, a))
  {
    var t := Next(c, s, a);
    if a.Acquire? {
      assert a.i !in s.called;
      assert t.called[|s.called|] == a.i;
      forall i | i in t.called ensures i < |t.phases| && t.phases[i] != Waiting {
        assert i in s.called || i == a.i;
      }
      forall i | 0 <= i < |t.phases| && Holds(t.phases[i]) ensures i in t.called {
        assert i == a.i || i in s.called;
      }
    }
  }

  lemma OwnTracksKept<Out>(c: Config<Out>, s: State<Out>, a: Action<Out>)
    requires Inv(c, s) && Enabled(c, s, a) && Shape(c, Next(c, s, a)) && OfWorker(a) && a.i < |c.steps|
    ensures Tracks(c, Next(c, s, a), a.i)
  {
    assert Tracks(c, s, a.i);
    if a.Acquire? {
      assert Next(c, s, a).called[|s.called|] == a.i;
    }
  }

  lemma OtherTracksKept<Out>(c: Config<Out>, s: State<Out>, a: Action<Out>, i: nat)
    requires Inv(c, s) && Enabled(c, s, a) && Shape(c, Next(c, s, a)) && i < |c.steps|
    requires OfWorker(a) ==> a.i != i
    ensures Tracks(c, Next(c, s, a), i)
  {
    assert Tracks(c, s, i);
    var t := Next(c, s, a);
    assert t.phases[i] == s.phases[i] && t.answers[i] == s.answers[i];
    assert t.shared.results[i] == s.shared.results[i];
    assert i in s.called ==> i in t.called;
  }

  lemma TracksKept<Out>(c: Config<Out>, s: State<Out>, a: Action<Out>, i: nat)
    requires Inv(c, s) && Enabled(c, s, a) && Shape(c, Next(c, s, a)) && i < |c.steps|
    ensures Tracks(c, Next(c, s, a), i)
  {
    if OfWorker(a) && a.i == i {
      OwnTracksKept(c, s, a);
    } else {
      OtherTracksKept(c, s, a, i);
    }
  }

  lemma GenuineKept<Out>(c: Config<Out>, s: State<Out>, a: Action<Out>, e: Error)
    requires Inv(c, s) && Enabled(c, s, a) && Genuine(s, e)
    ensures Genuine(Next(c, s, a), e)
  {
    var i :| 0 <= i < |s.answers| && s.answers[i].Some? && s.answers[i].value.r == Err(e)
             && (s.parentDone || s.answers[i].value.live);
    assert Tracks(c, s, i);
    assert Next(c, s, a).answers[i] == s.answers[i];
  }

  lemma FirstErrKept<Out>(c: Config<Out>, s: State<Out>, a: Action<Out>)
    requires Inv(c, s) && Enabled(c, s, a) && Shape(c, Next(c, s, a))
    ensures FirstErrOk(c, Next(c, s, a))
  {
    var t := Next(c, s, a);
    if s.shared.firstErr.Some? {
      GenuineKept(c, s, a, s.shared.firstErr.value);
    } else if a.SetErr? {
      assert Tracks(c, s, a.i);
      assert t.answers[a.i] == s.answers[a.i];
    } else {
      forall i | 0 <= i < |c.steps| && Past(t.phases[i]) && t.answers[i].Some? ensures t.answers[i].value.r.Ok? {
        assert Tracks(c, s, i);
      }
    }
  }

  lemma UndisturbedKept<Out>(c: Config<Out>, s: State<Out>, a: Action<Out>)
    requires Inv(c, s) && Enabled(c, s, a) && Shape(c, Next(c, s, a))
    ensures Undisturbed(c, Next(c, s, a))
  {
    if a.Release? {
      assert Tracks(c, s, a.i);
    }
  }

  lemma StepKeeps<Out>(c: Config<Out>, s: State<Out>, a: Action<Out>)
    requires Inv(c, s) && Enabled(c, s, a)
    ensures Inv(c, Next(c, s, a))
  {
    ShapeKept(c, s, a);
    CalledKept(c, s, a);
    FirstErrKept(c, s, a);
    UndisturbedKept(c, s, a);
    forall i | 0 <= i < |c.steps| ensures Tracks(c, Next(c, s, a), i) {
      TracksKept(c, s, a, i);
    }
  }

  // ----- runs -----

  ghost predicate Runs<Out>(c: Config<Out>, s: State<Out>, acts: seq<Action<Out>>, s': State<Out>)
    decreases |acts|
  {
    if acts == [] then s' == s
    else Enabled(c, s, acts[0]) && Runs(c, Next(c, s, acts[0]), acts[1..], s')
  }

  lemma {:induction false} RunKeeps<Out>(c: Config<Out>, s: State<Out>, acts: seq<Action<Out>>, s': State<Out>)
    requires Inv(c, s) && Runs(c, s, acts, s')
    ensures Inv(c, s')
    decreases |acts|
  {
    if acts != [] {
      StepKeeps(c, s, acts[0]);
      RunKeeps(c, Next(c, s, acts[0]), acts[1..], s');
    }
  }

  lemma Reachable<Out>(c: Config<Out>, acts: seq<Action<Out>>, s: State<Out>)
    requires Runs(c, Start(c), acts, s)
    ensures Inv(c, s)
  {
    StartOk(c);
    RunKeeps(c, Start(c), acts, s);
  }

  /** In every schedule at most max calls of fn run at once, and each batch is called at most once. */
  lemma BoundedAndOnce<Out>(c: Config<Out>, acts: seq<Action<Out>>, s: State<Out>)
    requires Runs(c, Start(c), acts, s)
    ensures Callers(s.phases) <= c.max
    ensures forall j, k :: 0 <= j < k < |s.called| ==> s.called[j] != s.called[k]
  {
    Reachable(c, acts, s);
    CallersHold(s.phases);
  }

  /** The run is over and every worker's slot is what its call's answer leaves. */
  lemma JoinedSlots<Out>(c: Config<Out>, acts: seq<Action<Out>>, s: State<Out>)
    requires Runs(c, Start(c), acts, s) && s.joined
    ensures |s.answers| == |s.shared.results| == |c.steps|
    ensures forall i :: 0 <= i < |c.steps| ==> s.shared.results[i] == Kept(s.answers[i])
  {
    Reachable(c, acts, s);
    forall i | 0 <= i < |c.steps| ensures s.shared.results[i] == Kept(s.answers[i]) {
      assert Tracks(c, s, i);
    }
  }

  /** Under a live parent and without an error every batch was called and gave its answer. */
  lemma LiveAnswers<Out>(c: Config<Out>, acts: seq<Action<Out>>, s: State<Out>)
    requires Runs(c, Start(c), acts, s) && s.joined && !s.parentDone && s.shared.firstErr.None?
    ensures |s.answers| == |c.steps|
    ensures forall i :: 0 <= i < |c.steps| ==> c.steps[i].Ok? && s.answers[i] == Some(Answer(c.steps[i], true))
  {
    Reachable(c, acts, s);
    forall i | 0 <= i < |c.steps| ensures c.steps[i].Ok? && s.answers[i] == Some(Answer(c.steps[i], true)) {
      assert Tracks(c, s, i);
    }
  }

  lemma SlotsAreValues<Out>(c: Config<Out>, s: State<Out>)
    requires |s.shared.results| == |c.steps|
    requires forall i :: 0 <= i < |c.steps| ==> c.steps[i].Ok? && s.shared.results[i] == Some(c.steps[i].value)
    requires s.shared.firstErr.None?
    ensures Outcome(s.shared) == SerialOf(c.steps)
  {
    SerialOkIff(c.steps);
    assert Slots(s.shared.results) == Values(c.steps);
  }

  /** In every schedule under a live parent context, ParallelMap succeeds exactly when mapping the batches
      one after the other does, with the same value; otherwise its error is what a call of fn returned for
      its batch before the run was cancelled. */
  lemma ParallelEqualsSerial<Out>(c: Config<Out>, acts: seq<Action<Out>>, s: State<Out>)
    requires Runs(c, Start(c), acts, s) && s.joined && !s.parentDone
    ensures Outcome(s.shared).Ok? <==> SerialOf(c.steps).Ok?
    ensures Outcome(s.shared).Ok? ==> Outcome(s.shared) == SerialOf(c.steps)
    ensures Outcome(s.shared).Err? ==>
      exists i :: 0 <= i < |c.steps| && i < |s.answers| && c.steps[i] == Err(Outcome(s.shared).error)
                  && s.answers[i] == Some(Answer(c.steps[i], true))
  {
    Reachable(c, acts, s);
    SerialOkIff(c.steps);
    if s.shared.firstErr.None? {
      JoinedSlots(c, acts, s);
      LiveAnswers(c, acts, s);
      SlotsAreValues(c, s);
    } else {
      var i :| 0 <= i < |s.answers| && s.answers[i].Some? && s.answers[i].value.r == Err(s.shared.firstErr.value)
               && (s.parentDone || s.answers[i].value.live);
      assert Tracks(c, s, i);
    }
  }

  /** Whatever happens to the parent context: without an error every slot holds fn's answer for its batch
      exactly when every batch was called and its call gave that answer, and then the value is the serial one. */
  lemma SlotsRightIff<Out>(c: Config<Out>, acts: seq<Action<Out>>, s: State<Out>)
    requires Runs(c, Start(c), acts, s) && s.joined
    requires forall i :: 0 <= i < |c.steps| ==> c.steps[i].Ok?
    ensures |s.answers| == |s.shared.results| == |c.steps|
    ensures (&& s.shared.firstErr.None?
             && forall i :: 0 <= i < |c.steps| ==> s.shared.results[i] == Some(c.steps[i].value))
       <==> (forall i :: 0 <= i < |c.steps| ==> s.answers[i].Some? && s.answers[i].value.r == c.steps[i])
    ensures (forall i :: 0 <= i < |c.steps| ==> s.answers[i].Some? && s.answers[i].value.r == c.steps[i]) ==>
      Outcome(s.shared) == SerialOf(c.steps)
  {
    Reachable(c, acts, s);
    JoinedSlots(c, acts, s);
    if s.shared.firstErr.Some? {
      var i :| 0 <= i < |s.answers| && s.answers[i].Some? && s.answers[i].value.r == Err(s.shared.firstErr.value)
               && (s.parentDone || s.answers[i].value.live);
      assert s.answers[i].value.r != c.steps[i];
    } else if forall i :: 0 <= i < |c.steps| ==> s.shared.results[i] == Some(c.steps[i].value) {
      SlotsAreValues(c, s);
    }
  }

  // ----- the whole call -----

  /** fn's answer for each slice. */
  function Mapped<In, Out>(slices: seq<seq<In>>, fn: Mapper<In, Out>): (r: seq<Result<seq<Out>, Error>>)
    ensures |r| == |slices|
  {
    seq(|slices|, i requires 0 <= i < |slices| => fn(slices[i]))
  }

  /** r is what ParallelMap returns when its workers, one for each planned slice, run the schedule acts to its
      end under a live parent context. */
  ghost predicate Returns<In, Out>(items: seq<In>, size: nat, fn: Mapper<In, Out>, max: nat,
                                   acts: seq<Action<Out>>, s: State<Out>, r: Result<seq<Out>, Error>)
    requires 0 < size <= MAX64 && |items| <= MAX64
  {
    match Planned(items, size)
    case Err(e) => r == Err(e)
    case Ok(slices) =>
      var c := Config(max, Mapped(slices, fn));
      Runs(c, Start(c), acts, s) && s.joined && !s.parentDone && r == Outcome(s.shared)
  }

  function Serial<In, Out>(items: seq<In>, size: nat, fn: Mapper<In, Out>): Result<seq<Out>, Error>
    requires size > 0
  {
    SerialOf(Steps(items, size, fn, NeverDone))
  }

  /** r is the value BatchMap gives, or both fail and r is fn's error for some batch. */
  ghost predicate Agrees<In, Out>(items: seq<In>, size: nat, fn: Mapper<In, Out>, r: Result<seq<Out>, Error>)
    requires size > 0
  {
    && (r.Ok? <==> Serial(items, size, fn).Ok?)
    && (r.Ok? ==> r == Serial(items, size, fn))
    && (r.Err? ==> exists i :: 0 <= i < Count(|items|, size) && fn(BatchAt(items, size, i)) == Err(r.error))
  }

  /** While the sum fits no batch's end wraps either, and the workers map what BatchMap maps. */
  lemma PlannedSteps<In, Out>(items: seq<In>, size: nat, fn: Mapper<In, Out>)
    requires 0 < size <= MAX64 && |items| <= MAX64 && SumFits(|items|, size)
    ensures Planned(items, size).Ok? && Mapped(Planned(items, size).value, fn) == Steps(items, size, fn, NeverDone)
  {
    PlannedIs(items, size);
    forall i | 0 <= i < Count(|items|, size) ensures i * size + size <= MAX64 {
      InRange(|items|, size, i);
    }
  }

  /** For all items, mappers and concurrencies, in every schedule: ParallelMap gives what BatchMap gives. */
  lemma ParallelMapIsBatchMap<In, Out>(items: seq<In>, size: nat, fn: Mapper<In, Out>, max: nat,
                                       acts: seq<Action<Out>>, s: State<Out>, r: Result<seq<Out>, Error>)
    requires 0 < size <= MAX64 && |items| <= MAX64 && SumFits(|items|, size)
    requires Returns(items, size, fn, max, acts, s, r)
    ensures Agrees(items, size, fn, r)
  {
    PlannedSteps(items, size, fn);
    var c := Config(max, Steps(items, size, fn, NeverDone));
    ParallelEqualsSerial(c, acts, s);
    if r.Err? {
      var i :| 0 <= i < |c.steps| && i < |s.answers| && c.steps[i] == Err(r.error)
               && s.answers[i] == Some(Answer(c.steps[i], true));
      assert Planned(items, size).value[i] == BatchAt(items, size, i) by { PlannedIs(items, size); }
      assert Mapped(Planned(items, size).value, fn)[i] == fn(BatchAt(items, size, i));
    }
  }

  /** A mapper that always gives one row. */
  function OneRow<In, Out>(row: Out): Mapper<In, Out> {
    (_: seq<In>) => Ok([row])
  }

  lemma SomeRow<T>(steps: seq<Result<seq<T>, Error>>)
    requires SerialOf(steps).Ok? && steps != [] && steps[0].Ok? && steps[0].value != []
    ensures SerialOf(steps) != Ok([])
    decreases |steps|
  {
    var n := |steps| - 1;
    if n > 0 {
      SomeRow(steps[..n]);
    }
  }

  /** When the sum wraps, what ParallelMap returns has nothing to do with fn. */
  lemma WrappedReturns<In, Out>(items: seq<In>, size: nat, fn: Mapper<In, Out>)
    returns (acts: seq<Action<Out>>, s: State<Out>, r: Result<seq<Out>, Error>)
    requires 0 < size <= MAX64 && |items| <= MAX64 && !SumFits(|items|, size)
    ensures Returns(items, size, fn, 1, acts, s, r)
    ensures r == if |items| + 2 * size - 1 > 2 * MAX64 + 2 then Ok([]) else Err(Panicked)
  {
    PlannedIs(items, size);
    var c: Config<Out> := Config(1, []);
    acts, s := [Join], Next(c, Start(c), Join);
    assert acts[1..] == [];
    r := if |items| + 2 * size - 1 > 2 * MAX64 + 2 then Ok([]) else Err(Panicked);
    if r.Ok? {
      assert Mapped(Planned(items, size).value, fn) == [];
      assert Runs(c, Start(c), acts, s);
      assert Slots(s.shared.results) == [];
    }
  }

  /** Exactly when the maps agree, whatever the mapper, the concurrency and the schedule. */
  lemma ParallelMapIsBatchMapIff<In(!new), Out(!new)>(items: seq<In>, size: nat, row: Out)
    requires 0 < size <= MAX64 && |items| <= MAX64
    ensures SumFits(|items|, size) <==>
      forall fn: Mapper<In, Out>, max: nat, acts: seq<Action<Out>>, s: State<Out>, r: Result<seq<Out>, Error> ::
        max > 0 && Returns(items, size, fn, max, acts, s, r) ==> Agrees(items, size, fn, r)
  {
    if SumFits(|items|, size) {
      forall fn: Mapper<In, Out>, max: nat, acts: seq<Action<Out>>, s: State<Out>, r: Result<seq<Out>, Error>
        | max > 0 && Returns(items, size, fn, max, acts, s, r)
        ensures Agrees(items, size, fn, r)
      {
        ParallelMapIsBatchMap(items, size, fn, max, acts, s, r);
      }
    } else {
      var fn: Mapper<In, Out> := OneRow(row);
      var acts, s, r := WrappedReturns(items, size, fn);
      WrappedDisagrees(items, size, row, r);
      assert !(Returns(items, size, fn, 1, acts, s, r) ==> Agrees(items, size, fn, r));
    }
  }

  lemma WrappedDisagrees<In, Out>(items: seq<In>, size: nat, row: Out, r: Result<seq<Out>, Error>)
    requires 0 < size <= MAX64 && !SumFits(|items|, size) && r in {Ok([]), Err(Panicked)}
    ensures !Agrees(items, size, OneRow(row), r)
  {
    var fn: Mapper<In, Out> := OneRow(row);
    var steps := Steps(items, size, fn, NeverDone);
    InRange(|items|, size, 0);
    SerialOkIff(steps);
    if SerialOf(steps).Ok? {
      assert steps[0] == Ok([row]);
      SomeRow(steps);
    }
    assert forall i :: 0 <= i < Count(|items|, size) ==> fn(BatchAt(items, size, i)).Ok?;
  }

  /** Four items in batches of 2^63 - 1: no batch is run and the call succeeds with nothing, while BatchMap
      gives fn's rows for all four. */
  lemma FourItemsLost(fn: Mapper<int, int>) returns (acts: seq<Action<int>>, s: State<int>)
    ensures Returns([1, 2, 3, 4], MAX64, fn, 1, acts, s, Ok([]))
    ensures Serial([1, 2, 3, 4], MAX64, fn) == fn([1, 2, 3, 4])
  {
    var r;
    acts, s, r := WrappedReturns([1, 2, 3, 4], MAX64, fn);
    OneBatch([1, 2, 3, 4], fn);
  }

  /** Two items in such batches: the call panics. */
  lemma TwoItemsPanic(fn: Mapper<int, int>, acts: seq<Action<int>>, s: State<int>, r: Result<seq<int>, Error>)
    requires Returns([1, 2], MAX64, fn, 1, acts, s, r)
    ensures r == Err(Panicked) && Serial([1, 2], MAX64, fn) == fn([1, 2])
  {
    PlannedIs([1, 2], MAX64);
    OneBatch([1, 2], fn);
  }

  lemma OneBatch(items: seq<int>, fn: Mapper<int, int>)
    requires 0 < |items| < 10
    ensures Serial(items, MAX64, fn) == fn(items)
  {
    var steps := Steps(items, MAX64, fn, NeverDone);
    InRange(|items|, MAX64, 0);
    InRange(|items|, MAX64, 1);
    assert |steps| == 1 && BatchAt(items, MAX64, 0) == items;
    assert steps == [fn(items)] && steps[..0] == [];
    assert SerialOf(steps[..0]) == Ok([]);
    if fn(items).Ok? {
      assert [] + fn(items).value == fn(items).value;
    }
  }

  // ----- every schedule ends -----

  function Left<Out>(p: Phase<Out>): nat {
    match p
    case Waiting => 4
    case Running => 3
    case Failed(_) => 2
    case Got(_) => 2
    case Releasing => 1
    case Exited => 0
  }

  function LeftAll<Out>(phases: seq<Phase<Out>>): nat {
    if phases == [] then 0 else LeftAll(phases[..|phases| - 1]) + Left(phases[|phases| - 1])
  }

  lemma {:induction false} LeftUpdate<Out>(phases: seq<Phase<Out>>, i: nat, p: Phase<Out>)
    requires i < |phases|
    ensures LeftAll(phases[i := p]) == LeftAll(phases) - Left(phases[i]) + Left(p)
    decreases |phases|
  {
    var n := |phases| - 1;
    if i == n {
      assert phases[i := p][..n] == phases[..n];
    } else {
      assert phases[i := p][..n] == phases[..n][i := p];
      LeftUpdate(phases[..n], i, p);
    }
  }

  function Measure<Out>(c: Config<Out>, s: State<Out>): nat
    requires s.spawned <= |c.steps|
  {
    LeftAll(s.phases) + (|c.steps| - s.spawned) + (if s.joined then 0 else 1) + (if s.parentDone then 0 else 1)
  }

  lemma StepShrinks<Out>(c: Config<Out>, s: State<Out>, a: Action<Out>)
    requires Inv(c, s) && Enabled(c, s, a)
    ensures Next(c, s, a).spawned <= |c.steps| && Measure(c, Next(c, s, a)) < Measure(c, s)
  {
    if OfWorker(a) {
      var p := Next(c, s, a).phases[a.i];
      LeftUpdate(s.phases, a.i, p);
      assert Next(c, s, a).phases == s.phases[a.i := p];
    }
  }

  lemma {:induction false} RunShrinks<Out>(c: Config<Out>, s: State<Out>, acts: seq<Action<Out>>, s': State<Out>)
    requires Inv(c, s) && Runs(c, s, acts, s')
    ensures |acts| <= Measure(c, s)
    decreases |acts|
  {
    if acts != [] {
      StepKeeps(c, s, acts[0]);
      StepShrinks(c, s, acts[0]);
      RunShrinks(c, Next(c, s, acts[0]), acts[1..], s');
    }
  }

  lemma {:induction false} AllWaiting<Out>(phases: seq<Phase<Out>>)
    requires forall i :: 0 <= i < |phases| ==> phases[i] == Waiting
    ensures LeftAll(phases) == 4 * |phases|
    decreases |phases|
  {
    if phases != [] {
      AllWaiting(phases[..|phases| - 1]);
    }
  }

  /** No schedule makes more than five steps a batch, and two. */
  lemma SchedulesAreFinite<Out>(c: Config<Out>, acts: seq<Action<Out>>, s: State<Out>)
    requires Runs(c, Start(c), acts, s)
    ensures |acts| <= 5 * |c.steps| + 2
  {
    StartOk(c);
    AllWaiting(Start(c).phases);
    RunShrinks(c, Start(c), acts, s);
  }

  /** A worker that has begun and not exited can move, unless it waits for a permit. */
  lemma HolderMoves<Out>(c: Config<Out>, s: State<Out>, i: nat)
    requires Inv(c, s) && !s.joined && i < |s.phases| && Holds(s.phases[i])
    ensures exists a :: Enabled(c, s, a) && a != ParentCancel
  {
    assert i < s.spawned;
    var a := match s.phases[i]
             case Running => Return(i, c.steps[i])
             case Failed(_) => SetErr(i)
             case Got(_) => Store(i)
             case _ => Release(i);
    if a.Release? && s.held == 0 {
      HeldPositive(s.phases, i);
    }
    assert Enabled(c, s, a);
  }

  lemma {:induction false} HeldPositive<Out>(phases: seq<Phase<Out>>, i: nat)
    requires i < |phases| && Holds(phases[i])
    ensures Holders(phases) > 0
    decreases |phases|
  {
    if i < |phases| - 1 {
      HeldPositive(phases[..|phases| - 1], i);
    }
  }

  lemma {:induction false} SomeHolder<Out>(phases: seq<Phase<Out>>) returns (i: nat)
    requires Holders(phases) > 0
    ensures i < |phases| && Holds(phases[i])
    decreases |phases|
  {
    i := |phases| - 1;
    if !Holds(phases[i]) {
      i := SomeHolder(phases[..i]);
    }
  }

  lemma CanMove<Out>(c: Config<Out>, s: State<Out>)
    requires c.max > 0 && Inv(c, s) && !s.joined
    ensures exists a :: Enabled(c, s, a) && a != ParentCancel
  {
    if s.spawned < |c.steps| {
      assert Enabled(c, s, Spawn);
    } else if AllExited(s) {
      assert Enabled(c, s, Join);
    } else if s.held > 0 {
      var i := SomeHolder(s.phases);
      HolderMoves(c, s, i);
    } else {
      var i: nat :| i < |s.phases| && s.phases[i] != Exited;
      if Holds(s.phases[i]) {
        HolderMoves(c, s, i);
      } else {
        assert Enabled(c, s, Acquire(i));
      }
    }
  }

  /** With a positive concurrency, every state that has not returned can move on its own. */
  lemma NeverStuck<Out>(c: Config<Out>, acts: seq<Action<Out>>, s: State<Out>)
    requires c.max > 0 && Runs(c, Start(c), acts, s) && !s.joined
    ensures exists a :: Enabled(c, s, a) && a != ParentCancel
  {
    Reachable(c, acts, s);
    CanMove(c, s);
  }

  lemma {:induction false} RunToEnd<Out>(c: Config<Out>, s: State<Out>) returns (acts: seq<Action<Out>>, t: State<Out>)
    requires c.max > 0 && Inv(c, s) && !s.parentDone
    ensures Runs(c, s, acts, t) && t.joined && !t.parentDone
    decreases Measure(c, s)
  {
    if s.joined {
      acts, t := [], s;
    } else {
      CanMove(c, s);
      var a :| Enabled(c, s, a) && a != ParentCancel;
      StepKeeps(c, s, a);
      StepShrinks(c, s, a);
      var rest;
      rest, t := RunToEnd(c, Next(c, s, a));
      acts := [a] + rest;
      assert acts[1..] == rest;
    }
  }

  /** Under a live parent ParallelMap does return. */
  lemma SomeScheduleReturns<In, Out>(items: seq<In>, size: nat, fn: Mapper<In, Out>, max: nat)
    returns (acts: seq<Action<Out>>, s: State<Out>, r: Result<seq<Out>, Error>)
    requires 0 < size <= MAX64 && |items| <= MAX64 && max > 0
    ensures Returns(items, size, fn, max, acts, s, r)
  {
    match Planned(items, size) {
      case Err(e) =>
        acts, s, r := [], Start(Config(1, [])), Err(e);
      case Ok(slices) =>
        var c := Config(max, Mapped(slices, fn));
        StartOk(c);
        acts, s := RunToEnd(c, Start(c));
        r := Outcome(s.shared);
    }
  }

  // ----- a cancelled parent -----

  lemma {:induction false} Concatenate<Out>(c: Config<Out>, s: State<Out>, acts: seq<Action<Out>>, t: State<Out>,
                                            a: Action<Out>)
    requires Runs(c, s, acts, t) && Enabled(c, t, a)
    ensures Runs(c, s, acts + [a], Next(c, t, a))
    decreases |acts|
  {
    if acts == [] {
      assert acts + [a] == [a] && [a][1..] == [];
    } else {
      Concatenate(c, Next(c, s, acts[0]), acts[1..], t, a);
      assert (acts + [a])[1..] == acts[1..] + [a];
    }
  }

  /** When the parent context is cancelled the workers leave without an error: the call succeeds although
      no batch was mapped. */
  lemma CanceledParentLosesBatches(c: Config<int>) returns (acts: seq<Action<int>>, s: State<int>)
    requires c == Config(1, [Ok([7])])
    ensures Runs(c, Start(c), acts, s) && s.joined
    ensures Outcome(s.shared) == Ok([]) && SerialOf(c.steps) == Ok([7])
  {
    acts, s := [], Start(c);
    Concatenate(c, Start(c), acts, s, Spawn);
    acts, s := acts + [Spawn], Next(c, s, Spawn);
    Concatenate(c, Start(c), acts, s, ParentCancel);
    acts, s := acts + [ParentCancel], Next(c, s, ParentCancel);
    Concatenate(c, Start(c), acts, s, GiveUp(0));
    acts, s := acts + [GiveUp(0)], Next(c, s, GiveUp(0));
    Concatenate(c, Start(c), acts, s, Join);
    acts, s := acts + [Join], Next(c, s, Join);
    SerialOkIff(c.steps);
    assert Flatten(Values(c.steps)) == [7];
    assert Flatten(Slots(s.shared.results)) == [];
  }
}
