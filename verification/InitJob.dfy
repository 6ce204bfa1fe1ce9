/**
 The one-shot job runner of pkg/initjob/runner.go over the recorder of pkg/initjob/recorder.go.

 `RunPlan` lists, in order, everything one Run does to the outside world; the methods of `Runner`
 and `Recorder` are the imperative code, proved to do exactly that. A process killed between two
 steps has done a prefix of its plan (InitJobRuns).
 */
module InitJob {
  import opened Strings
  import opened Wrappers

  datatype Status = Running | Succeeded | Failed | Aborted

  datatype Mode = Strict | Loose

  /** A recorder write: done, lost with an error, or applied although an error is reported. */
  datatype Write = Done | Lost | Unclear

  datatype RunRec = RunRec(status: Status, exitCode: int)

  /** The persisted table: the only memory that survives a crash. A run's id is its position. */
  datatype Table = Table(runs: seq<RunRec>, tasks: map<string, Status>)

  datatype Event =
    | AbortStale(runs: bool, tasks: bool)
    | StartRun(w: Write)
    | MarkRunning(id: string, w: Write)
    | Execute(id: string, ok: bool)
    | MarkSucceeded(id: string, w: Write)
    | MarkFailed(id: string, w: Write)
    | FinishRun(run: nat, status: Status, w: Write)

  datatype RunError = AbortError | StartError | QueryError | MarkError(id: string) | TaskError(id: string)
    | ContextError

  /** What the world answers for one task during one run: ShouldSkip, the task's own result,
      whether the context is done when checked after a failure, and the three writes. */
  datatype TaskEnv = TaskEnv(skip: bool, ok: bool, canceled: bool, running: Write, succeeded: Write, failed: Write)

  datatype RunEnv = RunEnv(abortRuns: bool, abortTasks: bool, start: Write, queryOk: bool, finish: Write,
                           canceledAtEnd: bool, task: string -> TaskEnv)

  // ----- the table -----

  function AbortRun(r: RunRec): RunRec {
    if r.status == Running then r.(status := Aborted) else r
  }

  function Apply(t: Table, e: Event): Table {
    match e
    case AbortStale(runs, tasks) =>
      t.(runs := if runs then seq(|t.runs|, i requires 0 <= i < |t.runs| => AbortRun(t.runs[i])) else t.runs,
         tasks := if tasks then map k | k in t.tasks :: if t.tasks[k] == Running then Aborted else t.tasks[k]
                  else t.tasks)
    case StartRun(w) =>
      if w.Lost? then t else t.(runs := t.runs + [RunRec(Running, 0)])
    case MarkRunning(id, w) =>
      if w.Lost? then t else t.(tasks := t.tasks[id := Running])
    case MarkSucceeded(id, w) =>
      if w.Lost? || id !in t.tasks then t else t.(tasks := t.tasks[id := Succeeded])
    case MarkFailed(id, w) =>
      if w.Lost? || id !in t.tasks then t else t.(tasks := t.tasks[id := Failed])
    case FinishRun(run, status, w) =>
      if w.Lost? || run >= |t.runs| then t
      else t.(runs := t.runs[run := RunRec(status, if status == Succeeded then 0 else 1)])
    case Execute(_, _) => t
  }

  function ApplyAll(t: Table, es: seq<Event>): Table
    decreases |es|
  {
    if es == [] then t else ApplyAll(Apply(t, es[0]), es[1..])
  }

  function SucceededIds(t: Table): set<string> {
    set k | k in t.tasks && t.tasks[k] == Succeeded
  }

  lemma {:induction false} ApplyConcat(t: Table, a: seq<Event>, b: seq<Event>)
    ensures ApplyAll(t, a + b) == ApplyAll(ApplyAll(t, a), b)
    decreases |a|
  {
    if a == [] {
      assert a + b == b;
    } else {
      assert (a + b)[1..] == a[1..] + b;
      ApplyConcat(Apply(t, a[0]), a[1..], b);
    }
  }

  lemma ApplyOne(t: Table, e: Event)
    ensures ApplyAll(t, [e]) == Apply(t, e)
  {
    assert [e][1..] == [];
  }

  // ----- the plan of one run -----

  datatype LoopEnd = Clean | TaskFailed(first: string) | Canceled | RecorderError(id: string)

  datatype LoopOut = LoopOut(events: seq<Event>, end: LoopEnd)

  /** One iteration: what it does, whether it counts as a failure, and how it ends the loop if so. */
  datatype TaskOut = TaskOut(events: seq<Event>, failed: bool, stop: Option<LoopEnd>)

  function TaskPlan(id: string, done: set<string>, forced: set<string>, mode: Mode, env: RunEnv): TaskOut {
    var e := env.task(id);
    if (id in done && id !in forced) || e.skip then TaskOut([], false, None)
    else if e.running != Done then TaskOut([MarkRunning(id, e.running)], false, Some(RecorderError(id)))
    else if e.ok then
      TaskOut([MarkRunning(id, Done), Execute(id, true), MarkSucceeded(id, e.succeeded)], false,
              if e.succeeded != Done then Some(RecorderError(id)) else None)
    else if e.canceled then
      TaskOut([MarkRunning(id, Done), Execute(id, false)], true, Some(Canceled))
    else
      TaskOut([MarkRunning(id, Done), Execute(id, false), MarkFailed(id, e.failed)], true,
              if mode == Strict then Some(Clean) else None)
  }

  /** The loop's end as seen from an iteration: the earliest failed task is the one to blame. */
  function Blame(failed: Option<string>, end: LoopEnd): LoopEnd {
    if failed.Some? && (end.Clean? || end.TaskFailed?) then TaskFailed(failed.value) else end
  }

  function LoopPlan(ids: seq<string>, done: set<string>, forced: set<string>, mode: Mode, env: RunEnv): LoopOut
    decreases |ids|
  {
    if ids == [] then LoopOut([], Clean)
    else
      var t := TaskPlan(ids[0], done, forced, mode, env);
      var failed := if t.failed then Some(ids[0]) else None;
      if t.stop.Some? then LoopOut(t.events, Blame(failed, t.stop.value))
      else
        var rest := LoopPlan(ids[1..], done, forced, mode, env);
        LoopOut(t.events + rest.events, Blame(failed, rest.end))
  }

  datatype RunOut = RunOut(events: seq<Event>, result: Result<(), RunError>)

  function Verdict(end: LoopEnd, canceledAtEnd: bool): (Status, Result<(), RunError>) {
    match end
    case RecorderError(id) => (Failed, Err(MarkError(id)))
    case Canceled => (Aborted, Err(ContextError))
    case TaskFailed(id) => if canceledAtEnd then (Aborted, Err(ContextError)) else (Failed, Err(TaskError(id)))
    case Clean => if canceledAtEnd then (Aborted, Err(ContextError)) else (Succeeded, Ok(()))
  }

  function RunPlan(ids: seq<string>, forced: set<string>, mode: Mode, env: RunEnv, t: Table): RunOut {
    var abort := AbortStale(env.abortRuns, env.abortTasks);
    if !env.abortRuns || !env.abortTasks then RunOut([abort], Err(AbortError))
    else if env.start != Done then RunOut([abort, StartRun(env.start)], Err(StartError))
    else
      var head := [abort, StartRun(Done)];
      var t' := ApplyAll(t, head);
      var run := |t.runs|;
      if !env.queryOk then RunOut(head + [FinishRun(run, Failed, env.finish)], Err(QueryError))
      else
        var loop := LoopPlan(ids, SucceededIds(t'), forced, mode, env);
        var (status, result) := Verdict(loop.end, env.canceledAtEnd);
        RunOut(head + loop.events + [FinishRun(run, status, env.finish)], result)
  }

  // ----- ids -----

  /** strings.Compare(a, b) < 0 */
  predicate Below(a: string, b: string) {
    if b == [] then false
    else a == [] || a[0] < b[0] || (a[0] == b[0] && Below(a[1..], b[1..]))
  }

  predicate ValidTaskId(id: string) {
    |id| == 12 && forall i :: 0 <= i < |id| ==> '0' <= id[i] <= '9'
  }

  lemma {:induction false} BelowTransitive(a: string, b: string, c: string)
    requires Below(a, b) && Below(b, c)
    ensures Below(a, c)
  {
    if a != [] && a[0] == b[0] && b[0] == c[0] {
      BelowTransitive(a[1..], b[1..], c[1..]);
    }
  }

  lemma {:induction false} BelowTotal(a: string, b: string)
    ensures a == b || Below(a, b) || Below(b, a)
    ensures !(Below(a, b) && Below(b, a)) && !Below(a, a)
  {
    if a != [] && b != [] && a[0] == b[0] {
      BelowTotal(a[1..], b[1..]);
      assert a == [a[0]] + a[1..] && b == [b[0]] + b[1..];
    }
    if a != [] {
      BelowTotal(a[1..], a[1..]);
    }
  }

  /** It is the order of the first characters that differ, a proper prefix being below. */
  ghost predicate DifferAt(a: string, b: string, k: nat) {
    && k <= |a| && k < |b| && (forall i :: 0 <= i < k ==> a[i] == b[i])
    && (k == |a| || a[k] < b[k])
  }

  lemma {:induction false} BelowIsFirstDifference(a: string, b: string)
    ensures Below(a, b) <==> exists k: nat :: DifferAt(a, b, k)
  {
    if a != [] && b != [] && a[0] == b[0] {
      BelowIsFirstDifference(a[1..], b[1..]);
      if k: nat :| DifferAt(a[1..], b[1..], k) {
        forall i | 0 <= i < k + 1 ensures a[i] == b[i] {
          assert i > 0 ==> a[i] == a[1..][i - 1] && b[i] == b[1..][i - 1];
        }
        assert DifferAt(a, b, k + 1);
      }
      if k: nat :| DifferAt(a, b, k) {
        assert DifferAt(a[1..], b[1..], k - 1);
      }
    } else if Below(a, b) {
      assert DifferAt(a, b, 0);
    }
  }

  ghost predicate Sorted(ids: seq<string>) {
    forall i, j :: 0 <= i < j < |ids| ==> Below(ids[i], ids[j])
  }

  /** slices.SortFunc by id; insertion stands in for the library's algorithm. */
  function Insert(ids: seq<string>, id: string): (r: seq<string>)
    ensures forall x :: x in r <==> x == id || x in ids
  {
    if ids == [] || !Below(ids[0], id) then [id] + ids
    else
      assert ids == [ids[0]] + ids[1..];
      [ids[0]] + Insert(ids[1..], id)
  }

  function SortIds(ids: seq<string>): (r: seq<string>)
    ensures forall x :: x in r <==> x in ids
  {
    if ids == [] then []
    else
      assert ids == [ids[0]] + ids[1..];
      Insert(SortIds(ids[1..]), ids[0])
  }

  lemma {:induction false} InsertSorted(ids: seq<string>, id: string)
    requires Sorted(ids) && id !in ids
    ensures Sorted(Insert(ids, id))
  {
    if ids == [] {
    } else if Below(ids[0], id) {
      InsertSorted(ids[1..], id);
      var rest := Insert(ids[1..], id);
      forall j | 0 <= j < |rest| ensures Below(ids[0], rest[j]) {
        assert rest[j] in rest;
        if rest[j] != id {
          var k :| 0 <= k < |ids[1..]| && ids[1..][k] == rest[j];
          assert ids[k + 1] == rest[j];
        }
      }
    } else {
      assert ids[0] in ids;
      BelowTotal(ids[0], id);
      forall j | 0 <= j < |ids| ensures Below(id, ids[j]) {
        if j > 0 {
          BelowTransitive(id, ids[0], ids[j]);
        }
      }
    }
  }

  ghost predicate Distinct(ids: seq<string>) {
    forall i, j :: 0 <= i < j < |ids| ==> ids[i] != ids[j]
  }

  lemma {:induction false} SortIdsSorted(ids: seq<string>)
    requires Distinct(ids)
    ensures Sorted(SortIds(ids))
  {
    if ids != [] {
      SortIdsSorted(ids[1..]);
      assert forall j :: 0 <= j < |ids[1..]| ==> ids[1..][j] == ids[j + 1];
      InsertSorted(SortIds(ids[1..]), ids[0]);
    }
  }

  // ----- construction -----

  datatype ConfigError = NilRecorder | UnknownMode | NilTask(index: nat) | InvalidId(id: string)
    | DuplicateId(id: string)

  /** A validated, frozen task set in execution order. */
  datatype Runner = Runner(ids: seq<string>, forced: set<string>, mode: Mode)

  /** "" means strict. */
  function ParseMode(mode: string): Option<Mode> {
    if mode == "" || mode == "strict" then Some(Strict) else if mode == "loose" then Some(Loose) else None
  }

  /** The ids of a task list that passes every startup check. */
  ghost predicate Registrable(tasks: seq<Option<string>>) {
    && (forall i :: 0 <= i < |tasks| ==> tasks[i].Some? && ValidTaskId(tasks[i].value))
    && (forall i, j :: 0 <= i < j < |tasks| ==> tasks[i] != tasks[j])
  }

  /** The i-th task is the first that fails a check, and which one. */
  ghost predicate RefusedAt(tasks: seq<Option<string>>, i: nat, error: ConfigError) {
    && i < |tasks| && Registrable(tasks[..i])
    && match error
       case NilTask(index) => index == i && tasks[i] == None
       case InvalidId(id) => tasks[i] == Some(id) && !ValidTaskId(id)
       case DuplicateId(id) => tasks[i] == Some(id) && ValidTaskId(id) && Some(id) in tasks[..i]
       case _ => false
  }

  method CheckTasks(tasks: seq<Option<string>>) returns (r: Result<seq<string>, ConfigError>)
    ensures r.Ok? <==> Registrable(tasks)
    ensures r.Err? ==> exists i :: RefusedAt(tasks, i, r.error)
    ensures r.Ok? ==> |r.value| == |tasks| && forall i :: 0 <= i < |tasks| ==> tasks[i] == Some(r.value[i])
  {
    var seen: set<string> := {};
    var ids: seq<string> := [];
    for i := 0 to |tasks|
      invariant |ids| == i && forall k :: 0 <= k < i ==> tasks[k] == Some(ids[k])
      invariant seen == set k | 0 <= k < i :: ids[k]
      invariant Registrable(tasks[..i])
    {
      assert tasks[..i] <= tasks;
      if tasks[i].None? {
        assert RefusedAt(tasks, i, NilTask(i));
        return Err(NilTask(i));
      }
      var id := tasks[i].value;
      if !ValidTaskId(id) {
        assert RefusedAt(tasks, i, InvalidId(id));
        return Err(InvalidId(id));
      }
      if id in seen {
        assert RefusedAt(tasks, i, DuplicateId(id));
        return Err(DuplicateId(id));
      }
      seen := seen + {id};
      ids := ids + [id];
      assert forall k :: 0 <= k < i + 1 ==> tasks[..i + 1][k] == tasks[k];
    }
    assert tasks[..|tasks|] == tasks;
    r := Ok(ids);
  }

  method ForcedIds(force: seq<string>) returns (forced: set<string>)
    ensures forall id :: id in forced <==> ValidTaskId(id) && exists k :: 0 <= k < |force| && TrimSpace(force[k]) == id
  {
    forced := {};
    for i := 0 to |force|
      invariant forall id :: id in forced <==> ValidTaskId(id) && exists k :: 0 <= k < i && TrimSpace(force[k]) == id
    {
      var id := TrimSpace(force[i]);
      if id != "" && ValidTaskId(id) {
        forced := forced + {id};
      }
    }
  }

  /** r is what these tasks and options are built into: Sorted and its members determine the ids. */
  ghost predicate Built(tasks: seq<Option<string>>, mode: string, force: seq<string>, r: Runner) {
    && Registrable(tasks) && ParseMode(mode) == Some(r.mode) && Sorted(r.ids)
    && (forall id :: id in r.ids <==> Some(id) in tasks)
    && (forall id :: id in r.forced <==> ValidTaskId(id) && exists k :: 0 <= k < |force| && TrimSpace(force[k]) == id)
  }

  /** NewRunner can return it. */
  ghost predicate Returned(r: Runner) {
    exists tasks, mode, force :: Built(tasks, mode, force, r)
  }

  /** `tasks` holds None for a nil task; the forced ids are trimmed, and malformed ones ignored. */
  method NewRunner(tasks: seq<Option<string>>, hasRecorder: bool, mode: string, force: seq<string>)
    returns (r: Result<Runner, ConfigError>)
    ensures r.Ok? <==> hasRecorder && ParseMode(mode).Some? && Registrable(tasks)
    ensures r.Ok? ==> Built(tasks, mode, force, r.value)
    ensures r.Ok? ==> mode in {"", "strict", "loose"} && r.value.mode == if mode == "loose" then Loose else Strict
    ensures r.Ok? ==>
      forall id :: id in r.value.ids ==> |id| == 12 && forall i :: 0 <= i < 12 ==> '0' <= id[i] <= '9'
    ensures r.Err? ==>
      if !hasRecorder then r.error == NilRecorder
      else if mode !in {"", "strict", "loose"} then r.error == UnknownMode
      else exists i :: RefusedAt(tasks, i, r.error)
    ensures r.Err? && r.error.InvalidId? ==>
      var id := r.error.id; |id| != 12 || exists i :: 0 <= i < 12 && !('0' <= id[i] <= '9')
  {
    if !hasRecorder {
      return Err(NilRecorder);
    }
    if ParseMode(mode).None? {
      return Err(UnknownMode);
    }
    var checked := CheckTasks(tasks);
    if checked.Err? {
      return Err(checked.error);
    }
    var ids := checked.value;
    forall i, j | 0 <= i < j < |ids| ensures ids[i] != ids[j] {
      assert tasks[i] != tasks[j];
    }
    SortIdsSorted(ids);
    var forced := ForcedIds(force);
    r := Ok(Runner(SortIds(ids), forced, ParseMode(mode).value));
  }

  // ----- one run -----

  /** The recorder: the table, and the log of everything done to the outside world. */
  class Recorder {
    var table: Table
    ghost const initial: Table
    ghost var log: seq<Event>

    /** The table is what the logged events made of the initial one. */
    ghost predicate Valid()
      reads this
    {
      table == ApplyAll(initial, log)
    }

    constructor (table: Table)
      ensures this.table == table && log == [] && Valid()
    {
      this.table, this.initial := table, table;
      log := [];
    }

    method Do(e: Event)
      requires Valid()
      modifies this
      ensures Valid() && log == old(log) + [e]
    {
      ApplyConcat(initial, log, [e]);
      ApplyOne(table, e);
      table := Apply(table, e);
      log := log + [e];
    }
  }

  /** One iteration of the task loop. */
  method RunTask(id: string, r: Runner, rec: Recorder, done: set<string>, env: RunEnv)
    returns (failed: bool, stop: Option<LoopEnd>)
    requires rec.Valid()
    modifies rec
    ensures rec.Valid()
    ensures var t := TaskPlan(id, done, r.forced, r.mode, env);
      rec.log == old(rec.log) + t.events && failed == t.failed && stop == t.stop
  {
    var e := env.task(id);
    if id in done && id !in r.forced {
      return false, None;
    }
    if e.skip {
      return false, None;
    }
    rec.Do(MarkRunning(id, e.running));
    if e.running != Done {
      return false, Some(RecorderError(id));
    }
    rec.Do(Execute(id, e.ok));
    if e.ok {
      rec.Do(MarkSucceeded(id, e.succeeded));
      return false, if e.succeeded != Done then Some(RecorderError(id)) else None;
    }
    if e.canceled {
      return true, Some(Canceled);
    }
    rec.Do(MarkFailed(id, e.failed));
    return true, if r.mode == Strict then Some(Clean) else None;
  }

  /** The task loop of Run. */
  method RunTasks(r: Runner, rec: Recorder, done: set<string>, env: RunEnv) returns (end: LoopEnd)
    requires rec.Valid()
    modifies rec
    ensures rec.Valid()
    ensures var plan := LoopPlan(r.ids, done, r.forced, r.mode, env);
      end == plan.end && rec.log == old(rec.log) + plan.events
  {
    ghost var plan := LoopPlan(r.ids, done, r.forced, r.mode, env);
    ghost var target := rec.log + plan.events;
    assert r.ids[0..] == r.ids;
    var firstErr: Option<string> := None;
    var i := 0;
    while i < |r.ids|
      invariant 0 <= i <= |r.ids| && rec.Valid()
      invariant target == rec.log + LoopPlan(r.ids[i..], done, r.forced, r.mode, env).events
      invariant plan.end == Blame(firstErr, LoopPlan(r.ids[i..], done, r.forced, r.mode, env).end)
    {
      LoopStep(r.ids, i, done, r.forced, r.mode, env, rec.log, firstErr);
      var failed, stop := RunTask(r.ids[i], r, rec, done, env);
      if failed && firstErr == None {
        firstErr := Some(r.ids[i]);
      }
      if stop.Some? {
        return Blame(firstErr, stop.value);
      }
      i := i + 1;
    }
    end := Blame(firstErr, Clean);
  }

  lemma LoopStep(ids: seq<string>, i: nat, done: set<string>, forced: set<string>, mode: Mode, env: RunEnv,
                 log: seq<Event>, firstErr: Option<string>)
    requires i < |ids|
    ensures var t := TaskPlan(ids[i], done, forced, mode, env);
      var firstErr' := if t.failed && firstErr == None then Some(ids[i]) else firstErr;
      var now, rest := LoopPlan(ids[i..], done, forced, mode, env), LoopPlan(ids[i + 1..], done, forced, mode, env);
      && log + now.events == log + t.events + (if t.stop.Some? then [] else rest.events)
      && Blame(firstErr, now.end) == Blame(firstErr', if t.stop.Some? then t.stop.value else rest.end)
  {
    LoopUnfolds(ids, i, done, forced, mode, env);
    var t := TaskPlan(ids[i], done, forced, mode, env);
    var rest := LoopPlan(ids[i + 1..], done, forced, mode, env);
    assert log + (t.events + rest.events) == log + t.events + rest.events;
    assert log + t.events + [] == log + t.events;
  }

  lemma LoopUnfolds(ids: seq<string>, i: nat, done: set<string>, forced: set<string>, mode: Mode, env: RunEnv)
    requires i < |ids|
    ensures var t := TaskPlan(ids[i], done, forced, mode, env);
      var failed := if t.failed then Some(ids[i]) else None;
      var rest := LoopPlan(ids[i + 1..], done, forced, mode, env);
      LoopPlan(ids[i..], done, forced, mode, env) ==
        if t.stop.Some? then LoopOut(t.events, Blame(failed, t.stop.value))
        else LoopOut(t.events + rest.events, Blame(failed, rest.end))
  {
    assert ids[i..][1..] == ids[i + 1..];
  }

  /** finishRun: the run's final status; only a success has exit code 0. */
  method Finish(rec: Recorder, run: nat, status: Status, w: Write)
    requires rec.Valid()
    modifies rec
    ensures rec.Valid() && rec.log == old(rec.log) + [FinishRun(run, status, w)]
  {
    rec.Do(FinishRun(run, status, w));
  }

  method Run(r: Runner, rec: Recorder, env: RunEnv) returns (result: Result<(), RunError>)
    requires rec.Valid() && rec.log == []
    modifies rec
    ensures rec.Valid()
    ensures var plan := RunPlan(r.ids, r.forced, r.mode, env, rec.initial);
      result == plan.result && rec.log == plan.events
  {
    var abort := AbortStale(env.abortRuns, env.abortTasks);
    rec.Do(abort);
    if !env.abortRuns || !env.abortTasks {
      return Err(AbortError);
    }
    var run := |rec.table.runs|;
    assert rec.log == [abort];
    ApplyOne(rec.initial, abort);
    rec.Do(StartRun(env.start));
    if env.start != Done {
      return Err(StartError);
    }
    if !env.queryOk {
      Finish(rec, run, Failed, env.finish);
      return Err(QueryError);
    }
    var done := SucceededIds(rec.table);
    assert rec.log == [abort, StartRun(Done)];
    var end := RunTasks(r, rec, done, env);
    var status := Failed;
    if end.RecorderError? {
      result := Err(MarkError(end.id));
    } else if end.Canceled? || env.canceledAtEnd {
      status, result := Aborted, Err(ContextError);
    } else if end.TaskFailed? {
      result := Err(TaskError(end.first));
    } else {
      status, result := Succeeded, Ok(());
    }
    Finish(rec, run, status, env.finish);
  }
}
