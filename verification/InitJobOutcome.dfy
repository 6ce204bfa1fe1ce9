/**
 What a run of the job runner that is not killed does, told by what was on record and by how the world
 answers: which tasks are executed, what is recorded about each, and what the run returns.
 */
module InitJobOutcome {
  import opened InitJob
  import opened InitJobRuns
  import opened Wrappers

  /** The task has to run: it is not on record as succeeded, or forced, and does not ask to be skipped. */
  predicate IsDue(r: Runner, env: RunEnv, t: Table, id: string) {
    id in r.ids && (Recorded(t, id) ==> id in r.forced) && !env.task(id).skip
  }

  /** One of the task's records cannot be written. */
  predicate RecordFails(env: RunEnv, id: string) {
    env.task(id).running != Done || (env.task(id).ok && env.task(id).succeeded != Done)
  }

  /** The task is executed and fails. */
  predicate Fails(env: RunEnv, id: string) {
    env.task(id).running == Done && !env.task(id).ok
  }

  /** No further task is started after this one. */
  predicate Stops(mode: Mode, env: RunEnv, id: string) {
    RecordFails(env, id) || (Fails(env, id) && (env.task(id).canceled || mode == Strict))
  }

  /** The run begins the task: it is due, and no due task before it has stopped the run. */
  ghost predicate Begins(r: Runner, env: RunEnv, t: Table, id: string) {
    && IsDue(r, env, t, id)
    && forall x :: x in r.ids && Below(x, id) && IsDue(r, env, t, x) ==> !Stops(r.mode, env, x)
  }

  /** Nothing goes wrong before the first task. */
  predicate GetsToTasks(env: RunEnv) {
    env.abortRuns && env.abortTasks && env.start == Done && env.queryOk
  }

  /** What is done about a task that is begun: it is marked, executed if that worked, and its outcome is marked, but
      not the failure of a task whose context was cancelled. */
  predicate StepsAre(steps: seq<Event>, id: string, e: TaskEnv) {
    && steps != [] && steps[0] == MarkRunning(id, e.running)
    && (e.running != Done ==> |steps| == 1)
    && (e.running == Done ==>
          && |steps| >= 2 && steps[1] == Execute(id, e.ok)
          && (e.ok ==> |steps| == 3 && steps[2] == MarkSucceeded(id, e.succeeded))
          && (!e.ok && !e.canceled ==> |steps| == 3 && steps[2] == MarkFailed(id, e.failed))
          && (!e.ok && e.canceled ==> |steps| == 2))
  }

  /** The steps about one task. */
  function About(es: seq<Event>, id: string): seq<Event> {
    if es == [] then [] else (if Writes(es[0], id) then [es[0]] else []) + About(es[1..], id)
  }

  /** One task after the other, in the order of their ids. */
  ghost predicate InTurn(es: seq<Event>) {
    forall i, j :: 0 <= i < j < |es| && IsTaskStep(es[i]) && IsTaskStep(es[j]) ==>
      es[i].id == es[j].id || Below(es[i].id, es[j].id)
  }

  predicate IsTaskStep(e: Event) {
    e.MarkRunning? || e.Execute? || e.MarkSucceeded? || e.MarkFailed?
  }

  // ----- the task loop -----

  ghost predicate LoopBegins(ids: seq<string>, done: set<string>, forced: set<string>, mode: Mode, env: RunEnv,
                             id: string)
  {
    && id in ids && Due(id, done, forced, env)
    && forall x :: x in ids && Below(x, id) && Due(x, done, forced, env) ==> !Stops(mode, env, x)
  }

  lemma {:induction false} AboutConcat(a: seq<Event>, b: seq<Event>, id: string)
    ensures About(a + b, id) == About(a, id) + About(b, id)
  {
    if a == [] {
      assert a + b == b;
    } else {
      AboutConcat(a[1..], b, id);
      assert (a + b)[1..] == a[1..] + b;
      Reassociate(if Writes(a[0], id) then [a[0]] else [], About(a[1..], id), About(b, id));
    }
  }

  lemma Reassociate(a: seq<Event>, b: seq<Event>, c: seq<Event>)
    ensures a + (b + c) == a + b + c
  {
  }

  lemma {:induction false} AboutNone(es: seq<Event>, id: string)
    requires forall e :: e in es ==> !Writes(e, id)
    ensures About(es, id) == []
  {
    if es != [] {
      AboutNone(es[1..], id);
    }
  }

  lemma {:induction false} AboutAll(es: seq<Event>, id: string)
    requires forall e :: e in es ==> Writes(e, id)
    ensures About(es, id) == es
  {
    if es != [] {
      AboutAll(es[1..], id);
    }
  }

  /** One iteration. */
  lemma TaskSteps(id: string, done: set<string>, forced: set<string>, mode: Mode, env: RunEnv)
    ensures var t := TaskPlan(id, done, forced, mode, env);
            && (Due(id, done, forced, env) ==> StepsAre(t.events, id, env.task(id)))
            && (!Due(id, done, forced, env) ==> t.events == [])
            && (forall e :: e in t.events ==> Writes(e, id))
            && (t.stop.Some? <==> Due(id, done, forced, env) && Stops(mode, env, id))
            && (t.failed <==> Due(id, done, forced, env) && Fails(env, id))
            && (t.stop.Some? ==>
                  t.stop.value == if RecordFails(env, id) then RecorderError(id)
                                  else if env.task(id).canceled then Canceled
                                  else Clean)
  {
  }

  lemma SortedTail(ids: seq<string>)
    requires Sorted(ids) && ids != []
    ensures Sorted(ids[1..]) && ids[0] !in ids[1..]
    ensures forall x :: x in ids[1..] ==> Below(ids[0], x) && !Below(x, ids[0])
    ensures forall x :: x in ids <==> x == ids[0] || x in ids[1..]
  {
    assert forall j :: 0 <= j < |ids[1..]| ==> ids[1..][j] == ids[j + 1];
    BelowTotal(ids[0], ids[0]);
    forall x | x in ids[1..] ensures Below(ids[0], x) && !Below(x, ids[0]) {
      var j :| 0 <= j < |ids[1..]| && ids[1..][j] == x;
      assert x == ids[j + 1];
      BelowTotal(ids[0], x);
    }
    assert ids == [ids[0]] + ids[1..];
  }

  /** Whether a later task is begun, after one iteration. */
  lemma BeginsLater(ids: seq<string>, done: set<string>, forced: set<string>, mode: Mode, env: RunEnv, id: string)
    requires Sorted(ids) && ids != [] && id != ids[0]
    ensures LoopBegins(ids, done, forced, mode, env, id)
       <==> LoopBegins(ids[1..], done, forced, mode, env, id)
            && !(Due(ids[0], done, forced, env) && Stops(mode, env, ids[0]))
  {
    SortedTail(ids);
  }

  lemma BeginsFirst(ids: seq<string>, done: set<string>, forced: set<string>, mode: Mode, env: RunEnv)
    requires Sorted(ids) && ids != []
    ensures LoopBegins(ids, done, forced, mode, env, ids[0]) <==> Due(ids[0], done, forced, env)
  {
    SortedTail(ids);
    BelowTotal(ids[0], ids[0]);
  }

  lemma {:induction false} LoopDoes(ids: seq<string>, done: set<string>, forced: set<string>, mode: Mode,
                                    env: RunEnv, id: string)
    requires Sorted(ids)
    ensures var mine := About(LoopPlan(ids, done, forced, mode, env).events, id);
            if LoopBegins(ids, done, forced, mode, env, id) then StepsAre(mine, id, env.task(id)) else mine == []
    decreases |ids|
  {
    if ids != [] {
      var here := TaskPlan(ids[0], done, forced, mode, env);
      var rest := LoopPlan(ids[1..], done, forced, mode, env).events;
      TaskSteps(ids[0], done, forced, mode, env);
      AboutConcat(here.events, rest, id);
      SortedTail(ids);
      if id == ids[0] {
        BeginsFirst(ids, done, forced, mode, env);
        AboutAll(here.events, id);
        LoopWritesOnly(ids[1..], done, forced, mode, env);
        AboutNone(rest, id);
        assert here.events + [] == here.events;
      } else {
        BeginsLater(ids, done, forced, mode, env, id);
        AboutNone(here.events, id);
        LoopDoes(ids[1..], done, forced, mode, env, id);
        assert [] + About(rest, id) == About(rest, id);
      }
    }
  }

  lemma {:induction false} LoopInTurn(ids: seq<string>, done: set<string>, forced: set<string>, mode: Mode,
                                      env: RunEnv)
    requires Sorted(ids)
    ensures InTurn(LoopPlan(ids, done, forced, mode, env).events)
    decreases |ids|
  {
    if ids != [] {
      var here := TaskPlan(ids[0], done, forced, mode, env);
      var rest := LoopPlan(ids[1..], done, forced, mode, env).events;
      SortedTail(ids);
      LoopInTurn(ids[1..], done, forced, mode, env);
      LoopWritesOnly(ids[1..], done, forced, mode, env);
      TaskSteps(ids[0], done, forced, mode, env);
      TurnsJoin(here.events, rest, ids[0]);
    }
  }

  lemma TurnsJoin(here: seq<Event>, rest: seq<Event>, id: string)
    requires InTurn(rest) && forall e :: e in here ==> Writes(e, id)
    requires forall e, x :: e in rest && Writes(e, x) ==> Below(id, x)
    ensures InTurn(here) && InTurn(here + rest)
  {
    var es := here + rest;
    forall i | 0 <= i < |here| ensures Writes(here[i], id) {
      assert here[i] in here;
    }
    forall i | 0 <= i < |rest| && IsTaskStep(rest[i]) ensures Below(id, rest[i].id) {
      assert rest[i] in rest && Writes(rest[i], rest[i].id);
    }
  }

  // ----- what ends the loop -----

  /** What is left of the begun tasks after one iteration that does not stop the loop. */
  lemma GoesOn(ids: seq<string>, done: set<string>, forced: set<string>, mode: Mode, env: RunEnv, x: string)
    requires Sorted(ids) && ids != [] && LoopBegins(ids, done, forced, mode, env, x) && x != ids[0]
    ensures LoopBegins(ids[1..], done, forced, mode, env, x)
    ensures TaskPlan(ids[0], done, forced, mode, env).stop == None
    ensures Sorted(ids[1..]) && Below(ids[0], x)
  {
    SortedTail(ids);
    BeginsLater(ids, done, forced, mode, env, x);
    TaskSteps(ids[0], done, forced, mode, env);
  }

  lemma {:induction false} EndsByRecorder(ids: seq<string>, done: set<string>, forced: set<string>, mode: Mode,
                                          env: RunEnv, x: string)
    requires Sorted(ids) && LoopBegins(ids, done, forced, mode, env, x) && RecordFails(env, x)
    ensures LoopPlan(ids, done, forced, mode, env).end == RecorderError(x)
    decreases |ids|
  {
    if x == ids[0] {
      TaskSteps(ids[0], done, forced, mode, env);
    } else {
      GoesOn(ids, done, forced, mode, env, x);
      EndsByRecorder(ids[1..], done, forced, mode, env, x);
    }
  }

  lemma {:induction false} EndsByCancel(ids: seq<string>, done: set<string>, forced: set<string>, mode: Mode,
                                        env: RunEnv, x: string)
    requires Sorted(ids) && LoopBegins(ids, done, forced, mode, env, x) && Fails(env, x) && env.task(x).canceled
    ensures LoopPlan(ids, done, forced, mode, env).end == Canceled
    decreases |ids|
  {
    if x == ids[0] {
      TaskSteps(ids[0], done, forced, mode, env);
    } else {
      GoesOn(ids, done, forced, mode, env, x);
      EndsByCancel(ids[1..], done, forced, mode, env, x);
    }
  }

  /** Every record of a begun task is written, and none fails because its context was cancelled. */
  ghost predicate Unbroken(ids: seq<string>, done: set<string>, forced: set<string>, mode: Mode, env: RunEnv) {
    forall x :: LoopBegins(ids, done, forced, mode, env, x) ==>
      !RecordFails(env, x) && !(Fails(env, x) && env.task(x).canceled)
  }

  lemma UnbrokenTail(ids: seq<string>, done: set<string>, forced: set<string>, mode: Mode, env: RunEnv)
    requires Sorted(ids) && ids != [] && Unbroken(ids, done, forced, mode, env)
    ensures var t := TaskPlan(ids[0], done, forced, mode, env);
            && (t.stop.Some? ==> t.stop.value == Clean && t.failed)
            && (t.stop == None ==> Unbroken(ids[1..], done, forced, mode, env))
            && Sorted(ids[1..])
  {
    SortedTail(ids);
    TaskSteps(ids[0], done, forced, mode, env);
    BeginsFirst(ids, done, forced, mode, env);
    if TaskPlan(ids[0], done, forced, mode, env).stop == None {
      forall x | LoopBegins(ids[1..], done, forced, mode, env, x)
        ensures !RecordFails(env, x) && !(Fails(env, x) && env.task(x).canceled)
      {
        BeginsLater(ids, done, forced, mode, env, x);
      }
    }
  }

  lemma {:induction false} UnbrokenEnds(ids: seq<string>, done: set<string>, forced: set<string>, mode: Mode,
                                        env: RunEnv)
    requires Sorted(ids) && Unbroken(ids, done, forced, mode, env)
    ensures var end := LoopPlan(ids, done, forced, mode, env).end; end.Clean? || end.TaskFailed?
    decreases |ids|
  {
    if ids != [] {
      UnbrokenTail(ids, done, forced, mode, env);
      if TaskPlan(ids[0], done, forced, mode, env).stop == None {
        UnbrokenEnds(ids[1..], done, forced, mode, env);
      }
    }
  }

  /** x is the first task that fails. */
  ghost predicate FirstFailure(ids: seq<string>, done: set<string>, forced: set<string>, mode: Mode, env: RunEnv,
                               x: string)
  {
    && LoopBegins(ids, done, forced, mode, env, x) && Fails(env, x)
    && forall y :: LoopBegins(ids, done, forced, mode, env, y) && Below(y, x) ==> !Fails(env, y)
  }

  lemma FirstFailureLater(ids: seq<string>, done: set<string>, forced: set<string>, mode: Mode, env: RunEnv,
                          x: string)
    requires Sorted(ids) && ids != [] && FirstFailure(ids, done, forced, mode, env, x) && x != ids[0]
    ensures FirstFailure(ids[1..], done, forced, mode, env, x)
    ensures !TaskPlan(ids[0], done, forced, mode, env).failed
  {
    GoesOn(ids, done, forced, mode, env, x);
    SortedTail(ids);
    BeginsFirst(ids, done, forced, mode, env);
    TaskSteps(ids[0], done, forced, mode, env);
    forall y | LoopBegins(ids[1..], done, forced, mode, env, y) && Below(y, x) ensures !Fails(env, y) {
      BeginsLater(ids, done, forced, mode, env, y);
    }
  }

  lemma {:induction false} EndsByFailure(ids: seq<string>, done: set<string>, forced: set<string>, mode: Mode,
                                         env: RunEnv, x: string)
    requires Sorted(ids) && Unbroken(ids, done, forced, mode, env) && FirstFailure(ids, done, forced, mode, env, x)
    ensures LoopPlan(ids, done, forced, mode, env).end == TaskFailed(x)
    decreases |ids|
  {
    UnbrokenTail(ids, done, forced, mode, env);
    TaskSteps(ids[0], done, forced, mode, env);
    if x == ids[0] {
      if TaskPlan(ids[0], done, forced, mode, env).stop == None {
        UnbrokenEnds(ids[1..], done, forced, mode, env);
      }
    } else {
      GoesOn(ids, done, forced, mode, env, x);
      FirstFailureLater(ids, done, forced, mode, env, x);
      EndsByFailure(ids[1..], done, forced, mode, env, x);
    }
  }

  lemma {:induction false} EndsClean(ids: seq<string>, done: set<string>, forced: set<string>, mode: Mode,
                                     env: RunEnv)
    requires Sorted(ids)
    requires forall x :: LoopBegins(ids, done, forced, mode, env, x) ==> !RecordFails(env, x) && !Fails(env, x)
    ensures LoopPlan(ids, done, forced, mode, env).end == Clean
    decreases |ids|
  {
    if ids != [] {
      SortedTail(ids);
      BeginsFirst(ids, done, forced, mode, env);
      TaskSteps(ids[0], done, forced, mode, env);
      forall x | LoopBegins(ids[1..], done, forced, mode, env, x) ensures !RecordFails(env, x) && !Fails(env, x) {
        BeginsLater(ids, done, forced, mode, env, x);
      }
      EndsClean(ids[1..], done, forced, mode, env);
    }
  }

  // ----- the whole run -----

  /** What the run's start leaves on record as succeeded is what was. */
  lemma HeadKeepsSuccess(t: Table, id: string)
    ensures id in SucceededIds(ApplyAll(t, HEAD)) <==> Recorded(t, id)
  {
    assert HEAD[1..] == [StartRun(Done)] && HEAD[1..][1..] == [];
  }

  lemma BeginsIsLoop(r: Runner, env: RunEnv, t: Table, id: string)
    ensures LoopBegins(r.ids, SucceededIds(ApplyAll(t, HEAD)), r.forced, r.mode, env, id) <==> Begins(r, env, t, id)
  {
    var done := SucceededIds(ApplyAll(t, HEAD));
    forall x ensures x in r.ids && Due(x, done, r.forced, env) <==> IsDue(r, env, t, x) {
      HeadKeepsSuccess(t, x);
    }
  }

  /** The frame of a run: what comes before its tasks and after them, and how it ends before them. */
  lemma RunFrame(r: Runner, env: RunEnv, t: Table)
    ensures var out, abort := RunPlan(r.ids, r.forced, r.mode, env, t), AbortStale(env.abortRuns, env.abortTasks);
            && (!env.abortRuns || !env.abortTasks ==> out.events == [abort] && out.result == Err(AbortError))
            && (env.abortRuns && env.abortTasks && env.start != Done ==>
                  out.events == [abort, StartRun(env.start)] && out.result == Err(StartError))
            && (env.abortRuns && env.abortTasks && env.start == Done && !env.queryOk ==>
                  && out.events == [abort, StartRun(Done), FinishRun(|t.runs|, Failed, env.finish)]
                  && out.result == Err(QueryError))
            && (GetsToTasks(env) ==>
                  var n := |out.events| - 1;
                  && n >= 2 && out.events[0] == abort && out.events[1] == StartRun(Done)
                  && out.events[n].FinishRun? && out.events[n].run == |t.runs| && out.events[n].w == env.finish
                  && forall k :: 2 <= k < n ==> IsTaskStep(out.events[k]))
  {
    var out := RunPlan(r.ids, r.forced, r.mode, env, t);
    if GetsToTasks(env) {
      var loop := LoopPlan(r.ids, SucceededIds(ApplyAll(t, HEAD)), r.forced, r.mode, env).events;
      LoopWritesOnly(r.ids, SucceededIds(ApplyAll(t, HEAD)), r.forced, r.mode, env);
      forall k | 2 <= k < |out.events| - 1 ensures IsTaskStep(out.events[k]) {
        assert out.events[k] == loop[k - 2] && loop[k - 2] in loop;
      }
    }
  }

  lemma LoopInRun(r: Runner, env: RunEnv, t: Table)
    requires GetsToTasks(env)
    ensures var out := RunPlan(r.ids, r.forced, r.mode, env, t);
            var loop := LoopPlan(r.ids, SucceededIds(ApplyAll(t, HEAD)), r.forced, r.mode, env);
            && |out.events| == |loop.events| + 3
            && out.events == HEAD + loop.events + [out.events[|out.events| - 1]]
            && out.events[|out.events| - 1].FinishRun?
            && (out.events[|out.events| - 1].status, out.result) == Verdict(loop.end, env.canceledAtEnd)
  {
  }

  /** For every registry, configuration, world and table, in a run that is not killed: a task is marked, executed and
      its outcome marked exactly if it is begun, the tasks one after the other in the order of their ids. */
  lemma RunDoes(r: Runner, env: RunEnv, t: Table, id: string)
    requires Sorted(r.ids)
    ensures var es := RunPlan(r.ids, r.forced, r.mode, env, t).events;
            && (if GetsToTasks(env) && Begins(r, env, t, id) then StepsAre(About(es, id), id, env.task(id))
                else About(es, id) == [])
            && InTurn(es)
  {
    var es := RunPlan(r.ids, r.forced, r.mode, env, t).events;
    if GetsToTasks(env) {
      var done := SucceededIds(ApplyAll(t, HEAD));
      var loop, last := LoopPlan(r.ids, done, r.forced, r.mode, env).events, es[|es| - 1];
      LoopInRun(r, env, t);
      AboutLoop(loop, last, id);
      BeginsIsLoop(r, env, t, id);
      LoopDoes(r.ids, done, r.forced, r.mode, env, id);
      LoopInTurn(r.ids, done, r.forced, r.mode, env);
      TurnsInRun(loop, last);
    } else {
      AboutNone(es, id);
    }
  }

  lemma AboutLoop(loop: seq<Event>, last: Event, id: string)
    requires last.FinishRun?
    ensures About(HEAD + loop + [last], id) == About(loop, id)
  {
    AboutConcat(HEAD + loop, [last], id);
    AboutConcat(HEAD, loop, id);
    AboutNone(HEAD, id);
    AboutNone([last], id);
    assert [] + About(loop, id) + [] == About(loop, id);
  }

  lemma TurnsInRun(loop: seq<Event>, last: Event)
    requires InTurn(loop) && last.FinishRun?
    ensures InTurn(HEAD + loop + [last])
  {
    var es := HEAD + loop + [last];
    forall i, j | 0 <= i < j < |es| && IsTaskStep(es[i]) && IsTaskStep(es[j])
      ensures es[i].id == es[j].id || Below(es[i].id, es[j].id)
    {
      assert es[i] == loop[i - 2] && es[j] == loop[j - 2];
    }
  }

  lemma {:induction false} AboutMembers(es: seq<Event>, id: string, e: Event)
    ensures e in About(es, id) <==> e in es && Writes(e, id)
  {
    if es != [] {
      AboutMembers(es[1..], id, e);
      assert es == [es[0]] + es[1..];
    }
  }

  /** Exactly the begun tasks whose mark was written are executed, each with the world's answer. */
  lemma ExecutesExactly(r: Runner, env: RunEnv, t: Table, id: string, ok: bool)
    requires Sorted(r.ids)
    ensures Execute(id, ok) in RunPlan(r.ids, r.forced, r.mode, env, t).events
       <==> GetsToTasks(env) && Begins(r, env, t, id) && env.task(id).running == Done && ok == env.task(id).ok
  {
    var es := RunPlan(r.ids, r.forced, r.mode, env, t).events;
    RunDoes(r, env, t, id);
    AboutMembers(es, id, Execute(id, ok));
    if About(es, id) != [] {
      InSteps(About(es, id), id, env.task(id), ok);
    }
  }

  lemma InSteps(steps: seq<Event>, id: string, e: TaskEnv, ok: bool)
    requires StepsAre(steps, id, e)
    ensures Execute(id, ok) in steps <==> e.running == Done && ok == e.ok
    ensures MarkFailed(id, e.failed) in steps <==> e.running == Done && !e.ok && !e.canceled
  {
    if e.running == Done {
      assert steps[1] in steps;
      assert |steps| == 3 ==> steps[2] in steps;
    }
  }

  /** The world writes every record and cancels nothing. */
  predicate Smooth(env: RunEnv, ids: seq<string>) {
    && GetsToTasks(env)
    && forall id :: id in ids ==> !RecordFails(env, id) && !(Fails(env, id) && env.task(id).canceled)
  }

  /** Loose mode keeps going after a failure: all due tasks are executed, and a failed one has its failure marked. */
  lemma LooseExecutesAllDue(r: Runner, env: RunEnv, t: Table, id: string)
    requires Sorted(r.ids) && r.mode == Loose && Smooth(env, r.ids)
    ensures var es := RunPlan(r.ids, r.forced, r.mode, env, t).events;
            && (Execute(id, env.task(id).ok) in es <==> IsDue(r, env, t, id))
            && (MarkFailed(id, env.task(id).failed) in es <==> IsDue(r, env, t, id) && !env.task(id).ok)
  {
    assert Begins(r, env, t, id) <==> IsDue(r, env, t, id);
    ExecutesExactly(r, env, t, id, env.task(id).ok);
    MarksFailure(r, env, t, id);
  }

  lemma MarksFailure(r: Runner, env: RunEnv, t: Table, id: string)
    requires Sorted(r.ids) && Smooth(env, r.ids)
    ensures MarkFailed(id, env.task(id).failed) in RunPlan(r.ids, r.forced, r.mode, env, t).events
       <==> Begins(r, env, t, id) && !env.task(id).ok
  {
    var es := RunPlan(r.ids, r.forced, r.mode, env, t).events;
    RunDoes(r, env, t, id);
    AboutMembers(es, id, MarkFailed(id, env.task(id).failed));
    if About(es, id) != [] {
      InSteps(About(es, id), id, env.task(id), true);
    }
  }

  /** Strict mode stops at the first failure: the due tasks up to and including it are executed. */
  lemma StrictExecutesToFirstFailure(r: Runner, env: RunEnv, t: Table, id: string)
    requires Sorted(r.ids) && r.mode == Strict && Smooth(env, r.ids)
    ensures var es := RunPlan(r.ids, r.forced, r.mode, env, t).events;
            && (Execute(id, env.task(id).ok) in es <==>
                  IsDue(r, env, t, id) && forall x :: IsDue(r, env, t, x) && Below(x, id) ==> env.task(x).ok)
            && (MarkFailed(id, env.task(id).failed) in es <==>
                  Execute(id, false) in es && !env.task(id).ok)
  {
    assert Begins(r, env, t, id) <==>
      IsDue(r, env, t, id) && forall x :: IsDue(r, env, t, x) && Below(x, id) ==> env.task(x).ok;
    ExecutesExactly(r, env, t, id, env.task(id).ok);
    ExecutesExactly(r, env, t, id, false);
    MarksFailure(r, env, t, id);
  }

  // ----- the result -----

  /** What a run that gets to its tasks returns and records as its status. A record that cannot be written decides;
      then a cancelled context; then the first failure. */
  ghost predicate ResultIs(r: Runner, env: RunEnv, t: Table, status: Status, result: Result<(), RunError>) {
    && (forall x :: Begins(r, env, t, x) && RecordFails(env, x) ==> status == Failed && result == Err(MarkError(x)))
    && (forall x :: Begins(r, env, t, x) && Fails(env, x) && env.task(x).canceled ==>
          status == Aborted && result == Err(ContextError))
    && ((forall x :: Begins(r, env, t, x) ==> !RecordFails(env, x) && !(Fails(env, x) && env.task(x).canceled)) ==>
          && (env.canceledAtEnd ==> status == Aborted && result == Err(ContextError))
          && (!env.canceledAtEnd ==>
                && (forall x :: FailsFirst(r, env, t, x) ==> status == Failed && result == Err(TaskError(x)))
                && ((forall x :: Begins(r, env, t, x) ==> !Fails(env, x)) ==> status == Succeeded && result == Ok(()))))
  }

  ghost predicate FailsFirst(r: Runner, env: RunEnv, t: Table, x: string) {
    && Begins(r, env, t, x) && Fails(env, x)
    && forall y :: Begins(r, env, t, y) && Below(y, x) ==> !Fails(env, y)
  }

  lemma RunReturns(r: Runner, env: RunEnv, t: Table)
    requires Sorted(r.ids) && GetsToTasks(env)
    ensures var out := RunPlan(r.ids, r.forced, r.mode, env, t);
            && out.events != [] && out.events[|out.events| - 1].FinishRun?
            && ResultIs(r, env, t, out.events[|out.events| - 1].status, out.result)
  {
    var done := SucceededIds(ApplyAll(t, HEAD));
    var end := LoopPlan(r.ids, done, r.forced, r.mode, env).end;
    LoopInRun(r, env, t);
    forall x ensures LoopBegins(r.ids, done, r.forced, r.mode, env, x) <==> Begins(r, env, t, x) {
      BeginsIsLoop(r, env, t, x);
    }
    forall x | Begins(r, env, t, x) && RecordFails(env, x) ensures end == RecorderError(x) {
      EndsByRecorder(r.ids, done, r.forced, r.mode, env, x);
    }
    forall x | Begins(r, env, t, x) && Fails(env, x) && env.task(x).canceled ensures end == Canceled {
      EndsByCancel(r.ids, done, r.forced, r.mode, env, x);
    }
    if Unbroken(r.ids, done, r.forced, r.mode, env) {
      UnbrokenEnds(r.ids, done, r.forced, r.mode, env);
      forall x | FailsFirst(r, env, t, x) ensures end == TaskFailed(x) {
        EndsByFailure(r.ids, done, r.forced, r.mode, env, x);
      }
      if forall x :: Begins(r, env, t, x) ==> !Fails(env, x) {
        EndsClean(r.ids, done, r.forced, r.mode, env);
      }
    }
  }

  // ----- the table after the run -----

  /** A task's row. */
  function Row(t: Table, id: string): Option<Status> {
    if id in t.tasks then Some(t.tasks[id]) else None
  }

  /** After the start of a run nothing is left running. */
  function Settled(row: Option<Status>): Option<Status> {
    if row == Some(Running) then Some(Aborted) else row
  }

  /** The row after the run, of a task that was begun. */
  function RowAfter(row: Option<Status>, e: TaskEnv): Option<Status> {
    if e.running == Lost then row
    else if e.running == Unclear then Some(Running)
    else if e.ok then Some(if e.succeeded == Lost then Running else Succeeded)
    else Some(if e.canceled || e.failed == Lost then Running else Failed)
  }

  /** A task's row is what the steps about it make of it. */
  lemma {:induction false} RowFromSteps(t: Table, u: Table, es: seq<Event>, id: string)
    requires Row(t, id) == Row(u, id) && forall e :: e in es ==> !e.AbortStale?
    ensures Row(ApplyAll(t, es), id) == Row(ApplyAll(u, About(es, id)), id)
    decreases |es|
  {
    if es != [] {
      assert forall e :: e in es[1..] ==> e in es;
      assert es[0] in es;
      if Writes(es[0], id) {
        RowFromSteps(Apply(t, es[0]), Apply(u, es[0]), es[1..], id);
        assert ([es[0]] + About(es[1..], id))[1..] == About(es[1..], id);
      } else {
        RowFromSteps(Apply(t, es[0]), u, es[1..], id);
        assert [] + About(es[1..], id) == About(es[1..], id);
      }
    }
  }

  lemma ApplySteps(t: Table, steps: seq<Event>, id: string, e: TaskEnv)
    requires StepsAre(steps, id, e)
    ensures Row(ApplyAll(t, steps), id) == RowAfter(Row(t, id), e)
  {
    var t1 := Apply(t, steps[0]);
    if |steps| == 1 {
      assert steps == [steps[0]];
      ApplyOne(t, steps[0]);
    } else {
      assert steps == [steps[0]] + steps[1..];
      assert steps[1..] == [steps[1]] + steps[2..];
      assert ApplyAll(t, steps) == ApplyAll(t1, steps[2..]);
      if |steps| == 3 {
        assert steps[2..] == [steps[2]];
        ApplyOne(t1, steps[2]);
      }
    }
  }

  /** For every task the row tells how far the run came with it: a task that was not begun keeps its row, closed if
      an earlier process left it running; one that was begun has its outcome, as far as the writes were not lost. */
  lemma RowTells(r: Runner, env: RunEnv, t: Table, id: string)
    requires Sorted(r.ids) && GetsToTasks(env)
    ensures Row(ApplyAll(t, RunPlan(r.ids, r.forced, r.mode, env, t).events), id)
         == if Begins(r, env, t, id) then RowAfter(Settled(Row(t, id)), env.task(id)) else Settled(Row(t, id))
  {
    var es := RunPlan(r.ids, r.forced, r.mode, env, t).events;
    RunFrame(r, env, t);
    RunDoes(r, env, t, id);
    assert forall k :: 0 < k < |es| ==> !es[k].AbortStale?;
    RowFromRun(t, es, id);
    if Begins(r, env, t, id) {
      ApplySteps(Apply(t, es[0]), About(es, id), id, env.task(id));
    }
  }

  lemma RowFromRun(t: Table, es: seq<Event>, id: string)
    requires es != [] && es[0] == AbortStale(true, true) && forall k :: 0 < k < |es| ==> !es[k].AbortStale?
    ensures Row(Apply(t, es[0]), id) == Settled(Row(t, id))
    ensures Row(ApplyAll(t, es), id) == Row(ApplyAll(Apply(t, es[0]), About(es, id)), id)
  {
    forall e | e in es[1..] ensures !e.AbortStale? {
      var k :| 0 <= k < |es[1..]| && es[1..][k] == e;
      assert e == es[k + 1];
    }
    assert [] + About(es[1..], id) == About(es[1..], id);
    RowFromSteps(Apply(t, es[0]), Apply(t, es[0]), es[1..], id);
  }

  /** The earlier runs' rows: those that were still running are aborted, the others are as they were. */
  lemma EarlierRunsClosed(r: Runner, env: RunEnv, t: Table, i: nat)
    requires GetsToTasks(env) && i < |t.runs|
    ensures var after := ApplyAll(t, RunPlan(r.ids, r.forced, r.mode, env, t).events);
            && i < |after.runs|
            && after.runs[i] == RunRec(if t.runs[i].status == Running then Aborted else t.runs[i].status,
                                       t.runs[i].exitCode)
  {
    var loop, last := RunEvents(r, env, t);
    LoopKeepsRuns(ApplyAll(t, HEAD), loop);
    AfterRun(t, loop, last);
    assert HEAD[1..] == [StartRun(Done)] && HEAD[1..][1..] == [];
  }
}
