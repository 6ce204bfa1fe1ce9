/**
 The job runner over any sequence of runs, one at a time, each of which may be killed between any
 two steps.
 */
module InitJobRuns {
  import opened InitJob
  import opened Strings
  import opened Wrappers

  /** One process: how it was configured, how the world answered, and how many of its steps it did
      before it ended or was killed. */
  datatype Process = Process(runner: Runner, env: RunEnv, steps: nat)

  function Plan(p: Process, t: Table): seq<Event> {
    RunPlan(p.runner.ids, p.runner.forced, p.runner.mode, p.env, t).events
  }

  function Did(p: Process, t: Table): seq<Event> {
    var plan := Plan(p, t);
    if p.steps <= |plan| then plan[..p.steps] else plan
  }

  /** Everything done by a sequence of processes, each starting from the table the last one left. */
  function History(ps: seq<Process>, t: Table): seq<Event>
    decreases |ps|
  {
    if ps == [] then [] else Did(ps[0], t) + History(ps[1..], ApplyAll(t, Did(ps[0], t)))
  }

  // ----- a recorded success is never repeated -----

  predicate Writes(e: Event, id: string) {
    (e.MarkRunning? || e.Execute? || e.MarkSucceeded? || e.MarkFailed?) && e.id == id
  }

  predicate Recorded(t: Table, id: string) {
    id in t.tasks && t.tasks[id] == Succeeded
  }

  lemma {:induction false} LoopSkipsDone(ids: seq<string>, done: set<string>, forced: set<string>, mode: Mode,
                                         env: RunEnv, id: string)
    requires id !in ids || (id in done && id !in forced)
    ensures forall e :: e in LoopPlan(ids, done, forced, mode, env).events ==> !Writes(e, id)
    decreases |ids|
  {
    if ids != [] {
      assert ids == [ids[0]] + ids[1..];
      LoopSkipsDone(ids[1..], done, forced, mode, env, id);
    }
  }

  lemma {:induction false} RecordKept(t: Table, es: seq<Event>, id: string)
    requires Recorded(t, id) && forall e :: e in es ==> !Writes(e, id)
    ensures Recorded(ApplyAll(t, es), id)
    decreases |es|
  {
    if es != [] {
      assert es[0] in es;
      assert forall e :: e in es[1..] ==> e in es;
      RecordKept(Apply(t, es[0]), es[1..], id);
    }
  }

  /** The runner has the task and forces it. */
  predicate Forces(r: Runner, id: string) {
    id in r.ids && id in r.forced
  }

  lemma PlanSkipsDone(p: Process, t: Table, id: string)
    requires Recorded(t, id) && !Forces(p.runner, id)
    ensures forall e :: e in Plan(p, t) ==> !Writes(e, id)
  {
    var r, env := p.runner, p.env;
    if env.abortRuns && env.abortTasks && env.start.Done? && env.queryOk {
      var head := [AbortStale(true, true), StartRun(Done)];
      RecordKept(t, head, id);
      LoopSkipsDone(r.ids, SucceededIds(ApplyAll(t, head)), r.forced, r.mode, env, id);
    }
  }

  /** Across crashes and restarts: once a task's success is recorded, no run executes it again or
      touches its record, as long as no run that has the task forces it. */
  lemma {:induction false} SucceededNeverRerun(ps: seq<Process>, t: Table, id: string)
    requires Recorded(t, id) && forall p :: p in ps ==> !Forces(p.runner, id)
    ensures forall e :: e in History(ps, t) ==> !Writes(e, id)
    ensures Recorded(ApplyAll(t, History(ps, t)), id)
    decreases |ps|
  {
    if ps != [] {
      var did := Did(ps[0], t);
      assert ps[0] in ps;
      PlanSkipsDone(ps[0], t, id);
      assert forall e :: e in did ==> e in Plan(ps[0], t);
      RecordKept(t, did, id);
      assert forall p :: p in ps[1..] ==> p in ps;
      SucceededNeverRerun(ps[1..], ApplyAll(t, did), id);
      ApplyConcat(t, did, History(ps[1..], ApplyAll(t, did)));
    }
  }

  // ----- a forced rerun -----

  /** ps are processes of these runners. */
  predicate RunsOf(ps: seq<Process>, rs: seq<Runner>) {
    |ps| == |rs| && forall i :: 0 <= i < |ps| ==> ps[i].runner == rs[i]
  }

  /** A world in which every write is done and only one task is not skipped. */
  function OnlyTask(id: string): RunEnv {
    RunEnv(true, true, Done, true, Done, false, (x: string) => TaskEnv(x != id, true, false, Done, Done, Done))
  }

  lemma {:induction false} LoopReaches(ids: seq<string>, done: set<string>, forced: set<string>, mode: Mode, id: string)
    requires id in ids && (id in forced || id !in done)
    ensures var es := LoopPlan(ids, done, forced, mode, OnlyTask(id)).events;
      |es| >= 2 && es[0] == MarkRunning(id, Done) && es[1] == Execute(id, true)
    decreases |ids|
  {
    if ids[0] != id {
      LoopReaches(ids[1..], done, forced, mode, id);
    }
  }

  /** Killed right after its third step, the forced run has marked the task and no more. */
  lemma KilledAfterMark(r: Runner, t: Table, id: string)
    requires Forces(r, id)
    ensures !Recorded(ApplyAll(t, Did(Process(r, OnlyTask(id), 3), t)), id)
  {
    var p := Process(r, OnlyTask(id), 3);
    var head := [AbortStale(true, true), StartRun(Done)];
    var mark := MarkRunning(id, Done);
    LoopReaches(r.ids, SucceededIds(ApplyAll(t, head)), r.forced, r.mode, id);
    assert Did(p, t) == head + [mark];
    ApplyConcat(t, head, [mark]);
    ApplyOne(ApplyAll(t, head), mark);
  }

  /** Processes that are killed at once do nothing. */
  function Idle(rs: seq<Runner>): (ps: seq<Process>)
    ensures RunsOf(ps, rs)
  {
    seq(|rs|, i requires 0 <= i < |rs| => Process(rs[i], OnlyTask(""), 0))
  }

  lemma {:induction false} IdleHistory(rs: seq<Runner>, t: Table)
    ensures History(Idle(rs), t) == []
    decreases |rs|
  {
    if rs != [] {
      assert Idle(rs)[1..] == Idle(rs[1..]);
      IdleHistory(rs[1..], t);
    }
  }

  /** Some run of these runners loses the record. */
  lemma {:induction false} RecordLost(rs: seq<Runner>, t: Table, id: string) returns (ps: seq<Process>)
    requires exists r :: r in rs && Forces(r, id)
    ensures RunsOf(ps, rs) && !Recorded(ApplyAll(t, History(ps, t)), id)
    decreases |rs|
  {
    assert rs == [rs[0]] + rs[1..];
    if Forces(rs[0], id) {
      var first := Process(rs[0], OnlyTask(id), 3);
      ps := [first] + Idle(rs[1..]);
      KilledAfterMark(rs[0], t, id);
      IdleHistory(rs[1..], ApplyAll(t, Did(first, t)));
      HistoryCons(first, Idle(rs[1..]), t);
      assert Did(first, t) + [] == Did(first, t);
    } else {
      var rest := RecordLost(rs[1..], t, id);
      var first := Process(rs[0], OnlyTask(id), 0);
      ps := [first] + rest;
      KilledAtOnce(first, t);
      HistoryCons(first, rest, t);
      assert [] + History(rest, t) == History(rest, t);
    }
  }

  lemma KilledAtOnce(p: Process, t: Table)
    requires p.steps == 0
    ensures Did(p, t) == [] && ApplyAll(t, Did(p, t)) == t
  {
  }

  lemma HistoryCons(p: Process, rest: seq<Process>, t: Table)
    ensures History([p] + rest, t) == Did(p, t) + History(rest, ApplyAll(t, Did(p, t)))
  {
    assert ([p] + rest)[1..] == rest;
  }

  /** Given how the runs are configured, a recorded success is kept in every world and at every kill point
      exactly if none of the runners both has the task and forces it. */
  lemma RecordKeptIff(rs: seq<Runner>, t: Table, id: string)
    requires Recorded(t, id)
    ensures (forall ps: seq<Process> :: RunsOf(ps, rs) ==> Recorded(ApplyAll(t, History(ps, t)), id))
       <==> (forall r :: r in rs ==> !Forces(r, id))
  {
    if forall r :: r in rs ==> !Forces(r, id) {
      forall ps: seq<Process> | RunsOf(ps, rs) ensures Recorded(ApplyAll(t, History(ps, t)), id) {
        assert forall i :: 0 <= i < |ps| ==> rs[i] in rs && ps[i].runner == rs[i];
        SucceededNeverRerun(ps, t, id);
      }
    } else {
      var ps := RecordLost(rs, t, id);
      assert RunsOf(ps, rs);
    }
  }

  const FIRST_TASK: string := "202401010001"

  lemma FirstTaskRunners()
    ensures Returned(Runner([FIRST_TASK], {FIRST_TASK}, Strict)) && Returned(Runner([FIRST_TASK], {}, Strict))
  {
    var tasks := [Some(FIRST_TASK)];
    assert ValidTaskId(FIRST_TASK) && TrimSpace(FIRST_TASK) == FIRST_TASK;
    assert Registrable(tasks);
    assert [FIRST_TASK][0] == FIRST_TASK;
    assert Built(tasks, "strict", [FIRST_TASK], Runner([FIRST_TASK], {FIRST_TASK}, Strict));
    assert Built(tasks, "strict", [], Runner([FIRST_TASK], {}, Strict));
  }

  /** With runners that NewRunner returns: a forced rerun killed right after MarkRunning loses the record, and
      the next, unforced run executes the task again. */
  lemma ForcedRerunForgets() returns (ps: seq<Process>, t: Table)
    ensures Recorded(t, FIRST_TASK) && |ps| == 2 && ps[1].runner.forced == {}
    ensures Returned(ps[0].runner) && Returned(ps[1].runner)
    ensures Execute(FIRST_TASK, true) in Did(ps[1], ApplyAll(t, Did(ps[0], t)))
  {
    var first := Process(Runner([FIRST_TASK], {FIRST_TASK}, Strict), OnlyTask(FIRST_TASK), 3);
    var second := Process(Runner([FIRST_TASK], {}, Strict), OnlyTask(FIRST_TASK), 5);
    ps := [first, second];
    t := Table([], map[FIRST_TASK := Succeeded]);
    FirstTaskRunners();
    KilledAfterMark(first.runner, t, FIRST_TASK);
    ExecutedAfresh(second, ApplyAll(t, Did(first, t)));
  }

  /** A task that is not on record is executed by a run that is not killed before its fourth step. */
  lemma ExecutedAfresh(p: Process, t: Table)
    requires p.env == OnlyTask(FIRST_TASK) && p.steps >= 4 && FIRST_TASK in p.runner.ids && !Recorded(t, FIRST_TASK)
    ensures Execute(FIRST_TASK, true) in Did(p, t)
  {
    var head := [AbortStale(true, true), StartRun(Done)];
    var t' := ApplyAll(t, head);
    assert head[1..] == [StartRun(Done)] && head[1..][1..] == [];
    assert t' == Apply(Apply(t, AbortStale(true, true)), StartRun(Done));
    assert FIRST_TASK !in SucceededIds(t');
    LoopReaches(p.runner.ids, SucceededIds(t'), p.runner.forced, p.runner.mode, FIRST_TASK);
    assert Plan(p, t)[3] == Execute(FIRST_TASK, true);
    assert Did(p, t)[3] == Execute(FIRST_TASK, true);
  }

  /** In a task loop, a success mark directly follows the task's own successful run. */
  lemma {:induction false} MarkFollowsExecute(ids: seq<string>, done: set<string>, forced: set<string>, mode: Mode,
                                              env: RunEnv, k: nat)
    requires var es := LoopPlan(ids, done, forced, mode, env).events;
      k < |es| && es[k].MarkSucceeded?
    ensures var es := LoopPlan(ids, done, forced, mode, env).events;
      k >= 1 && es[k - 1] == Execute(es[k].id, true)
    decreases |ids|
  {
    var here := TaskPlan(ids[0], done, forced, mode, env).events;
    if k >= |here| {
      MarkFollowsExecute(ids[1..], done, forced, mode, env, k - |here|);
    }
  }

  /** ... and so in every prefix of a plan. */
  lemma DidJustified(p: Process, t: Table, id: string, w: Write)
    requires MarkSucceeded(id, w) in Did(p, t)
    ensures Execute(id, true) in Did(p, t)
  {
    var plan, did := Plan(p, t), Did(p, t);
    var k :| 0 <= k < |did| && did[k] == MarkSucceeded(id, w);
    assert did[k] == plan[k];
    var done := SucceededIds(ApplyAll(t, HEAD));
    MarkIsOfLoop(p, t, k);
    MarkFollowsExecute(p.runner.ids, done, p.runner.forced, p.runner.mode, p.env, k - 2);
    assert did[k - 1] == plan[k - 1];
  }

  /** A success mark is the loop's, and so is what is just before it if the loop has begun. */
  lemma MarkIsOfLoop(p: Process, t: Table, k: nat)
    requires k < |Plan(p, t)| && Plan(p, t)[k].MarkSucceeded?
    ensures var done := SucceededIds(ApplyAll(t, HEAD));
      var loop := LoopPlan(p.runner.ids, done, p.runner.forced, p.runner.mode, p.env).events;
      2 <= k < |loop| + 2 && Plan(p, t)[k] == loop[k - 2] && (k > 2 ==> Plan(p, t)[k - 1] == loop[k - 3])
  {
  }

  lemma {:induction false} RecordNeedsMark(t: Table, es: seq<Event>, id: string)
    requires !Recorded(t, id) && Recorded(ApplyAll(t, es), id)
    ensures exists w :: MarkSucceeded(id, w) in es
    decreases |es|
  {
    if es != [] {
      if Recorded(Apply(t, es[0]), id) {
        assert MarkSucceeded(id, es[0].w) in es;
      } else {
        RecordNeedsMark(Apply(t, es[0]), es[1..], id);
        var w :| MarkSucceeded(id, w) in es[1..];
        assert MarkSucceeded(id, w) in es;
      }
    }
  }

  /** Across crashes and restarts, a success on record is never invented: the task's own Run
      returned nil in some process. */
  lemma {:induction false} SuccessIsJustified(ps: seq<Process>, t: Table, id: string)
    requires !Recorded(t, id) && Recorded(ApplyAll(t, History(ps, t)), id)
    ensures Execute(id, true) in History(ps, t)
    decreases |ps|
  {
    if ps != [] {
      var did := Did(ps[0], t);
      var t' := ApplyAll(t, did);
      ApplyConcat(t, did, History(ps[1..], t'));
      if Recorded(t', id) {
        RecordNeedsMark(t, did, id);
        var w :| MarkSucceeded(id, w) in did;
        DidJustified(ps[0], t, id, w);
      } else {
        SuccessIsJustified(ps[1..], t', id);
      }
    }
  }

  // ----- order, strict mode and verdict of one run -----

  /** The ids executed, in order. */
  function Executed(es: seq<Event>): seq<string> {
    if es == [] then [] else (if es[0].Execute? then [es[0].id] else []) + Executed(es[1..])
  }

  lemma {:induction false} ExecutedConcat(a: seq<Event>, b: seq<Event>)
    ensures Executed(a + b) == Executed(a) + Executed(b)
  {
    if a == [] {
      assert a + b == b;
    } else {
      ExecutedConcat(a[1..], b);
      assert (a + b)[1..] == a[1..] + b;
      Regroup(if a[0].Execute? then [a[0].id] else [], Executed(a[1..]), Executed(b));
    }
  }

  lemma Regroup(x: seq<string>, y: seq<string>, z: seq<string>)
    ensures x + (y + z) == x + y + z
  {
  }

  lemma TaskExecuted(id: string, done: set<string>, forced: set<string>, mode: Mode, env: RunEnv)
    ensures var es := TaskPlan(id, done, forced, mode, env).events;
      Executed(es) == (if ((id in done && id !in forced) || env.task(id).skip || env.task(id).running != Done)
        then [] else [id])
  {
    var es := TaskPlan(id, done, forced, mode, env).events;
    if |es| >= 2 {
      assert Executed(es[2..]) == [];
      assert es[1..][0] == es[1] && es[1..][1..] == es[2..];
    } else if |es| == 1 {
      assert es[1..] == [];
    }
  }

  predicate Due(id: string, done: set<string>, forced: set<string>, env: RunEnv) {
    (id in done ==> id in forced) && !env.task(id).skip
  }

  lemma {:induction false} LoopExecutesDue(ids: seq<string>, done: set<string>, forced: set<string>, mode: Mode,
                                           env: RunEnv)
    ensures forall x :: x in Executed(LoopPlan(ids, done, forced, mode, env).events) ==>
      x in ids && Due(x, done, forced, env)
    decreases |ids|
  {
    if ids != [] {
      LoopExecutesDue(ids[1..], done, forced, mode, env);
      TaskExecuted(ids[0], done, forced, mode, env);
      ExecutedConcat(TaskPlan(ids[0], done, forced, mode, env).events,
        LoopPlan(ids[1..], done, forced, mode, env).events);
      assert forall x :: x in ids[1..] ==> x in ids;
    }
  }

  lemma SortedCons(id: string, ids: seq<string>)
    requires Sorted(ids) && forall x :: x in ids ==> Below(id, x)
    ensures Sorted([id] + ids)
  {
  }

  lemma {:induction false} LoopExecutesAscending(ids: seq<string>, done: set<string>, forced: set<string>, mode: Mode,
                                                 env: RunEnv)
    requires Sorted(ids)
    ensures Sorted(Executed(LoopPlan(ids, done, forced, mode, env).events))
    decreases |ids|
  {
    if ids != [] {
      var here := TaskPlan(ids[0], done, forced, mode, env).events;
      var rest := LoopPlan(ids[1..], done, forced, mode, env).events;
      LoopExecutesAscending(ids[1..], done, forced, mode, env);
      LoopExecutesDue(ids[1..], done, forced, mode, env);
      TaskExecuted(ids[0], done, forced, mode, env);
      ExecutedConcat(here, rest);
      forall x | x in ids[1..] ensures Below(ids[0], x) {
        var j :| 0 <= j < |ids[1..]| && ids[1..][j] == x;
        assert ids[j + 1] == x;
      }
      if Executed(here) == [] {
        assert Executed(here + rest) == Executed(rest);
      } else {
        SortedCons(ids[0], Executed(rest));
      }
      if TaskPlan(ids[0], done, forced, mode, env).stop.Some? {
        assert Executed(here) + [] == Executed(here);
      }
    }
  }

  lemma PlanExecutesAscending(p: Process, t: Table)
    requires Sorted(p.runner.ids)
    ensures Sorted(Executed(Plan(p, t)))
    ensures forall x :: x in Executed(Plan(p, t)) ==>
              x in p.runner.ids && (!Recorded(t, x) || x in p.runner.forced) && !p.env.task(x).skip
  {
    var plan := Plan(p, t);
    if p.env.abortRuns && p.env.abortTasks && p.env.start.Done? && p.env.queryOk {
      var head := [AbortStale(true, true), StartRun(Done)];
      var done := SucceededIds(ApplyAll(t, head));
      var loop := LoopPlan(p.runner.ids, done, p.runner.forced, p.runner.mode, p.env).events;
      LoopExecutesAscending(p.runner.ids, done, p.runner.forced, p.runner.mode, p.env);
      LoopExecutesDue(p.runner.ids, done, p.runner.forced, p.runner.mode, p.env);
      var last := plan[|plan| - 1];
      assert plan == head + loop + [last];
      ExecutedConcat(head + loop, [last]);
      ExecutedConcat(head, loop);
      NothingExecuted(head);
      NothingExecuted([last]);
      forall x | Recorded(t, x) ensures x in done {
        RecordKept(t, head, x);
      }
    } else {
      NothingExecuted(plan);
    }
  }

  /** Executed ids are strictly ascending in every run, killed or not, and each was due: not
      recorded as succeeded at the start unless forced, and not skipped. */
  lemma RunExecutesAscending(p: Process, t: Table)
    requires Sorted(p.runner.ids)
    ensures Sorted(Executed(Did(p, t)))
    ensures forall x :: x in Executed(Did(p, t)) ==>
              x in p.runner.ids && (!Recorded(t, x) || x in p.runner.forced) && !p.env.task(x).skip
  {
    var plan, did := Plan(p, t), Did(p, t);
    assert plan == did + plan[|did|..];
    ExecutedConcat(did, plan[|did|..]);
    PlanExecutesAscending(p, t);
    var all, some := Executed(plan), Executed(did);
    assert forall i :: 0 <= i < |some| ==> some[i] == all[i];
    assert forall x :: x in some ==> x in all;
  }

  lemma {:induction false} NothingExecuted(es: seq<Event>)
    requires forall e :: e in es ==> !e.Execute?
    ensures Executed(es) == []
  {
    if es != [] {
      NothingExecuted(es[1..]);
    }
  }

  /** Strict mode: after a task has failed, nothing else is started. */
  lemma {:induction false} StrictStopsAtFailure(ids: seq<string>, done: set<string>, forced: set<string>, env: RunEnv,
                                                k: nat, j: nat)
    requires var es := LoopPlan(ids, done, forced, Strict, env).events;
      k < j < |es| && es[k].Execute? && !es[k].ok
    ensures var es := LoopPlan(ids, done, forced, Strict, env).events;
      j == k + 1 && es[j].MarkFailed? && es[j].id == es[k].id && j == |es| - 1
    decreases |ids|
  {
    var t := TaskPlan(ids[0], done, forced, Strict, env);
    if k >= |t.events| {
      StrictStopsAtFailure(ids[1..], done, forced, env, k - |t.events|, j - |t.events|);
    }
  }

  /** Strict mode, over a whole run, killed or not: after a failed task comes at most its failure mark and the
      end of the run. */
  lemma StrictRunStops(p: Process, t: Table, k: nat, j: nat)
    requires p.runner.mode == Strict && k < j < |Did(p, t)| && Did(p, t)[k].Execute? && !Did(p, t)[k].ok
    ensures var e := Did(p, t)[j];
      e.FinishRun? || (j == k + 1 && e.MarkFailed? && e.id == Did(p, t)[k].id)
  {
    var env, head := p.env, [AbortStale(true, true), StartRun(Done)];
    var done := SucceededIds(ApplyAll(t, head));
    var es := LoopPlan(p.runner.ids, done, p.runner.forced, Strict, env).events;
    assert Plan(p, t)[k] == Did(p, t)[k] && Plan(p, t)[j] == Did(p, t)[j];
    if j < |es| + 2 {
      assert Plan(p, t)[k] == es[k - 2] && Plan(p, t)[j] == es[j - 2];
      StrictStopsAtFailure(p.runner.ids, done, p.runner.forced, env, k - 2, j - 2);
    }
  }

  // ----- what a completed run has recorded -----

  lemma {:induction false} LoopWritesOnly(ids: seq<string>, done: set<string>, forced: set<string>, mode: Mode,
                                          env: RunEnv)
    ensures forall e, id :: e in LoopPlan(ids, done, forced, mode, env).events && Writes(e, id) ==> id in ids
    ensures forall e :: e in LoopPlan(ids, done, forced, mode, env).events ==> exists id :: Writes(e, id)
    decreases |ids|
  {
    if ids != [] {
      LoopWritesOnly(ids[1..], done, forced, mode, env);
      forall e | e in TaskPlan(ids[0], done, forced, mode, env).events ensures Writes(e, ids[0]) {
      }
    }
  }

  /** A clean loop leaves every task recorded as succeeded, or skipped by ShouldSkip. */
  lemma {:induction false} CleanLoopRecordsAll(t: Table, ids: seq<string>, done: set<string>, forced: set<string>,
                                               mode: Mode, env: RunEnv)
    requires Sorted(ids) && LoopPlan(ids, done, forced, mode, env).end == Clean
    requires forall id :: id in done && id in ids ==> Recorded(t, id)
    ensures forall id :: id in ids && !env.task(id).skip ==>
      Recorded(ApplyAll(t, LoopPlan(ids, done, forced, mode, env).events), id)
    decreases |ids|
  {
    if ids != [] {
      var id := ids[0];
      var task := TaskPlan(id, done, forced, mode, env);
      var rest := LoopPlan(ids[1..], done, forced, mode, env).events;
      var t' := ApplyAll(t, task.events);
      ApplyConcat(t, task.events, rest);
      TaskKeepsOthers(t, id, done, forced, mode, env);
      assert forall x :: x in ids[1..] ==> x in ids;
      forall j | 0 <= j < |ids[1..]| ensures ids[1..][j] != id {
        BelowTotal(id, ids[j + 1]);
      }
      CleanLoopRecordsAll(t', ids[1..], done, forced, mode, env);
      if !env.task(id).skip {
        LoopWritesOnly(ids[1..], done, forced, mode, env);
        RecordKept(t', rest, id);
      }
      forall x | x in ids && !env.task(x).skip
        ensures Recorded(ApplyAll(t', rest), x)
      {
        assert x == id || x in ids[1..];
      }
    }
  }

  /** One clean iteration records its task and leaves the others' records alone. */
  lemma TaskKeepsOthers(t: Table, id: string, done: set<string>, forced: set<string>, mode: Mode, env: RunEnv)
    requires var o := TaskPlan(id, done, forced, mode, env);
      !o.failed && o.stop == None
    requires id in done ==> Recorded(t, id)
    ensures var t' := ApplyAll(t, TaskPlan(id, done, forced, mode, env).events);
      && (!env.task(id).skip ==> Recorded(t', id))
      && (forall x :: x != id && Recorded(t, x) ==> Recorded(t', x))
  {
    var es := TaskPlan(id, done, forced, mode, env).events;
    if es != [] {
      var a, b, c := MarkRunning(id, Done), Execute(id, true), MarkSucceeded(id, Done);
      assert es == [a] + [b] + [c];
      ApplyConcat(t, [a] + [b], [c]);
      ApplyConcat(t, [a], [b]);
      ApplyOne(t, a);
      ApplyOne(Apply(t, a), b);
      ApplyOne(Apply(Apply(t, a), b), c);
    }
  }

  lemma {:induction false} LoopKeepsRuns(t: Table, es: seq<Event>)
    requires forall e :: e in es ==> exists id :: Writes(e, id)
    ensures ApplyAll(t, es).runs == t.runs
    decreases |es|
  {
    if es != [] {
      assert es[0] in es;
      assert forall e :: e in es[1..] ==> e in es;
      LoopKeepsRuns(Apply(t, es[0]), es[1..]);
    }
  }

  const HEAD: seq<Event> := [AbortStale(true, true), StartRun(Done)]

  lemma AfterRun(t: Table, loop: seq<Event>, last: Event)
    ensures ApplyAll(t, HEAD + loop + [last]) == Apply(ApplyAll(ApplyAll(t, HEAD), loop), last)
  {
    ApplyConcat(t, HEAD + loop, [last]);
    ApplyConcat(t, HEAD, loop);
    ApplyOne(ApplyAll(ApplyAll(t, HEAD), loop), last);
  }

  lemma HeadAdds(t: Table)
    ensures |ApplyAll(t, HEAD).runs| == |t.runs| + 1
  {
    assert HEAD == [HEAD[0]] + [HEAD[1]];
    ApplyConcat(t, [HEAD[0]], [HEAD[1]]);
    ApplyOne(t, HEAD[0]);
    ApplyOne(Apply(t, HEAD[0]), HEAD[1]);
  }

  /** The events of a run past StartRun: what the loop does, and the end with the verdict. */
  lemma RunEvents(r: Runner, env: RunEnv, t: Table) returns (loop: seq<Event>, last: Event)
    requires env.abortRuns && env.abortTasks && env.start == Done
    ensures var out := RunPlan(r.ids, r.forced, r.mode, env, t);
      && out.events == HEAD + loop + [last]
      && last.FinishRun? && last == FinishRun(|t.runs|, last.status, env.finish)
      && last.status != Running && (last.status == Succeeded <==> out.result.Ok?)
    ensures forall e :: e in loop ==> exists id :: Writes(e, id)
  {
    var done := SucceededIds(ApplyAll(t, HEAD));
    var out := RunPlan(r.ids, r.forced, r.mode, env, t);
    LoopWritesOnly(r.ids, done, r.forced, r.mode, env);
    loop := if env.queryOk then LoopPlan(r.ids, done, r.forced, r.mode, env).events else [];
    last := out.events[|out.events| - 1];
    assert HEAD + [] == HEAD;
  }

  /** A run that got past StartRun and whose last write was not lost has exit code 0 on record
      exactly if it returned nil, and exit code 1 otherwise. */
  lemma ExitCodeIsVerdict(r: Runner, env: RunEnv, t: Table)
    requires env.abortRuns && env.abortTasks && env.start == Done && env.finish != Lost
    ensures var out := RunPlan(r.ids, r.forced, r.mode, env, t);
      var after := ApplyAll(t, out.events);
      && |after.runs| == |t.runs| + 1
      && after.runs[|t.runs|].status != Running
      && after.runs[|t.runs|].exitCode == (if out.result.Ok? then 0 else 1)
      && (after.runs[|t.runs|].status == Succeeded <==> out.result.Ok?)
  {
    var loop, last := RunEvents(r, env, t);
    HeadAdds(t);
    LoopKeepsRuns(ApplyAll(t, HEAD), loop);
    AfterRun(t, loop, last);
  }

  /** A run that returns nil has been through a clean loop. */
  lemma NilRun(r: Runner, env: RunEnv, t: Table)
    requires RunPlan(r.ids, r.forced, r.mode, env, t).result.Ok?
    ensures var loop := LoopPlan(r.ids, SucceededIds(ApplyAll(t, HEAD)), r.forced, r.mode, env);
      && loop.end == Clean
      && RunPlan(r.ids, r.forced, r.mode, env, t).events
         == HEAD + loop.events + [FinishRun(|t.runs|, Succeeded, env.finish)]
  {
  }

  /** Run returns nil only if every registered task is recorded as succeeded or was skipped. */
  lemma NilMeansAllSucceeded(r: Runner, env: RunEnv, t: Table)
    requires Sorted(r.ids) && RunPlan(r.ids, r.forced, r.mode, env, t).result.Ok?
    ensures var after := ApplyAll(t, RunPlan(r.ids, r.forced, r.mode, env, t).events);
      forall id :: id in r.ids && !env.task(id).skip ==> Recorded(after, id)
  {
    var t1 := ApplyAll(t, HEAD);
    var loop := LoopPlan(r.ids, SucceededIds(t1), r.forced, r.mode, env).events;
    NilRun(r, env, t);
    AfterRun(t, loop, FinishRun(|t.runs|, Succeeded, env.finish));
    CleanLoopRecordsAll(t1, r.ids, SucceededIds(t1), r.forced, r.mode, env);
  }
}
