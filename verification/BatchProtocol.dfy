/**
 Every interleaving of Append calls, Close calls, the worker and the cancellation of the root
 context. One action is one lock region, one channel operation or one worker operation.
 */
module BatchProtocol {
  import opened Wrappers
  import opened BatchInserter

  /** One Append call. `Selecting(full)`: in its first (false) or second (true) select. */
  datatype Producer = Selecting(val: int, full: bool) | Leaving(val: int, ok: bool) | Returned(val: int, ok: bool)

  /** The body of closeOnce. */
  datatype Closing = NotStarted | Gated | Signalled | Sealed

  datatype WorkerAt = Looping | Consuming | Draining | Finishing | Exited

  datatype State = State(
    capacity: nat,
    rootDone: bool,
    closing: Closing,
    producers: seq<Producer>,
    appendWg: int,
    queue: seq<Row>,
    sendReq: bool,
    at: WorkerAt,
    hand: Option<Row>,       // a row received but not yet appended to the batch
    w: Writer,
    accepted: seq<Row>,      // rows whose Append succeeded, in the order of the channel sends
    late: seq<Row>,          // ... those sent after the worker had stopped receiving
    closeResults: seq<Option<Error>>) // what each finished Close returned

  datatype Action =
    | CancelRoot
    | AppendGate(val: int)
    | AppendGiveUp(call: nat)
    | AppendSend(call: nat)
    | AppendFull(call: nat)
    | AppendDone(call: nat)
    | CloseGate
    | CloseSignal
    | CloseSeal
    | CloseReturn
    | WorkReceive
    | WorkAppend(prepared: Reply, appended: Reply)
    | WorkFlush(onRequest: bool, o: SendOutcome)
    | WorkSeesClose
    | WorkSeesCancel
    | WorkEndOfQueue
    | WorkSend(o: SendOutcome)

  function Start(capacity: nat): State {
    State(capacity, false, NotStarted, [], 0, [], false, Looping, None, EMPTY, [], [], [])
  }

  predicate InSelect(s: State, call: nat) {
    call < |s.producers| && s.producers[call].Selecting?
  }

  predicate Enabled(s: State, a: Action) {
    match a
    case CancelRoot => true
    case AppendGate(_) => true
    case AppendGiveUp(c) => InSelect(s, c) // own context, root context or closeCh; Append's ctx may be done at any time
    case AppendSend(c) => InSelect(s, c) && |s.queue| < s.capacity
    case AppendFull(c) =>
      InSelect(s, c) && !s.producers[c].full && |s.queue| >= s.capacity && s.closing in {NotStarted, Gated}
        && !s.rootDone
    case AppendDone(c) => c < |s.producers| && s.producers[c].Leaving?
    case CloseGate => s.closing == NotStarted
    case CloseSignal => s.closing == Gated
    case CloseSeal => s.closing == Signalled && s.appendWg == 0
    case CloseReturn => s.closing == Sealed && s.at == Exited
    case WorkReceive => s.at in {Looping, Consuming, Draining} && s.hand == None && |s.queue| > 0
    case WorkAppend(_, _) => s.hand.Some?
    case WorkFlush(onRequest, _) => s.at == Looping && s.hand == None && (onRequest ==> s.sendReq)
    case WorkSeesClose => s.at == Looping && s.hand == None && s.closing in {Signalled, Sealed}
    case WorkSeesCancel => s.at == Looping && s.hand == None && s.rootDone
    case WorkEndOfQueue =>
      && s.at in {Looping, Consuming, Draining} && s.hand == None && |s.queue| == 0
      && (s.closing == Sealed || s.at == Draining)
    case WorkSend(_) => s.at == Finishing
  }

  function Next(s: State, a: Action): State
    requires Enabled(s, a)
  {
    match a
    case CancelRoot => s.(rootDone := true)
    case AppendGate(v) =>
      if s.closing == NotStarted
      then s.(producers := s.producers + [Selecting(v, false)], appendWg := s.appendWg + 1)
      else s.(producers := s.producers + [Returned(v, false)])
    case AppendGiveUp(c) =>
      s.(producers := s.producers[c := Leaving(s.producers[c].val, false)])
    case AppendSend(c) =>
      var row := Row(c, s.producers[c].val);
      s.(producers := s.producers[c := Leaving(row.val, true)],
         queue := s.queue + [row], accepted := s.accepted + [row],
         late := if s.at in {Finishing, Exited} then s.late + [row] else s.late)
    case AppendFull(c) =>
      s.(producers := s.producers[c := Selecting(s.producers[c].val, true)], sendReq := true)
    case AppendDone(c) =>
      s.(producers := s.producers[c := Returned(s.producers[c].val, s.producers[c].ok)], appendWg := s.appendWg - 1)
    case CloseGate => s.(closing := Gated)
    case CloseSignal => s.(closing := Signalled)
    case CloseSeal => s.(closing := Sealed)
    case CloseReturn => s.(closeResults := s.closeResults + [s.w.err])
    case WorkReceive => s.(hand := Some(s.queue[0]), queue := s.queue[1..])
    case WorkAppend(prepared, appended) =>
      s.(hand := None, w := AfterAppend(s.w, s.hand.value, prepared, appended))
    case WorkFlush(onRequest, o) =>
      s.(sendReq := s.sendReq && !onRequest, w := AfterFlush(s.w, o))
    case WorkSeesClose => s.(at := Consuming)
    case WorkSeesCancel => s.(at := Draining)
    case WorkEndOfQueue => s.(at := Finishing)
    case WorkSend(o) => s.(at := Exited, w := AfterSend(s.w, o))
  }

  // ----- the invariant -----

  predicate PastGate(p: Producer) {
    p.Selecting? || p.Leaving?
  }

  function PastGateCount(ps: seq<Producer>): nat {
    if ps == [] then 0 else (if PastGate(ps[0]) then 1 else 0) + PastGateCount(ps[1..])
  }

  function InHand(s: State): seq<Row> {
    if s.hand.Some? then [s.hand.value] else []
  }

  /** How often a row must occur among the accepted ones: once iff its Append has succeeded. */
  function Acceptances(ps: seq<Producer>, r: Row): nat {
    if r.call < |ps| && ps[r.call].val == r.val && !ps[r.call].Selecting? && ps[r.call].ok then 1 else 0
  }

  /** The shared fields: gate, channel and worker agree on how far closing has come. */
  ghost predicate Coordinated(s: State) {
    && s.appendWg == PastGateCount(s.producers)
    && |s.queue| <= s.capacity
    && (s.closing == Sealed ==> s.appendWg == 0)
    && (s.hand.Some? ==> s.at in {Looping, Consuming, Draining})
    && (s.at in {Finishing, Exited} ==> s.rootDone || (s.closing == Sealed && s.queue == []))
    && (s.at == Draining ==> s.rootDone)
    && (s.at == Consuming ==> s.closing in {Signalled, Sealed})
    && (s.closeResults != [] ==> s.closing == Sealed && s.at == Exited)
    && (forall k :: 0 <= k < |s.closeResults| ==> s.closeResults[k] == s.w.err)
    && (if s.at in {Finishing, Exited} then s.queue == s.late else s.late == [])
  }

  ghost predicate Conserved(s: State) {
    !s.w.Failed() ==>
      && Held(s.w) + InHand(s) + s.queue == s.accepted
      && (s.at == Exited ==> s.w.batcher == None)
  }

  /** Exactly the rows of successful Appends are accepted, once each. */
  ghost predicate Accepted(ps: seq<Producer>, accepted: seq<Row>) {
    forall r: Row :: multiset(accepted)[r] == Acceptances(ps, r)
  }

  ghost predicate Inv(s: State) {
    Coordinated(s) && Conserved(s) && Accepted(s.producers, s.accepted) && ErrorsOk(s.w)
  }

  lemma {:induction false} CountUpdate(ps: seq<Producer>, c: nat, p: Producer)
    requires c < |ps|
    ensures PastGateCount(ps[c := p])
         == PastGateCount(ps) - (if PastGate(ps[c]) then 1 else 0) + (if PastGate(p) then 1 else 0)
  {
    if c == 0 {
      assert ps[0 := p][1..] == ps[1..];
    } else {
      CountUpdate(ps[1..], c - 1, p);
      assert ps[c := p][1..] == ps[1..][c - 1 := p];
    }
  }

  lemma {:induction false} CountAppend(ps: seq<Producer>, p: Producer)
    ensures PastGateCount(ps + [p]) == PastGateCount(ps) + if PastGate(p) then 1 else 0
  {
    if ps != [] {
      CountAppend(ps[1..], p);
      assert (ps + [p])[1..] == ps[1..] + [p];
    }
  }

  lemma {:induction false} CountPositive(ps: seq<Producer>, c: nat)
    requires c < |ps| && PastGate(ps[c])
    ensures PastGateCount(ps) > 0
  {
    if c > 0 {
      CountPositive(ps[1..], c - 1);
    }
  }

  predicate OfAppend(a: Action) {
    a.AppendGate? || a.AppendGiveUp? || a.AppendSend? || a.AppendFull? || a.AppendDone?
  }

  /** The worker's steps that move rows. */
  predicate OfRows(a: Action) {
    a.WorkReceive? || a.WorkAppend? || a.WorkFlush? || a.WorkSend?
  }

  lemma AppendKeepsAccepted(s: State, a: Action)
    requires Inv(s) && Enabled(s, a) && OfAppend(a)
    ensures Accepted(Next(s, a).producers, Next(s, a).accepted)
  {
    if a.AppendSend? {
      SendAccepted(s.producers, s.accepted, a.call);
    } else {
      var s' := Next(s, a);
      forall r: Row ensures multiset(s'.accepted)[r] == Acceptances(s'.producers, r) {
        assert multiset(s.accepted)[r] == Acceptances(s.producers, r);
      }
    }
  }

  /** A send accepts the call's row, which was not accepted before. */
  lemma SendAccepted(ps: seq<Producer>, accepted: seq<Row>, c: nat)
    requires Accepted(ps, accepted) && c < |ps| && ps[c].Selecting?
    ensures Accepted(ps[c := Leaving(ps[c].val, true)], accepted + [Row(c, ps[c].val)])
  {
    var row := Row(c, ps[c].val);
    assert multiset(accepted + [row]) == multiset(accepted) + multiset{row};
    forall r: Row
      ensures multiset(accepted + [row])[r] == Acceptances(ps[c := Leaving(ps[c].val, true)], r)
    {
      assert multiset(accepted)[r] == Acceptances(ps, r);
    }
  }

  /** The steps of an Append call. */
  lemma AppendKeeps(s: State, a: Action)
    requires Inv(s) && Enabled(s, a) && OfAppend(a)
    ensures Coordinated(Next(s, a)) && Conserved(Next(s, a))
  {
    var s' := Next(s, a);
    if a.AppendGate? {
      CountAppend(s.producers, s'.producers[|s.producers|]);
    } else {
      CountUpdate(s.producers, a.call, s'.producers[a.call]);
      CountPositive(s.producers, a.call);
    }
    if a.AppendSend? {
      var row := Row(a.call, s.producers[a.call].val);
      Reassociate(Held(s.w) + InHand(s), s.queue, [row]);
    }
  }

  lemma Reassociate(a: seq<Row>, b: seq<Row>, c: seq<Row>)
    ensures a + (b + c) == a + b + c
  {
  }

  lemma ReceiveKeeps(s: State)
    requires Inv(s) && Enabled(s, WorkReceive)
    ensures Conserved(Next(s, WorkReceive))
  {
    assert s.queue == [s.queue[0]] + s.queue[1..];
    Reassociate(Held(s.w), [s.queue[0]], s.queue[1..]);
    assert Held(s.w) + [] == Held(s.w);
  }

  lemma WorkAppendKeeps(s: State, prepared: Reply, appended: Reply)
    requires Inv(s) && Enabled(s, WorkAppend(prepared, appended))
    ensures Conserved(Next(s, WorkAppend(prepared, appended)))
  {
    var w' := AfterAppend(s.w, s.hand.value, prepared, appended);
    if !w'.Failed() {
      AppendConserves(s.w, s.hand.value, prepared, appended);
      assert Held(w') + [] == Held(w');
    }
  }

  lemma CommitKeeps(s: State, a: Action)
    requires Inv(s) && Enabled(s, a) && (a.WorkFlush? || a.WorkSend?)
    ensures Conserved(Next(s, a))
  {
    var w' := Next(s, a).w;
    if !w'.Failed() {
      if a.WorkFlush? {
        FlushConserves(s.w, a.o);
      } else {
        SendCommitsAll(s.w, a.o);
        assert OpenRows(w') == [] && Held(w') == Held(s.w);
      }
    }
  }

  lemma AppendStepKeeps(s: State, a: Action)
    requires Inv(s) && Enabled(s, a) && OfAppend(a)
    ensures Inv(Next(s, a))
  {
    AppendKeeps(s, a);
    AppendKeepsAccepted(s, a);
  }

  lemma RowStepKeeps(s: State, a: Action)
    requires Inv(s) && Enabled(s, a) && OfRows(a)
    ensures Inv(Next(s, a))
  {
    match a
    case WorkReceive =>
      ReceiveKeeps(s);
    case WorkAppend(prepared, appended) =>
      WorkAppendKeeps(s, prepared, appended);
      AppendErrors(s.w, s.hand.value, prepared, appended);
    case WorkFlush(_, o) =>
      CommitKeeps(s, a);
      CommitErrors(s.w, o);
    case WorkSend(o) =>
      CommitKeeps(s, a);
      CommitErrors(s.w, o);
  }

  /** Cancellation, Close and the worker's changes of place leave the rows alone. */
  lemma PlaceStepKeeps(s: State, a: Action)
    requires Inv(s) && Enabled(s, a) && !OfAppend(a) && !OfRows(a)
    ensures Inv(Next(s, a))
  {
  }

  lemma StepKeeps(s: State, a: Action)
    requires Inv(s) && Enabled(s, a)
    ensures Inv(Next(s, a))
  {
    if OfAppend(a) {
      AppendStepKeeps(s, a);
    } else if OfRows(a) {
      RowStepKeeps(s, a);
    } else {
      PlaceStepKeeps(s, a);
    }
  }

  // ----- runs -----

  ghost predicate Runs(s: State, acts: seq<Action>, s': State)
    decreases |acts|
  {
    if acts == [] then s == s'
    else Enabled(s, acts[0]) && Runs(Next(s, acts[0]), acts[1..], s')
  }

  lemma {:induction false} RunKeeps(s: State, acts: seq<Action>, s': State)
    requires Inv(s) && Runs(s, acts, s')
    ensures Inv(s')
    decreases |acts|
  {
    if acts != [] {
      StepKeeps(s, acts[0]);
      RunKeeps(Next(s, acts[0]), acts[1..], s');
    }
  }

  lemma Reachable(capacity: nat, acts: seq<Action>, s: State)
    requires Runs(Start(capacity), acts, s)
    ensures Inv(s)
  {
    assert forall r: Row :: multiset(Start(capacity).accepted)[r] == 0;
    RunKeeps(Start(capacity), acts, s);
  }

  /** FIFO conservation: while no worker error is recorded, committed rows, open batch, row in hand
      and queue spell the accepted rows in order; each successful Append is there exactly once. */
  lemma Conservation(capacity: nat, acts: seq<Action>, s: State)
    requires Runs(Start(capacity), acts, s)
    ensures !s.w.Failed() ==> s.w.stored + OpenRows(s.w) + InHand(s) + s.queue == s.accepted
    ensures forall r: Row :: multiset(s.accepted)[r] == Acceptances(s.producers, r)
    ensures |s.queue| <= capacity
  {
    Reachable(capacity, acts, s);
    CapacityFixed(Start(capacity), acts, s);
  }

  lemma {:induction false} CapacityFixed(s: State, acts: seq<Action>, s': State)
    requires Runs(s, acts, s')
    ensures s'.capacity == s.capacity
    decreases |acts|
  {
    if acts != [] {
      CapacityFixed(Next(s, acts[0]), acts[1..], s');
    }
  }

  /** In no interleaving is a producer in a select, able to send, once dataCh is closed. */
  lemma NoSendOnClosedChannel(capacity: nat, acts: seq<Action>, s: State, call: nat)
    requires Runs(Start(capacity), acts, s) && s.closing == Sealed
    ensures !InSelect(s, call) && !Enabled(s, AppendSend(call))
  {
    Reachable(capacity, acts, s);
    if InSelect(s, call) {
      CountPositive(s.producers, call);
    }
  }

  /** What a Close that returned nil says: the accepted rows were committed once each and in order,
      up to rows left in the queue, and none is left while the root context is live. */
  lemma CloseNilMeansStored(capacity: nat, acts: seq<Action>, s: State)
    requires Runs(Start(capacity), acts, s)
    requires None in s.closeResults
    ensures s.w.stored + s.queue == s.accepted
    ensures !s.rootDone ==> s.w.stored == s.accepted
  {
    Reachable(capacity, acts, s);
    var k :| 0 <= k < |s.closeResults| && s.closeResults[k] == None;
    ExitedRows(capacity, acts, s);
    assert s.queue == [] ==> s.w.stored + s.queue == s.w.stored;
  }

  /** Every Close call returns the error recorded last, and nil exactly if none was recorded. */
  lemma CloseReturnsLast(capacity: nat, acts: seq<Action>, s: State, k: nat)
    requires Runs(Start(capacity), acts, s) && k < |s.closeResults|
    ensures s.closing == Sealed && s.at == Exited
    ensures s.closeResults[k] == if s.w.errors == [] then None else Some(s.w.errors[|s.w.errors| - 1])
  {
    Reachable(capacity, acts, s);
  }

  /** Close returns the first worker error, as its documentation says, exactly if no later operation recorded
      another one. */
  lemma CloseReturnsFirstIff(capacity: nat, acts: seq<Action>, s: State, k: nat)
    requires Runs(Start(capacity), acts, s) && k < |s.closeResults| && s.w.errors != []
    ensures s.closeResults[k] == Some(s.w.errors[0]) <==> |s.w.errors| == 1
  {
    Reachable(capacity, acts, s);
    var n := |s.w.errors| - 1;
    assert s.w.errors[n].nth == n && s.w.errors[0].nth == 0;
  }

  // ----- ticks and requests -----

  /** A tick or a request whose send succeeds commits the whole open batch. While no error is recorded, what is
      then committed and what is queued spell the accepted rows. */
  lemma FlushCommits(capacity: nat, acts: seq<Action>, s: State, onRequest: bool)
    requires Runs(Start(capacity), acts, s) && Enabled(s, WorkFlush(onRequest, Sent))
    ensures var s' := Next(s, WorkFlush(onRequest, Sent));
            && (Open(s.w.batcher) && s.w.batcher.value.rows != [] ==>
                  s'.w == Writer(None, s.w.err, s.w.errors, s.w.stored + s.w.batcher.value.rows))
            && (s'.w.errors == [] ==> s'.w.stored + s'.queue == s'.accepted)
  {
    var s' := Next(s, WorkFlush(onRequest, Sent));
    Reachable(capacity, acts, s);
    StepKeeps(s, WorkFlush(onRequest, Sent));
    if s'.w.errors == [] {
      assert OpenRows(s'.w) == [] && InHand(s') == [];
      assert Held(s'.w) + [] == s'.w.stored;
    }
  }

  /** A flush whose send fails commits nothing and records the error. */
  lemma FailedFlushRecorded(s: State, onRequest: bool, marksSent: bool, code: int)
    requires Enabled(s, WorkFlush(onRequest, SendFailed(marksSent, code)))
    requires Open(s.w.batcher) && s.w.batcher.value.rows != []
    ensures var s' := Next(s, WorkFlush(onRequest, SendFailed(marksSent, code)));
            var e := Error(Sending, code, |s.w.errors|);
            && s'.w.stored == s.w.stored && s'.accepted == s.accepted && s'.queue == s.queue
            && s'.w.err == Some(e) && s'.w.errors == s.w.errors + [e]
  {
  }

  /** A producer that finds the queue full leaves a request to commit, which stays until the worker has
      flushed for it. */
  lemma RequestStays(s: State, call: nat, acts: seq<Action>, s': State)
    requires Enabled(s, AppendFull(call)) && Runs(Next(s, AppendFull(call)), acts, s')
    requires forall o :: WorkFlush(true, o) !in acts
    ensures s'.sendReq && (s'.at == Looping && s'.hand == None ==> Enabled(s', WorkFlush(true, Sent)))
  {
    RequestKept(Next(s, AppendFull(call)), acts, s');
  }

  /** A flush on request takes the request, and a tick leaves it. */
  lemma FlushTakesRequest(s: State, onRequest: bool, o: SendOutcome)
    requires Enabled(s, WorkFlush(onRequest, o))
    ensures onRequest ==> s.sendReq && !Next(s, WorkFlush(onRequest, o)).sendReq
    ensures !onRequest ==> Next(s, WorkFlush(onRequest, o)).sendReq == s.sendReq
  {
  }

  lemma {:induction false} RequestKept(s: State, acts: seq<Action>, s': State)
    requires s.sendReq && Runs(s, acts, s') && forall o :: WorkFlush(true, o) !in acts
    ensures s'.sendReq
    decreases |acts|
  {
    if acts != [] {
      assert acts[0] in acts;
      assert !(acts[0].WorkFlush? && acts[0].onRequest);
      RequestKept(Next(s, acts[0]), acts[1..], s');
    }
  }

  // ----- rows after the worker has left -----

  lemma ExitedRows(capacity: nat, acts: seq<Action>, s: State)
    requires Runs(Start(capacity), acts, s) && s.at == Exited && !s.w.Failed()
    ensures s.accepted == s.w.stored + s.late && s.queue == s.late
  {
    Reachable(capacity, acts, s);
    assert s.hand == None && OpenRows(s.w) == [];
    assert Held(s.w) == s.w.stored;
    assert s.w.stored + [] + s.queue == s.accepted;
    assert s.w.stored + [] == s.w.stored;
  }

  /** The worker does not come back, and no row is committed without it. */
  lemma {:induction false} ExitedForever(s: State, acts: seq<Action>, s': State)
    requires Runs(s, acts, s') && s.at == Exited && s.hand == None
    ensures s'.at == Exited && s'.w == s.w
    decreases |acts|
  {
    if acts != [] {
      ExitedForever(Next(s, acts[0]), acts[1..], s');
    }
  }

  /** Exactly which accepted rows are lost when the worker has left without an error: those sent after it had
      stopped receiving. They are the last ones, they stay in the queue, and nothing commits them later. */
  lemma LostExactlyLate(capacity: nat, acts: seq<Action>, s: State, more: seq<Action>, t: State)
    requires Runs(Start(capacity), acts, s) && s.at == Exited && !s.w.Failed()
    requires Runs(s, more, t)
    ensures s.accepted == s.w.stored + s.late && t.accepted == t.w.stored + t.late
    ensures t.w.stored == s.w.stored
    ensures t.w.stored == t.accepted <==> t.late == []
  {
    Reachable(capacity, acts, s);
    ExitedRows(capacity, acts, s);
    ExitedForever(s, more, t);
    Concatenate(Start(capacity), acts, s, more, t);
    ExitedRows(capacity, acts + more, t);
  }

  // ----- runs step by step -----

  lemma {:induction false} Concatenate(s: State, acts: seq<Action>, t: State, more: seq<Action>, u: State)
    requires Runs(s, acts, t) && Runs(t, more, u)
    ensures Runs(s, acts + more, u)
    decreases |acts|
  {
    if acts == [] {
      assert acts + more == more;
    } else {
      Concatenate(Next(s, acts[0]), acts[1..], t, more, u);
      assert (acts + more)[1..] == acts[1..] + more;
    }
  }

  /** One more step at the end of a run. */
  lemma Extend(s: State, acts: seq<Action>, t: State, a: Action) returns (acts': seq<Action>, t': State)
    requires Runs(s, acts, t) && Enabled(t, a)
    ensures t' == Next(t, a) && Runs(s, acts', t')
  {
    acts', t' := acts + [a], Next(t, a);
    assert [a][1..] == [];
    Concatenate(s, acts, t, [a], t');
  }

  /** An Append is past the gate when the root context is cancelled. */
  lemma CanceledInside() returns (acts: seq<Action>, s: State)
    ensures Runs(Start(1), acts, s)
    ensures s == Start(1).(rootDone := true, producers := [Selecting(7, false)], appendWg := 1)
  {
    acts, s := [], Start(1);
    acts, s := Extend(Start(1), acts, s, AppendGate(7));
    acts, s := Extend(Start(1), acts, s, CancelRoot);
  }

  /** The worker leaves although that Append is not over. */
  lemma WorkerLeavesEarly() returns (acts: seq<Action>, s: State)
    ensures Runs(Start(1), acts, s)
    ensures s == Start(1).(rootDone := true, producers := [Selecting(7, false)], appendWg := 1, at := Exited)
  {
    acts, s := CanceledInside();
    acts, s := Extend(Start(1), acts, s, WorkSeesCancel);
    acts, s := Extend(Start(1), acts, s, WorkEndOfQueue);
    acts, s := Extend(Start(1), acts, s, WorkSend(Sent));
  }

  /** Its select can still take the send. */
  lemma SentTooLate() returns (acts: seq<Action>, s: State)
    ensures Runs(Start(1), acts, s)
    ensures var row := Row(0, 7);
      s == Start(1).(rootDone := true, producers := [Returned(7, true)], at := Exited,
                     queue := [row], accepted := [row], late := [row])
  {
    acts, s := WorkerLeavesEarly();
    acts, s := Extend(Start(1), acts, s, AppendSend(0));
    acts, s := Extend(Start(1), acts, s, AppendDone(0));
  }

  lemma CloseSteps(acts: seq<Action>, s: State) returns (acts': seq<Action>, s': State)
    requires Runs(Start(1), acts, s) && s.closing == NotStarted && s.appendWg == 0
    ensures Runs(Start(1), acts', s') && s' == s.(closing := Sealed)
  {
    acts', s' := Extend(Start(1), acts, s, CloseGate);
    acts', s' := Extend(Start(1), acts', s', CloseSignal);
    acts', s' := Extend(Start(1), acts', s', CloseSeal);
  }

  /** With a cancelled root context a row can be accepted and lost although Close returns nil. */
  lemma CancelLosesARow() returns (acts: seq<Action>, s: State)
    ensures Runs(Start(1), acts, s) && s.rootDone
    ensures s.closeResults == [None] && s.accepted == s.late == [Row(0, 7)] && s.w.stored == []
  {
    acts, s := SentTooLate();
    acts, s := CloseSteps(acts, s);
    acts, s := Extend(Start(1), acts, s, CloseReturn);
  }

  // ----- two failing driver calls -----

  lemma OneAccepted() returns (acts: seq<Action>, s: State)
    ensures Runs(Start(1), acts, s)
    ensures var row := Row(0, 7);
      s == Start(1).(producers := [Returned(7, true)], queue := [row], accepted := [row])
  {
    acts, s := [], Start(1);
    acts, s := Extend(Start(1), acts, s, AppendGate(7));
    acts, s := Extend(Start(1), acts, s, AppendSend(0));
    acts, s := Extend(Start(1), acts, s, AppendDone(0));
  }

  lemma OneInBatch() returns (acts: seq<Action>, s: State)
    ensures Runs(Start(1), acts, s)
    ensures var row := Row(0, 7);
      s == Start(1).(producers := [Returned(7, true)], accepted := [row],
                     w := EMPTY.(batcher := Some(Batch([row], false))))
  {
    acts, s := OneAccepted();
    acts, s := Extend(Start(1), acts, s, WorkReceive);
    var w := AfterAppend(s.w, Row(0, 7), Fine, Fine);
    assert w.batcher.value.rows == [Row(0, 7)];
    assert w == EMPTY.(batcher := Some(Batch([Row(0, 7)], false)));
    acts, s := Extend(Start(1), acts, s, WorkAppend(Fine, Fine));
  }

  /** A tick fails to send it. */
  lemma TickFails() returns (acts: seq<Action>, s: State)
    ensures Runs(Start(1), acts, s)
    ensures var row, e := Row(0, 7), Error(Sending, 1, 0);
      s == Start(1).(producers := [Returned(7, true)], accepted := [row],
                     w := Writer(Some(Batch([row], false)), Some(e), [e], []))
  {
    acts, s := OneInBatch();
    acts, s := Extend(Start(1), acts, s, WorkFlush(false, SendFailed(false, 1)));
  }

  /** The last send fails too. */
  lemma LastSendDue() returns (acts: seq<Action>, s: State)
    ensures Runs(Start(1), acts, s)
    ensures var row, e := Row(0, 7), Error(Sending, 1, 0);
      s == Start(1).(producers := [Returned(7, true)], accepted := [row], closing := Sealed, at := Finishing,
                     w := Writer(Some(Batch([row], false)), Some(e), [e], []))
  {
    acts, s := TickFails();
    acts, s := CloseSteps(acts, s);
    acts, s := Extend(Start(1), acts, s, WorkEndOfQueue);
  }

  lemma LastSendFails() returns (acts: seq<Action>, s: State)
    ensures Runs(Start(1), acts, s) && !s.rootDone && s.at == Exited && s.closing == Sealed && s.closeResults == []
    ensures s.w.errors == [Error(Sending, 1, 0), Error(Sending, 2, 1)] && s.w.err == Some(Error(Sending, 2, 1))
  {
    acts, s := LastSendDue();
    acts, s := Extend(Start(1), acts, s, WorkSend(SendFailed(false, 2)));
  }

  /** Close returns its error and not the first one. */
  lemma CloseReturnsSecondError() returns (acts: seq<Action>, s: State)
    ensures Runs(Start(1), acts, s) && !s.rootDone
    ensures s.w.errors == [Error(Sending, 1, 0), Error(Sending, 2, 1)]
    ensures s.closeResults == [Some(Error(Sending, 2, 1))]
  {
    acts, s := LastSendFails();
    acts, s := Extend(Start(1), acts, s, CloseReturn);
  }
}
