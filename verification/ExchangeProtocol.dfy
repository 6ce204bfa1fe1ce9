/**
 Every interleaving of Subscribe, Unsubscribe, Publish, PublishSync and Terminate.

 One action is one lock region, one pool submit, one start or end of a handler, one WaitGroup
 wait that returns, or one pool release. Regions under the write lock are enabled only while no
 PublishSync holds the read lock.
 */
module ExchangeProtocol {
  import opened Exchange

  /** Where the task for one position of a Publish snapshot stands. */
  datatype Slot = Counted | Queued | Active | Finished | Rejected {
    predicate InFlight() {
      Counted? || Queued? || Active?
    }
  }

  /** One Publish call: its snapshot, the fate of each position, and the next one to submit. */
  datatype Delivery = Delivery(topic: Topic, handlers: seq<Handler>, slots: seq<Slot>, next: nat)

  /** One PublishSync call; `open` while it holds the read lock. */
  datatype SyncCall = SyncCall(handlers: seq<Handler>, pos: nat, active: bool, open: bool)

  /** One Terminate call. */
  datatype TermCall = Waiting | Draining | Releasing(todo: set<Topic>) | ReturnedNil | ReturnedErr

  /** What clients can observe of handlers: (call, position) identifies one snapshot entry. */
  datatype Event = Started(call: nat, pos: nat) | Reported(call: nat, pos: nat) | SyncStarted(call: nat, pos: nat)

  datatype State = State(
    core: Core,
    deliveries: seq<Delivery>,
    syncs: seq<SyncCall>,
    terms: seq<TermCall>,
    log: seq<Event>)

  datatype Action =
    | Subscribe(topic: Topic, handler: Handler)
    | Unsubscribe(handle: Handle)
    | Publish(topic: Topic)
    | Submit(call: nat, accepted: bool)
    | Start(call: nat, pos: nat)
    | Finish(call: nat, pos: nat)
    | SyncBegin(topic: Topic)
    | SyncStart(call: nat)
    | SyncEnd(call: nat)
    | SyncReturn(call: nat)
    | TermEnter
    | WaiterCloses
    | TermAwait(term: nat)
    | TermTimeout(term: nat)
    | TermSeal(term: nat)
    | TermRelease(term: nat, topic: Topic)
    | TermReturn(term: nat, ok: bool)

  const START := State(INITIAL, [], [], [], [])

  predicate ReadLocked(s: State) {
    exists k :: 0 <= k < |s.syncs| && s.syncs[k].open
  }

  predicate HasSlot(s: State, call: nat, pos: nat, slot: Slot) {
    call < |s.deliveries| && pos < |s.deliveries[call].slots| && s.deliveries[call].slots[pos] == slot
  }

  predicate IsOpen(s: State, call: nat) {
    call < |s.syncs| && s.syncs[call].open
  }

  predicate IsTerm(s: State, term: nat, at: TermCall) {
    term < |s.terms| && s.terms[term] == at
  }

  predicate Enabled(s: State, a: Action) {
    match a
    case Subscribe(_, _) => !ReadLocked(s) && s.core.life == Running
    case Unsubscribe(_) => !ReadLocked(s)
    case Publish(_) => s.core.life == Running
    case Submit(c, accepted) =>
      && c < |s.deliveries|
      && s.deliveries[c].next < |s.deliveries[c].slots|
      && (accepted ==> s.deliveries[c].topic in s.core.pools && s.deliveries[c].topic !in s.core.released)
    case Start(c, p) => HasSlot(s, c, p, Queued)
    case Finish(c, p) => HasSlot(s, c, p, Active)
    case SyncBegin(_) => s.core.life == Running
    case SyncStart(c) => IsOpen(s, c) && !s.syncs[c].active && s.syncs[c].pos < |s.syncs[c].handlers|
    case SyncEnd(c) => IsOpen(s, c) && s.syncs[c].active
    case SyncReturn(c) => IsOpen(s, c) && !s.syncs[c].active && s.syncs[c].pos >= |s.syncs[c].handlers|
    case TermEnter => !ReadLocked(s)
    case WaiterCloses => s.core.life != Running && s.core.wg == 0 && !s.core.done
    case TermAwait(t) => IsTerm(s, t, Waiting) && s.core.done
    case TermTimeout(t) => IsTerm(s, t, Waiting)
    case TermSeal(t) => IsTerm(s, t, Draining) && !ReadLocked(s)
    case TermRelease(t, topic) => t < |s.terms| && s.terms[t].Releasing? && topic in s.terms[t].todo
    case TermReturn(t, _) => IsTerm(s, t, Releasing({}))
  }

  function WithSlot(d: Delivery, pos: nat, slot: Slot): Delivery
    requires pos < |d.slots|
  {
    d.(slots := d.slots[pos := slot])
  }

  function Next(s: State, a: Action): State
    requires Enabled(s, a)
  {
    match a
    case Subscribe(topic, handler) => s.(core := AfterSubscribe(s.core, topic, handler))
    case Unsubscribe(handle) => s.(core := AfterUnsubscribe(s.core, handle))
    case Publish(topic) =>
      var handlers := Snapshot(s.core, topic);
      s.(core := AfterPublish(s.core, topic),
         deliveries := s.deliveries + [Delivery(topic, handlers, seq(|handlers|, _ => Counted), 0)])
    case Submit(c, accepted) =>
      var d := s.deliveries[c];
      if accepted then
        s.(deliveries := s.deliveries[c := WithSlot(d, d.next, Queued).(next := d.next + 1)])
      else
        s.(core := AfterDone(s.core),
           deliveries := s.deliveries[c := WithSlot(d, d.next, Rejected).(next := d.next + 1)],
           log := s.log + [Reported(c, d.next)])
    case Start(c, p) =>
      s.(deliveries := s.deliveries[c := WithSlot(s.deliveries[c], p, Active)], log := s.log + [Started(c, p)])
    case Finish(c, p) =>
      s.(core := AfterDone(s.core), deliveries := s.deliveries[c := WithSlot(s.deliveries[c], p, Finished)])
    case SyncBegin(topic) =>
      s.(syncs := s.syncs + [SyncCall(Snapshot(s.core, topic), 0, false, true)])
    case SyncStart(c) =>
      s.(syncs := s.syncs[c := s.syncs[c].(active := true)], log := s.log + [SyncStarted(c, s.syncs[c].pos)])
    case SyncEnd(c) =>
      s.(syncs := s.syncs[c := s.syncs[c].(active := false, pos := s.syncs[c].pos + 1)])
    case SyncReturn(c) =>
      s.(syncs := s.syncs[c := s.syncs[c].(open := false)])
    case TermEnter =>
      s.(core := AfterTerminate(s.core),
         terms := s.terms + [if s.core.life == Terminated then ReturnedNil else Waiting])
    case WaiterCloses => s.(core := s.core.(done := true))
    case TermAwait(t) => s.(terms := s.terms[t := Draining])
    case TermTimeout(t) => s.(terms := s.terms[t := ReturnedErr])
    case TermSeal(t) => s.(core := AfterSeal(s.core), terms := s.terms[t := Releasing(s.core.pools)])
    case TermRelease(t, topic) =>
      s.(core := s.core.(released := s.core.released + {topic}),
         terms := s.terms[t := Releasing(s.terms[t].todo - {topic})])
    case TermReturn(t, ok) => s.(terms := s.terms[t := if ok then ReturnedNil else ReturnedErr])
  }

  // ----- the invariant -----

  /** Number of positions of one call counted by the WaitGroup. */
  function InFlight(slots: seq<Slot>): nat {
    if slots == [] then 0 else (if slots[0].InFlight() then 1 else 0) + InFlight(slots[1..])
  }

  function AllInFlight(ds: seq<Delivery>): nat {
    if ds == [] then 0 else InFlight(ds[0].slots) + AllInFlight(ds[1..])
  }

  ghost predicate DeliveryOk(d: Delivery, pools: set<Topic>) {
    && |d.slots| == |d.handlers|
    && d.next <= |d.slots|
    && (forall i :: 0 <= i < |d.slots| ==> (d.slots[i] == Counted <==> d.next <= i))
    && (d.handlers != [] ==> d.topic in pools)
  }

  /** How often an event must have happened, given where the slots stand. */
  function Expected(ds: seq<Delivery>, e: Event): nat {
    match e
    case Started(c, p) =>
      if c < |ds| && p < |ds[c].slots| && ds[c].slots[p] in {Active, Finished} then 1 else 0
    case Reported(c, p) =>
      if c < |ds| && p < |ds[c].slots| && ds[c].slots[p] == Rejected then 1 else 0
    case SyncStarted(_, _) => 0
  }

  ghost predicate Accounted(ds: seq<Delivery>, log: seq<Event>) {
    forall e: Event :: !e.SyncStarted? ==> multiset(log)[e] == Expected(ds, e)
  }

  ghost predicate TermOk(t: TermCall, core: Core) {
    && (t.Draining? ==> core.done)
    && (t.Releasing? ==> core.life == Terminated && t.todo <= core.pools)
    && (t.ReturnedNil? ==> core.life == Terminated)
    && (t.Waiting? ==> core.life != Running)
  }

  ghost predicate Inv(s: State) {
    && CoreOk(s.core)
    && s.core.wg == AllInFlight(s.deliveries)
    && (forall c :: 0 <= c < |s.deliveries| ==> DeliveryOk(s.deliveries[c], s.core.pools))
    && Accounted(s.deliveries, s.log)
    && (ReadLocked(s) ==> s.core.life == Running)
    && (forall k :: 0 <= k < |s.syncs| && s.syncs[k].active ==>
          s.syncs[k].open && s.syncs[k].pos < |s.syncs[k].handlers|)
    && (forall t :: 0 <= t < |s.terms| ==> TermOk(s.terms[t], s.core))
  }

  // ----- sums -----

  lemma {:induction false} InFlightUpdate(slots: seq<Slot>, pos: nat, slot: Slot)
    requires pos < |slots|
    ensures InFlight(slots[pos := slot])
         == InFlight(slots) - (if slots[pos].InFlight() then 1 else 0) + (if slot.InFlight() then 1 else 0)
  {
    if pos == 0 {
      assert slots[0 := slot][1..] == slots[1..];
    } else {
      InFlightUpdate(slots[1..], pos - 1, slot);
      assert slots[pos := slot][1..] == slots[1..][pos - 1 := slot];
    }
  }

  lemma {:induction false} InFlightFresh(n: nat)
    ensures InFlight(seq(n, _ => Counted)) == n
  {
    if n > 0 {
      InFlightFresh(n - 1);
      assert seq(n, _ => Counted)[1..] == seq(n - 1, _ => Counted);
    }
  }

  lemma {:induction false} AllUpdate(ds: seq<Delivery>, c: nat, d: Delivery)
    requires c < |ds|
    ensures AllInFlight(ds[c := d]) == AllInFlight(ds) - InFlight(ds[c].slots) + InFlight(d.slots)
  {
    if c == 0 {
      assert ds[0 := d][1..] == ds[1..];
    } else {
      AllUpdate(ds[1..], c - 1, d);
      assert ds[c := d][1..] == ds[1..][c - 1 := d];
    }
  }

  lemma {:induction false} AllAppend(ds: seq<Delivery>, d: Delivery)
    ensures AllInFlight(ds + [d]) == AllInFlight(ds) + InFlight(d.slots)
  {
    if ds == [] {
    } else {
      AllAppend(ds[1..], d);
      assert (ds + [d])[1..] == ds[1..] + [d];
    }
  }

  /** An in-flight position keeps the counter above zero. */
  lemma {:induction false} InFlightPositive(ds: seq<Delivery>, c: nat, p: nat)
    requires c < |ds| && p < |ds[c].slots| && ds[c].slots[p].InFlight()
    ensures AllInFlight(ds) > 0
  {
    if c == 0 {
      SlotPositive(ds[0].slots, p);
    } else {
      InFlightPositive(ds[1..], c - 1, p);
    }
  }

  lemma {:induction false} SlotPositive(slots: seq<Slot>, p: nat)
    requires p < |slots| && slots[p].InFlight()
    ensures InFlight(slots) > 0
  {
    if p > 0 {
      SlotPositive(slots[1..], p - 1);
    }
  }

  // ----- every action keeps the invariant -----

  lemma LogAppend(log: seq<Event>, e: Event)
    ensures forall x: Event :: multiset(log + [e])[x] == multiset(log)[x] + (if x == e then 1 else 0)
  {
    assert multiset(log + [e]) == multiset(log) + multiset{e};
  }

  /** The four moves of a slot, and what each logs. */
  predicate SlotMove(from: Slot, to: Slot, c: nat, p: nat, events: seq<Event>) {
    match (from, to)
    case (Counted, Queued) => events == []
    case (Counted, Rejected) => events == [Reported(c, p)]
    case (Queued, Active) => events == [Started(c, p)]
    case (Active, Finished) => events == []
    case _ => false
  }

  /** One slot moves; the log gains `events` to match. */
  lemma SlotKeepsAccount(ds: seq<Delivery>, log: seq<Event>, c: nat, p: nat, d: Delivery, events: seq<Event>)
    requires Accounted(ds, log) && c < |ds| && p < |ds[c].slots|
    requires |d.slots| == |ds[c].slots| && d.slots == ds[c].slots[p := d.slots[p]]
    requires SlotMove(ds[c].slots[p], d.slots[p], c, p, events)
    ensures Accounted(ds[c := d], log + events)
  {
    var ds' := ds[c := d];
    if events != [] {
      LogAppend(log, events[0]);
    } else {
      assert log + events == log;
    }
    forall e: Event | !e.SyncStarted?
      ensures multiset(log + events)[e] == Expected(ds', e)
    {
      assert multiset(log)[e] == Expected(ds, e);
      if e.call == c && e.pos != p && e.pos < |d.slots| {
        assert d.slots[e.pos] == ds[c].slots[e.pos];
      }
    }
  }

  predicate OfSync(a: Action) {
    a.SyncBegin? || a.SyncStart? || a.SyncEnd? || a.SyncReturn?
  }

  predicate OfIndex(a: Action) {
    a.Subscribe? || a.Unsubscribe?
  }

  /** What moving one slot does to the counter and the log. */
  lemma SlotMoved(s: State, c: nat, p: nat, d: Delivery, events: seq<Event>)
    requires Inv(s) && c < |s.deliveries| && p < |s.deliveries[c].slots| && s.deliveries[c].slots[p].InFlight()
    requires |d.slots| == |s.deliveries[c].slots| && d.slots == s.deliveries[c].slots[p := d.slots[p]]
    requires SlotMove(s.deliveries[c].slots[p], d.slots[p], c, p, events)
    ensures s.core.wg > 0
    ensures AllInFlight(s.deliveries[c := d]) == s.core.wg - if d.slots[p].InFlight() then 0 else 1
    ensures Accounted(s.deliveries[c := d], s.log + events)
  {
    InFlightPositive(s.deliveries, c, p);
    InFlightUpdate(s.deliveries[c].slots, p, d.slots[p]);
    AllUpdate(s.deliveries, c, d);
    SlotKeepsAccount(s.deliveries, s.log, c, p, d, events);
  }

  lemma SubmitKeeps(s: State, c: nat, accepted: bool)
    requires Inv(s) && Enabled(s, Submit(c, accepted))
    ensures Inv(Next(s, Submit(c, accepted)))
  {
    var d, d' := s.deliveries[c], Next(s, Submit(c, accepted)).deliveries[c];
    assert DeliveryOk(d, s.core.pools);
    SlotMoved(s, c, d.next, d', if accepted then [] else [Reported(c, d.next)]);
    assert s.log + [] == s.log;
    assert DeliveryOk(d', s.core.pools);
  }

  lemma StartKeeps(s: State, c: nat, p: nat)
    requires Inv(s) && Enabled(s, Start(c, p))
    ensures Inv(Next(s, Start(c, p)))
  {
    var d, d' := s.deliveries[c], Next(s, Start(c, p)).deliveries[c];
    assert DeliveryOk(d, s.core.pools);
    SlotMoved(s, c, p, d', [Started(c, p)]);
    assert DeliveryOk(d', s.core.pools);
  }

  lemma FinishKeeps(s: State, c: nat, p: nat)
    requires Inv(s) && Enabled(s, Finish(c, p))
    ensures Inv(Next(s, Finish(c, p)))
  {
    var d, d' := s.deliveries[c], Next(s, Finish(c, p)).deliveries[c];
    assert DeliveryOk(d, s.core.pools);
    SlotMoved(s, c, p, d', []);
    assert s.log + [] == s.log;
    assert DeliveryOk(d', s.core.pools);
  }

  lemma PublishKeeps(s: State, topic: Topic)
    requires Inv(s) && Enabled(s, Publish(topic))
    ensures Inv(Next(s, Publish(topic)))
  {
    var handlers := Snapshot(s.core, topic);
    var d := Delivery(topic, handlers, seq(|handlers|, _ => Counted), 0);
    InFlightFresh(|handlers|);
    AllAppend(s.deliveries, d);
    if handlers != [] {
      SnapshotHasPool(s.core, topic);
    }
    assert DeliveryOk(d, s.core.pools);
    CountedKeepsAccount(s.deliveries, s.log, d);
    CountKeeps(s.core, AfterPublish(s.core, topic), topic);
    PublishInv(s, Next(s, Publish(topic)), d);
  }

  /** A new delivery, none of whose positions has been submitted, accounts for no event. */
  lemma CountedKeepsAccount(ds: seq<Delivery>, log: seq<Event>, d: Delivery)
    requires Accounted(ds, log) && forall i :: 0 <= i < |d.slots| ==> d.slots[i] == Counted
    ensures Accounted(ds + [d], log)
  {
    forall e: Event | !e.SyncStarted? ensures multiset(log)[e] == Expected(ds + [d], e) {
      assert multiset(log)[e] == Expected(ds, e);
    }
  }

  /** The invariant after a Publish, from its parts. */
  lemma PublishInv(s: State, s': State, d: Delivery)
    requires Inv(s) && CoreOk(s'.core) && DeliveryOk(d, s.core.pools)
    requires s'.deliveries == s.deliveries + [d] && Accounted(s'.deliveries, s'.log)
    requires s'.core.wg == AllInFlight(s'.deliveries)
    requires s'.core == s.core.(wg := s'.core.wg) && s'.syncs == s.syncs && s'.terms == s.terms
    ensures Inv(s')
  {
    assert ReadLocked(s') <==> ReadLocked(s);
  }

  lemma SyncKeeps(s: State, a: Action)
    requires Inv(s) && Enabled(s, a) && OfSync(a)
    ensures Inv(Next(s, a))
  {
    var s' := Next(s, a);
    if a.SyncStart? {
      LogAppend(s.log, SyncStarted(a.call, s.syncs[a.call].pos));
    }
    SyncHolds(s, a);
  }

  /** The read lock is held only by calls that began while the exchange was running. */
  lemma SyncHolds(s: State, a: Action)
    requires Inv(s) && Enabled(s, a) && OfSync(a)
    ensures ReadLocked(Next(s, a)) ==> Next(s, a).core.life == Running
  {
    var s' := Next(s, a);
    if ReadLocked(s') && !a.SyncBegin? {
      var k :| 0 <= k < |s'.syncs| && s'.syncs[k].open;
      assert s.syncs[k].open;
    }
  }

  lemma IndexKeeps(s: State, a: Action)
    requires Inv(s) && Enabled(s, a) && OfIndex(a)
    ensures Inv(Next(s, a))
  {
    match a
    case Subscribe(topic, handler) =>
      SubscribeKeeps(s.core, Next(s, a).core, topic, handler);
    case Unsubscribe(handle) =>
      UnsubscribeKeeps(s.core, handle);
  }

  /** The steps of Terminate up to the closing of done. */
  lemma TermWaitKeeps(s: State, a: Action)
    requires Inv(s) && Enabled(s, a) && (a.TermEnter? || a.WaiterCloses? || a.TermAwait? || a.TermTimeout?)
    ensures Inv(Next(s, a))
  {
  }

  /** ... and after it. */
  lemma TermSealKeeps(s: State, a: Action)
    requires Inv(s) && Enabled(s, a) && (a.TermSeal? || a.TermRelease? || a.TermReturn?)
    ensures Inv(Next(s, a))
  {
  }

  lemma StepKeeps(s: State, a: Action)
    requires Inv(s) && Enabled(s, a)
    ensures Inv(Next(s, a))
  {
    if OfIndex(a) {
      IndexKeeps(s, a);
    } else if a.Publish? {
      PublishKeeps(s, a.topic);
    } else if a.Submit? {
      SubmitKeeps(s, a.call, a.accepted);
    } else if a.Start? {
      StartKeeps(s, a.call, a.pos);
    } else if a.Finish? {
      FinishKeeps(s, a.call, a.pos);
    } else if OfSync(a) {
      SyncKeeps(s, a);
    } else if a.TermSeal? || a.TermRelease? || a.TermReturn? {
      TermSealKeeps(s, a);
    } else {
      TermWaitKeeps(s, a);
    }
  }

  // ----- runs -----

  /** `acts` leads from s to s'. */
  ghost predicate Runs(s: State, acts: seq<Action>, s': State)
    decreases |acts|
  {
    if acts == [] then s == s'
    else Enabled(s, acts[0]) && Runs(Next(s, acts[0]), acts[1..], s')
  }

  lemma StartOk()
    ensures Inv(START)
  {
    assert forall e: Event :: multiset(START.log)[e] == 0;
  }

  lemma {:induction false} RunKeeps(s: State, acts: seq<Action>, s': State)
    requires Inv(s) && Runs(s, acts, s')
    ensures Inv(s')
    decreases |acts|
  {
    if acts != [] {
      StepKeeps(s, acts[0]);
      RunKeeps(Next(s, acts[0]), acts[1..], s');
    }
  }

  /** In every interleaving the WaitGroup counter is exactly the number of tasks counted at some
      snapshot and not yet finished or rejected, so it never goes below zero. */
  lemma WaitGroupCountsInFlight(acts: seq<Action>, s: State)
    requires Runs(START, acts, s)
    ensures s.core.wg == AllInFlight(s.deliveries)
    ensures forall c, p ::
      0 <= c < |s.deliveries| && 0 <= p < |s.deliveries[c].slots| && s.deliveries[c].slots[p].InFlight() ==>
        s.core.wg > 0
  {
    StartOk();
    RunKeeps(START, acts, s);
    forall c, p | 0 <= c < |s.deliveries| && 0 <= p < |s.deliveries[c].slots| && s.deliveries[c].slots[p].InFlight()
      ensures s.core.wg > 0
    {
      InFlightPositive(s.deliveries, c, p);
    }
  }

  /** No handler is running, waiting in a pool or still to be submitted, and no PublishSync is open. */
  ghost predicate Quiet(s: State) {
    && s.core.wg == 0
    && !ReadLocked(s)
    && (forall k :: 0 <= k < |s.syncs| ==> !s.syncs[k].active)
    && (forall c, p ::
          0 <= c < |s.deliveries| && 0 <= p < |s.deliveries[c].slots| ==> !s.deliveries[c].slots[p].InFlight())
  }

  lemma DoneIsQuiet(s: State)
    requires Inv(s) && s.core.done
    ensures Quiet(s)
  {
    forall c, p | 0 <= c < |s.deliveries| && 0 <= p < |s.deliveries[c].slots|
      ensures !s.deliveries[c].slots[p].InFlight()
    {
      if s.deliveries[c].slots[p].InFlight() {
        InFlightPositive(s.deliveries, c, p);
      }
    }
  }

  lemma DoneStep(s: State, a: Action)
    requires Inv(s) && s.core.done && Enabled(s, a)
    ensures Inv(Next(s, a)) && Next(s, a).core.done
    ensures Next(s, a).log == s.log && Next(s, a).deliveries == s.deliveries
  {
    StepKeeps(s, a);
    DoneIsQuiet(s);
    if a.Submit? {
      assert DeliveryOk(s.deliveries[a.call], s.core.pools);
      assert s.deliveries[a.call].slots[s.deliveries[a.call].next].InFlight();
    }
  }

  /** The zero at which `done` closes is permanent: from then on nothing runs and nothing starts. */
  lemma {:induction false} DoneIsPermanent(s: State, acts: seq<Action>, s': State)
    requires Inv(s) && s.core.done && Runs(s, acts, s')
    ensures s'.core.done && Quiet(s') && s'.log == s.log
    decreases |acts|
  {
    if acts == [] {
      DoneIsQuiet(s);
    } else {
      DoneStep(s, acts[0]);
      DoneIsPermanent(Next(s, acts[0]), acts[1..], s');
    }
  }

  /** Once some Terminate call has returned nil, no handler of Publish or PublishSync is running,
      and none ever starts again. */
  lemma NothingRunsAfterTerminate(before: seq<Action>, s: State, after: seq<Action>, s': State)
    requires Runs(START, before, s) && Runs(s, after, s')
    requires exists t :: 0 <= t < |s.terms| && s.terms[t] == ReturnedNil
    ensures Quiet(s) && Quiet(s') && s'.log == s.log
  {
    StartOk();
    RunKeeps(START, before, s);
    var t :| 0 <= t < |s.terms| && s.terms[t] == ReturnedNil;
    assert TermOk(s.terms[t], s.core);
    DoneIsQuiet(s);
    DoneIsPermanent(s, after, s');
  }

  // ----- what a Terminate call releases -----

  /** A call that did not return at once: what has been released when it is done with its pools. */
  ghost predicate Tears(s: State, t: nat) {
    t < |s.terms| &&
    match s.terms[t]
    case Waiting => true
    case Draining => true
    case Releasing(todo) => s.core.life == Terminated && s.core.pools <= s.core.released + todo
    case ReturnedNil => s.core.life == Terminated && s.core.pools <= s.core.released
    case ReturnedErr => true
  }

  lemma TearsStep(s: State, a: Action, t: nat)
    requires Enabled(s, a) && Tears(s, t)
    requires s.terms[t].Draining? ==> s.core.life != Running
    ensures Tears(Next(s, a), t)
  {
  }

  lemma {:induction false} TearsRun(s: State, acts: seq<Action>, s': State, t: nat)
    requires Inv(s) && Runs(s, acts, s') && Tears(s, t)
    ensures Tears(s', t)
    decreases |acts|
  {
    if acts != [] {
      StepKeeps(s, acts[0]);
      assert TermOk(s.terms[t], s.core);
      TearsStep(s, acts[0], t);
      TearsRun(Next(s, acts[0]), acts[1..], s', t);
    }
  }

  /** A Terminate that has waited and returns nil has seen all pools released, whatever other calls do; and it returns
      nil exactly if no release reported an error. */
  lemma TerminateReleasesAll(before: seq<Action>, s: State, t: nat, acts: seq<Action>, s': State)
    requires Runs(START, before, s) && IsTerm(s, t, Waiting) && Runs(s, acts, s')
    ensures t < |s'.terms|
    ensures s'.terms[t] == ReturnedNil || s'.terms[t] == Releasing({}) ==> s'.core.released == s'.core.pools
    ensures forall ok :: Enabled(s', TermReturn(t, ok)) ==>
              Next(s', TermReturn(t, ok)).terms[t] == if ok then ReturnedNil else ReturnedErr
  {
    StartOk();
    RunKeeps(START, before, s);
    TearsRun(s, acts, s', t);
    RunReleased(s, acts, s');
  }

  /** No more pools are released than there are. */
  lemma RunReleased(s: State, acts: seq<Action>, s': State)
    requires Inv(s) && Runs(s, acts, s')
    ensures s'.core.released <= s'.core.pools
  {
    RunKeeps(s, acts, s');
  }

  /** A Terminate that finds the exchange terminated returns nil at once, and any other one waits. */
  lemma TerminateAgain(before: seq<Action>, s: State)
    requires Runs(START, before, s) && Enabled(s, TermEnter)
    ensures var s' := Next(s, TermEnter);
            && s'.terms == s.terms + [if s.core.done && s.core.life == Terminated then ReturnedNil else Waiting]
            && s'.core.life == (if s.core.life == Running then Terminating else s.core.life)
            && s'.core.live == s.core.live && s'.core.wg == s.core.wg && s'.core.done == s.core.done
  {
    StartOk();
    RunKeeps(START, before, s);
  }

  /** Whenever a task is about to be submitted, its topic has a pool and no pool has been released. */
  lemma SubmitsOnlyToLivePools(acts: seq<Action>, s: State, call: nat, accepted: bool)
    requires Runs(START, acts, s) && Enabled(s, Submit(call, accepted))
    ensures s.core.released == {} && s.deliveries[call].topic in s.core.pools
    ensures Enabled(s, Submit(call, true))
  {
    StartOk();
    RunKeeps(START, acts, s);
    var d := s.deliveries[call];
    assert DeliveryOk(d, s.core.pools);
    assert d.slots[d.next].InFlight();
    InFlightPositive(s.deliveries, call, d.next);
  }

  lemma {:induction false} SnapshotFrozen(s: State, acts: seq<Action>, s': State, call: nat)
    requires Runs(s, acts, s') && call < |s.deliveries|
    ensures call < |s'.deliveries| && s'.deliveries[call].handlers == s.deliveries[call].handlers
    decreases |acts|
  {
    if acts != [] {
      SnapshotFrozen(Next(s, acts[0]), acts[1..], s', call);
    }
  }

  lemma NotYetLogged(s: State, c: nat, pos: nat)
    requires Inv(s) && |s.deliveries| <= c
    ensures multiset(s.log)[Started(c, pos)] == multiset(s.log)[Reported(c, pos)] == 0
  {
    assert multiset(s.log)[Started(c, pos)] == Expected(s.deliveries, Started(c, pos));
    assert multiset(s.log)[Reported(c, pos)] == Expected(s.deliveries, Reported(c, pos));
  }

  /** One entry of a snapshot is run or reported at most once, and exactly once unless it is in flight. */
  lemma FateOf(s: State, c: nat, pos: nat)
    requires Inv(s) && c < |s.deliveries| && pos < |s.deliveries[c].handlers|
    ensures multiset(s.log)[Started(c, pos)] + multiset(s.log)[Reported(c, pos)] <= 1
    ensures s.core.wg == 0 ==> multiset(s.log)[Started(c, pos)] + multiset(s.log)[Reported(c, pos)] == 1
  {
    assert DeliveryOk(s.deliveries[c], s.core.pools);
    assert multiset(s.log)[Started(c, pos)] == Expected(s.deliveries, Started(c, pos));
    assert multiset(s.log)[Reported(c, pos)] == Expected(s.deliveries, Reported(c, pos));
    if s.deliveries[c].slots[pos].InFlight() {
      InFlightPositive(s.deliveries, c, pos);
    }
  }

  /** A Publish delivers to exactly the handlers subscribed at its snapshot, whatever Subscribe and
      Unsubscribe do afterwards: no entry is ever both run and reported or run twice, and once the
      WaitGroup is back to zero every entry has been run once or reported once. */
  lemma PublishDeliversExactlyOnce(before: seq<Action>, s: State, topic: Topic, after: seq<Action>, s': State, pos: nat)
    requires Runs(START, before, s) && Enabled(s, Publish(topic))
    requires Runs(Next(s, Publish(topic)), after, s')
    requires pos < |Snapshot(s.core, topic)|
    ensures |s.deliveries| < |s'.deliveries| && s'.deliveries[|s.deliveries|].handlers == Snapshot(s.core, topic)
    ensures multiset(s.log)[Started(|s.deliveries|, pos)] == multiset(s.log)[Reported(|s.deliveries|, pos)] == 0
    ensures multiset(s'.log)[Started(|s.deliveries|, pos)] + multiset(s'.log)[Reported(|s.deliveries|, pos)] <= 1
    ensures s'.core.wg == 0 ==>
      multiset(s'.log)[Started(|s.deliveries|, pos)] + multiset(s'.log)[Reported(|s.deliveries|, pos)] == 1
  {
    StartOk();
    RunKeeps(START, before, s);
    NotYetLogged(s, |s.deliveries|, pos);
    StepKeeps(s, Publish(topic));
    RunKeeps(Next(s, Publish(topic)), after, s');
    SnapshotFrozen(Next(s, Publish(topic)), after, s', |s.deliveries|);
    FateOf(s', |s.deliveries|, pos);
  }

  /** A handle that has been handed out and is not live never becomes live again. */
  lemma {:induction false} HandlesNeverReused(s: State, acts: seq<Action>, s': State, handle: Handle)
    requires Runs(s, acts, s') && handle < s.core.nextHandle
    requires forall sub :: sub in s.core.live ==> sub.handle != handle
    ensures handle < s'.core.nextHandle
    ensures forall sub :: sub in s'.core.live ==> sub.handle != handle
    decreases |acts|
  {
    if acts != [] {
      if acts[0].Unsubscribe? {
        WithoutMembers(s.core.live, acts[0].handle);
      }
      HandlesNeverReused(Next(s, acts[0]), acts[1..], s', handle);
    }
  }
}
