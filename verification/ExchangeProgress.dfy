/**
 Terminating an exchange comes to an end: a Terminate call is never stuck, and the steps that it, its waiter
 and the calls and tasks it waits for can still take are bounded.
 */
module ExchangeProgress {
  import opened Integers
  import opened Exchange
  import opened ExchangeProtocol

  /** Steps of calls, tasks and the waiter already under way: no new call, no deadline and no
      rejection by a pool. */
  predicate Own(a: Action) {
    || (a.Submit? && a.accepted) || a.Start? || a.Finish? || a.SyncStart? || a.SyncEnd? || a.SyncReturn?
    || a.WaiterCloses? || a.TermAwait? || a.TermSeal? || a.TermRelease? || a.TermReturn?
  }

  predicate Unfinished(t: TermCall) {
    t.Waiting? || t.Draining? || t.Releasing?
  }

  ghost predicate CanMove(s: State) {
    exists a :: Enabled(s, a) && Own(a)
  }

  lemma {:induction false} SomeSlot(slots: seq<Slot>) returns (p: nat)
    requires InFlight(slots) > 0
    ensures p < |slots| && slots[p].InFlight()
  {
    p := 0;
    if !slots[0].InFlight() {
      p := SomeSlot(slots[1..]);
      p := p + 1;
    }
  }

  lemma {:induction false} SomeInFlight(ds: seq<Delivery>) returns (c: nat, p: nat)
    requires AllInFlight(ds) > 0
    ensures c < |ds| && p < |ds[c].slots| && ds[c].slots[p].InFlight()
  {
    c, p := 0, 0;
    if InFlight(ds[0].slots) > 0 {
      p := SomeSlot(ds[0].slots);
    } else {
      c, p := SomeInFlight(ds[1..]);
      c := c + 1;
    }
  }

  /** A counted position can be submitted to its pool, a queued one can start, a running one end. */
  lemma DeliveryMoves(s: State, c: nat, p: nat)
    requires Inv(s) && c < |s.deliveries| && p < |s.deliveries[c].slots| && s.deliveries[c].slots[p].InFlight()
    ensures CanMove(s)
  {
    match s.deliveries[c].slots[p] {
      case Counted =>
        assert DeliveryOk(s.deliveries[c], s.core.pools);
        InFlightPositive(s.deliveries, c, p);
        assert Enabled(s, Submit(c, true));
      case Queued =>
        assert Enabled(s, Start(c, p));
      case Active =>
        assert Enabled(s, Finish(c, p));
    }
  }

  /** The lock that Terminate waits for is held by PublishSync calls, each of which can go on. */
  lemma ReadersMove(s: State)
    requires ReadLocked(s)
    ensures CanMove(s)
  {
    var k: nat :| k < |s.syncs| && s.syncs[k].open;
    if s.syncs[k].active {
      assert Enabled(s, SyncEnd(k));
    } else if s.syncs[k].pos < |s.syncs[k].handlers| {
      assert Enabled(s, SyncStart(k));
    } else {
      assert Enabled(s, SyncReturn(k));
    }
  }

  lemma TerminateMoves(s: State, t: nat)
    requires Inv(s) && t < |s.terms| && Unfinished(s.terms[t])
    ensures CanMove(s)
  {
    assert TermOk(s.terms[t], s.core);
    match s.terms[t] {
      case Waiting =>
        if s.core.done {
          assert Enabled(s, TermAwait(t));
        } else if s.core.wg == 0 {
          assert Enabled(s, WaiterCloses);
        } else {
          var c, p := SomeInFlight(s.deliveries);
          DeliveryMoves(s, c, p);
        }
      case Draining =>
        if ReadLocked(s) {
          ReadersMove(s);
        } else {
          assert Enabled(s, TermSeal(t));
        }
      case Releasing(todo) =>
        if todo == {} {
          assert Enabled(s, TermReturn(t, true));
        } else {
          var topic :| topic in todo;
          assert Enabled(s, TermRelease(t, topic));
        }
    }
  }

  /** Without a deadline and without new calls, a Terminate that has not returned never gets stuck:
      it, its waiter, or a call or task it waits for has a step to take. */
  lemma TerminatingNeverStuck(acts: seq<Action>, s: State, t: nat)
    requires Runs(START, acts, s) && t < |s.terms| && Unfinished(s.terms[t])
    ensures CanMove(s)
  {
    StartOk();
    RunKeeps(START, acts, s);
    TerminateMoves(s, t);
  }

  // ----- steps left -----

  /** A counted handler is submitted, starts and finishes. */
  function SlotLeft(slot: Slot): nat {
    match slot
    case Counted => 3
    case Queued => 2
    case Active => 1
    case Finished => 0
    case Rejected => 0
  }

  function SlotsLeft(slots: seq<Slot>): seq<nat> {
    seq(|slots|, i requires 0 <= i < |slots| => SlotLeft(slots[i]))
  }

  function DeliveriesLeft(ds: seq<Delivery>): seq<nat> {
    seq(|ds|, i requires 0 <= i < |ds| => Sum(SlotsLeft(ds[i].slots)))
  }

  /** Each handler of a PublishSync starts and ends, and the call returns. */
  function SyncLeft(c: SyncCall): nat {
    if !c.open then 0
    else (if c.pos < |c.handlers| then 2 * (|c.handlers| - c.pos) else 0) + if c.active then 0 else 1
  }

  function SyncsLeft(cs: seq<SyncCall>): seq<nat> {
    seq(|cs|, i requires 0 <= i < |cs| => SyncLeft(cs[i]))
  }

  /** A Terminate sees done, seals, releases every pool and returns. */
  function TermLeft(t: TermCall, pools: nat): nat {
    match t
    case Waiting => pools + 3
    case Draining => pools + 2
    case Releasing(todo) => |todo| + 1
    case ReturnedNil => 0
    case ReturnedErr => 0
  }

  function TermsLeft(ts: seq<TermCall>, pools: nat): seq<nat> {
    seq(|ts|, i requires 0 <= i < |ts| => TermLeft(ts[i], pools))
  }

  function Measure(s: State): nat {
    Sum(DeliveriesLeft(s.deliveries)) + Sum(SyncsLeft(s.syncs)) + Sum(TermsLeft(s.terms, |s.core.pools|))
    + if s.core.done then 0 else 1
  }

  lemma DeliveryMoved(ds: seq<Delivery>, c: nat, d: Delivery, p: nat, slot: Slot)
    requires c < |ds| && p < |ds[c].slots| && d.slots == ds[c].slots[p := slot]
    ensures Sum(DeliveriesLeft(ds[c := d])) == Sum(DeliveriesLeft(ds)) - SlotLeft(ds[c].slots[p]) + SlotLeft(slot)
  {
    SumUpdate(SlotsLeft(ds[c].slots), p, SlotLeft(slot));
    assert SlotsLeft(d.slots) == SlotsLeft(ds[c].slots)[p := SlotLeft(slot)];
    SumUpdate(DeliveriesLeft(ds), c, Sum(SlotsLeft(d.slots)));
    assert DeliveriesLeft(ds[c := d]) == DeliveriesLeft(ds)[c := Sum(SlotsLeft(d.slots))];
  }

  lemma SyncMoved(cs: seq<SyncCall>, c: nat, call: SyncCall)
    requires c < |cs|
    ensures Sum(SyncsLeft(cs[c := call])) == Sum(SyncsLeft(cs)) - SyncLeft(cs[c]) + SyncLeft(call)
  {
    SumUpdate(SyncsLeft(cs), c, SyncLeft(call));
    assert SyncsLeft(cs[c := call]) == SyncsLeft(cs)[c := SyncLeft(call)];
  }

  lemma TermMoved(ts: seq<TermCall>, t: nat, call: TermCall, pools: nat)
    requires t < |ts|
    ensures Sum(TermsLeft(ts[t := call], pools))
         == Sum(TermsLeft(ts, pools)) - TermLeft(ts[t], pools) + TermLeft(call, pools)
  {
    SumUpdate(TermsLeft(ts, pools), t, TermLeft(call, pools));
    assert TermsLeft(ts[t := call], pools) == TermsLeft(ts, pools)[t := TermLeft(call, pools)];
  }

  predicate OfTerm(a: Action) {
    a.TermAwait? || a.TermTimeout? || a.TermSeal? || a.TermRelease? || a.TermReturn?
  }

  lemma SubmitMeasure(s: State, c: nat, accepted: bool)
    requires Inv(s) && Enabled(s, Submit(c, accepted))
    ensures Measure(Next(s, Submit(c, accepted))) < Measure(s)
  {
    var d := s.deliveries[c];
    assert DeliveryOk(d, s.core.pools);
    DeliveryMoved(s.deliveries, c, Next(s, Submit(c, accepted)).deliveries[c], d.next,
                  if accepted then Queued else Rejected);
  }

  lemma StartMeasure(s: State, c: nat, p: nat)
    requires Enabled(s, Start(c, p))
    ensures Measure(Next(s, Start(c, p))) < Measure(s)
  {
    DeliveryMoved(s.deliveries, c, Next(s, Start(c, p)).deliveries[c], p, Active);
  }

  lemma FinishMeasure(s: State, c: nat, p: nat)
    requires Enabled(s, Finish(c, p))
    ensures Measure(Next(s, Finish(c, p))) < Measure(s)
  {
    DeliveryMoved(s.deliveries, c, Next(s, Finish(c, p)).deliveries[c], p, Finished);
  }

  lemma SyncMeasure(s: State, a: Action)
    requires Enabled(s, a) && (a.SyncStart? || a.SyncEnd? || a.SyncReturn?) && Inv(s)
    ensures Measure(Next(s, a)) < Measure(s)
  {
    SyncMoved(s.syncs, a.call, Next(s, a).syncs[a.call]);
  }

  lemma TermMeasure(s: State, a: Action)
    requires Enabled(s, a) && OfTerm(a)
    ensures Measure(Next(s, a)) < Measure(s)
  {
    TermMoved(s.terms, a.term, Next(s, a).terms[a.term], |s.core.pools|);
  }

  /** Once terminating, no step but a new Terminate raises the measure, and every own step lowers it. */
  lemma StepMeasure(s: State, a: Action)
    requires Inv(s) && Enabled(s, a) && s.core.life != Running && !a.TermEnter?
    ensures Next(s, a).core.life != Running && Measure(Next(s, a)) <= Measure(s)
    ensures Own(a) ==> Measure(Next(s, a)) < Measure(s)
  {
    if a.Submit? {
      SubmitMeasure(s, a.call, a.accepted);
    } else if a.Start? {
      StartMeasure(s, a.call, a.pos);
    } else if a.Finish? {
      FinishMeasure(s, a.call, a.pos);
    } else if a.SyncStart? || a.SyncEnd? || a.SyncReturn? {
      SyncMeasure(s, a);
    } else if OfTerm(a) {
      TermMeasure(s, a);
    }
  }

  function OwnSteps(acts: seq<Action>): nat {
    if acts == [] then 0 else (if Own(acts[0]) then 1 else 0) + OwnSteps(acts[1..])
  }

  predicate NoNewTerminate(acts: seq<Action>) {
    forall i :: 0 <= i < |acts| ==> !acts[i].TermEnter?
  }

  lemma {:induction false} RunMeasure(s: State, acts: seq<Action>, s': State)
    requires Inv(s) && Runs(s, acts, s') && s.core.life != Running && NoNewTerminate(acts)
    ensures OwnSteps(acts) + Measure(s') <= Measure(s)
    decreases |acts|
  {
    if acts != [] {
      StepKeeps(s, acts[0]);
      StepMeasure(s, acts[0]);
      RunMeasure(Next(s, acts[0]), acts[1..], s');
    }
  }

  /** From the first Terminate on, in any interleaving, the handlers counted, the PublishSync calls and the
      Terminate calls under way take no more steps than are left to them. */
  lemma TerminatingIsBounded(before: seq<Action>, s: State, acts: seq<Action>, s': State)
    requires Runs(START, before, s) && s.core.life != Running
    requires Runs(s, acts, s') && NoNewTerminate(acts)
    ensures OwnSteps(acts) <= Measure(s)
  {
    StartOk();
    RunKeeps(START, before, s);
    RunMeasure(s, acts, s');
  }

  /** A Terminate call under way has begun the termination. */
  lemma UnfinishedTerminates(s: State, t: nat)
    requires Inv(s) && t < |s.terms| && Unfinished(s.terms[t])
    ensures s.core.life != Running
  {
    assert TermOk(s.terms[t], s.core);
  }

  lemma TermsGrow(s: State, a: Action)
    requires Enabled(s, a)
    ensures |s.terms| <= |Next(s, a).terms|
  {
  }

  /** So Terminate returns: some schedule of own steps leads there from any state. */
  lemma {:induction false} TerminateCanReturn(s: State, t: nat) returns (acts: seq<Action>, s': State)
    requires Inv(s) && t < |s.terms|
    ensures Runs(s, acts, s') && t < |s'.terms| && !Unfinished(s'.terms[t])
    ensures OwnSteps(acts) == |acts| <= Measure(s)
    decreases Measure(s)
  {
    if !Unfinished(s.terms[t]) {
      acts, s' := [], s;
    } else {
      UnfinishedTerminates(s, t);
      TerminateMoves(s, t);
      var a :| Enabled(s, a) && Own(a);
      StepKeeps(s, a);
      StepMeasure(s, a);
      TermsGrow(s, a);
      var rest;
      rest, s' := TerminateCanReturn(Next(s, a), t);
      acts := [a] + rest;
      assert acts[1..] == rest;
    }
  }
}
