/**
 Who is called, told by the calls alone: the handlers a Publish or PublishSync runs are those that the
 Subscribe calls of its topic gave and no later Unsubscribe cancelled, in the order of those calls.
 */
module ExchangeHistory {
  import opened Exchange
  import opened ExchangeProtocol

  /** How many subscriptions a run has made. The n-th one, from zero, has handle n. */
  function Made(acts: seq<Action>): nat {
    if acts == [] then 0
    else Made(acts[..|acts| - 1]) + if acts[|acts| - 1].Subscribe? then 1 else 0
  }

  /** Call i subscribed, and no later call cancelled its handle. */
  predicate Stands(acts: seq<Action>, i: nat) {
    i < |acts| && acts[i].Subscribe? && Unsubscribe(Made(acts[..i])) !in acts[i + 1..]
  }

  predicate StandsFor(acts: seq<Action>, topic: Topic, i: nat) {
    Stands(acts, i) && acts[i].topic == topic
  }

  /** What a Subscribe call puts into the list. */
  function Given(acts: seq<Action>, i: nat): Subscription
    requires i < |acts| && acts[i].Subscribe?
  {
    Subscription(Made(acts[..i]), acts[i].topic, acts[i].handler)
  }

  /** The calls that stand for a topic, each once, in order. */
  ghost predicate AreStanding(acts: seq<Action>, topic: Topic, calls: seq<nat>) {
    && (forall k :: 0 <= k < |calls| ==> StandsFor(acts, topic, calls[k]))
    && (forall i: nat :: StandsFor(acts, topic, i) ==> i in calls)
    && (forall j, k :: 0 <= j < k < |calls| ==> calls[j] < calls[k])
  }

  /** `handlers` are those that the standing calls for the topic gave, in order. */
  ghost predicate AreGiven(acts: seq<Action>, topic: Topic, handlers: seq<Handler>) {
    exists calls: seq<nat> :: AreStanding(acts, topic, calls) && GaveEach(acts, calls, handlers)
  }

  ghost predicate GaveEach(acts: seq<Action>, calls: seq<nat>, handlers: seq<Handler>) {
    && |handlers| == |calls|
    && (forall k :: 0 <= k < |calls| ==> Stands(acts, calls[k]) && handlers[k] == acts[calls[k]].handler)
  }

  // ----- the list at the end of a run -----

  /** The last step of a run. */
  lemma {:induction false} LastStep(s: State, acts: seq<Action>, s': State) returns (mid: State)
    requires Runs(s, acts, s') && acts != []
    ensures Runs(s, acts[..|acts| - 1], mid) && Enabled(mid, acts[|acts| - 1])
    ensures s' == Next(mid, acts[|acts| - 1])
    decreases |acts|
  {
    if |acts| == 1 {
      assert acts[1..] == [] && acts[..0] == [];
      mid := s;
    } else {
      mid := LastStep(Next(s, acts[0]), acts[1..], s');
      assert acts[1..][..|acts| - 2] == acts[..|acts| - 1][1..];
    }
  }

  /** Standing after one more call: an earlier call, */
  lemma StandsOn(acts: seq<Action>, a: Action, i: nat)
    requires i < |acts|
    ensures Stands(acts + [a], i) <==> Stands(acts, i) && a != Unsubscribe(Made(acts[..i]))
    ensures acts[i].Subscribe? ==> Given(acts + [a], i) == Given(acts, i)
  {
    var more := acts + [a];
    assert more[..i] == acts[..i] && more[i] == acts[i];
    assert more[i + 1..] == acts[i + 1..] + [a];
  }

  /** ... and the new one. */
  lemma StandsNew(acts: seq<Action>, a: Action)
    ensures Stands(acts + [a], |acts|) <==> a.Subscribe?
    ensures a.Subscribe? ==> Given(acts + [a], |acts|) == Subscription(Made(acts), a.topic, a.handler)
  {
    var more := acts + [a];
    assert more[..|acts|] == acts && more[|acts|] == a;
    assert more[|acts| + 1..] == [];
  }

  lemma StandsSnoc(acts: seq<Action>, a: Action, i: nat)
    ensures i < |acts| ==> (Stands(acts + [a], i) <==> Stands(acts, i) && a != Unsubscribe(Made(acts[..i])))
    ensures i < |acts| && acts[i].Subscribe? ==> Given(acts + [a], i) == Given(acts, i)
    ensures i == |acts| ==> (Stands(acts + [a], i) <==> a.Subscribe?)
    ensures i == |acts| && a.Subscribe? ==> Given(acts + [a], i) == Subscription(Made(acts), a.topic, a.handler)
  {
    if i < |acts| {
      StandsOn(acts, a, i);
    } else if i == |acts| {
      StandsNew(acts, a);
    }
  }

  lemma {:induction false} MadeGrows(acts: seq<Action>, i: nat)
    requires i < |acts| && acts[i].Subscribe?
    ensures Made(acts[..i]) < Made(acts)
  {
    if i == |acts| - 1 {
    } else {
      MadeGrows(acts[..|acts| - 1], i);
      assert acts[..|acts| - 1][..i] == acts[..i];
    }
  }

  ghost predicate Kept(acts: seq<Action>, live: seq<Subscription>) {
    && (forall sub :: sub in live ==> exists i: nat :: Stands(acts, i) && Given(acts, i) == sub)
    && (forall i: nat :: Stands(acts, i) ==> Given(acts, i) in live)
  }

  lemma KeptSubscribe(acts: seq<Action>, a: Action, live: seq<Subscription>)
    requires Kept(acts, live) && a.Subscribe?
    ensures Kept(acts + [a], live + [Subscription(Made(acts), a.topic, a.handler)])
  {
    var live' := live + [Subscription(Made(acts), a.topic, a.handler)];
    forall sub | sub in live'
      ensures exists i: nat :: Stands(acts + [a], i) && Given(acts + [a], i) == sub
    {
      var i: nat := |acts|;
      if sub in live {
        i :| Stands(acts, i) && Given(acts, i) == sub;
      }
      StandsSnoc(acts, a, i);
    }
    forall i: nat | Stands(acts + [a], i) ensures Given(acts + [a], i) in live' {
      StandsSnoc(acts, a, i);
    }
  }

  lemma KeptUnsubscribe(acts: seq<Action>, handle: Handle, live: seq<Subscription>, live': seq<Subscription>)
    requires Kept(acts, live)
    requires forall sub :: sub in live' <==> sub in live && sub.handle != handle
    ensures Kept(acts + [Unsubscribe(handle)], live')
  {
    var a := Unsubscribe(handle);
    forall sub | sub in live' ensures exists i: nat :: Stands(acts + [a], i) && Given(acts + [a], i) == sub {
      var i: nat :| Stands(acts, i) && Given(acts, i) == sub;
      StandsSnoc(acts, a, i);
    }
    forall i: nat | Stands(acts + [a], i) ensures Given(acts + [a], i) in live' {
      StandsSnoc(acts, a, i);
    }
  }

  lemma KeptOther(acts: seq<Action>, a: Action, live: seq<Subscription>)
    requires Kept(acts, live) && !a.Subscribe? && !a.Unsubscribe?
    ensures Kept(acts + [a], live)
  {
    forall sub | sub in live ensures exists i: nat :: Stands(acts + [a], i) && Given(acts + [a], i) == sub {
      var i: nat :| Stands(acts, i) && Given(acts, i) == sub;
      StandsSnoc(acts, a, i);
    }
    forall i: nat | Stands(acts + [a], i) ensures Given(acts + [a], i) in live {
      StandsSnoc(acts, a, i);
    }
  }

  /** What the steps do to the list and the next handle. */
  lemma StepLive(s: State, a: Action)
    requires Enabled(s, a)
    ensures a.Subscribe? ==>
              && Next(s, a).core.live == s.core.live + [Subscription(s.core.nextHandle, a.topic, a.handler)]
              && Next(s, a).core.nextHandle == s.core.nextHandle + 1
    ensures !a.Subscribe? ==> Next(s, a).core.nextHandle == s.core.nextHandle
    ensures a.Unsubscribe? ==>
              forall sub :: sub in Next(s, a).core.live <==> sub in s.core.live && sub.handle != a.handle
    ensures !a.Subscribe? && !a.Unsubscribe? ==> Next(s, a).core.live == s.core.live
  {
    if a.Unsubscribe? {
      WithoutMembers(s.core.live, a.handle);
    }
  }

  /** In every interleaving the live subscriptions are those that the standing Subscribe calls gave,
      each under the number of subscriptions made before it, with its topic and its handler. */
  lemma {:induction false} LiveAreStanding(acts: seq<Action>, s: State)
    requires Runs(START, acts, s)
    ensures s.core.nextHandle == Made(acts)
    ensures forall sub :: sub in s.core.live ==> exists i: nat :: Stands(acts, i) && Given(acts, i) == sub
    ensures forall i: nat :: Stands(acts, i) ==> Given(acts, i) in s.core.live
    decreases |acts|
  {
    if acts != [] {
      var init, a := acts[..|acts| - 1], acts[|acts| - 1];
      var mid := LastStep(START, acts, s);
      LiveAreStanding(init, mid);
      StepLive(mid, a);
      assert acts == init + [a];
      if a.Subscribe? {
        KeptSubscribe(init, a, mid.core.live);
      } else if a.Unsubscribe? {
        KeptUnsubscribe(init, a.handle, mid.core.live, s.core.live);
      } else {
        KeptOther(init, a, mid.core.live);
      }
    }
  }

  // ----- the order of the calls -----

  /** The standing calls for a topic among the first n. */
  ghost function StandingBelow(acts: seq<Action>, topic: Topic, n: nat): seq<nat> {
    if n == 0 then []
    else StandingBelow(acts, topic, n - 1)
         + if StandsFor(acts, topic, n - 1) then [n - 1] else []
  }

  ghost predicate Rising(calls: seq<nat>) {
    forall j, k :: 0 <= j < k < |calls| ==> calls[j] < calls[k]
  }

  lemma RisingSnoc(calls: seq<nat>, n: nat)
    requires Rising(calls) && forall i :: i in calls ==> i < n
    ensures Rising(calls + [n])
  {
    assert forall k :: 0 <= k < |calls| ==> calls[k] in calls;
  }

  lemma {:induction false} BelowAre(acts: seq<Action>, topic: Topic, n: nat)
    ensures forall i: nat :: i in StandingBelow(acts, topic, n) <==> i < n && StandsFor(acts, topic, i)
    ensures Rising(StandingBelow(acts, topic, n))
  {
    if n > 0 {
      BelowAre(acts, topic, n - 1);
      RisingSnoc(StandingBelow(acts, topic, n - 1), n - 1);
    }
  }

  lemma AllBelow(acts: seq<Action>, topic: Topic)
    ensures AreStanding(acts, topic, StandingBelow(acts, topic, |acts|))
  {
    BelowAre(acts, topic, |acts|);
    var calls := StandingBelow(acts, topic, |acts|);
    forall k | 0 <= k < |calls| ensures StandsFor(acts, topic, calls[k]) {
      assert calls[k] in calls;
    }
  }

  /** Two lists of ascending handles with the same members are the same list. */
  lemma {:induction false} AscendingUnique(a: seq<Subscription>, b: seq<Subscription>, bound: Handle)
    requires Ascending(a, bound) && Ascending(b, bound)
    requires forall s :: s in a <==> s in b
    ensures a == b
  {
    assert b != [] ==> b[0] in b;
    if a == [] {
    } else {
      assert a[0] in b && b[0] in a;
      assert a[0].handle == b[0].handle;
      AscendingTail(a, bound);
      AscendingTail(b, bound);
      SameTail(a, b);
      AscendingUnique(a[1..], b[1..], bound);
      assert a == [a[0]] + a[1..] && b == [b[0]] + b[1..];
    }
  }

  lemma SameTail(a: seq<Subscription>, b: seq<Subscription>)
    requires a != [] && b != [] && a[0].handle == b[0].handle
    requires forall s :: s in a <==> s in b
    requires forall s :: s in a[1..] ==> a[0].handle < s.handle
    requires forall s :: s in b[1..] ==> b[0].handle < s.handle
    ensures a[0] == b[0] && forall s :: s in a[1..] <==> s in b[1..]
  {
    assert a == [a[0]] + a[1..] && b == [b[0]] + b[1..];
    assert a[0] in b;
    forall s ensures s in a[1..] <==> s in b[1..] {
      assert s in a[1..] ==> s in b && s.handle != b[0].handle;
      assert s in b[1..] ==> s in a && s.handle != a[0].handle;
    }
  }

  /** What the standing calls of a topic gave, in the order of the calls. */
  ghost function GivenBy(acts: seq<Action>, calls: seq<nat>): seq<Subscription>
    requires forall k :: 0 <= k < |calls| ==> Stands(acts, calls[k])
  {
    seq(|calls|, k requires 0 <= k < |calls| && Stands(acts, calls[k]) => Given(acts, calls[k]))
  }

  lemma GivenAscend(acts: seq<Action>, topic: Topic, calls: seq<nat>)
    requires AreStanding(acts, topic, calls)
    ensures Ascending(GivenBy(acts, calls), Made(acts))
  {
    var given := GivenBy(acts, calls);
    forall j, k | 0 <= j < k < |given| ensures given[j].handle < given[k].handle {
      MadeGrows(acts[..calls[k]], calls[j]);
      assert acts[..calls[k]][..calls[j]] == acts[..calls[j]];
    }
    forall sub | sub in given ensures sub.handle < Made(acts) {
      var k :| 0 <= k < |given| && given[k] == sub;
      MadeGrows(acts, calls[k]);
    }
  }

  /** The part of the list under a topic is what the standing calls for the topic gave. */
  lemma TopicIsGiven(acts: seq<Action>, s: State, topic: Topic, calls: seq<nat>)
    requires Runs(START, acts, s) && AreStanding(acts, topic, calls)
    ensures OnTopic(s.core.live, topic) == GivenBy(acts, calls)
  {
    StartOk();
    RunKeeps(START, acts, s);
    LiveAreStanding(acts, s);
    GivenAscend(acts, topic, calls);
    OnTopicAscending(s.core.live, topic, Made(acts));
    OnTopicMembers(s.core.live, topic);
    GivenMembers(acts, s.core.live, topic, calls);
    AscendingUnique(OnTopic(s.core.live, topic), GivenBy(acts, calls), Made(acts));
  }

  lemma GivenMembers(acts: seq<Action>, live: seq<Subscription>, topic: Topic, calls: seq<nat>)
    requires Kept(acts, live) && AreStanding(acts, topic, calls)
    ensures forall sub :: sub in GivenBy(acts, calls) <==> sub in live && sub.topic == topic
  {
    var given := GivenBy(acts, calls);
    forall sub ensures sub in given <==> sub in live && sub.topic == topic {
      if sub in given {
        var k :| 0 <= k < |given| && given[k] == sub;
        assert StandsFor(acts, topic, calls[k]);
      }
      if sub in live && sub.topic == topic {
        var i: nat :| Stands(acts, i) && Given(acts, i) == sub;
        assert StandsFor(acts, topic, i);
        var k :| 0 <= k < |calls| && calls[k] == i;
        assert given[k] == sub;
      }
    }
  }

  lemma SnapshotIsGiven(acts: seq<Action>, s: State, topic: Topic)
    requires Runs(START, acts, s)
    ensures AreGiven(acts, topic, Snapshot(s.core, topic))
  {
    var calls := StandingBelow(acts, topic, |acts|);
    AllBelow(acts, topic);
    TopicIsGiven(acts, s, topic, calls);
    assert GaveEach(acts, calls, Snapshot(s.core, topic));
  }

  // ----- Publish -----

  /** A new subscription is the last of its topic's snapshot, and changes no other topic's. */
  lemma SnapshotAfterSubscribe(s: State, topic: Topic, handler: Handler, other: Topic)
    requires Enabled(s, Subscribe(topic, handler))
    ensures Snapshot(Next(s, Subscribe(topic, handler)).core, other)
         == Snapshot(s.core, other) + if other == topic then [handler] else []
  {
    OnTopicAppend(s.core.live, Subscription(s.core.nextHandle, topic, handler), other);
  }

  /** A Publish delivers to the handlers that the standing Subscribe calls for its topic gave, in order;
      only those are ever run or reported for it, none twice, and each of them once the WaitGroup is
      back at zero. */
  lemma PublishRunsWhatWasGiven(before: seq<Action>, s: State, topic: Topic, after: seq<Action>, s': State)
    requires Runs(START, before, s) && Enabled(s, Publish(topic))
    requires Runs(Next(s, Publish(topic)), after, s')
    ensures |s.deliveries| < |s'.deliveries|
    ensures AreGiven(before, topic, s'.deliveries[|s.deliveries|].handlers)
    ensures forall pos: nat :: Started(|s.deliveries|, pos) in s'.log || Reported(|s.deliveries|, pos) in s'.log ==>
              pos < |s'.deliveries[|s.deliveries|].handlers|
    ensures forall pos: nat :: pos < |s'.deliveries[|s.deliveries|].handlers| ==>
              var ran := multiset(s'.log)[Started(|s.deliveries|, pos)];
              var times := ran + multiset(s'.log)[Reported(|s.deliveries|, pos)];
              times <= 1 && (s'.core.wg == 0 ==> times == 1)
  {
    var c := |s.deliveries|;
    SnapshotIsGiven(before, s, topic);
    SnapshotFrozen(Next(s, Publish(topic)), after, s', c);
    forall pos: nat | pos < |s'.deliveries[c].handlers|
      ensures var times := multiset(s'.log)[Started(c, pos)] + multiset(s'.log)[Reported(c, pos)];
              times <= 1 && (s'.core.wg == 0 ==> times == 1)
    {
      PublishDeliversExactlyOnce(before, s, topic, after, s', pos);
    }
    StartOk();
    RunKeeps(START, before, s);
    StepKeeps(s, Publish(topic));
    RunKeeps(Next(s, Publish(topic)), after, s');
    forall pos: nat | Started(c, pos) in s'.log || Reported(c, pos) in s'.log
      ensures pos < |s'.deliveries[c].handlers|
    {
      LoggedIsEntry(s', c, pos);
    }
  }

  lemma LoggedIsEntry(s: State, c: nat, pos: nat)
    requires Inv(s) && c < |s.deliveries| && (Started(c, pos) in s.log || Reported(c, pos) in s.log)
    ensures pos < |s.deliveries[c].handlers|
  {
    assert DeliveryOk(s.deliveries[c], s.core.pools);
    assert multiset(s.log)[Started(c, pos)] == Expected(s.deliveries, Started(c, pos));
    assert multiset(s.log)[Reported(c, pos)] == Expected(s.deliveries, Reported(c, pos));
  }

  // ----- PublishSync -----

  /** The positions that one PublishSync call has started, in order. */
  function Positions(log: seq<Event>, call: nat): seq<nat> {
    if log == [] then []
    else Positions(log[..|log| - 1], call)
         + match log[|log| - 1] {
           case SyncStarted(c, p) => if c == call then [p] else []
           case _ => []
         }
  }

  /** One PublishSync call has started its handlers one after another from the first. */
  ghost predicate InOrder(s: State, call: nat)
    requires call < |s.syncs|
  {
    var y := s.syncs[call];
    && Positions(s.log, call) == seq(if y.active then y.pos + 1 else y.pos, i => i)
    && y.pos <= |y.handlers|
    && (y.active ==> y.open && y.pos < |y.handlers|)
    && (!y.open ==> y.pos == |y.handlers|)
  }

  lemma PositionsSnoc(log: seq<Event>, e: Event, call: nat)
    ensures Positions(log + [e], call)
         == Positions(log, call) + if e.SyncStarted? && e.call == call then [e.pos] else []
  {
    assert (log + [e])[..|log|] == log;
  }

  lemma InOrderStep(s: State, a: Action, call: nat)
    requires Enabled(s, a) && call < |s.syncs| && InOrder(s, call)
    ensures call < |Next(s, a).syncs| && InOrder(Next(s, a), call)
    ensures Next(s, a).syncs[call].handlers == s.syncs[call].handlers
  {
    if OfSync(a) {
      OrderSync(s, a, call);
    } else {
      OrderOther(s, a, call);
    }
  }

  lemma OrderSync(s: State, a: Action, call: nat)
    requires Enabled(s, a) && OfSync(a) && call < |s.syncs| && InOrder(s, call)
    ensures call < |Next(s, a).syncs| && InOrder(Next(s, a), call)
    ensures Next(s, a).syncs[call].handlers == s.syncs[call].handlers
  {
    var y, y' := s.syncs[call], Next(s, a).syncs[call];
    if a.SyncStart? {
      PositionsSnoc(s.log, SyncStarted(a.call, s.syncs[a.call].pos), call);
      CountUp(y.pos);
    } else {
      assert Next(s, a).log == s.log;
    }
    assert y'.handlers == y.handlers;
  }

  lemma CountUp(n: nat)
    ensures seq(n, i => i) + [n] == seq(n + 1, i => i)
  {
  }

  lemma OrderOther(s: State, a: Action, call: nat)
    requires Enabled(s, a) && !OfSync(a) && call < |s.syncs| && InOrder(s, call)
    ensures Next(s, a).syncs == s.syncs && InOrder(Next(s, a), call)
  {
    if a.Start? {
      PositionsSnoc(s.log, Started(a.call, a.pos), call);
    } else if a.Submit? && !a.accepted {
      PositionsSnoc(s.log, Reported(a.call, s.deliveries[a.call].next), call);
    }
  }

  lemma {:induction false} InOrderRun(s: State, acts: seq<Action>, s': State, call: nat)
    requires Runs(s, acts, s') && call < |s.syncs| && InOrder(s, call)
    ensures call < |s'.syncs| && InOrder(s', call) && s'.syncs[call].handlers == s.syncs[call].handlers
    decreases |acts|
  {
    if acts != [] {
      InOrderStep(s, acts[0], call);
      InOrderRun(Next(s, acts[0]), acts[1..], s', call);
    }
  }

  /** No event names a PublishSync call that has not begun. */
  lemma {:induction false} NotBegun(acts: seq<Action>, s: State, call: nat)
    requires Runs(START, acts, s) && |s.syncs| <= call
    ensures Positions(s.log, call) == []
    decreases |acts|
  {
    if acts != [] {
      var a := acts[|acts| - 1];
      var mid := LastStep(START, acts, s);
      NotBegun(acts[..|acts| - 1], mid, call);
      if s.log != mid.log {
        PositionsSnoc(mid.log, s.log[|mid.log|], call);
        assert s.log == mid.log + [s.log[|mid.log|]];
      }
    }
  }

  /** A PublishSync runs the handlers that the standing Subscribe calls for its topic gave, one after
      another from the first; when it has returned it has run each of them, once. */
  lemma SyncRunsWhatWasGiven(before: seq<Action>, s: State, topic: Topic, after: seq<Action>, s': State)
    requires Runs(START, before, s) && Enabled(s, SyncBegin(topic))
    requires Runs(Next(s, SyncBegin(topic)), after, s')
    ensures |s.syncs| < |s'.syncs|
    ensures var y := s'.syncs[|s.syncs|];
            var run := Positions(s'.log, |s.syncs|);
            && AreGiven(before, topic, y.handlers)
            && |run| <= |y.handlers|
            && (forall i :: 0 <= i < |run| ==> run[i] == i)
            && (!y.open ==> |run| == |y.handlers|)
  {
    var call := |s.syncs|;
    SnapshotIsGiven(before, s, topic);
    NotBegun(before, s, call);
    var begun := Next(s, SyncBegin(topic));
    assert InOrder(begun, call);
    InOrderRun(begun, after, s', call);
  }
}
