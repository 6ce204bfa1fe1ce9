/**
 Closing a batch inserter comes to an end: Close is never stuck, and the steps that it, the worker and the
 producers past the gate can take before it returns are bounded, whatever new calls, ticks and
 cancellations come between them.
 */
module BatchProgress {
  import opened Integers
  import opened Wrappers
  import opened BatchInserter
  import opened BatchProtocol

  /** Steps that Close, the worker and the producers past the gate take: no new call, no cancellation and no
      commit before the queue is drained. */
  predicate Own(a: Action) {
    !a.CancelRoot? && !a.AppendGate? && !a.WorkFlush?
  }

  lemma {:induction false} SomePastGate(ps: seq<Producer>) returns (c: nat)
    requires PastGateCount(ps) > 0
    ensures c < |ps| && PastGate(ps[c])
    decreases |ps|
  {
    c := 0;
    if !PastGate(ps[0]) {
      c := SomePastGate(ps[1..]);
      c := c + 1;
    }
  }

  lemma WorkerMoves(s: State)
    requires Inv(s) && s.closing == Sealed && s.at != Exited
    ensures exists a :: Enabled(s, a) && Own(a)
  {
    if s.hand.Some? {
      assert Enabled(s, WorkAppend(Fine, Fine));
    } else if s.at == Finishing {
      assert Enabled(s, WorkSend(Sent));
    } else if |s.queue| > 0 {
      assert Enabled(s, WorkReceive);
    } else {
      assert Enabled(s, WorkEndOfQueue);
    }
  }

  lemma CloseMoves(s: State)
    requires Inv(s) && s.closing != NotStarted && s.closeResults == []
    ensures exists a :: Enabled(s, a) && Own(a)
  {
    match s.closing {
      case Gated =>
        assert Enabled(s, CloseSignal);
      case Signalled =>
        if s.appendWg == 0 {
          assert Enabled(s, CloseSeal);
        } else {
          var c := SomePastGate(s.producers);
          assert Enabled(s, if s.producers[c].Selecting? then AppendGiveUp(c) else AppendDone(c));
        }
      case Sealed =>
        if s.at == Exited {
          assert Enabled(s, CloseReturn);
        } else {
          WorkerMoves(s);
        }
    }
  }

  /** Once Close has passed the gate, every state in which it has not returned has a step of its own, of the
      worker or of a producer that is already inside. */
  lemma ClosingNeverStuck(capacity: nat, acts: seq<Action>, s: State)
    requires Runs(Start(capacity), acts, s) && s.closing != NotStarted && s.closeResults == []
    ensures exists a :: Enabled(s, a) && Own(a)
  {
    Reachable(capacity, acts, s);
    CloseMoves(s);
  }

  // ----- steps left -----

  /** An Append past the gate can fill the first select, send, and leave; the worker then receives its row and
      appends it. */
  function AppendLeft(p: Producer): nat {
    match p
    case Selecting(_, full) => if full then 4 else 5
    case Leaving(_, _) => 1
    case Returned(_, _) => 0
  }

  function AppendsLeft(ps: seq<Producer>): seq<nat> {
    seq(|ps|, i requires 0 <= i < |ps| => AppendLeft(ps[i]))
  }

  function CloseLeft(closing: Closing): nat {
    match closing
    case NotStarted => 3
    case Gated => 2
    case Signalled => 1
    case Sealed => 0
  }

  function WorkerLeft(at: WorkerAt): nat {
    match at
    case Looping => 3
    case Consuming => 2
    case Draining => 2
    case Finishing => 1
    case Exited => 0
  }

  function Measure(s: State): nat {
    Sum(AppendsLeft(s.producers)) + 2 * |s.queue| + (if s.hand.Some? then 1 else 0)
    + CloseLeft(s.closing) + WorkerLeft(s.at) + (if s.closeResults == [] then 1 else 0)
  }

  lemma ProducerMoves(ps: seq<Producer>, c: nat, p: Producer)
    requires c < |ps|
    ensures Sum(AppendsLeft(ps[c := p])) == Sum(AppendsLeft(ps)) - AppendLeft(ps[c]) + AppendLeft(p)
  {
    SumUpdate(AppendsLeft(ps), c, AppendLeft(p));
    assert AppendsLeft(ps[c := p]) == AppendsLeft(ps)[c := AppendLeft(p)];
  }

  lemma ProducerComes(ps: seq<Producer>, p: Producer)
    ensures Sum(AppendsLeft(ps + [p])) == Sum(AppendsLeft(ps)) + AppendLeft(p)
  {
    SumAppend(AppendsLeft(ps), AppendLeft(p));
    assert AppendsLeft(ps + [p]) == AppendsLeft(ps) + [AppendLeft(p)];
  }

  /** After the gate no step raises the measure, and every step of closing lowers it until Close returns. */
  lemma StepMeasure(s: State, a: Action)
    requires Enabled(s, a) && s.closing != NotStarted
    ensures Next(s, a).closing != NotStarted && Measure(Next(s, a)) <= Measure(s)
    ensures Own(a) && s.closeResults == [] ==> Measure(Next(s, a)) < Measure(s)
  {
    if a.AppendGate? {
      ProducerComes(s.producers, Returned(a.val, false));
    } else if OfAppend(a) {
      ProducerMoves(s.producers, a.call, Next(s, a).producers[a.call]);
    }
  }

  function OwnSteps(acts: seq<Action>): nat {
    if acts == [] then 0 else (if Own(acts[0]) then 1 else 0) + OwnSteps(acts[1..])
  }

  lemma {:induction false} ResultsStay(s: State, acts: seq<Action>, t: State)
    requires Runs(s, acts, t) && t.closeResults == []
    ensures s.closeResults == []
    decreases |acts|
  {
    if acts != [] {
      ResultsStay(Next(s, acts[0]), acts[1..], t);
    }
  }

  lemma {:induction false} RunMeasure(s: State, acts: seq<Action>, t: State)
    requires Runs(s, acts, t) && s.closing != NotStarted && t.closeResults == []
    ensures OwnSteps(acts) + Measure(t) <= Measure(s)
    decreases |acts|
  {
    if acts != [] {
      ResultsStay(s, acts, t);
      StepMeasure(s, acts[0]);
      RunMeasure(Next(s, acts[0]), acts[1..], t);
    }
  }

  lemma {:induction false} AppendsLeftBound(ps: seq<Producer>)
    ensures Sum(AppendsLeft(ps)) <= 5 * PastGateCount(ps)
    decreases |ps|
  {
    if ps != [] {
      AppendsLeftBound(ps[1..]);
      assert AppendsLeft(ps)[1..] == AppendsLeft(ps[1..]);
    }
  }

  /** From the gate on, as long as Close has not returned, closing takes at most five steps for each Append that
      is past the gate, two for each place in the queue and seven more, in any interleaving. */
  lemma ClosingIsBounded(capacity: nat, before: seq<Action>, s: State, acts: seq<Action>, t: State)
    requires Runs(Start(capacity), before, s) && s.closing != NotStarted
    requires Runs(s, acts, t) && t.closeResults == []
    ensures OwnSteps(acts) < 5 * s.appendWg + 2 * s.capacity + 7
  {
    Reachable(capacity, before, s);
    AppendsLeftBound(s.producers);
    RunMeasure(s, acts, t);
  }

  /** So Close returns: some schedule of closing's own steps leads there from any state past the gate. */
  lemma {:induction false} CloseCanReturn(s: State) returns (acts: seq<Action>, t: State)
    requires Inv(s) && s.closing != NotStarted
    ensures Runs(s, acts, t) && t.closeResults != [] && OwnSteps(acts) == |acts| <= Measure(s)
    decreases Measure(s)
  {
    if s.closeResults != [] {
      acts, t := [], s;
    } else {
      CloseMoves(s);
      var a :| Enabled(s, a) && Own(a);
      StepKeeps(s, a);
      StepMeasure(s, a);
      var rest;
      rest, t := CloseCanReturn(Next(s, a));
      acts := [a] + rest;
      assert acts[1..] == rest;
    }
  }
}
