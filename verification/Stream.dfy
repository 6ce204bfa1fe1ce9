/**
 Turning message chunks into bracketed callbacks (pkg/eino-ext/stream/stream.go). The callbacks made are
 recorded as a trace of events. The messages come from the model's stream; concatenating them and which
 callbacks panic are parameters.
 */
module Stream {
  import opened Strings
  import opened Wrappers

  datatype Channel = Reasoning | Content | Tool

  datatype ToolCall = ToolCall(id: string, name: string, arguments: string)

  datatype Message = Message(reasoning: string, content: string, tools: seq<ToolCall>, finishReason: string)

  /** A piece of what a channel carries. */
  datatype Piece = Char(c: char) | Call(call: ToolCall)

  datatype Reason = Panic | ReceiveError | ContextDone | ModelFinishReason | ConcatError

  datatype Event =
    | Start
    | Begin(ch: Channel)
    | Delta(ch: Channel, payload: seq<Piece>)
    | End(ch: Channel)
    | Error(reason: Reason)
    | Done(final: Message)

  /** Which callback an event calls; the caller may leave any of them out. */
  datatype Callback = OnStart | OnBegin(of: Channel) | OnDelta(of: Channel) | OnEnd(of: Channel) | OnError | OnDone

  function CallbackOf(e: Event): Callback {
    match e
    case Start => OnStart
    case Begin(ch) => OnBegin(ch)
    case Delta(ch, _) => OnDelta(ch)
    case End(ch) => OnEnd(ch)
    case Error(_) => OnError
    case Done(_) => OnDone
  }

  /** The events whose callbacks are there. */
  function Heard(trace: seq<Event>, present: set<Callback>): seq<Event> {
    if trace == [] then []
    else
      var n := |trace| - 1;
      Heard(trace[..n], present) + (if CallbackOf(trace[n]) in present then [trace[n]] else [])
  }

  // ----- what a message carries -----

  function Chars(s: string): seq<Piece> {
    seq(|s|, i requires 0 <= i < |s| => Char(s[i]))
  }

  function Calls(tools: seq<ToolCall>): seq<Piece> {
    seq(|tools|, i requires 0 <= i < |tools| => Call(tools[i]))
  }

  function Payload(m: Option<Message>, ch: Channel): seq<Piece> {
    if m.None? then []
    else
      match ch
      case Reasoning => Chars(m.value.reasoning)
      case Content => Chars(m.value.content)
      case Tool => Calls(m.value.tools)
  }

  predicate Has(m: Option<Message>, ch: Channel) {
    match ch
    case Reasoning => m.Some? && m.value.reasoning != ""
    case Content => m.Some? && m.value.content != ""
    case Tool => m.Some? && |m.value.tools| > 0
  }

  // ----- finish reasons -----

  function ToLower(s: string): string {
    seq(|s|, i requires 0 <= i < |s| => if 'A' <= s[i] <= 'Z' then (s[i] as int + 32) as char else s[i])
  }

  function FinishReasonOf(m: Option<Message>): string {
    if m.None? then "" else TrimSpace(m.value.finishReason)
  }

  predicate IsNonErrorFinishReason(reason: string) {
    ToLower(TrimSpace(reason)) in {"stop", "length", "tool_calls"}
  }

  predicate BadFinish(m: Option<Message>) {
    FinishReasonOf(m) != "" && !IsNonErrorFinishReason(FinishReasonOf(m))
  }

  // ----- transitions -----

  function Ends(prev: Option<Message>, cur: Option<Message>, ch: Channel): seq<Event> {
    if Has(prev, ch) && !Has(cur, ch) then [End(ch)] else []
  }

  function Begins(prev: Option<Message>, cur: Option<Message>, ch: Channel): seq<Event> {
    if !Has(prev, ch) && Has(cur, ch) then [Begin(ch)] else []
  }

  function Deltas(cur: Option<Message>, ch: Channel): seq<Event> {
    if Has(cur, ch) then [Delta(ch, Payload(cur, ch))] else []
  }

  function AllEnds(prev: Option<Message>, cur: Option<Message>): seq<Event> {
    Ends(prev, cur, Reasoning) + Ends(prev, cur, Content) + Ends(prev, cur, Tool)
  }

  function AllBegins(prev: Option<Message>, cur: Option<Message>): seq<Event> {
    Begins(prev, cur, Reasoning) + Begins(prev, cur, Content) + Begins(prev, cur, Tool)
  }

  function AllDeltas(cur: Option<Message>): seq<Event> {
    Deltas(cur, Reasoning) + Deltas(cur, Content) + Deltas(cur, Tool)
  }

  /** All ends, then all beginnings, then all deltas. */
  function Transition(prev: Option<Message>, cur: Option<Message>): seq<Event> {
    AllEnds(prev, cur) + AllBegins(prev, cur) + AllDeltas(cur)
  }

  function Last(fed: seq<Option<Message>>): Option<Message> {
    if fed == [] then None else fed[|fed| - 1]
  }

  predicate Started(fed: seq<Option<Message>>) {
    fed != [] && (fed[|fed| - 1].Some? || Started(fed[..|fed| - 1]))
  }

  function FeedEvents(started: bool, prev: Option<Message>, cur: Option<Message>): seq<Event> {
    (if cur.Some? && !started then [Start] else []) + Transition(prev, cur)
  }

  function FeedTrace(fed: seq<Option<Message>>): seq<Event> {
    if fed == [] then []
    else
      var n := |fed| - 1;
      FeedTrace(fed[..n]) + FeedEvents(Started(fed[..n]), Last(fed[..n]), fed[n])
  }

  // ----- a whole stream -----

  /** One receive that gives a message (possibly nil), and whether the context is done by then. */
  datatype Received = Received(msg: Option<Message>, canceled: bool)

  /** How the receives end: at the end of the stream, with an error, or in a panic. */
  datatype EndOfStream = Eof | Broken | Crashed

  function StopOf(end: EndOfStream): Option<Reason> {
    match end
    case Eof => None
    case Broken => Some(ReceiveError)
    case Crashed => Some(Panic)
  }

  /** Why a received message is not fed, if it is not. */
  function Refusal(r: Received): Option<Reason> {
    if r.canceled then Some(ContextDone) else if BadFinish(r.msg) then Some(ModelFinishReason) else None
  }

  /** How many messages are fed, and the error that stopped the loop, if any. */
  function Fed(input: seq<Received>, end: EndOfStream): (nat, Option<Reason>) {
    if input == [] then (0, StopOf(end))
    else if Refusal(input[0]).Some? then (0, Refusal(input[0]))
    else
      var (n, stop) := Fed(input[1..], end);
      (n + 1, stop)
  }

  lemma {:induction false} FedBound(input: seq<Received>, end: EndOfStream)
    ensures Fed(input, end).0 <= |input|
    ensures Fed(input, end).1.None? <==> end.Eof? && forall i :: 0 <= i < |input| ==> Refusal(input[i]).None?
    ensures Fed(input, end).1.None? ==> Fed(input, end).0 == |input|
  {
    if input != [] {
      FedBound(input[1..], end);
      assert input == [input[0]] + input[1..];
    }
  }

  function Messages(input: seq<Received>): (m: seq<Option<Message>>)
    ensures |m| == |input|
  {
    seq(|input|, i requires 0 <= i < |input| => input[i].msg)
  }

  /** Concatenating the messages gives one, an error, or a panic. */
  datatype Concatenated = Whole(final: Message) | Unfit | Panicked

  type Concat = seq<Option<Message>> -> Concatenated

  function FedMessages(input: seq<Received>, end: EndOfStream): seq<Option<Message>> {
    FedBound(input, end);
    Messages(input[..Fed(input, end).0])
  }

  /** The terminal event of a run. */
  function Verdict(input: seq<Received>, end: EndOfStream, concat: Concat): Event {
    var stop := Fed(input, end).1;
    if stop.Some? then Error(stop.value)
    else
      match concat(FedMessages(input, end))
      case Whole(final) => Done(final)
      case Unfit => Error(ConcatError)
      case Panicked => Error(Panic)
  }

  /** The trace with the terminal event and what it owes before it. */
  function Ended(trace: seq<Event>, prev: Option<Message>, last: Event): seq<Event> {
    if last.Done? then trace + Transition(prev, None) + [last] else trace + [last]
  }

  /** The events of a run in which no callback panics. */
  function RunTrace(input: seq<Received>, end: EndOfStream, concat: Concat): seq<Event> {
    var fed := FedMessages(input, end);
    Ended(FeedTrace(fed), Last(fed), Verdict(input, end, concat))
  }

  // ----- panicking callbacks -----

  /** Says of each call, by its number, whether it panics. */
  type Panics = nat -> bool

  /** Some call panics. */
  predicate Stopped(calls: seq<Event>, panics: Panics) {
    exists i :: 0 <= i < |calls| && panics(i)
  }

  /** The calls up to the first that panics, which is made. */
  function Cut(calls: seq<Event>, panics: Panics): seq<Event> {
    if calls == [] then []
    else
      var n := |calls| - 1;
      Cut(calls[..n], panics) + (if Stopped(calls[..n], panics) then [] else [calls[n]])
  }

  /** The deferred function recovers a panic and reports it; nobody recovers a panic of that report. */
  function Recovered(calls: seq<Event>, present: set<Callback>, panics: Panics): (seq<Event>, bool) {
    if OnError in present then (calls + [Error(Panic)], panics(|calls|)) else (calls, false)
  }

  /** The calls made, and whether a panic leaves the function, given what is heard of the loop and of the
      whole run. A panic in the loop is recovered; one of OnError in the loop too, and is not reported again;
      one after a good end is in the deferred function, where nobody recovers it. */
  function Made(loop: seq<Event>, all: seq<Event>, last: Event, present: set<Callback>, panics: Panics)
    : (seq<Event>, bool)
  {
    if Stopped(loop, panics) then Recovered(Cut(loop, panics), present, panics)
    else if last == Error(Panic) then Recovered(loop, present, panics)
    else if last.Error? then (all, false)
    else (Cut(all, panics), Stopped(all, panics))
  }

  function Outcome(input: seq<Received>, end: EndOfStream, concat: Concat, present: set<Callback>, panics: Panics)
    : (seq<Event>, bool)
  {
    Made(Heard(FeedTrace(FedMessages(input, end)), present), Heard(RunTrace(input, end, concat), present),
         Verdict(input, end, concat), present, panics)
  }

  lemma StoppedNext(calls: seq<Event>, e: Event, panics: Panics)
    ensures Stopped(calls + [e], panics) <==> Stopped(calls, panics) || panics(|calls|)
  {
    var more := calls + [e];
    if Stopped(calls, panics) {
      var i :| 0 <= i < |calls| && panics(i);
      assert 0 <= i < |more| && panics(i);
    } else if panics(|calls|) {
      assert 0 <= |calls| < |more| && panics(|calls|);
    }
  }

  lemma {:induction false} CutAll(calls: seq<Event>, panics: Panics)
    requires !Stopped(calls, panics)
    ensures Cut(calls, panics) == calls
    decreases |calls|
  {
    if calls != [] {
      var front, e := calls[..|calls| - 1], calls[|calls| - 1];
      assert front + [e] == calls;
      StoppedNext(front, e, panics);
      CutAll(front, panics);
    }
  }

  lemma CutNext(calls: seq<Event>, e: Event, panics: Panics)
    ensures Cut(calls + [e], panics) == if Stopped(calls, panics) then Cut(calls, panics) else calls + [e]
  {
    assert (calls + [e])[..|calls|] == calls;
    if !Stopped(calls, panics) {
      CutAll(calls, panics);
    }
  }

  lemma HeardNext(trace: seq<Event>, e: Event, present: set<Callback>)
    ensures Heard(trace + [e], present)
         == if CallbackOf(e) in present then Heard(trace, present) + [e] else Heard(trace, present)
  {
    assert (trace + [e])[..|trace|] == trace;
  }

  /** Nothing later matters once a call has panicked. */
  lemma {:induction false} CutStops(calls: seq<Event>, more: seq<Event>, panics: Panics)
    requires Stopped(calls, panics)
    ensures Stopped(calls + more, panics) && Cut(calls + more, panics) == Cut(calls, panics)
    decreases |more|
  {
    if more == [] {
      assert calls + more == calls;
    } else {
      var n := |more| - 1;
      CutStops(calls, more[..n], panics);
      assert calls + more == calls + more[..n] + [more[n]];
      StoppedNext(calls + more[..n], more[n], panics);
      CutNext(calls + more[..n], more[n], panics);
    }
  }

  lemma {:induction false} HeardConcat(a: seq<Event>, b: seq<Event>, present: set<Callback>)
    ensures Heard(a + b, present) == Heard(a, present) + Heard(b, present)
    decreases |b|
  {
    if b == [] {
      assert a + b == a;
    } else {
      HeardConcat(a, b[..|b| - 1], present);
      assert (a + b)[..|a + b| - 1] == a + b[..|b| - 1];
    }
  }

  lemma FeedTraceNext(fed: seq<Option<Message>>, m: Option<Message>)
    ensures FeedTrace(fed + [m]) == FeedTrace(fed) + FeedEvents(Started(fed), Last(fed), m)
    ensures Last(fed + [m]) == m && (Started(fed + [m]) <==> Started(fed) || m.Some?)
  {
    assert (fed + [m])[..|fed|] == fed;
  }

  /** Feeding one more message only adds calls. */
  lemma FeedTraceGrows(front: seq<Option<Message>>, m: Option<Message>) returns (last: seq<Event>)
    ensures FeedTrace(front + [m]) == FeedTrace(front) + last
  {
    FeedTraceNext(front, m);
    last := FeedEvents(Started(front), Last(front), m);
  }

  lemma Regroup(sofar: seq<Event>, rest: seq<Event>, last: seq<Event>, now: seq<Event>, later: seq<Event>)
    requires now == sofar + rest && later == now + last
    ensures later == sofar + (rest + last)
  {
  }

  lemma {:induction false} FeedTracePrefix(fed: seq<Option<Message>>, k: nat) returns (more: seq<Event>)
    requires k <= |fed|
    ensures FeedTrace(fed) == FeedTrace(fed[..k]) + more
    decreases |fed|
  {
    if k == |fed| {
      more := [];
      assert fed[..k] == fed;
    } else {
      var front, m := fed[..|fed| - 1], fed[|fed| - 1];
      assert front[..k] == fed[..k] && front + [m] == fed;
      var rest := FeedTracePrefix(front, k);
      var last := FeedTraceGrows(front, m);
      more := rest + last;
      Regroup(FeedTrace(fed[..k]), rest, last, FeedTrace(front), FeedTrace(fed));
    }
  }

  /** A panic while the first k messages are fed decides what the loop calls. */
  lemma LoopStops(fed: seq<Option<Message>>, k: nat, present: set<Callback>, panics: Panics)
    requires k <= |fed| && Stopped(Heard(FeedTrace(fed[..k]), present), panics)
    ensures Stopped(Heard(FeedTrace(fed), present), panics)
    ensures Cut(Heard(FeedTrace(fed), present), panics) == Cut(Heard(FeedTrace(fed[..k]), present), panics)
  {
    var more := FeedTracePrefix(fed, k);
    HeardConcat(FeedTrace(fed[..k]), more, present);
    CutStops(Heard(FeedTrace(fed[..k]), present), Heard(more, present), panics);
  }

  // ----- the program -----

  lemma Append3(p: seq<Event>, a: seq<Event>, b: seq<Event>, c: seq<Event>)
    ensures p + a + b + c == p + (a + b + c)
  {
  }

  lemma FeedEventsFrom(p: seq<Event>, started: bool, prev: Option<Message>, cur: Option<Message>)
    ensures p + FeedEvents(started, prev, cur)
         == (if cur.Some? && !started then p + [Start] else p) + Transition(prev, cur)
  {
    var t := Transition(prev, cur);
    assert p + ([Start] + t) == p + [Start] + t;
    assert [] + t == t;
  }

  class StreamTracker {
    var started: bool
    var lastMsg: Option<Message>
    var calls: seq<Event>
    var panicked: bool // a callback has panicked: the stack is being unwound
    const present: set<Callback>
    const panics: Panics
    ghost var events: seq<Event>

    /** The calls made are the events, less those without a callback, up to a panic. */
    ghost predicate Valid()
      reads this
    {
      calls == Cut(Heard(events, present), panics) && panicked == Stopped(Heard(events, present), panics)
    }

    /** These messages have been fed. */
    ghost predicate Fed(msgs: seq<Option<Message>>)
      reads this
    {
      events == FeedTrace(msgs) && lastMsg == Last(msgs) && started == Started(msgs)
    }

    constructor (present: set<Callback>, panics: Panics)
      ensures Valid() && Fed([])
      ensures this.present == present && this.panics == panics
    {
      started, lastMsg, calls, panicked, events := false, None, [], false, [];
      this.present, this.panics := present, panics;
    }

    /** The call of one event's callback; none is made while the stack is being unwound. */
    method Emit(e: Event)
      requires Valid()
      modifies `calls, `panicked, `events
      ensures Valid() && events == old(events) + [e]
    {
      HeardNext(events, e, present);
      if CallbackOf(e) in present {
        StoppedNext(Heard(events, present), e, panics);
        CutNext(Heard(events, present), e, panics);
        if !panicked {
          CutAll(Heard(events, present), panics);
          panicked := panics(|calls|);
          calls := calls + [e];
        }
      }
      events := events + [e];
    }

    method EmitEnd(prev: Option<Message>, cur: Option<Message>, ch: Channel)
      requires Valid()
      modifies `calls, `panicked, `events
      ensures Valid() && events == old(events) + Ends(prev, cur, ch)
    {
      if Has(prev, ch) && !Has(cur, ch) {
        Emit(End(ch));
      }
    }

    method EmitBegin(prev: Option<Message>, cur: Option<Message>, ch: Channel)
      requires Valid()
      modifies `calls, `panicked, `events
      ensures Valid() && events == old(events) + Begins(prev, cur, ch)
    {
      if !Has(prev, ch) && Has(cur, ch) {
        Emit(Begin(ch));
      }
    }

    method EmitDelta(cur: Option<Message>, ch: Channel)
      requires Valid()
      modifies `calls, `panicked, `events
      ensures Valid() && events == old(events) + Deltas(cur, ch)
    {
      if Has(cur, ch) {
        Emit(Delta(ch, Payload(cur, ch)));
      }
    }

    method EmitByTransition(prev: Option<Message>, cur: Option<Message>)
      requires Valid()
      modifies `calls, `panicked, `events
      ensures Valid() && events == old(events) + Transition(prev, cur)
    {
      ghost var e0 := events;
      EmitEnd(prev, cur, Reasoning);
      EmitEnd(prev, cur, Content);
      EmitEnd(prev, cur, Tool);
      Append3(e0, Ends(prev, cur, Reasoning), Ends(prev, cur, Content), Ends(prev, cur, Tool));
      ghost var e1 := events;
      EmitBegin(prev, cur, Reasoning);
      EmitBegin(prev, cur, Content);
      EmitBegin(prev, cur, Tool);
      Append3(e1, Begins(prev, cur, Reasoning), Begins(prev, cur, Content), Begins(prev, cur, Tool));
      ghost var e2 := events;
      EmitDelta(cur, Reasoning);
      EmitDelta(cur, Content);
      EmitDelta(cur, Tool);
      Append3(e2, Deltas(cur, Reasoning), Deltas(cur, Content), Deltas(cur, Tool));
      Append3(e0, AllEnds(prev, cur), AllBegins(prev, cur), AllDeltas(cur));
    }

    method Feed(cur: Option<Message>)
      requires Valid()
      modifies this
      ensures Valid() && started == (old(started) || cur.Some?) && lastMsg == cur
      ensures events == old(events) + FeedEvents(old(started), old(lastMsg), cur)
    {
      FeedEventsFrom(events, started, lastMsg, cur);
      if cur.Some? && !started {
        started := true;
        Emit(Start);
      }
      EmitByTransition(lastMsg, cur);
      lastMsg := cur;
    }

    method Finish(final: Message)
      requires Valid()
      modifies this
      ensures Valid() && events == Ended(old(events), old(lastMsg), Done(final))
    {
      EmitByTransition(lastMsg, None);
      lastMsg := None;
      Emit(Done(final));
    }
  }

  lemma MessagesNext(input: seq<Received>, n: nat)
    requires n < |input|
    ensures Messages(input[..n + 1]) == Messages(input[..n]) + [input[n].msg]
  {
  }

  predicate Accepted(input: seq<Received>, n: nat)
    requires n <= |input|
  {
    forall i :: 0 <= i < n ==> Refusal(input[i]).None?
  }

  /** The messages before the first refused one are fed. */
  lemma {:induction false} FedUpTo(input: seq<Received>, n: nat)
    requires n <= |input| && Accepted(input, n)
    ensures Fed(input, Eof).0 >= n
    ensures n == |input| ==> Fed(input, Eof) == (n, None)
    ensures n < |input| && Refusal(input[n]).Some? ==> Fed(input, Eof) == (n, Refusal(input[n]))
  {
    if n > 0 {
      var rest := input[1..];
      assert forall i :: 0 <= i < n - 1 ==> rest[i] == input[i + 1];
      FedUpTo(rest, n - 1);
      assert n < |input| ==> rest[n - 1] == input[n];
    }
  }

  /** The loop's checks before a message is fed. */
  method Check(r: Received) returns (refused: Option<Reason>)
    ensures refused == Refusal(r)
  {
    if r.canceled {
      return Some(ContextDone);
    }
    var finishReason := FinishReasonOf(r.msg);
    if finishReason != "" && !IsNonErrorFinishReason(finishReason) {
      return Some(ModelFinishReason);
    }
    refused := None;
  }

  /** One message: refused, or fed after the i accepted ones. */
  method FeedOne(tracker: StreamTracker, input: seq<Received>, i: nat) returns (stop: Option<Reason>)
    requires i < |input| && tracker.Valid() && tracker.Fed(Messages(input[..i]))
    modifies tracker
    ensures tracker.Valid() && stop == Refusal(input[i])
    ensures stop.Some? ==> unchanged(tracker)
    ensures stop.None? ==> tracker.Fed(Messages(input[..i + 1]))
  {
    stop := Check(input[i]);
    if stop.None? {
      MessagesNext(input, i);
      FeedTraceNext(Messages(input[..i]), input[i].msg);
      tracker.Feed(input[i].msg);
    }
  }

  /** The loop: messages are fed until one may not be or a callback panics. */
  method FeedAll(tracker: StreamTracker, input: seq<Received>) returns (n: nat, stop: Option<Reason>)
    requires tracker.Valid() && tracker.Fed([])
    modifies tracker
    ensures n <= |input| && tracker.Valid() && tracker.Fed(Messages(input[..n])) && Accepted(input, n)
    ensures !tracker.panicked ==> stop == if n < |input| then Refusal(input[n]) else None
    ensures !tracker.panicked && n < |input| ==> stop.Some?
  {
    n := 0;
    assert Messages(input[..0]) == [];
    while n < |input| && !tracker.panicked
      invariant n <= |input| && Accepted(input, n)
      invariant tracker.Valid() && tracker.Fed(Messages(input[..n]))
    {
      stop := FeedOne(tracker, input, n);
      if stop.Some? {
        return;
      }
      n := n + 1;
    }
    stop := None;
  }

  lemma {:induction false} FedEnd(input: seq<Received>, end: EndOfStream)
    ensures Fed(input, end).0 == Fed(input, Eof).0
    ensures Fed(input, end).1 == if Fed(input, Eof).1.None? then StopOf(end) else Fed(input, Eof).1
  {
    if input != [] {
      FedEnd(input[1..], end);
    }
  }

  /** The deferred function after a panic. */
  method Report(made: seq<Event>, present: set<Callback>, panics: Panics) returns (calls: seq<Event>, escaped: bool)
    ensures (calls, escaped) == Recovered(made, present, panics)
  {
    calls, escaped := made, false;
    if OnError in present {
      calls, escaped := calls + [Error(Panic)], panics(|calls|);
    }
  }

  /** OnError of the loop is the last call and its panic is recovered. */
  lemma MadeError(loop: seq<Event>, e: Event, present: set<Callback>, panics: Panics)
    requires !Stopped(Heard(loop, present), panics) && e.Error? && e != Error(Panic)
    ensures Made(Heard(loop, present), Heard(loop + [e], present), e, present, panics)
         == (Cut(Heard(loop + [e], present), panics), false)
  {
    HeardNext(loop, e, present);
    CutAll(Heard(loop, present), panics);
    CutNext(Heard(loop, present), e, panics);
  }

  lemma MadeReport(loop: seq<Event>, all: seq<Event>, present: set<Callback>, panics: Panics)
    requires !Stopped(Heard(loop, present), panics)
    ensures Made(Heard(loop, present), all, Error(Panic), present, panics)
         == Recovered(Cut(Heard(loop, present), panics), present, panics)
  {
    CutAll(Heard(loop, present), panics);
  }

  /** The run's verdict once the loop has ended without a panic. */
  method Judge(input: seq<Received>, n: nat, stop: Option<Reason>, end: EndOfStream, concat: Concat)
    returns (last: Event)
    requires n <= |input| && Fed(input, Eof) == (n, stop)
    ensures last == Verdict(input, end, concat)
  {
    FedEnd(input, end);
    if stop.Some? {
      return Error(stop.value);
    }
    match end {
      case Broken =>
        last := Error(ReceiveError);
      case Crashed =>
        last := Error(Panic);
      case Eof =>
        match concat(Messages(input[..n])) {
          case Unfit =>
            last := Error(ConcatError);
          case Panicked =>
            last := Error(Panic);
          case Whole(final) =>
            last := Done(final);
        }
    }
  }

  /** The terminal call, after the ends that a good end still owes. */
  method Conclude(tracker: StreamTracker, last: Event) returns (calls: seq<Event>, escaped: bool)
    requires tracker.Valid() && !tracker.panicked && (last.Done? || last.Error?)
    modifies tracker
    ensures (calls, escaped)
         == Made(Heard(old(tracker.events), tracker.present),
                 Heard(Ended(old(tracker.events), old(tracker.lastMsg), last), tracker.present), last,
                 tracker.present, tracker.panics)
  {
    match last {
      case Done(final) =>
        tracker.Finish(final);
        calls, escaped := tracker.calls, tracker.panicked;
      case Error(Panic) =>
        MadeReport(tracker.events, Heard(tracker.events + [last], tracker.present), tracker.present, tracker.panics);
        calls, escaped := Report(tracker.calls, tracker.present, tracker.panics);
      case Error(_) =>
        MadeError(tracker.events, last, tracker.present, tracker.panics);
        tracker.Emit(last);
        calls, escaped := tracker.calls, false;
    }
  }

  /** The rest of the run once the loop has ended without a panic. */
  method AfterLoop(tracker: StreamTracker, input: seq<Received>, n: nat, stop: Option<Reason>, end: EndOfStream,
                   concat: Concat)
    returns (calls: seq<Event>, escaped: bool)
    requires n <= |input| && Fed(input, Eof) == (n, stop)
    requires tracker.Valid() && !tracker.panicked && tracker.Fed(FedMessages(input, end))
    modifies tracker
    ensures (calls, escaped) == Outcome(input, end, concat, tracker.present, tracker.panics)
  {
    var last := Judge(input, n, stop, end, concat);
    calls, escaped := Conclude(tracker, last);
  }

  /** What the loop has fed is a prefix of what the run feeds, and all of it once the loop has ended. */
  lemma FedSoFar(input: seq<Received>, n: nat, stop: Option<Reason>, end: EndOfStream)
    requires n <= |input| && Accepted(input, n)
    ensures n <= |FedMessages(input, end)| && FedMessages(input, end)[..n] == Messages(input[..n])
    ensures stop == (if n < |input| then Refusal(input[n]) else None) && (n < |input| ==> stop.Some?) ==>
      Fed(input, Eof) == (n, stop) && FedMessages(input, end) == Messages(input[..n])
  {
    FedBound(input, end);
    FedUpTo(input, n);
    FedEnd(input, end);
  }

  lemma PanicInLoop(input: seq<Received>, n: nat, end: EndOfStream, concat: Concat, present: set<Callback>,
                    panics: Panics)
    requires n <= |FedMessages(input, end)|
    requires Stopped(Heard(FeedTrace(FedMessages(input, end)[..n]), present), panics)
    ensures Outcome(input, end, concat, present, panics)
         == Recovered(Cut(Heard(FeedTrace(FedMessages(input, end)[..n]), present), panics), present, panics)
  {
    LoopStops(FedMessages(input, end), n, present, panics);
  }

  /** The callbacks made are the run's events, less those whose callback is missing, up to a panic. */
  method HandleStreamWithCallback(input: seq<Received>, end: EndOfStream, concat: Concat, present: set<Callback>,
                                  panics: Panics)
    returns (calls: seq<Event>, escaped: bool)
    ensures (calls, escaped) == Outcome(input, end, concat, present, panics)
  {
    var tracker := new StreamTracker(present, panics);
    var n, stop := FeedAll(tracker, input);
    FedSoFar(input, n, stop, end);
    if tracker.panicked {
      PanicInLoop(input, n, end, concat, present, panics);
      calls, escaped := Report(tracker.calls, present, panics);
    } else {
      calls, escaped := AfterLoop(tracker, input, n, stop, end, concat);
    }
  }
}
