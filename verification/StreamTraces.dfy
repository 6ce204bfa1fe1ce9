/**
 What the callbacks of a stream look like to their caller: on each channel they are bracketed, they spell
 out the stream's text, and one of error and done comes, last.
 */
module StreamTraces {
  import opened Stream
  import opened Wrappers

  predicate OnChannel(e: Event, ch: Channel) {
    (e.Begin? || e.Delta? || e.End?) && e.ch == ch
  }

  /** The events of one channel. */
  function Only(trace: seq<Event>, ch: Channel): seq<Event> {
    if trace == [] then []
    else
      var n := |trace| - 1;
      Only(trace[..n], ch) + (if OnChannel(trace[n], ch) then [trace[n]] else [])
  }

  /** (Begin Delta+ End)*, read from the end. */
  ghost predicate Bracketed(p: seq<Event>, ch: Channel)
    decreases |p|
  {
    p == [] || exists k :: 0 <= k < |p| - 2 && Block(p, k, ch) && Bracketed(p[..k], ch)
  }

  /** From k on: one beginning, deltas, one end. */
  predicate Block(p: seq<Event>, k: nat, ch: Channel)
    requires k < |p| - 2
  {
    p[k] == Begin(ch) && DeltasIn(p, k + 1, |p| - 1) && p[|p| - 1] == End(ch)
  }

  predicate DeltasIn(p: seq<Event>, i: nat, j: nat)
    requires j <= |p|
  {
    forall x :: i <= x < j ==> p[x].Delta?
  }

  ghost predicate Prefix(p: seq<Event>, ch: Channel) {
    exists rest :: Bracketed(p + rest, ch)
  }

  // ----- a recognizer -----

  datatype Phase = Idle | Opened | Running | Stuck

  function Next(phase: Phase, e: Event): Phase {
    match phase
    case Idle => if e.Begin? then Opened else Stuck
    case Opened => if e.Delta? then Running else Stuck
    case Running => if e.Delta? then Running else if e.End? then Idle else Stuck
    case Stuck => Stuck
  }

  function Scan(p: seq<Event>): Phase {
    if p == [] then Idle else Next(Scan(p[..|p| - 1]), p[|p| - 1])
  }

  lemma ScanSnoc(p: seq<Event>, e: Event)
    ensures Scan(p + [e]) == Next(Scan(p), e)
  {
    assert (p + [e])[..|p|] == p;
  }

  predicate AllOn(p: seq<Event>, ch: Channel) {
    forall i :: 0 <= i < |p| ==> OnChannel(p[i], ch)
  }

  /** In the middle of a block that began at k. */
  ghost predicate OpenAt(p: seq<Event>, k: nat, ch: Channel) {
    k + 1 < |p| && p[k] == Begin(ch) && DeltasIn(p, k + 1, |p|) && Bracketed(p[..k], ch)
  }

  lemma {:induction false} ScanMeaning(p: seq<Event>, ch: Channel)
    requires AllOn(p, ch)
    ensures Scan(p) == Idle ==> Bracketed(p, ch)
    ensures Scan(p) == Opened ==> p != [] && p[|p| - 1] == Begin(ch) && Bracketed(p[..|p| - 1], ch)
    ensures Scan(p) == Running ==> exists k: nat :: OpenAt(p, k, ch)
    decreases |p|
  {
    if p != [] {
      var front, e := p[..|p| - 1], p[|p| - 1];
      ScanMeaning(front, ch);
      assert OnChannel(e, ch);
      if Scan(front) == Opened && e.Delta? {
        assert p[..|p| - 2] == front[..|front| - 1];
        assert OpenAt(p, |p| - 2, ch);
      } else if Scan(front) == Running && !e.Begin? {
        var k: nat :| OpenAt(front, k, ch);
        assert p[..k] == front[..k];
        if e.Delta? {
          assert OpenAt(p, k, ch);
        } else {
          assert Block(p, k, ch);
        }
      }
    }
  }

  /** Whatever is not stuck can still be completed. */
  lemma ScanPrefix(p: seq<Event>, ch: Channel)
    requires AllOn(p, ch) && Scan(p) != Stuck
    ensures Prefix(p, ch)
  {
    match Scan(p)
    case Idle =>
      ScanMeaning(p, ch);
      assert p + [] == p;
      assert Bracketed(p + [], ch);
    case Opened =>
      ScanSnoc(p, Delta(ch, []));
      ScanSnoc(p + [Delta(ch, [])], End(ch));
      assert p + [Delta(ch, []), End(ch)] == p + [Delta(ch, [])] + [End(ch)];
      ScanMeaning(p + [Delta(ch, []), End(ch)], ch);
    case Running =>
      ScanSnoc(p, End(ch));
      ScanMeaning(p + [End(ch)], ch);
  }

  // ----- one channel of a transition -----

  lemma {:induction false} OnlyConcat(a: seq<Event>, b: seq<Event>, ch: Channel)
    ensures Only(a + b, ch) == Only(a, ch) + Only(b, ch)
    decreases |b|
  {
    if b == [] {
      assert a + b == a;
    } else {
      OnlyConcat(a, b[..|b| - 1], ch);
      assert (a + b)[..|a + b| - 1] == a + b[..|b| - 1];
    }
  }

  lemma Only3(a: seq<Event>, b: seq<Event>, c: seq<Event>, ch: Channel)
    ensures Only(a + b + c, ch) == Only(a, ch) + Only(b, ch) + Only(c, ch)
  {
    OnlyConcat(a, b, ch);
    OnlyConcat(a + b, c, ch);
  }

  lemma {:induction false} OnlyAll(p: seq<Event>, ch: Channel)
    ensures AllOn(Only(p, ch), ch)
  {
    if p != [] {
      OnlyAll(p[..|p| - 1], ch);
    }
  }

  lemma OnlyOne(p: seq<Event>, ch: Channel)
    requires |p| <= 1
    ensures Only(p, ch) == if |p| == 1 && OnChannel(p[0], ch) then p else []
  {
    if |p| == 1 {
      assert p[..0] == [];
      assert Only(p[..0], ch) == [];
    }
  }

  predicate AtMostOneOn(p: seq<Event>, ch: Channel) {
    |p| <= 1 && AllOn(p, ch)
  }

  lemma OnlyOwn(p: seq<Event>, own: Channel, ch: Channel)
    requires AtMostOneOn(p, own)
    ensures Only(p, ch) == if ch == own then p else []
  {
    OnlyOne(p, ch);
  }

  lemma OneOfThree(a: seq<Event>, b: seq<Event>, c: seq<Event>)
    ensures a + [] + [] == a && [] + b + [] == b && [] + [] + c == c
  {
  }

  lemma OnlyOfThree(a: seq<Event>, b: seq<Event>, c: seq<Event>, ch: Channel)
    requires AtMostOneOn(a, Reasoning) && AtMostOneOn(b, Content) && AtMostOneOn(c, Tool)
    ensures Only(a + b + c, ch) == match ch case Reasoning => a case Content => b case Tool => c
  {
    Only3(a, b, c, ch);
    OnlyOwn(a, Reasoning, ch);
    OnlyOwn(b, Content, ch);
    OnlyOwn(c, Tool, ch);
    OneOfThree(a, b, c);
  }

  lemma OnlyEnds(prev: Option<Message>, cur: Option<Message>, ch: Channel)
    ensures Only(AllEnds(prev, cur), ch) == Ends(prev, cur, ch)
  {
    OnlyOfThree(Ends(prev, cur, Reasoning), Ends(prev, cur, Content), Ends(prev, cur, Tool), ch);
  }

  lemma OnlyBegins(prev: Option<Message>, cur: Option<Message>, ch: Channel)
    ensures Only(AllBegins(prev, cur), ch) == Begins(prev, cur, ch)
  {
    OnlyOfThree(Begins(prev, cur, Reasoning), Begins(prev, cur, Content), Begins(prev, cur, Tool), ch);
  }

  lemma DeltaIsOne(cur: Option<Message>, ch: Channel)
    ensures AtMostOneOn(Deltas(cur, ch), ch)
  {
  }

  lemma OnlyDeltas(cur: Option<Message>, ch: Channel)
    ensures Only(AllDeltas(cur), ch) == Deltas(cur, ch)
  {
    DeltaIsOne(cur, Reasoning);
    DeltaIsOne(cur, Content);
    DeltaIsOne(cur, Tool);
    OnlyOfThree(Deltas(cur, Reasoning), Deltas(cur, Content), Deltas(cur, Tool), ch);
  }

  lemma OnlyTransition(prev: Option<Message>, cur: Option<Message>, ch: Channel)
    ensures Only(Transition(prev, cur), ch) == Ends(prev, cur, ch) + Begins(prev, cur, ch) + Deltas(cur, ch)
  {
    OnlyEnds(prev, cur, ch);
    OnlyBegins(prev, cur, ch);
    OnlyDeltas(cur, ch);
    Only3(AllEnds(prev, cur), AllBegins(prev, cur), AllDeltas(cur), ch);
  }

  function PhaseOf(has: bool): Phase {
    if has then Running else Idle
  }

  /** What a channel does between a message that has it or not and the next one. */
  function Moves(prevHas: bool, curHas: bool, payload: seq<Piece>, ch: Channel): seq<Event> {
    if prevHas && curHas then [Delta(ch, payload)]
    else if curHas then [Begin(ch), Delta(ch, payload)]
    else if prevHas then [End(ch)]
    else []
  }

  lemma MovesAre(prev: Option<Message>, cur: Option<Message>, ch: Channel)
    ensures Ends(prev, cur, ch) + Begins(prev, cur, ch) + Deltas(cur, ch)
         == Moves(Has(prev, ch), Has(cur, ch), Payload(cur, ch), ch)
  {
  }

  /** They take the channel from one phase to the other and spell the payload. */
  lemma MovesStep(p: seq<Event>, prevHas: bool, curHas: bool, payload: seq<Piece>, ch: Channel)
    requires Scan(p) == PhaseOf(prevHas) && (!curHas ==> payload == [])
    ensures var q := p + Moves(prevHas, curHas, payload, ch);
      Scan(q) == PhaseOf(curHas) && Text(q) == Text(p) + payload
  {
    if curHas && prevHas {
      ScanSnoc(p, Delta(ch, payload));
      TextSnoc(p, Delta(ch, payload));
    } else if curHas {
      ScanSnoc(p, Begin(ch));
      TextSnoc(p, Begin(ch));
      ScanSnoc(p + [Begin(ch)], Delta(ch, payload));
      TextSnoc(p + [Begin(ch)], Delta(ch, payload));
      assert p + [Begin(ch), Delta(ch, payload)] == p + [Begin(ch)] + [Delta(ch, payload)];
    } else if prevHas {
      ScanSnoc(p, End(ch));
      TextSnoc(p, End(ch));
    } else {
      assert p + [] == p;
    }
  }

  lemma NoPayload(m: Option<Message>, ch: Channel)
    requires !Has(m, ch)
    ensures Payload(m, ch) == []
  {
  }

  lemma TransitionStep(p: seq<Event>, prev: Option<Message>, cur: Option<Message>, ch: Channel)
    requires Scan(p) == PhaseOf(Has(prev, ch))
    ensures var q := p + Only(Transition(prev, cur), ch);
      Scan(q) == PhaseOf(Has(cur, ch)) && Text(q) == Text(p) + Payload(cur, ch)
  {
    OnlyTransition(prev, cur, ch);
    MovesAre(prev, cur, ch);
    if !Has(cur, ch) {
      NoPayload(cur, ch);
    }
    MovesStep(p, Has(prev, ch), Has(cur, ch), Payload(cur, ch), ch);
  }

  // ----- the text of a channel -----

  function Text(p: seq<Event>): seq<Piece> {
    if p == [] then []
    else Text(p[..|p| - 1]) + (if p[|p| - 1].Delta? then p[|p| - 1].payload else [])
  }

  /** Everything the messages carry on the channel. */
  function AllText(fed: seq<Option<Message>>, ch: Channel): seq<Piece> {
    if fed == [] then [] else AllText(fed[..|fed| - 1], ch) + Payload(fed[|fed| - 1], ch)
  }

  lemma TextSnoc(p: seq<Event>, e: Event)
    ensures Text(p + [e]) == Text(p) + (if e.Delta? then e.payload else [])
  {
    assert (p + [e])[..|p|] == p;
  }

  // ----- feeding -----

  /** An event outside the channel in front changes nothing on the channel. */
  lemma OnlySkips(first: seq<Event>, rest: seq<Event>, ch: Channel)
    requires |first| == 0 || (|first| == 1 && !OnChannel(first[0], ch))
    ensures Only(first + rest, ch) == Only(rest, ch)
  {
    OnlyConcat(first, rest, ch);
    OnlyOne(first, ch);
    assert [] + Only(rest, ch) == Only(rest, ch);
  }

  lemma OnlyFeed(started: bool, prev: Option<Message>, cur: Option<Message>, ch: Channel)
    ensures Only(FeedEvents(started, prev, cur), ch) == Only(Transition(prev, cur), ch)
  {
    OnlySkips(if cur.Some? && !started then [Start] else [], Transition(prev, cur), ch);
  }

  lemma {:induction false} FeedChannel(fed: seq<Option<Message>>, ch: Channel)
    ensures var p := Only(FeedTrace(fed), ch); Scan(p) == PhaseOf(Has(Last(fed), ch)) && Text(p) == AllText(fed, ch)
    decreases |fed|
  {
    if fed != [] {
      var n := |fed| - 1;
      FeedChannel(fed[..n], ch);
      OnlyFeed(Started(fed[..n]), Last(fed[..n]), fed[n], ch);
      OnlyConcat(FeedTrace(fed[..n]), FeedEvents(Started(fed[..n]), Last(fed[..n]), fed[n]), ch);
      TransitionStep(Only(FeedTrace(fed[..n]), ch), Last(fed[..n]), fed[n], ch);
    }
  }

  // ----- the other callbacks -----

  predicate Terminal(e: Event) {
    e.Error? || e.Done?
  }

  /** Feeding makes no terminal call. */
  predicate Quiet(p: seq<Event>) {
    forall i :: 0 <= i < |p| ==> !Terminal(p[i]) && p[i] != Start
  }

  lemma QuietThree(a: seq<Event>, b: seq<Event>, c: seq<Event>)
    requires Quiet(a) && Quiet(b) && Quiet(c)
    ensures Quiet(a + b + c)
  {
  }

  lemma TransitionQuiet(prev: Option<Message>, cur: Option<Message>)
    ensures Quiet(Transition(prev, cur))
  {
    QuietThree(Ends(prev, cur, Reasoning), Ends(prev, cur, Content), Ends(prev, cur, Tool));
    QuietThree(Begins(prev, cur, Reasoning), Begins(prev, cur, Content), Begins(prev, cur, Tool));
    QuietThree(Deltas(cur, Reasoning), Deltas(cur, Content), Deltas(cur, Tool));
    QuietThree(AllEnds(prev, cur), AllBegins(prev, cur), AllDeltas(cur));
  }

  /** Nothing before the start, and one start. */
  ghost predicate StartsOnce(p: seq<Event>) {
    p != [] ==> p[0] == Start && Quiet(p[1..])
  }

  lemma StartsMore(p: seq<Event>, t: seq<Event>)
    requires StartsOnce(p) && Quiet(t) && (p == [] ==> t == [])
    ensures StartsOnce(p + t)
  {
    if p != [] {
      assert (p + t)[1..] == p[1..] + t;
    }
  }

  lemma {:induction false} FeedStarts(fed: seq<Option<Message>>)
    ensures StartsOnce(FeedTrace(fed)) && (FeedTrace(fed) != [] <==> Started(fed))
    ensures !Started(fed) ==> Last(fed) == None
    decreases |fed|
  {
    if fed != [] {
      var n := |fed| - 1;
      var front, cur := fed[..n], fed[n];
      FeedStarts(front);
      var sofar, prev, started := FeedTrace(front), Last(front), Started(front);
      FeedEventsFrom(sofar, started, prev, cur);
      TransitionQuiet(prev, cur);
      if cur.Some? && !started {
        assert StartsOnce([Start]);
        StartsMore([Start], Transition(prev, cur));
      } else {
        if !started {
          NothingFromNothing();
        }
        StartsMore(sofar, Transition(prev, cur));
      }
    }
  }

  lemma NothingFromNothing()
    ensures Transition(None, None) == []
  {
  }

  // ----- whole runs -----

  /** What is called before the terminal call. */
  function Body(fed: seq<Option<Message>>, done: bool): seq<Event> {
    if done then FeedTrace(fed) + Transition(Last(fed), None) else FeedTrace(fed)
  }

  lemma BodyStarts(fed: seq<Option<Message>>, done: bool)
    ensures StartsOnce(Body(fed, done)) && (Body(fed, done) != [] <==> Started(fed))
  {
    FeedStarts(fed);
    TransitionQuiet(Last(fed), None);
    if !Started(fed) {
      NothingFromNothing();
    }
    StartsMore(FeedTrace(fed), Transition(Last(fed), None));
  }

  /** For every stream: exactly one terminal call, the last; before it, if some fed message is not nil, one
      start and then the channels' events, and otherwise nothing. */
  lemma OneTerminalCall(input: seq<Received>, end: EndOfStream, concat: Concat)
    ensures var t := RunTrace(input, end, concat);
      && t != [] && Terminal(t[|t| - 1])
      && StartsOnce(t[..|t| - 1])
      && Fed(input, end).0 <= |input|
      && (|t| > 1 <==> Started(Messages(input[..Fed(input, end).0])))
  {
    FedBound(input, end);
    var fed, last := FedMessages(input, end), Verdict(input, end, concat);
    BodyStarts(fed, last.Done?);
    var body := Body(fed, last.Done?);
    assert (body + [last])[..|body|] == body;
  }

  /** Done is called exactly when the stream ended well; otherwise the error says what stopped it. */
  lemma DoneIff(input: seq<Received>, end: EndOfStream, concat: Concat)
    ensures var t := RunTrace(input, end, concat);
      && t != []
      && (t[|t| - 1].Done? <==>
            end.Eof? && (forall i :: 0 <= i < |input| ==> Refusal(input[i]).None?)
            && concat(Messages(input)).Whole?)
      && (t[|t| - 1].Done? ==> concat(Messages(input)) == Whole(t[|t| - 1].final) && Fed(input, end).0 == |input|)
  {
    FedBound(input, end);
    var (n, stop) := Fed(input, end);
    if stop.None? {
      assert input[..n] == input;
    }
  }

  lemma BodyChannel(fed: seq<Option<Message>>, done: bool, ch: Channel)
    ensures var p := Only(Body(fed, done), ch);
      && Text(p) == AllText(fed, ch)
      && Scan(p) == PhaseOf(!done && Has(Last(fed), ch))
  {
    FeedChannel(fed, ch);
    if done {
      OnlyConcat(FeedTrace(fed), Transition(Last(fed), None), ch);
      TransitionStep(Only(FeedTrace(fed), ch), Last(fed), None, ch);
      NoPayload(None, ch);
    }
  }

  lemma OnlyTerminated(body: seq<Event>, last: Event, ch: Channel)
    requires Terminal(last)
    ensures Only(body + [last], ch) == Only(body, ch)
  {
    assert (body + [last])[..|body|] == body;
  }

  /** For every stream and channel: bracketed when done, a prefix of that on an error, and the deltas spell
      out what the fed messages carry, which is everything when done. */
  lemma ChannelTrace(input: seq<Received>, end: EndOfStream, concat: Concat, ch: Channel)
    ensures var t := RunTrace(input, end, concat);
      var p, n := Only(t, ch), Fed(input, end).0;
      && t != [] && n <= |input|
      && Text(p) == AllText(Messages(input[..n]), ch)
      && (t[|t| - 1].Done? ==> Bracketed(p, ch))
      && (t[|t| - 1].Error? ==> Prefix(p, ch))
  {
    FedBound(input, end);
    var fed, last := FedMessages(input, end), Verdict(input, end, concat);
    var body := Body(fed, last.Done?);
    OnlyTerminated(body, last, ch);
    BodyChannel(fed, last.Done?, ch);
    OnlyAll(body, ch);
    if last.Done? {
      ScanMeaning(Only(body, ch), ch);
    } else {
      ScanPrefix(Only(body, ch), ch);
    }
  }

  /** A caller that gives a channel's three callbacks hears all of that channel, whichever else it gives. */
  lemma {:induction false} HeardOnChannel(trace: seq<Event>, present: set<Callback>, ch: Channel)
    requires {OnBegin(ch), OnDelta(ch), OnEnd(ch)} <= present
    ensures Only(Heard(trace, present), ch) == Only(trace, ch)
    decreases |trace|
  {
    if trace != [] {
      var n := |trace| - 1;
      HeardOnChannel(trace[..n], present, ch);
      var last := if CallbackOf(trace[n]) in present then [trace[n]] else [];
      OnlyConcat(Heard(trace[..n], present), last, ch);
      OnlyOne(last, ch);
    }
  }

  lemma {:induction false} HeardMembers(trace: seq<Event>, present: set<Callback>)
    ensures forall e :: e in Heard(trace, present) ==> e in trace
    decreases |trace|
  {
    if trace != [] {
      HeardMembers(trace[..|trace| - 1], present);
    }
  }

  lemma NotTerminal(p: seq<Event>, e: Event)
    requires StartsOnce(p) && e in p
    ensures !Terminal(e)
  {
    var i :| 0 <= i < |p| && p[i] == e;
    if i > 0 {
      assert p[1..][i - 1] == e;
    }
  }

  lemma LastHeard(front: seq<Event>, last: Event, present: set<Callback>)
    requires StartsOnce(front) && CallbackOf(last) in present
    ensures var calls := Heard(front + [last], present);
      calls != [] && calls[|calls| - 1] == last && forall i :: 0 <= i < |calls| - 1 ==> !Terminal(calls[i])
  {
    assert (front + [last])[..|front|] == front;
    HeardMembers(front, present);
    var before := Heard(front, present);
    forall i | 0 <= i < |before| ensures !Terminal(before[i]) {
      assert before[i] in before;
      NotTerminal(front, before[i]);
    }
  }

  /** A caller that gives OnError and OnDone hears exactly one of them, once, and as the last callback of all,
      whichever others it gives. */
  lemma HeardTerminal(input: seq<Received>, end: EndOfStream, concat: Concat, present: set<Callback>)
    requires {OnError, OnDone} <= present
    ensures var t := RunTrace(input, end, concat);
      var calls := Heard(t, present);
      && t != [] && calls != [] && calls[|calls| - 1] == t[|t| - 1] && Terminal(t[|t| - 1])
      && (forall i :: 0 <= i < |calls| - 1 ==> !Terminal(calls[i]))
  {
    var fed, last := FedMessages(input, end), Verdict(input, end, concat);
    BodyStarts(fed, last.Done?);
    LastHeard(Body(fed, last.Done?), last, present);
  }

  // ----- panics -----

  /** A cut trace is a prefix whose last call alone panics. */
  lemma {:induction false} CutShape(calls: seq<Event>, panics: Panics)
    ensures var cut := Cut(calls, panics);
      && cut <= calls
      && (forall i :: 0 <= i < |cut| - 1 ==> !panics(i))
      && (Stopped(calls, panics) ==> cut != [] && panics(|cut| - 1))
      && (!Stopped(calls, panics) ==> cut == calls)
    decreases |calls|
  {
    if calls != [] {
      var front, e := calls[..|calls| - 1], calls[|calls| - 1];
      CutShape(front, panics);
      StoppedNext(front, e, panics);
      CutNext(front, e, panics);
      assert front + [e] == calls;
    }
  }

  lemma NotStopped(calls: seq<Event>, panics: Panics)
    requires forall i :: !panics(i)
    ensures !Stopped(calls, panics) && Cut(calls, panics) == calls
  {
    CutAll(calls, panics);
  }

  /** On what is heard of the loop and of the run. */
  lemma MadeUnchanged(loop: seq<Event>, all: seq<Event>, last: Event, present: set<Callback>, panics: Panics)
    requires !Stopped(loop, panics) && !Stopped(all, panics) && Cut(all, panics) == all && !panics(|loop|)
    requires last.Error? ==> all == if OnError in present then loop + [last] else loop
    ensures Made(loop, all, last, present, panics) == (all, false)
  {
  }

  lemma HeardUnchanged(loop: seq<Event>, all: seq<Event>, last: Event, present: set<Callback>, panics: Panics)
    requires (forall i :: !panics(i)) && (last.Error? ==> all == loop + [last])
    ensures Made(Heard(loop, present), Heard(all, present), last, present, panics) == (Heard(all, present), false)
  {
    NotStopped(Heard(loop, present), panics);
    NotStopped(Heard(all, present), panics);
    if last.Error? {
      HeardNext(loop, last, present);
    }
    MadeUnchanged(Heard(loop, present), Heard(all, present), last, present, panics);
  }

  /** Without a panic of a callback the calls are the trace's. */
  lemma NoPanicNoChange(input: seq<Received>, end: EndOfStream, concat: Concat, present: set<Callback>, panics: Panics)
    requires forall i :: !panics(i)
    ensures Outcome(input, end, concat, present, panics) == (Heard(RunTrace(input, end, concat), present), false)
  {
    HeardUnchanged(FeedTrace(FedMessages(input, end)), RunTrace(input, end, concat), Verdict(input, end, concat),
                   present, panics);
  }

  ghost predicate NoTerminal(calls: seq<Event>) {
    forall i :: 0 <= i < |calls| ==> !Terminal(calls[i])
  }

  /** One of OnError and OnDone is called, once, as the last callback. */
  ghost predicate EndsOnce(calls: seq<Event>) {
    calls != [] && Terminal(calls[|calls| - 1]) && NoTerminal(calls[..|calls| - 1])
  }

  lemma BodyHasNoTerminal(fed: seq<Option<Message>>, done: bool, present: set<Callback>)
    ensures NoTerminal(Heard(Body(fed, done), present))
  {
    BodyStarts(fed, done);
    HeardMembers(Body(fed, done), present);
    var calls := Heard(Body(fed, done), present);
    forall i | 0 <= i < |calls| ensures !Terminal(calls[i]) {
      assert calls[i] in calls;
      NotTerminal(Body(fed, done), calls[i]);
    }
  }

  lemma EndsWith(calls: seq<Event>, e: Event)
    requires NoTerminal(calls) && Terminal(e)
    ensures EndsOnce(calls + [e])
  {
    assert (calls + [e])[..|calls|] == calls;
  }

  /** The panic that nobody recovers and after which neither OnError nor OnDone is called: the stream has
      ended well, nothing panicked while it was fed, and a callback that closes its channels panics. */
  predicate EndPanics(input: seq<Received>, end: EndOfStream, concat: Concat, present: set<Callback>, panics: Panics) {
    var fed := FedMessages(input, end);
    && Verdict(input, end, concat).Done?
    && !Stopped(Heard(Body(fed, false), present), panics)
    && Stopped(Heard(Body(fed, true), present), panics)
  }

  lemma DoneCalls(loop: seq<Event>, body: seq<Event>, last: Event, present: set<Callback>, panics: Panics)
    requires NoTerminal(Heard(body, present)) && last.Done? && OnDone in present
    requires !Stopped(Heard(loop, present), panics)
    ensures EndsOnce(Made(Heard(loop, present), Heard(body + [last], present), last, present, panics).0)
       <==> !Stopped(Heard(body, present), panics)
  {
    var made := Heard(body, present);
    HeardNext(body, last, present);
    CutNext(made, last, panics);
    CutShape(made, panics);
    if Stopped(made, panics) {
      var cut := Cut(made, panics);
      assert !Terminal(made[|cut| - 1]);
    } else {
      EndsWith(made, last);
    }
  }

  lemma ErrorCalls(loop: seq<Event>, last: Event, present: set<Callback>, panics: Panics)
    requires NoTerminal(Heard(loop, present)) && OnError in present
    requires last.Error? || Stopped(Heard(loop, present), panics)
    ensures EndsOnce(Made(Heard(loop, present), Heard(loop + [last], present), last, present, panics).0)
  {
    var made := Heard(loop, present);
    CutShape(made, panics);
    EndsWith(Cut(made, panics), Error(Panic));
    HeardNext(loop, last, present);
    if last.Error? {
      EndsWith(made, last);
    }
  }

  /** With panicking callbacks, a caller that gives OnError and OnDone hears exactly one of them, once and last,
      except when a callback panics that closes the channels after a good end. */
  lemma OneTerminalIff(input: seq<Received>, end: EndOfStream, concat: Concat, present: set<Callback>, panics: Panics)
    requires {OnError, OnDone} <= present
    ensures EndsOnce(Outcome(input, end, concat, present, panics).0)
       <==> !EndPanics(input, end, concat, present, panics)
  {
    var fed, last := FedMessages(input, end), Verdict(input, end, concat);
    var loop := Body(fed, false);
    BodyHasNoTerminal(fed, false, present);
    BodyHasNoTerminal(fed, true, present);
    if Stopped(Heard(loop, present), panics) || last.Error? {
      ErrorCalls(loop, last, present, panics);
    } else {
      DoneCalls(loop, Body(fed, true), last, present, panics);
    }
  }

  /** No call follows one that panics, except OnError with the panic; a panic that gets out is the last call's. */
  predicate StopsAtPanic(calls: seq<Event>, escaped: bool, panics: Panics) {
    && (forall i :: 0 <= i < |calls| - 1 && panics(i) ==> i == |calls| - 2 && calls[|calls| - 1] == Error(Panic))
    && (escaped ==> calls != [] && panics(|calls| - 1))
  }

  predicate CalmBeforeLast(calls: seq<Event>, panics: Panics) {
    forall i :: 0 <= i < |calls| - 1 ==> !panics(i)
  }

  lemma RecoveredStops(made: seq<Event>, present: set<Callback>, panics: Panics)
    requires CalmBeforeLast(made, panics)
    ensures var (calls, escaped) := Recovered(made, present, panics); StopsAtPanic(calls, escaped, panics)
  {
  }

  /** The three ways of Made, on what is heard of the loop and of the run. */
  lemma MadeStops(loop: seq<Event>, all: seq<Event>, last: Event, present: set<Callback>, panics: Panics)
    requires last.Error? ==> all == loop || all == loop + [last]
    ensures var (calls, escaped) := Made(loop, all, last, present, panics); StopsAtPanic(calls, escaped, panics)
  {
    if Stopped(loop, panics) {
      CutShape(loop, panics);
      RecoveredStops(Cut(loop, panics), present, panics);
    } else if last == Error(Panic) {
      RecoveredStops(loop, present, panics);
    } else if last.Error? {
      assert CalmBeforeLast(loop + [last], panics);
    } else {
      CutShape(all, panics);
    }
  }

  lemma NothingAfterPanic(input: seq<Received>, end: EndOfStream, concat: Concat, present: set<Callback>,
                          panics: Panics)
    ensures var (calls, escaped) := Outcome(input, end, concat, present, panics);
      StopsAtPanic(calls, escaped, panics)
  {
    var loop, last := FeedTrace(FedMessages(input, end)), Verdict(input, end, concat);
    var all := RunTrace(input, end, concat);
    HeardNext(loop, last, present);
    assert last.Error? ==> all == loop + [last];
    MadeStops(Heard(loop, present), Heard(all, present), last, present, panics);
  }
}
