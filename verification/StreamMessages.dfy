/**
 What the callbacks hear, told by the fields of the messages: which message begins and ends a channel and what its
 deltas spell, why a stream ends as it does, and what of this is left when a callback panics.
 */
module StreamMessages {
  import opened Stream
  import opened StreamTraces
  import opened Strings
  import opened Wrappers

  // ----- one message after another -----

  /** The order of the calls for one message: start, ends, beginnings, deltas, each by channel. */
  function Rank(e: Event): nat {
    var of := match e {
      case Begin(ch) => Place(ch)
      case Delta(ch, _) => Place(ch)
      case End(ch) => Place(ch)
      case _ => 0
    };
    match e
    case Start => 0
    case End(_) => 1 + of
    case Begin(_) => 4 + of
    case Delta(_, _) => 7 + of
    case _ => 10
  }

  function Place(ch: Channel): nat {
    match ch
    case Reasoning => 0
    case Content => 1
    case Tool => 2
  }

  /** The field of a channel is not empty. */
  predicate Speaks(m: Option<Message>, ch: Channel) {
    && m.Some?
    && (ch == Reasoning ==> m.value.reasoning != "")
    && (ch == Content ==> m.value.content != "")
    && (ch == Tool ==> m.value.tools != [])
  }

  /** The payload is the message's field. */
  predicate Carries(m: Message, ch: Channel, payload: seq<Piece>) {
    && (ch == Reasoning ==> AreChars(payload, m.reasoning))
    && (ch == Content ==> AreChars(payload, m.content))
    && (ch == Tool ==> AreCalls(payload, m.tools))
  }

  predicate AreChars(p: seq<Piece>, s: string) {
    |p| == |s| && forall i :: 0 <= i < |p| ==> p[i] == Char(s[i])
  }

  predicate AreCalls(p: seq<Piece>, tools: seq<ToolCall>) {
    |p| == |tools| && forall i :: 0 <= i < |p| ==> p[i] == Call(tools[i])
  }

  /** Whether a message that comes after the fed ones is owed an event. */
  predicate Due(fed: seq<Option<Message>>, m: Option<Message>, e: Event) {
    var prev := if fed == [] then None else fed[|fed| - 1];
    match e
    case Start => m.Some? && forall i :: 0 <= i < |fed| ==> fed[i].None?
    case End(ch) => Speaks(prev, ch) && !Speaks(m, ch)
    case Begin(ch) => !Speaks(prev, ch) && Speaks(m, ch)
    case Delta(ch, payload) => Speaks(m, ch) && Carries(m.value, ch, payload)
    case _ => false
  }

  ghost predicate Ordered(p: seq<Event>) {
    forall i, j :: 0 <= i < j < |p| ==> Rank(p[i]) < Rank(p[j])
  }

  /** The events owed to a message, each once, in order. */
  ghost predicate Answers(fed: seq<Option<Message>>, m: Option<Message>, p: seq<Event>) {
    Ordered(p) && forall e :: e in p <==> Due(fed, m, e)
  }

  /** The events lie between two ranks, in order. */
  ghost predicate Within(p: seq<Event>, low: nat, high: nat) {
    Ordered(p) && forall i :: 0 <= i < |p| ==> low <= Rank(p[i]) < high
  }

  lemma WithinConcat(p: seq<Event>, q: seq<Event>, low: nat, middle: nat, high: nat)
    requires Within(p, low, middle) && Within(q, middle, high) && low <= middle <= high
    ensures Within(p + q, low, high)
  {
  }

  lemma WithinThree(a: seq<Event>, b: seq<Event>, c: seq<Event>, low: nat)
    requires Within(a, low, low + 1) && Within(b, low + 1, low + 2) && Within(c, low + 2, low + 3)
    ensures Within(a + b + c, low, low + 3)
  {
    WithinConcat(a, b, low, low + 1, low + 2);
    WithinConcat(a + b, c, low, low + 2, low + 3);
  }

  lemma TransitionOrdered(prev: Option<Message>, cur: Option<Message>)
    ensures Within(Transition(prev, cur), 1, 10)
  {
    EndsOrdered(prev, cur);
    BeginsOrdered(prev, cur);
    DeltasOrdered(cur);
    ThreeKinds(AllEnds(prev, cur), AllBegins(prev, cur), AllDeltas(cur));
  }

  lemma ThreeKinds(ends: seq<Event>, begins: seq<Event>, deltas: seq<Event>)
    requires Within(ends, 1, 4) && Within(begins, 4, 7) && Within(deltas, 7, 10)
    ensures Within(ends + begins + deltas, 1, 10)
  {
    WithinConcat(ends, begins, 1, 4, 7);
    WithinConcat(ends + begins, deltas, 1, 7, 10);
  }

  lemma EndsOrdered(prev: Option<Message>, cur: Option<Message>)
    ensures Within(AllEnds(prev, cur), 1, 4)
  {
    WithinThree(Ends(prev, cur, Reasoning), Ends(prev, cur, Content), Ends(prev, cur, Tool), 1);
  }

  lemma BeginsOrdered(prev: Option<Message>, cur: Option<Message>)
    ensures Within(AllBegins(prev, cur), 4, 7)
  {
    WithinThree(Begins(prev, cur, Reasoning), Begins(prev, cur, Content), Begins(prev, cur, Tool), 4);
  }

  lemma DeltaPlace(cur: Option<Message>, ch: Channel)
    ensures Within(Deltas(cur, ch), 7 + Place(ch), 8 + Place(ch))
  {
  }

  lemma DeltasOrdered(cur: Option<Message>)
    ensures Within(AllDeltas(cur), 7, 10)
  {
    DeltaPlace(cur, Reasoning);
    DeltaPlace(cur, Content);
    DeltaPlace(cur, Tool);
    WithinThree(Deltas(cur, Reasoning), Deltas(cur, Content), Deltas(cur, Tool), 7);
  }

  /** What a channel is owed, with the previous message at hand. */
  predicate Owed(prev: Option<Message>, cur: Option<Message>, e: Event) {
    match e
    case End(ch) => Speaks(prev, ch) && !Speaks(cur, ch)
    case Begin(ch) => !Speaks(prev, ch) && Speaks(cur, ch)
    case Delta(ch, payload) => Speaks(cur, ch) && Carries(cur.value, ch, payload)
    case _ => false
  }

  lemma OneEnd(prev: Option<Message>, cur: Option<Message>, ch: Channel, e: Event)
    ensures e in Ends(prev, cur, ch) <==> e == End(ch) && Owed(prev, cur, e)
  {
  }

  lemma OneBegin(prev: Option<Message>, cur: Option<Message>, ch: Channel, e: Event)
    ensures e in Begins(prev, cur, ch) <==> e == Begin(ch) && Owed(prev, cur, e)
  {
  }

  lemma OneDelta(prev: Option<Message>, cur: Option<Message>, ch: Channel, e: Event)
    ensures e in Deltas(cur, ch) <==> e.Delta? && e.ch == ch && Owed(prev, cur, e)
  {
    if e.Delta? && e.ch == ch && Owed(prev, cur, e) {
      assert e.payload == Payload(cur, ch);
    }
  }

  lemma InThree(a: seq<Event>, b: seq<Event>, c: seq<Event>, e: Event)
    ensures e in a + b + c <==> e in a || e in b || e in c
  {
  }

  lemma TransitionMembers(prev: Option<Message>, cur: Option<Message>, e: Event)
    ensures e in Transition(prev, cur) <==> Owed(prev, cur, e)
  {
    InThree(AllEnds(prev, cur), AllBegins(prev, cur), AllDeltas(cur), e);
    InThree(Ends(prev, cur, Reasoning), Ends(prev, cur, Content), Ends(prev, cur, Tool), e);
    InThree(Begins(prev, cur, Reasoning), Begins(prev, cur, Content), Begins(prev, cur, Tool), e);
    InThree(Deltas(cur, Reasoning), Deltas(cur, Content), Deltas(cur, Tool), e);
    EachChannel(prev, cur, e, Reasoning);
    EachChannel(prev, cur, e, Content);
    EachChannel(prev, cur, e, Tool);
  }

  lemma EachChannel(prev: Option<Message>, cur: Option<Message>, e: Event, ch: Channel)
    ensures e in Ends(prev, cur, ch) <==> e == End(ch) && Owed(prev, cur, e)
    ensures e in Begins(prev, cur, ch) <==> e == Begin(ch) && Owed(prev, cur, e)
    ensures e in Deltas(cur, ch) <==> e.Delta? && e.ch == ch && Owed(prev, cur, e)
  {
    OneEnd(prev, cur, ch, e);
    OneBegin(prev, cur, ch, e);
    OneDelta(prev, cur, ch, e);
  }

  lemma {:induction false} StartedIff(fed: seq<Option<Message>>)
    ensures Started(fed) <==> exists i :: 0 <= i < |fed| && fed[i].Some?
    decreases |fed|
  {
    if fed != [] {
      var n := |fed| - 1;
      StartedIff(fed[..n]);
      if fed[n].None? && Started(fed) {
        var i :| 0 <= i < n && fed[..n][i].Some?;
        assert fed[i].Some?;
      }
      if i :| 0 <= i < |fed| && fed[i].Some? {
        assert i < n ==> fed[..n][i].Some?;
      }
    }
  }

  /** For every stream and every further message, nil or not, the calls it adds are those that its fields and the
      previous message's ask for, each once, in order. */
  lemma EachMessageAnswered(fed: seq<Option<Message>>, m: Option<Message>)
    ensures FeedTrace(fed) <= FeedTrace(fed + [m])
    ensures Answers(fed, m, FeedTrace(fed + [m])[|FeedTrace(fed)|..])
  {
    FeedTraceNext(fed, m);
    FeedAnswers(fed, m);
    Rest(FeedTrace(fed), FeedEvents(Started(fed), Last(fed), m), FeedTrace(fed + [m]));
  }

  lemma Rest(p: seq<Event>, q: seq<Event>, all: seq<Event>)
    requires all == p + q
    ensures p <= all && all[|p|..] == q
  {
  }

  lemma FeedAnswers(fed: seq<Option<Message>>, m: Option<Message>)
    ensures Answers(fed, m, FeedEvents(Started(fed), Last(fed), m))
  {
    StartedIff(fed);
    TransitionOrdered(Last(fed), m);
    forall e ensures e in Transition(Last(fed), m) <==> Owed(Last(fed), m, e) {
      TransitionMembers(Last(fed), m, e);
    }
    StartInFront(fed, m, Transition(Last(fed), m), m.Some? && !Started(fed));
  }

  lemma StartInFront(fed: seq<Option<Message>>, m: Option<Message>, moves: seq<Event>, starts: bool)
    requires Within(moves, 1, 10) && forall e :: e in moves <==> Owed(Last(fed), m, e)
    requires starts <==> m.Some? && forall i :: 0 <= i < |fed| ==> fed[i].None?
    ensures Answers(fed, m, (if starts then [Start] else []) + moves)
  {
    var first := if starts then [Start] else [];
    FirstWithin(starts);
    WithinConcat(first, moves, 0, 1, 10);
    forall e ensures e in first + moves <==> Due(fed, m, e) {
      OwedIsDue(fed, m, e);
    }
  }

  lemma FirstWithin(starts: bool)
    ensures Within(if starts then [Start] else [], 0, 1)
  {
  }

  lemma OwedIsDue(fed: seq<Option<Message>>, m: Option<Message>, e: Event)
    ensures !e.Start? ==> (Due(fed, m, e) <==> Owed(Last(fed), m, e))
    ensures !Owed(Last(fed), m, Start)
    ensures Due(fed, m, Start) <==> m.Some? && forall i :: 0 <= i < |fed| ==> fed[i].None?
  {
  }

  /** At a good end the open channels end, as after a nil message; on an error nothing comes before it. */
  lemma EndAnswered(input: seq<Received>, end: EndOfStream, concat: Concat)
    ensures var t, n := RunTrace(input, end, concat), Fed(input, end).0;
            && n <= |input| && t != []
            && var fed := Messages(input[..n]);
               && FeedTrace(fed) <= t[..|t| - 1]
               && (t[|t| - 1].Done? ==> Answers(fed, None, t[|FeedTrace(fed)|..|t| - 1]))
               && (t[|t| - 1].Error? ==> t[..|t| - 1] == FeedTrace(fed))
  {
    FedBound(input, end);
    var fed, last := FedMessages(input, end), Verdict(input, end, concat);
    EndParts(FeedTrace(fed), Transition(Last(fed), None), last);
    ClosingAnswers(fed);
  }

  lemma EndParts(trace: seq<Event>, closing: seq<Event>, last: Event)
    ensures var t := trace + closing + [last];
            trace <= t[..|t| - 1] && t[|trace|..|t| - 1] == closing && t[|t| - 1] == last
    ensures (trace + [last])[..|trace|] == trace
  {
  }

  lemma ClosingAnswers(fed: seq<Option<Message>>)
    ensures Answers(fed, None, Transition(Last(fed), None))
  {
    TransitionOrdered(Last(fed), None);
    forall e ensures e in Transition(Last(fed), None) <==> Due(fed, None, e) {
      TransitionMembers(Last(fed), None, e);
      OwedIsDue(fed, None, e);
    }
  }

  // ----- what the deltas spell -----

  /** What the deltas of a channel spell, one after the other. */
  function Spelled(calls: seq<Event>, ch: Channel): seq<Piece> {
    if calls == [] then []
    else
      var n := |calls| - 1;
      Spelled(calls[..n], ch) + if calls[n].Delta? && calls[n].ch == ch then calls[n].payload else []
  }

  function ReasoningIn(m: Option<Message>): string {
    if m.Some? then m.value.reasoning else ""
  }

  function ContentIn(m: Option<Message>): string {
    if m.Some? then m.value.content else ""
  }

  function ToolsIn(m: Option<Message>): seq<ToolCall> {
    if m.Some? then m.value.tools else []
  }

  /** The reasoning of the messages that are there, joined. */
  function ReasoningOf(fed: seq<Option<Message>>): string {
    if fed == [] then "" else ReasoningOf(fed[..|fed| - 1]) + ReasoningIn(fed[|fed| - 1])
  }

  function ContentOf(fed: seq<Option<Message>>): string {
    if fed == [] then "" else ContentOf(fed[..|fed| - 1]) + ContentIn(fed[|fed| - 1])
  }

  function ToolsOf(fed: seq<Option<Message>>): seq<ToolCall> {
    if fed == [] then [] else ToolsOf(fed[..|fed| - 1]) + ToolsIn(fed[|fed| - 1])
  }

  lemma {:induction false} SpelledIsText(p: seq<Event>, ch: Channel)
    ensures Spelled(p, ch) == Text(Only(p, ch))
    decreases |p|
  {
    if p != [] {
      var n := |p| - 1;
      SpelledIsText(p[..n], ch);
      if OnChannel(p[n], ch) {
        TextSnoc(Only(p[..n], ch), p[n]);
      } else {
        assert Only(p[..n], ch) + [] == Only(p[..n], ch);
      }
    }
  }

  lemma {:induction false} AllTextIsFields(fed: seq<Option<Message>>)
    ensures AreChars(AllText(fed, Reasoning), ReasoningOf(fed))
    ensures AreChars(AllText(fed, Content), ContentOf(fed))
    ensures AreCalls(AllText(fed, Tool), ToolsOf(fed))
    decreases |fed|
  {
    if fed != [] {
      var n := |fed| - 1;
      AllTextIsFields(fed[..n]);
      PayloadIsField(fed[n]);
      CharsJoin(AllText(fed[..n], Reasoning), ReasoningOf(fed[..n]), Payload(fed[n], Reasoning), ReasoningIn(fed[n]));
      CharsJoin(AllText(fed[..n], Content), ContentOf(fed[..n]), Payload(fed[n], Content), ContentIn(fed[n]));
      CallsJoin(AllText(fed[..n], Tool), ToolsOf(fed[..n]), Payload(fed[n], Tool), ToolsIn(fed[n]));
    }
  }

  lemma PayloadIsField(m: Option<Message>)
    ensures AreChars(Payload(m, Reasoning), ReasoningIn(m)) && AreChars(Payload(m, Content), ContentIn(m))
    ensures AreCalls(Payload(m, Tool), ToolsIn(m))
  {
  }

  lemma CharsJoin(p: seq<Piece>, s: string, q: seq<Piece>, t: string)
    requires AreChars(p, s) && AreChars(q, t)
    ensures AreChars(p + q, s + t)
  {
  }

  lemma CallsJoin(p: seq<Piece>, s: seq<ToolCall>, q: seq<Piece>, t: seq<ToolCall>)
    requires AreCalls(p, s) && AreCalls(q, t)
    ensures AreCalls(p + q, s + t)
  {
  }

  /** For every stream the deltas on the three channels spell the reasoning, the content and the tool calls of the
      fed messages that are not nil. */
  lemma DeltasSpellFields(input: seq<Received>, end: EndOfStream, concat: Concat)
    ensures var t, n := RunTrace(input, end, concat), Fed(input, end).0;
            && n <= |input|
            && var fed := Messages(input[..n]);
               && AreChars(Spelled(t, Reasoning), ReasoningOf(fed))
               && AreChars(Spelled(t, Content), ContentOf(fed))
               && AreCalls(Spelled(t, Tool), ToolsOf(fed))
  {
    FedBound(input, end);
    var t := RunTrace(input, end, concat);
    SpelledIsText(t, Reasoning);
    SpelledIsText(t, Content);
    SpelledIsText(t, Tool);
    ChannelTrace(input, end, concat, Reasoning);
    ChannelTrace(input, end, concat, Content);
    ChannelTrace(input, end, concat, Tool);
    AllTextIsFields(FedMessages(input, end));
  }

  // ----- which callbacks are called -----

  /** A callback that is there hears all events of its kind, and one that is not hears none. */
  lemma {:induction false} HeardIffPresent(trace: seq<Event>, present: set<Callback>, e: Event)
    ensures e in Heard(trace, present) <==>
      e in trace &&
      match e
      case Start => OnStart in present
      case Begin(ch) => OnBegin(ch) in present
      case Delta(ch, _) => OnDelta(ch) in present
      case End(ch) => OnEnd(ch) in present
      case Error(_) => OnError in present
      case Done(_) => OnDone in present
    decreases |trace|
  {
    if trace != [] {
      HeardIffPresent(trace[..|trace| - 1], present, e);
      assert trace == trace[..|trace| - 1] + [trace[|trace| - 1]];
    }
  }

  /** A caller with only a channel's OnDelta hears the same text as one with all callbacks. */
  lemma {:induction false} SpelledToHearer(trace: seq<Event>, present: set<Callback>, ch: Channel)
    requires OnDelta(ch) in present
    ensures Spelled(Heard(trace, present), ch) == Spelled(trace, ch)
    decreases |trace|
  {
    if trace != [] {
      var front, e := trace[..|trace| - 1], trace[|trace| - 1];
      SpelledToHearer(front, present, ch);
      if CallbackOf(e) in present {
        assert (Heard(front, present) + [e])[..|Heard(front, present)|] == Heard(front, present);
      } else {
        assert Heard(front, present) + [] == Heard(front, present);
      }
    }
  }

  // ----- why a stream ends -----

  /** The same text but for the case of its letters, where the word is lower-case. */
  predicate SameWord(s: string, word: string) {
    && |s| == |word|
    && (forall i :: 0 <= i < |s| ==>
          s[i] == word[i] || ('A' <= s[i] <= 'Z' && s[i] as int + 32 == word[i] as int))
  }

  /** The model finished: with no reason, or with one of three, whatever its case and the space around it. */
  predicate FinishedWell(m: Option<Message>) {
    m.Some? ==>
      var reason := TrimSpace(m.value.finishReason);
      reason == "" || SameWord(reason, "stop") || SameWord(reason, "length") || SameWord(reason, "tool_calls")
  }

  predicate IsLower(s: string) {
    forall i :: 0 <= i < |s| ==> !('A' <= s[i] <= 'Z')
  }

  lemma LowerIs(s: string, word: string)
    requires IsLower(word)
    ensures ToLower(s) == word <==> SameWord(s, word)
  {
    if ToLower(s) == word {
      forall i | 0 <= i < |s| ensures s[i] == word[i] || ('A' <= s[i] <= 'Z' && s[i] as int + 32 == word[i] as int) {
        assert ToLower(s)[i] == word[i];
      }
    }
    if SameWord(s, word) {
      forall i | 0 <= i < |s| ensures ToLower(s)[i] == word[i] {
        assert !('A' <= word[i] <= 'Z');
      }
    }
  }

  lemma TrimTwice(s: string)
    ensures TrimSpace(TrimSpace(s)) == TrimSpace(s)
  {
  }

  lemma GoodFinishIff(m: Option<Message>)
    ensures BadFinish(m) <==> !FinishedWell(m)
  {
    if m.Some? {
      var reason := TrimSpace(m.value.finishReason);
      TrimTwice(m.value.finishReason);
      LowerIs(reason, "stop");
      LowerIs(reason, "length");
      LowerIs(reason, "tool_calls");
    }
  }

  /** The k-th message is the first that stops the loop. */
  ghost predicate FirstRefused(input: seq<Received>, k: nat) {
    && k < |input| && (input[k].canceled || !FinishedWell(input[k].msg))
    && (forall i :: 0 <= i < k ==> !input[i].canceled && FinishedWell(input[i].msg))
  }

  lemma RefusalIff(r: Received)
    ensures Refusal(r).None? <==> !r.canceled && FinishedWell(r.msg)
    ensures Refusal(r).Some? ==> Refusal(r).value == if r.canceled then ContextDone else ModelFinishReason
  {
    GoodFinishIff(r.msg);
  }

  lemma StopsAtFirstRefused(input: seq<Received>, end: EndOfStream, k: nat)
    requires FirstRefused(input, k)
    ensures Fed(input, end) == (k, Some(if input[k].canceled then ContextDone else ModelFinishReason))
  {
    forall i | 0 <= i < k ensures Refusal(input[i]).None? {
      RefusalIff(input[i]);
    }
    RefusalIff(input[k]);
    FedUpTo(input, k);
    FedEnd(input, end);
  }

  lemma NoneRefused(input: seq<Received>, end: EndOfStream)
    requires forall i :: 0 <= i < |input| ==> !input[i].canceled && FinishedWell(input[i].msg)
    ensures Fed(input, end).0 == |input|
    ensures Fed(input, end).1
         == match end case Eof => None case Broken => Some(ReceiveError) case Crashed => Some(Panic)
  {
    forall i | 0 <= i < |input| ensures Refusal(input[i]).None? {
      RefusalIff(input[i]);
    }
    FedUpTo(input, |input|);
    FedEnd(input, end);
  }

  /** The terminal call of every stream: the first message that comes when the context is done or with a bad finish
      reason ends it, in that order of precedence, and is not fed; otherwise the end of the stream decides, and at
      a good end the concatenation. */
  lemma TerminalSays(input: seq<Received>, end: EndOfStream, concat: Concat)
    ensures var t := RunTrace(input, end, concat);
            && t != []
            && (forall k: nat :: FirstRefused(input, k) ==>
                  && Fed(input, end).0 == k
                  && t[|t| - 1] == Error(if input[k].canceled then ContextDone else ModelFinishReason))
            && ((forall i :: 0 <= i < |input| ==> !input[i].canceled && FinishedWell(input[i].msg)) ==>
                  && Fed(input, end).0 == |input|
                  && t[|t| - 1] == match end
                                   case Broken => Error(ReceiveError)
                                   case Crashed => Error(Panic)
                                   case Eof => match concat(Messages(input))
                                               case Whole(final) => Done(final)
                                               case Unfit => Error(ConcatError)
                                               case Panicked => Error(Panic))
  {
    var t := RunTrace(input, end, concat);
    forall k: nat | FirstRefused(input, k)
      ensures Fed(input, end).0 == k
      ensures t[|t| - 1] == Error(if input[k].canceled then ContextDone else ModelFinishReason)
    {
      StopsAtFirstRefused(input, end, k);
    }
    if forall i :: 0 <= i < |input| ==> !input[i].canceled && FinishedWell(input[i].msg) {
      NoneRefused(input, end);
      assert input[..|input|] == input;
    }
  }

  /** A stream whose model finished to call tools is done, although the package's test lists that reason among
      the errors. */
  lemma ToolCallsAreDone(content: string, concat: Concat)
    requires concat([Some(Message("", content, [], "tool_calls"))]).Whole?
    ensures var t := RunTrace([Received(Some(Message("", content, [], "tool_calls")), false)], Eof, concat);
            t != [] && t[|t| - 1].Done?
  {
    var m := Some(Message("", content, [], "tool_calls"));
    var input := [Received(m, false)];
    assert TrimSpace("tool_calls") == "tool_calls";
    assert FinishedWell(m);
    assert Messages(input) == [m];
    TerminalSays(input, Eof, concat);
  }

  predicate BadInTest(reason: string) {
    reason != "" && !SameWord(reason, "stop") && !SameWord(reason, "length")
  }

  /** The code's classification of a reason is the one that test lists exactly unless the reason is that one. */
  lemma ClassifiedAsTestedIff(m: Message)
    ensures (BadFinish(Some(m)) <==> BadInTest(TrimSpace(m.finishReason)))
       <==> !SameWord(TrimSpace(m.finishReason), "tool_calls")
  {
    GoodFinishIff(Some(m));
  }

  // ----- panicking callbacks -----

  /** The k-th call is the first that panics. */
  ghost predicate FirstPanic(calls: seq<Event>, panics: Panics, k: nat) {
    k < |calls| && panics(k) && forall i :: 0 <= i < k ==> !panics(i)
  }

  lemma CutAtFirst(calls: seq<Event>, panics: Panics, k: nat)
    requires FirstPanic(calls, panics, k)
    ensures Stopped(calls, panics) && Cut(calls, panics) == calls[..k + 1]
  {
    CutShape(calls, panics);
    assert Stopped(calls, panics);
    assert |Cut(calls, panics)| == k + 1;
  }

  /** What is called when the k-th heard call is the first that panics. Everything up to it has been called. In the
      loop OnError follows, if it is there, and may panic itself; a panic of the terminal OnError ends in silence,
      unless it reports a panic already; one after a good end gets out. */
  ghost predicate PanicHandled(loop: nat, heard: seq<Event>, last: Event, present: set<Callback>, panics: Panics,
                               k: nat, calls: seq<Event>, escaped: bool)
    requires k < |heard|
  {
    if k < loop then
      && calls == heard[..k + 1] + (if OnError in present then [Error(Panic)] else [])
      && escaped == (OnError in present && panics(k + 1))
    else if last.Error? then
      calls == heard && escaped == (last.reason == Panic)
    else
      calls == heard[..k + 1] && escaped
  }

  lemma MadeAtPanic(loop: seq<Event>, all: seq<Event>, last: Event, present: set<Callback>, panics: Panics, k: nat)
    requires FirstPanic(all, panics, k) && loop <= all && (last.Error? || last.Done?)
    requires last.Error? ==> all == loop + if OnError in present then [last] else []
    ensures var (calls, escaped) := Made(loop, all, last, present, panics);
            PanicHandled(|loop|, all, last, present, panics, k, calls, escaped)
  {
    CutAtFirst(all, panics, k);
    if k < |loop| {
      CutAtFirst(loop, panics, k);
      assert loop[..k + 1] == all[..k + 1];
    } else {
      CutAll(loop, panics);
    }
  }

  lemma HeardParts(input: seq<Received>, end: EndOfStream, concat: Concat, present: set<Callback>)
    ensures var loop := Heard(FeedTrace(FedMessages(input, end)), present);
            var all, last := Heard(RunTrace(input, end, concat), present), Verdict(input, end, concat);
            && loop <= all && (last.Error? || last.Done?)
            && (last.Error? ==> all == loop + if OnError in present then [last] else [])
  {
    var fed, last := FedMessages(input, end), Verdict(input, end, concat);
    EndedParts(FeedTrace(fed), Last(fed), last, present);
  }

  lemma EndedParts(trace: seq<Event>, prev: Option<Message>, last: Event, present: set<Callback>)
    requires last.Error? || last.Done?
    ensures var loop, all := Heard(trace, present), Heard(Ended(trace, prev, last), present);
            loop <= all && (last.Error? ==> all == loop + if OnError in present then [last] else [])
  {
    if last.Done? {
      var closing := Transition(prev, None);
      HeardConcat(trace, closing, present);
      HeardNext(trace + closing, last, present);
    } else {
      HeardNext(trace, last, present);
    }
  }

  /** For every stream and every set of panicking calls: without a panic the calls are what is heard of the run's
      trace; otherwise everything up to the first panic is called, and what follows it depends on where it is. */
  lemma CallsAre(input: seq<Received>, end: EndOfStream, concat: Concat, present: set<Callback>, panics: Panics)
    ensures var heard := Heard(RunTrace(input, end, concat), present);
            var loop := |Heard(FeedTrace(FedMessages(input, end)), present)|;
            var last := Verdict(input, end, concat);
            var (calls, escaped) := Outcome(input, end, concat, present, panics);
            && ((forall i :: 0 <= i < |heard| ==> !panics(i)) ==> calls == heard && !escaped)
            && (forall k: nat :: FirstPanic(heard, panics, k) ==>
                  PanicHandled(loop, heard, last, present, panics, k, calls, escaped))
  {
    var loop := Heard(FeedTrace(FedMessages(input, end)), present);
    var heard, last := Heard(RunTrace(input, end, concat), present), Verdict(input, end, concat);
    HeardParts(input, end, concat, present);
    if forall i :: 0 <= i < |heard| ==> !panics(i) {
      MadeCalm(loop, heard, last, present, panics);
    }
    forall k: nat | FirstPanic(heard, panics, k)
      ensures var (calls, escaped) := Outcome(input, end, concat, present, panics);
              PanicHandled(|loop|, heard, last, present, panics, k, calls, escaped)
    {
      MadeAtPanic(loop, heard, last, present, panics, k);
    }
  }

  /** Unless a callback panics, a caller that has a channel's OnDelta is given exactly the field, whichever other
      callbacks it has. */
  lemma HearerGetsFields(input: seq<Received>, end: EndOfStream, concat: Concat, present: set<Callback>,
                         panics: Panics)
    requires forall i :: !panics(i)
    ensures Fed(input, end).0 <= |input|
    ensures var (calls, fed) := (Outcome(input, end, concat, present, panics).0, Messages(input[..Fed(input, end).0]));
            && (OnDelta(Reasoning) in present ==> AreChars(Spelled(calls, Reasoning), ReasoningOf(fed)))
            && (OnDelta(Content) in present ==> AreChars(Spelled(calls, Content), ContentOf(fed)))
            && (OnDelta(Tool) in present ==> AreCalls(Spelled(calls, Tool), ToolsOf(fed)))
  {
    CallsAre(input, end, concat, present, panics);
    DeltasSpellFields(input, end, concat);
    forall ch | OnDelta(ch) in present
      ensures Spelled(Outcome(input, end, concat, present, panics).0, ch) == Spelled(RunTrace(input, end, concat), ch)
    {
      SpelledToHearer(RunTrace(input, end, concat), present, ch);
    }
  }

  lemma MadeCalm(loop: seq<Event>, all: seq<Event>, last: Event, present: set<Callback>, panics: Panics)
    requires (forall i :: 0 <= i < |all| ==> !panics(i)) && loop <= all && (last.Error? || last.Done?)
    requires last.Error? ==> all == loop + if OnError in present then [last] else []
    ensures Made(loop, all, last, present, panics) == (all, false)
  {
    NeverStopped(loop, panics);
    NeverStopped(all, panics);
    assert loop + [] == loop;
    if last.Error? && OnError in present {
      assert !panics(|loop|);
    }
  }

  lemma NeverStopped(calls: seq<Event>, panics: Panics)
    requires forall i :: 0 <= i < |calls| ==> !panics(i)
    ensures !Stopped(calls, panics) && Cut(calls, panics) == calls
  {
    CutAll(calls, panics);
  }
}
