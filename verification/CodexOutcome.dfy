/** How a read ends: exactly when it succeeds, and what it reports or throws otherwise. */
module CodexOutcome {
  import opened Prelude
  import opened Json
  import opened CodexStream
  import opened CodexStreamReading
  import opened CodexToolCalls
  import opened CodexToolOrder
  import Sse

  // ---------------------------------------------------------------------------------------------
  // What has to hold

  /** The call's name is known and its arguments parse. */
  ghost predicate HasFrame(c: Config, h: Handout) {
    exists frame :: IsFrameOf(c, h, frame)
  }

  predicate IsNamedCall(c: Config, h: Handout) {
    CodexStream.ToolNames.FromWire(c.names, h.call.name).Some?
  }

  /** No more items and calls than allowed, each call fit to be delivered, and a sink that takes every frame. */
  ghost predicate Acceptable(c: Config, events: seq<Event>) {
    var calls := ToolCalls(c.platform, events);
    && |Items(c.platform, events)| <= MAX_TOOL_CALLS && |calls| <= MAX_TOOL_CALLS
    && AllFramed(c, calls) && SinkTakes(c, |TextFrames(events)| + |calls|)
  }

  ghost predicate AllFramed(c: Config, calls: seq<Keyed>) {
    forall k | k in calls :: HasFrame(c, k.handout)
  }

  /** The sink takes the first `count` frames. */
  ghost predicate SinkTakes(c: Config, count: nat) {
    forall n | 0 <= n < count :: !c.sinkFails(n)
  }

  // ---------------------------------------------------------------------------------------------
  // Events

  lemma OneMoreText(events: seq<Event>, e: Event)
    ensures TextFrames(events + [e]) == TextFrames(events) + if e.Text? then [TextFrame(e.text)] else []
  {
    TextFramesConcat(events, [e]);
    assert [e][1..] == [] && TextFrames([e][1..]) == [];
  }

  lemma OneMoreOut(p: Platform, before: seq<Event>, e: Event)
    ensures InEventOrder(p, before + [e]) == InEventOrder(p, before) + HandedOutBy(p, before, e)
    ensures |HandedOutBy(p, before, e)| <= 1
  {
    assert (before + [e])[..|before|] == before;
  }

  lemma OneMoreItem(p: Platform, before: seq<Event>, e: Event)
    ensures Items(p, before) <= Items(p, before + [e])
  {
    assert (before + [e])[..|before|] == before;
  }

  lemma ItemCount(c: Config, s: Stream, history: seq<Event>, e: Event, call: Call)
    requires s.pending.keys == Items(c.platform, history) && WellKeyed(s.pending) && ForItem(e)
    ensures |Put(s.pending, KeyOf(c.platform, SourceOfEvent(e)), call).keys| == |Items(c.platform, history + [e])|
  {
    assert (history + [e])[..|history|] == history;
  }

  lemma ItemEventAcceptedIff(c: Config, s: Stream, e: Event)
    requires ForItem(e)
    ensures var key := KeyOf(c.platform, SourceOfEvent(e));
            var call := Upsert(c.platform, Lookup(s.pending, key), SourceOfEvent(e));
            (OnEvent(c, s, e).1.None?
             <==> (&& |Put(s.pending, key, call).keys| <= MAX_TOOL_CALLS
                   && (HandsOut(c.platform, call, e) ==>
                         |s.held| < MAX_TOOL_CALLS && HasFrame(c, Handout(call, e.Done?)))))
  {
    var key := KeyOf(c.platform, SourceOfEvent(e));
    HasFrameIff(c, Handout(Upsert(c.platform, Lookup(s.pending, key), SourceOfEvent(e)), e.Done?));
  }

  lemma OtherEventAcceptedIff(c: Config, s: Stream, history: seq<Event>, e: Event)
    requires s.pending.keys == Items(c.platform, history) && !ForItem(e)
    ensures Items(c.platform, history + [e]) == Items(c.platform, history)
    ensures OnEvent(c, s, e).1.None?
       <==> |Items(c.platform, history)| <= MAX_TOOL_CALLS && (e.Text? ==> !c.sinkFails(|s.sent|))
  {
    assert (history + [e])[..|history|] == history;
  }

  /** An event is accepted exactly when the items fit, its hand-out fits and has a frame, and its text is taken. */
  lemma EventAcceptedIff(c: Config, s: Stream, history: seq<Event>, e: Event)
    requires InOrder(c, s, history)
    ensures var out := HandedOutBy(c.platform, history, e);
            (OnEvent(c, s, e).1.None?
             <==> (&& |Items(c.platform, history + [e])| <= MAX_TOOL_CALLS
                   && (out != [] ==> |s.held| < MAX_TOOL_CALLS && HasFrame(c, out[0].handout))
                   && (e.Text? ==> !c.sinkFails(|s.sent|))))
  {
    if ForItem(e) {
      var key := KeyOf(c.platform, SourceOfEvent(e));
      assert TracksKey(c, s, history, key);
      ItemCount(c, s, history, e, Upsert(c.platform, Lookup(s.pending, key), SourceOfEvent(e)));
      ItemEventAcceptedIff(c, s, e);
    } else {
      OtherEventAcceptedIff(c, s, history, e);
    }
  }

  lemma HasFrameIff(c: Config, h: Handout)
    ensures HasFrame(c, h) <==> IsNamedCall(c, h) && ParseArguments(c.platform, h.call.args, h.closed).Some?
  {
    if IsNamedCall(c, h) && ParseArguments(c.platform, h.call.args, h.closed).Some? {
      assert IsFrameOf(c, h, ToolFrame(h.call.id, CodexStream.ToolNames.FromWire(c.names, h.call.name).value,
                                       ParseArguments(c.platform, h.call.args, h.closed).value));
    }
  }

  ghost predicate EventsOk(c: Config, events: seq<Event>) {
    && |Items(c.platform, events)| <= MAX_TOOL_CALLS && |InEventOrder(c.platform, events)| <= MAX_TOOL_CALLS
    && AllFramed(c, InEventOrder(c.platform, events)) && SinkTakes(c, |TextFrames(events)|)
  }

  lemma FramedConcat(c: Config, a: seq<Keyed>, b: seq<Keyed>)
    ensures AllFramed(c, a + b) <==> AllFramed(c, a) && AllFramed(c, b)
  {
    assert forall k :: k in a + b <==> k in a || k in b;
  }

  lemma FramedOne(c: Config, out: seq<Keyed>)
    requires |out| <= 1
    ensures AllFramed(c, out) <==> out != [] ==> HasFrame(c, out[0].handout)
  {
    assert out == [] || out == [out[0]];
  }

  lemma OkOneMore(c: Config, items: nat, items': nat, calls: seq<Keyed>, out: seq<Keyed>, texts: nat, speaks: bool)
    requires items <= items' && |out| <= 1
    ensures (&& items' <= MAX_TOOL_CALLS && |calls + out| <= MAX_TOOL_CALLS && AllFramed(c, calls + out)
             && SinkTakes(c, texts + if speaks then 1 else 0))
       <==> (&& items <= MAX_TOOL_CALLS && |calls| <= MAX_TOOL_CALLS && AllFramed(c, calls) && SinkTakes(c, texts)
             && items' <= MAX_TOOL_CALLS
             && (out != [] ==> |calls| < MAX_TOOL_CALLS && HasFrame(c, out[0].handout))
             && (speaks ==> !c.sinkFails(texts)))
  {
    FramedConcat(c, calls, out);
    FramedOne(c, out);
  }

  lemma EventsOkOneMore(c: Config, before: seq<Event>, e: Event)
    ensures var out := HandedOutBy(c.platform, before, e);
            (EventsOk(c, before + [e])
             <==> (&& EventsOk(c, before) && |Items(c.platform, before + [e])| <= MAX_TOOL_CALLS
                   && (out != [] ==> |InEventOrder(c.platform, before)| < MAX_TOOL_CALLS && HasFrame(c, out[0].handout))
                   && (e.Text? ==> !c.sinkFails(|TextFrames(before)|))))
  {
    var p := c.platform;
    OneMoreItem(p, before, e);
    OneMoreText(before, e);
    OneMoreOut(p, before, e);
    OkOneMore(c, |Items(p, before)|, |Items(p, before + [e])|, InEventOrder(p, before), HandedOutBy(p, before, e),
              |TextFrames(before)|, e.Text?);
  }

  lemma OnEventsOneMore(c: Config, before: seq<Event>, e: Event)
    ensures OnEvents(c, FRESH, before + [e])
         == if OnEvents(c, FRESH, before).1.Some? then OnEvents(c, FRESH, before)
            else OnEvent(c, OnEvents(c, FRESH, before).0, e)
  {
    OnEventsConcat(c, FRESH, before, [e]);
    var s := OnEvents(c, FRESH, before).0;
    assert [e][1..] == [] && [e][0] == e;
    assert OnEvents(c, OnEvent(c, s, e).0, []) == (OnEvent(c, s, e).0, None);
  }

  lemma SentSoFar(c: Config, events: seq<Event>)
    requires OnEvents(c, FRESH, events).1.None?
    ensures OnEvents(c, FRESH, events).0.sent == TextFrames(events)
    ensures |OnEvents(c, FRESH, events).0.held| == |InEventOrder(c.platform, events)|
  {
    OnEventsSend(c, FRESH, events);
    SentFromFresh(OnEvents(c, FRESH, events).0.sent, TextFrames(events));
    EventsInOrder(c, events);
  }

  /** The events are mapped without error exactly when they are within the limits and acceptable one by one. */
  lemma {:induction false} EventsAcceptedIff(c: Config, events: seq<Event>)
    ensures OnEvents(c, FRESH, events).1.None? <==> EventsOk(c, events)
  {
    if events != [] {
      var before, e := events[..|events| - 1], events[|events| - 1];
      assert events == before + [e];
      EventsAcceptedIff(c, before);
      OnEventsOneMore(c, before, e);
      EventsOkOneMore(c, before, e);
      if EventsOk(c, before) {
        SentSoFar(c, before);
        EventsInOrder(c, before);
        EventAcceptedIff(c, OnEvents(c, FRESH, before).0, before, e);
      }
    }
  }

  // ---------------------------------------------------------------------------------------------
  // Flush and delivery

  /** An open call needs a known name; once the response completed, it needs arguments too. */
  ghost predicate CanFlush(c: Config, completed: bool, calls: seq<Keyed>) {
    forall k | k in calls :: if completed then HasFrame(c, k.handout) else IsNamedCall(c, k.handout)
  }

  /** The next open call is taken, and the others are left to flush. */
  lemma FlushTakes(c: Config, s: Stream, keys: seq<string>) returns (s': Stream)
    requires keys != [] && forall k | k in keys :: k in s.pending.calls
    requires forall i, j | 0 <= i < j < |keys| :: keys[i] != keys[j]
    requires WellKeyed(s.pending) && |s.pending.keys| <= MAX_TOOL_CALLS && !s.pending.calls[keys[0]].emitted
    requires CanFlushNext(c, s, s.pending.calls[keys[0]])
    ensures WellKeyed(s'.pending) && s'.pending.keys == s.pending.keys
    ensures |s'.held| == |s.held| + 1 && s'.completed == s.completed
    ensures forall k | k in keys[1..] :: k in s'.pending.calls && s'.pending.calls[k] == s.pending.calls[k]
    ensures Flush(c, s, keys) == Flush(c, s', keys[1..])
  {
    var call := s.pending.calls[keys[0]];
    HasFrameIff(c, Handout(call, false));
    var arguments := if s.completed then ParseArguments(c.platform, call.args, false) else Some(JObj(map[]));
    var held := AcceptTool(c, s, keys[0], call, arguments.value).0;
    s' := held.(pending := Put(held.pending, keys[0], call.(emitted := true)));
    assert forall i | 0 < i < |keys| :: keys[i] != keys[0];
    PutKeyed(s.pending, keys[0], call.(emitted := true));
  }

  lemma FlushRefuses(c: Config, s: Stream, keys: seq<string>)
    requires keys != [] && forall k | k in keys :: k in s.pending.calls
    requires !s.pending.calls[keys[0]].emitted && !CanFlushNext(c, s, s.pending.calls[keys[0]])
    ensures Flush(c, s, keys).1.Some?
  {
    HasFrameIff(c, Handout(s.pending.calls[keys[0]], false));
  }

  ghost predicate CanFlushNext(c: Config, s: Stream, call: Call) {
    var h := Handout(call, false);
    |s.held| < MAX_TOOL_CALLS && if s.completed then HasFrame(c, h) else IsNamedCall(c, h)
  }

  lemma {:induction false} FlushIff(c: Config, s: Stream, keys: seq<string>, events: seq<Event>)
    requires ToFlush(c, s, keys, events) && WellKeyed(s.pending)
    requires |s.pending.keys| <= MAX_TOOL_CALLS && |s.held| <= MAX_TOOL_CALLS
    ensures var open := OpenCalls(c.platform, events, keys);
            (Flush(c, s, keys).1.None? <==> |s.held| + |open| <= MAX_TOOL_CALLS && CanFlush(c, s.completed, open))
    decreases |keys|
  {
    if keys != [] {
      OpenFirst(c, s, keys, events);
      var call, rest := s.pending.calls[keys[0]], OpenCalls(c.platform, events, keys[1..]);
      if call.emitted {
        FlushIff(c, s, keys[1..], events);
      } else {
        var first := Keyed(keys[0], Handout(call, false));
        CanFlushOneMore(c, s.completed, first, rest);
        if CanFlushNext(c, s, call) {
          var s' := FlushTakes(c, s, keys);
          FlushIff(c, s', keys[1..], events);
        } else {
          FlushRefuses(c, s, keys);
        }
      }
    }
  }

  lemma CanFlushOneMore(c: Config, completed: bool, first: Keyed, rest: seq<Keyed>)
    ensures CanFlush(c, completed, [first] + rest)
       <==> (&& CanFlush(c, completed, rest)
             && if completed then HasFrame(c, first.handout) else IsNamedCall(c, first.handout))
  {
    assert forall k :: k in [first] + rest <==> k == first || k in rest;
  }

  lemma {:induction false} DeliveredIff(c: Config, s: Stream, from: nat)
    requires from <= |s.held|
    ensures DeliverHeld(c, s, from).1.None?
       <==> forall n | |s.sent| <= n < |s.sent| + |s.held| - from :: !c.sinkFails(n)
    decreases |s.held| - from
  {
    if from < |s.held| {
      var (s', err) := Deliver(c, s, s.held[from].frame);
      if err.None? {
        DeliveredIff(c, s', from + 1);
      }
    }
  }

  // ---------------------------------------------------------------------------------------------
  // The outcome

  /** The usage of the last completed event that has one. */
  function LastUsage(events: seq<Event>): Option<Json> {
    if events == [] then None
    else
      match events[|events| - 1]
      case Completed(Some(usage)) => Some(usage)
      case _ => LastUsage(events[..|events| - 1])
  }

  ghost predicate OverContext(events: seq<Event>) {
    Failed(Some("context_length_exceeded")) in events
  }

  lemma EventReports(c: Config, s: Stream, e: Event)
    requires OnEvent(c, s, e).1.None?
    ensures var s' := OnEvent(c, s, e).0;
            && s'.usage == (if e.Completed? && e.usage.Some? then e.usage else s.usage)
            && (s'.contextLength <==> s.contextLength || e == Failed(Some("context_length_exceeded")))
  {
  }

  lemma {:induction false} EventsReport(c: Config, events: seq<Event>)
    requires OnEvents(c, FRESH, events).1.None?
    ensures OnEvents(c, FRESH, events).0.usage == LastUsage(events)
    ensures OnEvents(c, FRESH, events).0.contextLength <==> OverContext(events)
  {
    if events != [] {
      var before, e := events[..|events| - 1], events[|events| - 1];
      assert events == before + [e];
      OnEventsOneMore(c, before, e);
      EventsReport(c, before);
      EventReports(c, OnEvents(c, FRESH, before).0, e);
    }
  }

  lemma EventsFlag(c: Config, events: seq<Event>)
    requires OnEvents(c, FRESH, events).1.None?
    ensures OnEvents(c, FRESH, events).0.completed <==> Completes(events)
    ensures OnEvents(c, FRESH, events).0.failed <==> Fails(events)
  {
    OnEventsFlags(c, FRESH, events);
  }

  lemma ReadyToFlush(c: Config, events: seq<Event>)
    requires OnEvents(c, FRESH, events).1.None?
    ensures var s := OnEvents(c, FRESH, events).0;
            && ToFlush(c, s, s.pending.keys, events) && WellKeyed(s.pending)
            && s.pending.keys == Items(c.platform, events)
            && |s.pending.keys| <= MAX_TOOL_CALLS && |s.held| <= MAX_TOOL_CALLS
  {
    var s := OnEvents(c, FRESH, events).0;
    EventsInOrder(c, events);
    EventsAcceptedIff(c, events);
    forall k | k in s.pending.keys
      ensures Lookup(s.pending, k) == CallOf(c.platform, Of(c.platform, events, k))
    {
      assert TracksKey(c, s, events, k);
    }
  }

  /** A response that failed throws the failure, whatever its calls, and says if it exceeded the context. */
  lemma FailureIsThrown(c: Config, events: seq<Event>)
    requires EventsOk(c, events) && Fails(events)
    ensures OnEvents(c, FRESH, events).1.None? && WellKeyed(OnEvents(c, FRESH, events).0.pending)
    ensures Finish(c, OnEvents(c, FRESH, events).0)
         == Report(TextFrames(events), Thrown(if OverContext(events) then ContextLength else ResponseFailed))
  {
    EventsAcceptedIff(c, events);
    EventsReport(c, events);
    EventsFlag(c, events);
    SentSoFar(c, events);
    ReadyToFlush(c, events);
  }

  /** What is left when the events went through: the open calls and the sink's answer to the held ones. */
  lemma CompletedSucceedsIff(c: Config, events: seq<Event>)
    requires EventsOk(c, events) && !Fails(events) && Completes(events)
    ensures OnEvents(c, FRESH, events).1.None? && WellKeyed(OnEvents(c, FRESH, events).0.pending)
    ensures var outcome := Finish(c, OnEvents(c, FRESH, events).0).outcome;
            if Acceptable(c, events) then outcome == Success(LastUsage(events)) else outcome.Thrown?
  {
    EventsAcceptedIff(c, events);
    EventsReport(c, events);
    EventsFlag(c, events);
    SentSoFar(c, events);
    ReadyToFlush(c, events);
    var s := OnEvents(c, FRESH, events).0;
    FlushIff(c, s, s.pending.keys, events);
    OnEventsSend(c, FRESH, events);
    FlushHolds(c, s, s.pending.keys);
    CallsInTwo(c, events);
    if Flush(c, s, s.pending.keys).1.None? {
      var flushed := Flush(c, s, s.pending.keys).0;
      HeldInOrder(c, events);
      DeliveredIff(c, flushed, 0);
      DeliverHeldSends(c, flushed, 0);
    }
  }

  lemma CallsInTwo(c: Config, events: seq<Event>)
    requires EventsOk(c, events)
    ensures var open := OpenCalls(c.platform, events, Items(c.platform, events));
            var total := |TextFrames(events)| + |ToolCalls(c.platform, events)|;
            (Acceptable(c, events)
             <==> (&& |ToolCalls(c.platform, events)| <= MAX_TOOL_CALLS && CanFlush(c, true, open)
                   && forall n | |TextFrames(events)| <= n < total :: !c.sinkFails(n)))
  {
    var out, open := InEventOrder(c.platform, events), OpenCalls(c.platform, events, Items(c.platform, events));
    assert forall k :: k in ToolCalls(c.platform, events) <==> k in out || k in open;
  }

  lemma AcceptableEvents(c: Config, events: seq<Event>)
    requires Acceptable(c, events)
    ensures EventsOk(c, events)
  {
    var out, open := InEventOrder(c.platform, events), OpenCalls(c.platform, events, Items(c.platform, events));
    assert forall k :: k in ToolCalls(c.platform, events) <==> k in out || k in open;
  }

  /**
   * A response succeeds exactly when it completed, did not fail, and is acceptable: within the limits,
   * every call with a known name and arguments, every frame taken by the sink.
   */
  lemma SucceedsIff(c: Config, events: seq<Event>)
    ensures Succeeds(c, events) <==> Completes(events) && !Fails(events) && Acceptable(c, events)
    ensures Succeeds(c, events) ==> Finish(c, OnEvents(c, FRESH, events).0).outcome == Success(LastUsage(events))
  {
    EventsAcceptedIff(c, events);
    if EventsOk(c, events) {
      EventsReport(c, events);
      EventsFlag(c, events);
      if Completes(events) && !Fails(events) {
        CompletedSucceedsIff(c, events);
      } else if Fails(events) {
        FailureIsThrown(c, events);
      } else {
        UnfinishedIsUnknown(c, events);
      }
    } else if Acceptable(c, events) {
      AcceptableEvents(c, events);
    }
  }

  // ---------------------------------------------------------------------------------------------
  // Errors

  predicate HasArguments(c: Config, h: Handout) {
    ParseArguments(c.platform, h.call.args, h.closed).Some?
  }

  /** What is wrong with a call that is handed out when `held` calls are held. */
  function CallError(c: Config, h: Handout, items: nat, held: nat): Option<Error> {
    if !HasArguments(c, h) then Some(InvalidArguments)
    else if items > MAX_TOOL_CALLS || held >= MAX_TOOL_CALLS then Some(ToolCallLimit)
    else if !IsNamedCall(c, h) then Some(UnknownToolName)
    else None
  }

  /** What is wrong with an event, given what it hands out and the numbers of items, held calls and sent texts. */
  function EventError(c: Config, e: Event, out: seq<Keyed>, items: nat, held: nat, sent: nat): Option<Error> {
    if out != [] then CallError(c, out[0].handout, items, held)
    else if items > MAX_TOOL_CALLS then Some(ToolCallLimit)
    else if e.Text? && c.sinkFails(sent) then Some(SinkRejected)
    else None
  }

  lemma ItemEventError(c: Config, s: Stream, e: Event)
    requires ForItem(e)
    ensures var key := KeyOf(c.platform, SourceOfEvent(e));
            var call := Upsert(c.platform, Lookup(s.pending, key), SourceOfEvent(e));
            var items := |Put(s.pending, key, call).keys|;
            OnEvent(c, s, e).1
            == (if HandsOut(c.platform, call, e) then CallError(c, Handout(call, e.Done?), items, |s.held|)
                else if items > MAX_TOOL_CALLS then Some(ToolCallLimit)
                else None)
  {
  }

  lemma EventErrorIs(c: Config, s: Stream, history: seq<Event>, e: Event)
    requires InOrder(c, s, history)
    ensures OnEvent(c, s, e).1
         == EventError(c, e, HandedOutBy(c.platform, history, e), |Items(c.platform, history + [e])|,
                       |s.held|, |s.sent|)
  {
    if ForItem(e) {
      var key := KeyOf(c.platform, SourceOfEvent(e));
      assert TracksKey(c, s, history, key);
      ItemCount(c, s, history, e, Upsert(c.platform, Lookup(s.pending, key), SourceOfEvent(e)));
      ItemEventError(c, s, e);
    } else {
      OtherEventAcceptedIff(c, s, history, e);
    }
  }

  /** A read that is stopped by an event throws what is wrong with the first event that is not in order. */
  lemma {:induction false} FirstErrorIs(c: Config, events: seq<Event>) returns (k: nat)
    requires OnEvents(c, FRESH, events).1.Some?
    ensures k < |events| && EventsOk(c, events[..k])
    ensures var before := events[..k];
            OnEvents(c, FRESH, events).1
            == EventError(c, events[k], HandedOutBy(c.platform, before, events[k]),
                          |Items(c.platform, before + [events[k]])|, |InEventOrder(c.platform, before)|,
                          |TextFrames(before)|)
  {
    var n := |events| - 1;
    var before := events[..n];
    assert events == before + [events[n]];
    OnEventsOneMore(c, before, events[n]);
    if OnEvents(c, FRESH, before).1.Some? {
      k := FirstErrorIs(c, before);
      assert before[..k] == events[..k] && before[k] == events[k];
    } else {
      k := n;
      EventsAcceptedIff(c, before);
      SentSoFar(c, before);
      EventsInOrder(c, before);
      EventErrorIs(c, OnEvents(c, FRESH, before).0, before, events[n]);
    }
  }

  /** What is wrong with an open call when `held` calls are held; arguments matter only after completion. */
  function FlushError(c: Config, completed: bool, h: Handout, held: nat): Option<Error> {
    if completed && !HasArguments(c, h) then Some(InvalidArguments)
    else if held >= MAX_TOOL_CALLS then Some(ToolCallLimit)
    else if !IsNamedCall(c, h) then Some(UnknownToolName)
    else None
  }

  /** What is wrong with the first open call that cannot be flushed. */
  function OpenError(c: Config, completed: bool, held: nat, open: seq<Keyed>): Option<Error>
    decreases |open|
  {
    if open == [] then None
    else
      var wrong := FlushError(c, completed, open[0].handout, held);
      if wrong.Some? then wrong else OpenError(c, completed, held + 1, open[1..])
  }

  lemma OpenErrorFirst(c: Config, completed: bool, held: nat, first: Keyed, rest: seq<Keyed>)
    ensures OpenError(c, completed, held, [first] + rest)
         == if FlushError(c, completed, first.handout, held).Some? then FlushError(c, completed, first.handout, held)
            else OpenError(c, completed, held + 1, rest)
  {
    assert ([first] + rest)[1..] == rest;
  }

  lemma FlushRefusal(c: Config, s: Stream, keys: seq<string>)
    requires keys != [] && forall k | k in keys :: k in s.pending.calls
    requires |s.pending.keys| <= MAX_TOOL_CALLS && !s.pending.calls[keys[0]].emitted
    ensures var call := s.pending.calls[keys[0]];
            var wrong := FlushError(c, s.completed, Handout(call, false), |s.held|);
            (CanFlushNext(c, s, call) <==> wrong.None?) && (wrong.Some? ==> Flush(c, s, keys).1 == wrong)
  {
    HasFrameIff(c, Handout(s.pending.calls[keys[0]], false));
  }

  lemma {:induction false} FlushErrorIs(c: Config, s: Stream, keys: seq<string>, events: seq<Event>)
    requires ToFlush(c, s, keys, events) && WellKeyed(s.pending) && |s.pending.keys| <= MAX_TOOL_CALLS
    ensures Flush(c, s, keys).1 == OpenError(c, s.completed, |s.held|, OpenCalls(c.platform, events, keys))
    decreases |keys|
  {
    if keys != [] {
      OpenFirst(c, s, keys, events);
      var call, rest := s.pending.calls[keys[0]], OpenCalls(c.platform, events, keys[1..]);
      if call.emitted {
        FlushErrorIs(c, s, keys[1..], events);
      } else {
        OpenErrorFirst(c, s.completed, |s.held|, Keyed(keys[0], Handout(call, false)), rest);
        FlushRefusal(c, s, keys);
        if CanFlushNext(c, s, call) {
          var s' := FlushTakes(c, s, keys);
          FlushErrorIs(c, s', keys[1..], events);
        }
      }
    }
  }

  lemma {:induction false} DeliveryError(c: Config, s: Stream, from: nat)
    requires from <= |s.held|
    ensures DeliverHeld(c, s, from).1 in {None, Some(SinkRejected)}
    decreases |s.held| - from
  {
    if from < |s.held| && Deliver(c, s, s.held[from].frame).1.None? {
      DeliveryError(c, Deliver(c, s, s.held[from].frame).0, from + 1);
    }
  }

  /**
   * A response without a terminal event delivers its text only, and is unknown unless an open call is too
   * many or has no known name.
   */
  lemma UnfinishedIsUnknown(c: Config, events: seq<Event>)
    requires EventsOk(c, events) && !Fails(events) && !Completes(events)
    ensures OnEvents(c, FRESH, events).1.None? && WellKeyed(OnEvents(c, FRESH, events).0.pending)
    ensures var open := OpenCalls(c.platform, events, Items(c.platform, events));
            var wrong := OpenError(c, false, |InEventOrder(c.platform, events)|, open);
            Finish(c, OnEvents(c, FRESH, events).0)
            == Report(TextFrames(events), if wrong.None? then Unknown(LastUsage(events)) else Thrown(wrong.value))
  {
    EventsAcceptedIff(c, events);
    EventsReport(c, events);
    EventsFlag(c, events);
    SentSoFar(c, events);
    ReadyToFlush(c, events);
    var s := OnEvents(c, FRESH, events).0;
    FlushErrorIs(c, s, s.pending.keys, events);
    OnEventsSend(c, FRESH, events);
    FlushHolds(c, s, s.pending.keys);
  }

  /** A completed response that does not succeed throws what is wrong with its open calls, or the sink's refusal. */
  lemma CompletedErrorIs(c: Config, events: seq<Event>)
    requires EventsOk(c, events) && !Fails(events) && Completes(events) && !Acceptable(c, events)
    ensures OnEvents(c, FRESH, events).1.None? && WellKeyed(OnEvents(c, FRESH, events).0.pending)
    ensures var open := OpenCalls(c.platform, events, Items(c.platform, events));
            var wrong := OpenError(c, true, |InEventOrder(c.platform, events)|, open);
            Finish(c, OnEvents(c, FRESH, events).0).outcome == Thrown(wrong.GetOr(SinkRejected))
  {
    CompletedSucceedsIff(c, events);
    EventsFlag(c, events);
    SentSoFar(c, events);
    ReadyToFlush(c, events);
    var s := OnEvents(c, FRESH, events).0;
    FlushErrorIs(c, s, s.pending.keys, events);
    DeliveryError(c, Flush(c, s, s.pending.keys).0, 0);
  }

  // ---------------------------------------------------------------------------------------------
  // Reads

  /** What stops a read apart from its events: a buffer of more than a mebibyte, or an abort after a chunk. */
  function Disturbance(buffer: string, chunks: seq<Chunk>): Option<Error>
    decreases |chunks|
  {
    if chunks == [] then None
    else
      var all := buffer + Sse.Normalize(chunks[0].text);
      if |all| > 1_048_576 then Some(BufferExceeded)
      else if chunks[0].aborted then Some(Interrupted)
      else Disturbance(Sse.Split(all).1, chunks[1..])
  }

  lemma {:induction false} ChunksDisturbed(c: Config, r: Reader, chunks: seq<Chunk>)
    requires Sse.Split(r.buffer) == ([], r.buffer)
    requires OnEvents(c, r.stream, EventsOf(c.platform, Ahead(r.buffer, chunks).0)).1.None?
    ensures OnChunks(c, r, chunks).1 == Disturbance(r.buffer, chunks)
    decreases |chunks|
  {
    if chunks != [] {
      AheadOfChunk(r.buffer, chunks);
      var all := r.buffer + Sse.Normalize(chunks[0].text);
      var (blocks, rest) := Sse.Split(all);
      var more := Ahead(rest, chunks[1..]).0;
      EventsOfConcat(c.platform, blocks, more);
      OnEventsConcat(c, r.stream, EventsOf(c.platform, blocks), EventsOf(c.platform, more));
      if |all| <= MAX_SSE_BUFFER && !chunks[0].aborted {
        ChunksDisturbed(c, OnChunk(c, r, chunks[0]).0, chunks[1..]);
      }
    }
  }

  /**
   * How a read ends whose events are all in order: a disturbance throws; so do a broken read and an abort
   * at its end; a failed response throws its failure; a completed one succeeds exactly when its calls and
   * the sink allow it; the rest never succeeds.
   */
  lemma ReadEnds(c: Config, chunks: seq<Chunk>, end: End)
    requires EventsOk(c, AllEvents(c, chunks, if end.Closed? then end.tail else ""))
    ensures var events := AllEvents(c, chunks, if end.Closed? then end.tail else "");
            var outcome, stopped := Consume(c, chunks, end).outcome, Disturbance("", chunks);
            if stopped.Some? then outcome == Thrown(stopped.value)
            else if end.Broken? || end.aborted then outcome == Thrown(Interrupted)
            else if Fails(events) then
              outcome == Thrown(if OverContext(events) then ContextLength else ResponseFailed)
            else if Completes(events) then
              if Acceptable(c, events) then outcome == Success(LastUsage(events)) else outcome.Thrown?
            else outcome == Unknown(LastUsage(events)) || outcome.Thrown?
  {
    var tail := if end.Closed? then end.tail else "";
    var events := AllEvents(c, chunks, tail);
    EventsAcceptedIff(c, events);
    LoopSends(c, chunks, tail);
    StartAhead(chunks);
    ReadWithoutErrors(c, chunks, tail);
    ChunksDisturbed(c, Reader(FRESH, ""), chunks);
    if Disturbance("", chunks).None? && end.Closed? && !end.aborted {
      FinishEnds(c, events);
    }
  }

  /** The blocks before the last one have no errors either. */
  lemma ReadWithoutErrors(c: Config, chunks: seq<Chunk>, tail: string)
    requires OnEvents(c, FRESH, AllEvents(c, chunks, tail)).1.None?
    ensures OnEvents(c, FRESH, EventsOf(c.platform, Ahead("", chunks).0)).1.None?
  {
    var (blocks, rest) := Ahead("", chunks);
    EventsOfConcat(c.platform, blocks, LastBlocks(rest, tail));
    OnEventsConcat(c, FRESH, EventsOf(c.platform, blocks), EventsOf(c.platform, LastBlocks(rest, tail)));
  }

  lemma FinishEnds(c: Config, events: seq<Event>)
    requires EventsOk(c, events)
    ensures OnEvents(c, FRESH, events).1.None? && WellKeyed(OnEvents(c, FRESH, events).0.pending)
    ensures var outcome := Finish(c, OnEvents(c, FRESH, events).0).outcome;
            if Fails(events) then outcome == Thrown(if OverContext(events) then ContextLength else ResponseFailed)
            else if Completes(events) then
              if Acceptable(c, events) then outcome == Success(LastUsage(events)) else outcome.Thrown?
            else outcome == Unknown(LastUsage(events)) || outcome.Thrown?
  {
    if Fails(events) {
      FailureIsThrown(c, events);
    } else if Completes(events) {
      CompletedSucceedsIff(c, events);
    } else {
      UnfinishedIsUnknown(c, events);
    }
  }
}
