/** The order in which tool calls are held and delivered, over all items at once. */
module CodexToolOrder {
  import opened Prelude
  import opened Json
  import opened CodexStream
  import opened CodexStreamReading
  import opened CodexToolCalls

  /** A call handed out for an item. */
  datatype Keyed = Keyed(key: string, handout: Handout)

  /** What an event hands out after the events before it. */
  function HandedOutBy(p: Platform, history: seq<Event>, e: Event): seq<Keyed> {
    if !ForItem(e) then []
    else
      var key := KeyOf(p, SourceOfEvent(e));
      var call := Upsert(p, CallOf(p, Of(p, history, key)), SourceOfEvent(e));
      if HandsOut(p, call, e) then [Keyed(key, Handout(call, e.Done?))] else []
  }

  /** Everything the events hand out, in their order. */
  function InEventOrder(p: Platform, events: seq<Event>): seq<Keyed> {
    if events == [] then []
    else
      var before := events[..|events| - 1];
      InEventOrder(p, before) + HandedOutBy(p, before, events[|events| - 1])
  }

  /** The items in the order in which they first appear. */
  function Items(p: Platform, events: seq<Event>): seq<string> {
    if events == [] then []
    else
      var before, e := Items(p, events[..|events| - 1]), events[|events| - 1];
      if ForItem(e) && KeyOf(p, SourceOfEvent(e)) !in before then before + [KeyOf(p, SourceOfEvent(e))] else before
  }

  /** The calls among `keys` that no event has handed out. */
  function OpenCalls(p: Platform, events: seq<Event>, keys: seq<string>): seq<Keyed> {
    if keys == [] then []
    else
      var open := match CallOf(p, Of(p, events, keys[0]))
                  case Some(call) => if call.emitted then [] else [Keyed(keys[0], Handout(call, false))]
                  case None => [];
      open + OpenCalls(p, events, keys[1..])
  }

  /** All tool calls of a response: what events hand out, then what is left open, item by item. */
  function ToolCalls(p: Platform, events: seq<Event>): seq<Keyed> {
    InEventOrder(p, events) + OpenCalls(p, events, Items(p, events))
  }

  ghost predicate AreHeld(c: Config, calls: seq<Keyed>, held: seq<Emission>) {
    && |calls| == |held|
    && forall i | 0 <= i < |held| :: held[i].key == calls[i].key && IsFrameOf(c, calls[i].handout, held[i].frame)
  }

  // ---------------------------------------------------------------------------------------------
  // While events arrive

  ghost predicate InOrder(c: Config, s: Stream, history: seq<Event>) {
    && Tracks(c, s, history)
    && AreHeld(c, InEventOrder(c.platform, history), s.held)
    && s.pending.keys == Items(c.platform, history) && WellKeyed(s.pending)
  }

  lemma EventHolds(c: Config, s: Stream, history: seq<Event>, e: Event)
    requires Tracks(c, s, history) && AreHeld(c, InEventOrder(c.platform, history), s.held)
    requires OnEvent(c, s, e).1.None?
    ensures AreHeld(c, InEventOrder(c.platform, history + [e]), OnEvent(c, s, e).0.held)
  {
    var held := OnEvent(c, s, e).0.held;
    var own := InEventOrder(c.platform, history);
    assert (history + [e])[..|history|] == history;
    if ForItem(e) {
      var key := KeyOf(c.platform, SourceOfEvent(e));
      assert TracksKey(c, s, history, key);
      OnEventPerKey(c, s, e, key);
      var call := Upsert(c.platform, Lookup(s.pending, key), SourceOfEvent(e));
      if HandsOut(c.platform, call, e) {
        var frame :| IsFrameOf(c, Handout(call, e.Done?), frame) && held == s.held + [Emission(key, frame)];
        OneMoreHeld(c, own, s.held, Keyed(key, Handout(call, e.Done?)), frame);
      } else {
        assert own + [] == own;
      }
    } else {
      assert held == s.held && own + [] == own;
    }
  }

  lemma OneMoreHeld(c: Config, calls: seq<Keyed>, held: seq<Emission>, call: Keyed, frame: Frame)
    requires AreHeld(c, calls, held) && IsFrameOf(c, call.handout, frame)
    ensures AreHeld(c, calls + [call], held + [Emission(call.key, frame)])
  {
  }

  lemma EventLists(c: Config, s: Stream, history: seq<Event>, e: Event)
    requires s.pending.keys == Items(c.platform, history) && WellKeyed(s.pending) && OnEvent(c, s, e).1.None?
    ensures OnEvent(c, s, e).0.pending.keys == Items(c.platform, history + [e])
  {
    assert (history + [e])[..|history|] == history;
    if e.Added? || e.Done? {
      var key := KeyOf(c.platform, e.src);
      EmitPending(c, s, key, Upsert(c.platform, Lookup(s.pending, key), e.src), e.Done?);
    }
  }

  lemma EventInOrder(c: Config, s: Stream, history: seq<Event>, e: Event)
    requires InOrder(c, s, history) && OnEvent(c, s, e).1.None?
    ensures InOrder(c, OnEvent(c, s, e).0, history + [e])
  {
    forall key
      ensures TracksKey(c, OnEvent(c, s, e).0, history + [e], key)
    {
      OnEventTracks(c, s, history, e, key);
    }
    EventHolds(c, s, history, e);
    EventLists(c, s, history, e);
    OnEventKeyed(c, s, e);
  }

  /** What every accepted event keeps holds after all of them. */
  lemma {:induction false} EventsKeep(c: Config, inv: (Stream, seq<Event>) -> bool, s: Stream, history: seq<Event>,
                                      events: seq<Event>)
    requires inv(s, history) && OnEvents(c, s, events).1.None?
    requires forall s, h, e | inv(s, h) && OnEvent(c, s, e).1.None? :: inv(OnEvent(c, s, e).0, h + [e])
    ensures inv(OnEvents(c, s, events).0, history + events)
    decreases |events|
  {
    if events == [] {
      assert history + events == history;
    } else {
      assert history + [events[0]] + events[1..] == history + events;
      EventsKeep(c, inv, OnEvent(c, s, events[0]).0, history + [events[0]], events[1..]);
    }
  }

  ghost function OrderInvariant(c: Config): (Stream, seq<Event>) -> bool {
    (s: Stream, history: seq<Event>) => InOrder(c, s, history)
  }

  lemma InvariantHolds(c: Config, events: seq<Event>)
    requires OnEvents(c, FRESH, events).1.None?
    ensures OrderInvariant(c)(OnEvents(c, FRESH, events).0, events)
  {
    var inv := OrderInvariant(c);
    FreshTracks(c);
    forall s, h, e | inv(s, h) && OnEvent(c, s, e).1.None?
      ensures inv(OnEvent(c, s, e).0, h + [e])
    {
      EventInOrder(c, s, h, e);
    }
    EventsKeep(c, inv, FRESH, [], events);
    assert [] + events == events;
  }

  lemma EventsInOrder(c: Config, events: seq<Event>)
    requires OnEvents(c, FRESH, events).1.None?
    ensures InOrder(c, OnEvents(c, FRESH, events).0, events)
  {
    InvariantHolds(c, events);
  }

  // ---------------------------------------------------------------------------------------------
  // The flush

  /** The keys still to be flushed are distinct items, whose calls are those of their events. */
  ghost predicate ToFlush(c: Config, s: Stream, keys: seq<string>, events: seq<Event>) {
    && (forall k | k in keys :: k in s.pending.calls)
    && (forall k | k in keys :: Lookup(s.pending, k) == CallOf(c.platform, Of(c.platform, events, k)))
    && (forall i, j | 0 <= i < j < |keys| :: keys[i] != keys[j])
  }

  lemma OpenFirst(c: Config, s: Stream, keys: seq<string>, events: seq<Event>)
    requires keys != [] && ToFlush(c, s, keys, events)
    ensures keys[0] in s.pending.calls && ToFlush(c, s, keys[1..], events)
    ensures var call := s.pending.calls[keys[0]]; var rest := OpenCalls(c.platform, events, keys[1..]);
            OpenCalls(c.platform, events, keys) == if call.emitted then rest
                                                   else [Keyed(keys[0], Handout(call, false))] + rest
  {
    assert keys[0] in keys && forall k | k in keys[1..] :: k in keys;
  }

  lemma Regroup<T>(a: seq<T>, x: T, b: seq<T>)
    ensures a + ([x] + b) == a + [x] + b
  {
  }

  lemma {:induction false} FlushInOrder(c: Config, s: Stream, keys: seq<string>, events: seq<Event>, calls: seq<Keyed>)
    requires ToFlush(c, s, keys, events)
    requires s.completed && Flush(c, s, keys).1.None? && AreHeld(c, calls, s.held)
    ensures AreHeld(c, calls + OpenCalls(c.platform, events, keys), Flush(c, s, keys).0.held)
    decreases |keys|
  {
    if keys == [] {
      assert calls + [] == calls;
    } else {
      OpenFirst(c, s, keys, events);
      var call := s.pending.calls[keys[0]];
      if call.emitted {
        FlushInOrder(c, s, keys[1..], events, calls);
      } else {
        var s', em := FlushOne(c, s, keys);
        var next := Keyed(keys[0], Handout(call, false));
        OneMoreHeld(c, calls, s.held, next, em.frame);
        assert em == Emission(keys[0], em.frame);
        Regroup(calls, next, OpenCalls(c.platform, events, keys[1..]));
        FlushInOrder(c, s', keys[1..], events, calls + [next]);
      }
    }
  }

  /** What a response holds in the end is, call by call, given by its events alone. */
  lemma HeldInOrder(c: Config, events: seq<Event>)
    requires Deliverable(c, events)
    ensures AreHeld(c, ToolCalls(c.platform, events), HeldAtEnd(c, events))
  {
    var s := OnEvents(c, FRESH, events).0;
    EventsInOrder(c, events);
    forall k | k in s.pending.keys
      ensures Lookup(s.pending, k) == CallOf(c.platform, Of(c.platform, events, k))
    {
      assert TracksKey(c, s, events, k);
    }
    FlushInOrder(c, s, s.pending.keys, events, InEventOrder(c.platform, events));
  }

  /**
   * Every run, whatever the chunking, aborts, errors and sink failures: the sink gets a first part of the
   * text frames, and then a first part of the response's tool calls in their order, each as the frame of
   * that very call. Tool frames come only after all the text of a response that completed without
   * failing; a success delivers everything.
   */
  lemma ToolsInOrder(c: Config, chunks: seq<Chunk>, end: End) returns (texts: seq<Frame>, tools: seq<Frame>)
    ensures var events := AllEvents(c, chunks, if end.Closed? then end.tail else "");
            var calls := ToolCalls(c.platform, events); var report := Consume(c, chunks, end);
            (&& report.sent == texts + tools && Sends([], texts, TextFrames(events), false)
             && |tools| <= |calls| && (forall i | 0 <= i < |tools| :: IsFrameOf(c, calls[i].handout, tools[i]))
             && (tools != [] ==> texts == TextFrames(events) && Finished(events))
             && (report.outcome.Success? ==> texts == TextFrames(events) && Finished(events) && |tools| == |calls|))
  {
    var events := AllEvents(c, chunks, if end.Closed? then end.tail else "");
    texts, tools := ToolsOnlyAfterSuccess(c, chunks, end);
    if tools != [] || Consume(c, chunks, end).outcome.Success? {
      HeldInOrder(c, events);
    }
  }
}
