/**
 * The assembled tool calls, item by item: what is held for one item depends on that item's own
 * events only, however the events of different items interleave.
 */
module CodexToolCalls {
  import opened Prelude
  import opened Json
  import opened CodexStream
  import opened CodexStreamReading

  // ---------------------------------------------------------------------------------------------
  // One item on its own

  /** The source an event is upserted with; the events that concern no item have none of interest. */
  function SourceOfEvent(e: Event): Source {
    match e
    case Added(src) => src
    case Done(src) => src
    case Delta(itemId, text) => DeltaSource(itemId, text)
    case _ => DeltaSource(None, "")
  }

  predicate ForItem(e: Event) {
    e.Added? || e.Delta? || e.Done?
  }

  predicate Concerns(p: Platform, e: Event, key: string) {
    ForItem(e) && KeyOf(p, SourceOfEvent(e)) == key
  }

  /** The events of one item, in order. */
  function Of(p: Platform, events: seq<Event>, key: string): (own: seq<Event>)
    ensures forall e | e in own :: Concerns(p, e, key)
  {
    if events == [] then []
    else
      var e := events[|events| - 1];
      Of(p, events[..|events| - 1], key) + if Concerns(p, e, key) then [e] else []
  }

  /** A call handed out: its fields at that moment, and whether the upstream had closed it. */
  datatype Handout = Handout(call: Call, closed: bool)

  function CallAfter(p: Platform, current: Option<Call>, e: Event): Call
  {
    var call := Upsert(p, current, SourceOfEvent(e));
    call.(emitted := call.emitted || HandsOut(p, call, e))
  }

  /** An `added` event hands out whenever its text is complete JSON; a closing event only once. */
  predicate HandsOut(p: Platform, call: Call, e: Event) {
    (e.Added? && CompleteJson(p, call.args)) || (e.Done? && !call.emitted)
  }

  /** The pending call of an item after its events. */
  function CallOf(p: Platform, own: seq<Event>): Option<Call>
  {
    if own == [] then None
    else
      var before := own[..|own| - 1];
      Some(CallAfter(p, CallOf(p, before), own[|own| - 1]))
  }

  function Handouts(p: Platform, own: seq<Event>): seq<Handout>
  {
    if own == [] then []
    else
      var before, e := own[..|own| - 1], own[|own| - 1];
      var call := Upsert(p, CallOf(p, before), SourceOfEvent(e));
      Handouts(p, before) + if HandsOut(p, call, e) then [Handout(call, e.Done?)] else []
  }

  // ---------------------------------------------------------------------------------------------
  // The stream is the items side by side

  /** The frame of a handed-out call, when its arguments parse and its name is known. */
  ghost predicate IsFrameOf(c: Config, h: Handout, frame: Frame) {
    var names := CodexStream.ToolNames.FromWire(c.names, h.call.name);
    var arguments := ParseArguments(c.platform, h.call.args, h.closed);
    names.Some? && arguments.Some? && frame == ToolFrame(h.call.id, names.value, arguments.value)
  }

  ghost predicate AreFramesOf(c: Config, handouts: seq<Handout>, frames: seq<Frame>) {
    |handouts| == |frames| && forall i | 0 <= i < |frames| :: IsFrameOf(c, handouts[i], frames[i])
  }

  function HeldFor(held: seq<Emission>, key: string): seq<Frame> {
    if held == [] then []
    else
      var last := held[|held| - 1];
      HeldFor(held[..|held| - 1], key) + if last.key == key then [last.frame] else []
  }

  ghost predicate TracksKey(c: Config, s: Stream, history: seq<Event>, key: string) {
    var own := Of(c.platform, history, key);
    && Lookup(s.pending, key) == CallOf(c.platform, own)
    && AreFramesOf(c, Handouts(c.platform, own), HeldFor(s.held, key))
  }

  ghost predicate Tracks(c: Config, s: Stream, history: seq<Event>) {
    forall key :: TracksKey(c, s, history, key)
  }

  lemma OfOneMore(p: Platform, events: seq<Event>, e: Event, key: string)
    ensures Of(p, events + [e], key) == Of(p, events, key) + if Concerns(p, e, key) then [e] else []
  {
    assert (events + [e])[..|events|] == events;
  }

  lemma HeldOneMore(held: seq<Emission>, e: Emission, key: string)
    ensures HeldFor(held + [e], key) == HeldFor(held, key) + if e.key == key then [e.frame] else []
  {
    assert (held + [e])[..|held|] == held;
  }

  lemma OwnOneMore(p: Platform, own: seq<Event>, e: Event)
    ensures CallOf(p, own + [e]) == Some(CallAfter(p, CallOf(p, own), e))
    ensures var call := Upsert(p, CallOf(p, own), SourceOfEvent(e));
            Handouts(p, own + [e]) == Handouts(p, own) + if HandsOut(p, call, e) then [Handout(call, e.Done?)] else []
  {
    assert (own + [e])[..|own|] == own;
  }

  lemma AppendFrame(c: Config, hs: seq<Handout>, frames: seq<Frame>, h: Handout, frame: Frame)
    requires AreFramesOf(c, hs, frames) && IsFrameOf(c, h, frame)
    ensures AreFramesOf(c, hs + [h], frames + [frame])
  {
  }

  /** What one accepted event does to the item it concerns, and that it leaves all others alone. */
  lemma OnEventPerKey(c: Config, s: Stream, e: Event, key: string)
    requires OnEvent(c, s, e).1.None?
    ensures var s' := OnEvent(c, s, e).0;
            if Concerns(c.platform, e, key) then
              var call := Upsert(c.platform, Lookup(s.pending, key), SourceOfEvent(e));
              && Lookup(s'.pending, key) == Some(CallAfter(c.platform, Lookup(s.pending, key), e))
              && if HandsOut(c.platform, call, e) then
                   exists frame ::
                     IsFrameOf(c, Handout(call, e.Done?), frame) && s'.held == s.held + [Emission(key, frame)]
                 else s'.held == s.held
            else
              && Lookup(s'.pending, key) == Lookup(s.pending, key)
              && (s'.held == s.held || exists em: Emission :: em.key != key && s'.held == s.held + [em])
  {
    var s' := OnEvent(c, s, e).0;
    if ForItem(e) {
      var src := SourceOfEvent(e);
      var k := KeyOf(c.platform, src);
      var call := Upsert(c.platform, Lookup(s.pending, k), src);
      if HandsOut(c.platform, call, e) {
        var em := s'.held[|s.held|];
        assert s'.held == s.held + [em] && em.key == k && IsFrameOf(c, Handout(call, e.Done?), em.frame);
        assert em == Emission(k, em.frame);
      }
    }
  }

  lemma OnEventTracks(c: Config, s: Stream, history: seq<Event>, e: Event, key: string)
    requires TracksKey(c, s, history, key) && OnEvent(c, s, e).1.None?
    ensures TracksKey(c, OnEvent(c, s, e).0, history + [e], key)
  {
    var s' := OnEvent(c, s, e).0;
    var own := Of(c.platform, history, key);
    OfOneMore(c.platform, history, e, key);
    OnEventPerKey(c, s, e, key);
    if Concerns(c.platform, e, key) {
      OwnOneMore(c.platform, own, e);
      var call := Upsert(c.platform, Lookup(s.pending, key), SourceOfEvent(e));
      if HandsOut(c.platform, call, e) {
        var frame :| IsFrameOf(c, Handout(call, e.Done?), frame) && s'.held == s.held + [Emission(key, frame)];
        HeldOneMore(s.held, Emission(key, frame), key);
        AppendFrame(c, Handouts(c.platform, own), HeldFor(s.held, key), Handout(call, e.Done?), frame);
      } else {
        assert Handouts(c.platform, own) + [] == Handouts(c.platform, own);
      }
    } else {
      assert own + [] == own;
      if s'.held != s.held {
        var em: Emission :| em.key != key && s'.held == s.held + [em];
        HeldOneMore(s.held, em, key);
        assert HeldFor(s.held, key) + [] == HeldFor(s.held, key);
      }
    }
  }

  lemma {:induction false} OnEventsTrack(c: Config, s: Stream, history: seq<Event>, events: seq<Event>)
    requires Tracks(c, s, history) && OnEvents(c, s, events).1.None?
    ensures Tracks(c, OnEvents(c, s, events).0, history + events)
    decreases |events|
  {
    if events == [] {
      assert history + events == history;
    } else {
      var s' := OnEvent(c, s, events[0]).0;
      forall key
        ensures TracksKey(c, s', history + [events[0]], key)
      {
        OnEventTracks(c, s, history, events[0], key);
      }
      assert history + [events[0]] + events[1..] == history + events;
      OnEventsTrack(c, s', history + [events[0]], events[1..]);
    }
  }

  lemma FreshTracks(c: Config)
    ensures Tracks(c, FRESH, [])
  {
  }

  // ---------------------------------------------------------------------------------------------
  // The flush

  /** The flush of one open call: its frame is held, and the other calls stay as they are. */
  lemma FlushOne(c: Config, s: Stream, keys: seq<string>) returns (s': Stream, em: Emission)
    requires keys != [] && forall k | k in keys :: k in s.pending.calls
    requires forall i, j | 0 <= i < j < |keys| :: keys[i] != keys[j]
    requires s.completed && Flush(c, s, keys).1.None? && !s.pending.calls[keys[0]].emitted
    ensures em.key == keys[0] && IsFrameOf(c, Handout(s.pending.calls[keys[0]], false), em.frame)
    ensures s'.held == s.held + [em] && s'.completed
    ensures forall k | k in keys[1..] :: k in s'.pending.calls && s'.pending.calls[k] == s.pending.calls[k]
    ensures Flush(c, s, keys) == Flush(c, s', keys[1..])
  {
    var call := s.pending.calls[keys[0]];
    var accepted := AcceptTool(c, s, keys[0], call, ParseArguments(c.platform, call.args, false).value).0;
    s' := accepted.(pending := Put(accepted.pending, keys[0], call.(emitted := true)));
    em := accepted.held[|s.held|];
    assert forall i | 0 < i < |keys| :: keys[i] != keys[0];
  }

  /** After a flush that raises no error each open call among `keys` has gained its one frame, unclosed. */
  lemma {:induction false} FlushPerKey(c: Config, s: Stream, keys: seq<string>, key: string)
    requires forall k | k in keys :: k in s.pending.calls
    requires forall i, j | 0 <= i < j < |keys| :: keys[i] != keys[j]
    requires s.completed && Flush(c, s, keys).1.None?
    ensures var before, after := HeldFor(s.held, key), HeldFor(Flush(c, s, keys).0.held, key);
            if key in keys && !s.pending.calls[key].emitted then
              |after| == |before| + 1 && after[..|before|] == before
              && IsFrameOf(c, Handout(s.pending.calls[key], false), after[|before|])
            else after == before
    decreases |keys|
  {
    if keys != [] {
      var call := s.pending.calls[keys[0]];
      assert keys == [keys[0]] + keys[1..];
      if call.emitted {
        FlushPerKey(c, s, keys[1..], key);
      } else {
        var s', em := FlushOne(c, s, keys);
        HeldOneMore(s.held, em, key);
        FlushPerKey(c, s', keys[1..], key);
      }
    }
  }

  // ---------------------------------------------------------------------------------------------
  // Successful responses

  /** The response is read to its end without error, and its outcome is success. */
  ghost predicate Succeeds(c: Config, events: seq<Event>) {
    && OnEvents(c, FRESH, events).1.None?
    && WellKeyed(OnEvents(c, FRESH, events).0.pending)
    && Finish(c, OnEvents(c, FRESH, events).0).outcome.Success?
  }

  /** What a successful response delivers: all the text, then every held frame, in order. */
  lemma SuccessDelivers(c: Config, events: seq<Event>)
    requires Succeeds(c, events)
    ensures Finish(c, OnEvents(c, FRESH, events).0).sent == TextFrames(events) + Frames(HeldAtEnd(c, events))
    ensures |HeldAtEnd(c, events)| <= MAX_TOOL_CALLS
  {
    var s := OnEvents(c, FRESH, events).0;
    OnEventsSend(c, FRESH, events);
    SentFromFresh(s.sent, TextFrames(events));
    FlushHolds(c, s, s.pending.keys);
    var flushed := Flush(c, s, s.pending.keys).0;
    DeliverHeldSends(c, flushed, 0);
    var frames := Frames(flushed.held);
    assert frames[0..] == frames;
    var n: nat :| n <= |frames| && DeliverHeld(c, flushed, 0).0.sent == flushed.sent + frames[..n] && n == |frames|;
    assert frames[..n] == frames;
  }

  /**
   * A chunked read reports success exactly when it was neither cut nor aborted at its end, its
   * chunks went through, and its events succeed; then it has delivered their text and held frames.
   */
  lemma SuccessfulRead(c: Config, chunks: seq<Chunk>, end: End)
    ensures Consume(c, chunks, end).outcome.Success?
       <==> (&& OnChunks(c, Reader(FRESH, ""), chunks).1.None? && end.Closed? && !end.aborted
             && Succeeds(c, AllEvents(c, chunks, end.tail)))
    ensures Consume(c, chunks, end).outcome.Success? ==>
              Consume(c, chunks, end).sent == TextFrames(AllEvents(c, chunks, end.tail))
                                            + Frames(HeldAtEnd(c, AllEvents(c, chunks, end.tail)))
  {
    var (r, err) := OnChunks(c, Reader(FRESH, ""), chunks);
    StartAhead(chunks);
    OnChunksSend(c, Reader(FRESH, ""), chunks);
    if err.None? && end.Closed? {
      var (blocks, rest) := Ahead("", chunks);
      var last := LastBlocks(rest, end.tail);
      EventsOfConcat(c.platform, blocks, last);
      OnEventsConcat(c, FRESH, EventsOf(c.platform, blocks), EventsOf(c.platform, last));
      OnEventsKeyed(c, FRESH, AllEvents(c, chunks, end.tail));
      if Succeeds(c, AllEvents(c, chunks, end.tail)) {
        SuccessDelivers(c, AllEvents(c, chunks, end.tail));
      }
    }
  }

  /** The frames of one item at the end: its handouts, or the flushed call if there were none. */
  lemma ItemAtEnd(c: Config, events: seq<Event>, key: string)
    requires Succeeds(c, events)
    ensures var own := Of(c.platform, events, key); var frames := HeldFor(HeldAtEnd(c, events), key);
            (&& (own == [] ==> frames == [])
             && (own != [] && Handouts(c.platform, own) == [] ==>
                   |frames| == 1 && IsFrameOf(c, Handout(CallOf(c.platform, own).value, false), frames[0]))
             && (Handouts(c.platform, own) != [] ==> AreFramesOf(c, Handouts(c.platform, own), frames)))
  {
    var s := OnEvents(c, FRESH, events).0;
    TracksAtEnd(c, events, key);
    FlushPerKey(c, s, s.pending.keys, key);
    EmittedIffHandedOut(c.platform, Of(c.platform, events, key));
  }

  lemma TracksAtEnd(c: Config, events: seq<Event>, key: string)
    requires OnEvents(c, FRESH, events).1.None?
    ensures TracksKey(c, OnEvents(c, FRESH, events).0, events, key)
  {
    FreshTracks(c);
    OnEventsTrack(c, FRESH, [], events);
    assert [] + events == events;
  }

  lemma {:induction false} EmittedIffHandedOut(p: Platform, own: seq<Event>)
    ensures own != [] ==> CallOf(p, own).Some? && (CallOf(p, own).value.emitted <==> Handouts(p, own) != [])
    ensures own == [] ==> CallOf(p, own).None? && Handouts(p, own) == []
  {
    if own != [] {
      EmittedIffHandedOut(p, own[..|own| - 1]);
    }
  }

  /** How often an `added` event hands out a call again that was handed out before. */
  function Reemissions(p: Platform, own: seq<Event>): nat
  {
    if own == [] then 0
    else
      var before, e := own[..|own| - 1], own[|own| - 1];
      var call := Upsert(p, CallOf(p, before), SourceOfEvent(e));
      Reemissions(p, before) + if e.Added? && call.emitted && CompleteJson(p, call.args) then 1 else 0
  }

  lemma {:induction false} HandoutsCount(p: Platform, own: seq<Event>)
    ensures |Handouts(p, own)| == Reemissions(p, own) + if Handouts(p, own) == [] then 0 else 1
  {
    if own != [] {
      var before := own[..|own| - 1];
      HandoutsCount(p, before);
      EmittedIffHandedOut(p, before);
    }
  }

  /**
   * A successful response delivers exactly one tool call for every pending item, plus one more for
   * every `added` event that carries complete arguments for a call already handed out. So every
   * item is delivered exactly once if and only if no such event occurs.
   */
  lemma OneFramePerItemIff(c: Config, events: seq<Event>, key: string)
    requires Succeeds(c, events)
    ensures var own := Of(c.platform, events, key);
            |HeldFor(HeldAtEnd(c, events), key)| == if own == [] then 0 else 1 + Reemissions(c.platform, own)
  {
    ItemAtEnd(c, events, key);
    HandoutsCount(c.platform, Of(c.platform, events, key));
  }

  /** The upstream protocol: an item is added at most once, before anything else about it. */
  ghost predicate AddedFirst(own: seq<Event>) {
    forall i | 0 < i < |own| :: !own[i].Added?
  }

  lemma {:induction false} NoReemission(p: Platform, own: seq<Event>)
    requires AddedFirst(own)
    ensures Reemissions(p, own) == 0
  {
    if own != [] {
      NoReemission(p, own[..|own| - 1]);
    }
  }

  // ---------------------------------------------------------------------------------------------
  // A call that is delivered twice

  /** An item that is added with complete arguments and no name of its own. */
  const ADDED_ITEM := Source(None, Some(JStr("a")), None, None, Some(JStr("{}")), false)

  /** `n` calls of that item were handed out, `sent` went to the sink. */
  function Repeated(n: nat, sent: nat, completed: bool): Stream {
    var frame := ToolFrame("a", "tool", JObj(map[]));
    Stream(if n == 0 then Pending([], map[]) else Pending(["a"], map["a" := Call("a", "tool", "{}", true)]),
           seq(n, _ => Emission("a", frame)), seq(sent, _ => frame), completed, false, false, None)
  }

  /** A platform that reads `{}` as the empty object, no tools, and a sink that takes everything. */
  ghost predicate Plainest(c: Config) {
    && c.platform.parse("{}") == Some(JObj(map[]))
    && c.names == CodexStream.ToolNames.Tables(map[], map[])
    && forall n :: !c.sinkFails(n)
  }

  lemma AddedAgain(c: Config, n: nat)
    requires Plainest(c) && n < MAX_TOOL_CALLS
    ensures OnEvent(c, Repeated(n, 0, false), Added(ADDED_ITEM)) == (Repeated(n + 1, 0, false), None)
  {
    assert Trim("{}") == "{}" && Lookup(Repeated(n, 0, false).pending, "a") == CallBefore(n);
    var call := Upsert(c.platform, CallBefore(n), ADDED_ITEM);
    assert call == Call("a", "tool", "{}", n > 0);
    assert CodexStream.ToolNames.FromWire(c.names, "tool") == Some("tool");
    assert Repeated(n, 0, false).held + [Emission("a", ToolFrame("a", "tool", JObj(map[])))]
        == Repeated(n + 1, 0, false).held;
    assert Put(Repeated(n, 0, false).pending, "a", call.(emitted := true)) == Repeated(n + 1, 0, false).pending;
  }

  function CallBefore(n: nat): Option<Call> {
    if n == 0 then None else Some(Call("a", "tool", "{}", true))
  }

  lemma DeliversTwo(c: Config)
    requires Plainest(c)
    ensures DeliverHeld(c, Repeated(2, 0, true), 0) == (Repeated(2, 2, true), None)
  {
    var frame := ToolFrame("a", "tool", JObj(map[]));
    assert Repeated(2, 0, true).sent + [frame] == Repeated(2, 1, true).sent;
    assert Repeated(2, 1, true).sent + [frame] == Repeated(2, 2, true).sent;
    assert Deliver(c, Repeated(2, 0, true), frame) == (Repeated(2, 1, true), None);
    assert Deliver(c, Repeated(2, 1, true), frame) == (Repeated(2, 2, true), None);
    assert DeliverHeld(c, Repeated(2, 2, true), 2) == (Repeated(2, 2, true), None);
  }

  const ADDED_TWICE: seq<Event> := [Added(ADDED_ITEM), Added(ADDED_ITEM), Completed(None)]

  lemma ReadsAddedTwice(c: Config)
    requires Plainest(c)
    ensures OnEvents(c, FRESH, ADDED_TWICE) == (Repeated(2, 0, true), None)
  {
    assert ADDED_TWICE[1..] == [Added(ADDED_ITEM), Completed(None)] && ADDED_TWICE[1..][1..] == [Completed(None)];
    assert FRESH == Repeated(0, 0, false);
    AddedAgain(c, 0);
    AddedAgain(c, 1);
    assert OnEvents(c, Repeated(2, 0, false), [Completed(None)]) == (Repeated(2, 0, true), None);
    assert OnEvents(c, Repeated(1, 0, false), ADDED_TWICE[1..]) == (Repeated(2, 0, true), None);
  }

  lemma HoldsTwo()
    ensures WellKeyed(Repeated(2, 0, true).pending) && |HeldFor(Repeated(2, 0, true).held, "a")| == 2
  {
    var held := Repeated(2, 0, true).held;
    HeldOneMore([], held[0], "a");
    HeldOneMore([held[0]], held[1], "a");
    assert [held[0]] + [held[1]] == held && [] + [held[0]] == [held[0]];
  }

  /** A response that announces one item twice, complete both times, succeeds and delivers its call twice. */
  lemma RepeatedAddIsDeliveredTwice(c: Config)
    requires Plainest(c)
    ensures Succeeds(c, ADDED_TWICE) && |HeldFor(HeldAtEnd(c, ADDED_TWICE), "a")| == 2
    ensures Finish(c, OnEvents(c, FRESH, ADDED_TWICE).0) == Report(Repeated(2, 2, true).sent, Success(None))
  {
    var end := Repeated(2, 0, true);
    ReadsAddedTwice(c);
    HoldsTwo();
    DeliversTwo(c);
    assert end.pending.keys[1..] == [] && Flush(c, end, end.pending.keys) == (end, None);
  }

  // ---------------------------------------------------------------------------------------------
  // The arguments

  function DeltaText(own: seq<Event>): string {
    if own == [] then ""
    else DeltaText(own[..|own| - 1]) + if own[|own| - 1].Delta? then own[|own| - 1].text else ""
  }

  /** The text an item has gathered: what it was added with, then its deltas. */
  function Gathered(p: Platform, own: seq<Event>): string {
    (if own != [] && own[0].Added? then Carry(p, "", own[0].src) else "") + DeltaText(own)
  }

  function FirstDone(own: seq<Event>): (i: nat)
    ensures i <= |own|
    ensures forall j | 0 <= j < i :: !own[j].Done?
    ensures i < |own| ==> own[i].Done?
  {
    if own == [] then 0
    else
      var i := FirstDone(own[..|own| - 1]);
      if i < |own| - 1 || own[|own| - 1].Done? then i else i + 1
  }

  /** The text that the item's arguments are read from, and whether the upstream had closed it. */
  function ArgumentText(p: Platform, own: seq<Event>): (string, bool)
    requires own != []
  {
    var i := FirstDone(own);
    if own[0].Added? && CompleteJson(p, Carry(p, "", own[0].src)) then (Carry(p, "", own[0].src), false)
    else if i < |own| then (Carry(p, Gathered(p, own[..i]), own[i].src), true)
    else (Gathered(p, own), false)
  }

  lemma DeltaGathers(p: Platform, before: seq<Event>, e: Event)
    requires before != [] && e.Delta?
    ensures Gathered(p, before + [e]) == Gathered(p, before) + e.text
  {
    assert (before + [e])[..|before|] == before;
    var added := if before[0].Added? then Carry(p, "", before[0].src) else "";
    assert added + (DeltaText(before) + e.text) == added + DeltaText(before) + e.text;
  }

  /** The first event: an `added` one starts the text and may hand the call out at once. */
  lemma FirstGathers(p: Platform, e: Event)
    requires e.Added? || e.Delta?
    ensures CallOf(p, [e]).Some? && CallOf(p, [e]).value.args == Gathered(p, [e])
    ensures var call := Upsert(p, None, SourceOfEvent(e));
            Handouts(p, [e]) == if e.Added? && CompleteJson(p, Carry(p, "", e.src)) then [Handout(call, false)] else []
  {
    OwnOneMore(p, [], e);
    assert [] + [e] == [e] && [e][..0] == [];
    assert DeltaText([]) == "" && DeltaText([e]) == "" + (if e.Delta? then e.text else "");
  }

  /** The pending text is the gathered one, and only an `added` event with complete JSON handed it out. */
  ghost predicate GatheredOk(p: Platform, own: seq<Event>)
    requires own != []
  {
    && CallOf(p, own).Some? && CallOf(p, own).value.args == Gathered(p, own)
    && if own[0].Added? && CompleteJson(p, Carry(p, "", own[0].src)) then
         && |Handouts(p, own)| == 1 && !Handouts(p, own)[0].closed
         && Handouts(p, own)[0].call.args == Carry(p, "", own[0].src)
       else Handouts(p, own) == []
  }

  lemma DeltaKeepsGathered(p: Platform, before: seq<Event>, e: Event)
    requires before != [] && e.Delta?
    requires GatheredOk(p, before)
    ensures GatheredOk(p, before + [e])
  {
    DeltaGathers(p, before, e);
    OwnOneMore(p, before, e);
    assert (before + [e])[0] == before[0];
    assert Handouts(p, before + [e]) == Handouts(p, before);
  }

  lemma {:induction false} GatheredIsPending(p: Platform, own: seq<Event>)
    requires own != []
    requires AddedFirst(own) && FirstDone(own) == |own| && forall e | e in own :: ForItem(e)
    ensures GatheredOk(p, own)
  {
    var n := |own| - 1;
    var before, e := own[..n], own[n];
    assert own == before + [e] && e in own;
    if n == 0 {
      assert own == [e];
      FirstGathers(p, e);
    } else {
      GatheredIsPending(p, before);
      assert e.Delta?;
      DeltaKeepsGathered(p, before, e);
    }
  }

  /** The first closing event hands out what was gathered before it, unless `added` already did. */
  lemma FirstClosing(p: Platform, before: seq<Event>, e: Event)
    requires before != [] && e.Done? && GatheredOk(p, before)
    ensures |Handouts(p, before + [e])| == 1
    ensures var h := Handouts(p, before + [e])[0];
            if before[0].Added? && CompleteJson(p, Carry(p, "", before[0].src)) then
              h.call.args == Carry(p, "", before[0].src) && !h.closed
            else h.call.args == Carry(p, Gathered(p, before), e.src) && h.closed
  {
    OwnOneMore(p, before, e);
    EmittedIffHandedOut(p, before);
    assert Handouts(p, before) + [] == Handouts(p, before);
  }

  lemma OnlyClosing(p: Platform, e: Event)
    requires e.Done?
    ensures |Handouts(p, [e])| == 1 && Handouts(p, [e])[0].closed
    ensures Handouts(p, [e])[0].call.args == Carry(p, "", e.src)
  {
    OwnOneMore(p, [], e);
    assert [] + [e] == [e] && CallOf(p, []) == None && Handouts(p, []) == [];
  }

  /** Later events of a handed-out item, no `added` among them, hand out nothing more. */
  lemma LaterHandsOutNothing(p: Platform, before: seq<Event>, e: Event)
    requires before != [] && Handouts(p, before) != [] && !e.Added?
    ensures Handouts(p, before + [e]) == Handouts(p, before)
  {
    OwnOneMore(p, before, e);
    EmittedIffHandedOut(p, before);
    assert Handouts(p, before) + [] == Handouts(p, before);
  }

  lemma ArgumentStays(p: Platform, before: seq<Event>, e: Event)
    requires FirstDone(before) < |before|
    ensures FirstDone(before + [e]) == FirstDone(before)
    ensures ArgumentText(p, before + [e]) == ArgumentText(p, before)
  {
    var i := FirstDone(before);
    assert (before + [e])[..|before|] == before && (before + [e])[..i] == before[..i];
  }

  lemma ArgumentAtClosing(p: Platform, before: seq<Event>, e: Event)
    requires before != [] && e.Done? && FirstDone(before) == |before|
    ensures ArgumentText(p, before + [e])
         == if before[0].Added? && CompleteJson(p, Carry(p, "", before[0].src)) then
              (Carry(p, "", before[0].src), false)
            else (Carry(p, Gathered(p, before), e.src), true)
  {
    assert (before + [e])[..|before|] == before;
  }

  /** After the first closing event nothing more is handed out. */
  lemma {:induction false} ClosedHandsOutOnce(p: Platform, own: seq<Event>)
    requires own != []
    requires AddedFirst(own) && FirstDone(own) < |own| && forall e | e in own :: ForItem(e)
    ensures |Handouts(p, own)| == 1
    ensures (Handouts(p, own)[0].call.args, Handouts(p, own)[0].closed) == ArgumentText(p, own)
  {
    var n, i := |own| - 1, FirstDone(own);
    var before, e := own[..n], own[n];
    assert own == before + [e];
    if i < n {
      ClosedHandsOutOnce(p, before);
      LaterHandsOutNothing(p, before, e);
      ArgumentStays(p, before, e);
    } else if n > 0 {
      GatheredIsPending(p, before);
      FirstClosing(p, before, e);
      ArgumentAtClosing(p, before, e);
    } else {
      assert own == [e] && own[..i] == [];
      OnlyClosing(p, e);
    }
  }

  /**
   * If every item is added at most once and first, a successful response delivers exactly one tool
   * call per pending item, whatever the interleaving, and its arguments are: the text it was added
   * with, if that is complete JSON; otherwise the first closing event's own arguments if it brings
   * any, else the text gathered before it; and the gathered text if the item is never closed.
   */
  lemma OneCallWithItsArguments(c: Config, events: seq<Event>, key: string)
    requires Succeeds(c, events)
    requires Of(c.platform, events, key) != [] && AddedFirst(Of(c.platform, events, key))
    ensures var own := Of(c.platform, events, key); var frames := HeldFor(HeldAtEnd(c, events), key);
            var (text, closed) := ArgumentText(c.platform, own);
            (&& |frames| == 1 && frames[0].ToolFrame?
             && ParseArguments(c.platform, text, closed) == Some(frames[0].arguments))
  {
    var own := Of(c.platform, events, key);
    ItemAtEnd(c, events, key);
    OneFramePerItemIff(c, events, key);
    NoReemission(c.platform, own);
    var i := FirstDone(own);
    if i < |own| {
      ClosedHandsOutOnce(c.platform, own);
    } else {
      GatheredIsPending(c.platform, own);
    }
  }
}
