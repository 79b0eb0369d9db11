/** Exactly which frames a read hands to the sink, also when it is stopped on the way. */
module CodexDelivery {
  import opened Prelude
  import opened Json
  import opened CodexStream
  import opened CodexStreamReading
  import opened CodexToolOrder
  import opened CodexOutcome
  import Sse

  // ---------------------------------------------------------------------------------------------
  // The blocks that are handled

  /** The blocks that a read gets to: none of a chunk that is too much, and none after an abort. */
  function Handled(buffer: string, chunks: seq<Chunk>): seq<string>
    decreases |chunks|
  {
    if chunks == [] then []
    else
      var all := buffer + Sse.Normalize(chunks[0].text);
      if |all| > 1_048_576 then []
      else Sse.Split(all).0 + if chunks[0].aborted then [] else Handled(Sse.Split(all).1, chunks[1..])
  }

  lemma {:induction false} ChunksHandle(c: Config, r: Reader, chunks: seq<Chunk>)
    ensures var events := EventsOf(c.platform, Handled(r.buffer, chunks));
            && OnChunks(c, r, chunks).0.stream == OnEvents(c, r.stream, events).0
            && (OnEvents(c, r.stream, events).1.Some? ==> OnChunks(c, r, chunks).1 == OnEvents(c, r.stream, events).1)
            && (OnEvents(c, r.stream, events).1.None? ==> OnChunks(c, r, chunks).1 == Disturbance(r.buffer, chunks))
    decreases |chunks|
  {
    if chunks != [] {
      var all := r.buffer + Sse.Normalize(chunks[0].text);
      var (blocks, rest) := Sse.Split(all);
      if |all| <= MAX_SSE_BUFFER {
        var more := if chunks[0].aborted then [] else Handled(rest, chunks[1..]);
        EventsOfConcat(c.platform, blocks, more);
        OnEventsConcat(c, r.stream, EventsOf(c.platform, blocks), EventsOf(c.platform, more));
        if OnChunk(c, r, chunks[0]).1.None? {
          ChunksHandle(c, OnChunk(c, r, chunks[0]).0, chunks[1..]);
        }
      }
    }
  }

  // ---------------------------------------------------------------------------------------------
  // What is sent

  /** The text that the sink refused, if that is what went wrong with the event. */
  function Refused(e: Event, error: Error): seq<Frame> {
    if e.Text? && error.SinkRejected? then [TextFrame(e.text)] else []
  }

  lemma EventSends(c: Config, s: Stream, e: Event)
    requires OnEvent(c, s, e).1.Some?
    ensures OnEvent(c, s, e).0.sent == s.sent + Refused(e, OnEvent(c, s, e).1.value)
  {
  }

  /** A read that an event stops has sent the text of the events before it, and the text that was refused. */
  lemma {:induction false} SentUntilError(c: Config, events: seq<Event>) returns (k: nat)
    requires OnEvents(c, FRESH, events).1.Some?
    ensures k < |events| && EventsOk(c, events[..k]) && !EventsOk(c, events[..k + 1])
    ensures OnEvents(c, FRESH, events).0.sent
         == TextFrames(events[..k]) + Refused(events[k], OnEvents(c, FRESH, events).1.value)
  {
    var n := |events| - 1;
    var before := events[..n];
    assert events == before + [events[n]] && events[..n + 1] == events;
    OnEventsOneMore(c, before, events[n]);
    EventsAcceptedIff(c, before);
    EventsAcceptedIff(c, events);
    if OnEvents(c, FRESH, before).1.Some? {
      k := SentUntilError(c, before);
      assert before[..k] == events[..k] && before[..k + 1] == events[..k + 1];
    } else {
      k := n;
      SentSoFar(c, before);
      EventSends(c, OnEvents(c, FRESH, before).0, events[n]);
    }
  }

  /** The events that a read gets to. */
  function HandledEvents(c: Config, chunks: seq<Chunk>, end: End): seq<Event> {
    EventsOf(c.platform,
             if Disturbance("", chunks).None? && end.Closed? then
               Handled("", chunks) + LastBlocks(Ahead("", chunks).1, end.tail)
             else Handled("", chunks))
  }

  lemma {:induction false} RestIsAhead(buffer: string, chunks: seq<Chunk>, c: Config, s: Stream)
    requires Sse.Split(buffer) == ([], buffer) && OnChunks(c, Reader(s, buffer), chunks).1.None?
    ensures OnChunks(c, Reader(s, buffer), chunks).0.buffer == Ahead(buffer, chunks).1
    decreases |chunks|
  {
    if chunks == [] {
      AheadOfNothing(buffer);
    } else {
      AheadOfChunk(buffer, chunks);
      var r := OnChunk(c, Reader(s, buffer), chunks[0]).0;
      RestIsAhead(r.buffer, chunks[1..], c, r.stream);
    }
  }

  /**
   * What any read hands to the sink and how it ends, from the events that it gets to. If one of them is not
   * in order, the text before it has been sent and its error is thrown. Otherwise all their text has been
   * sent; a disturbance, a broken read or an abort at the end stops it there, and else the response is
   * finished.
   */
  lemma ReadDelivers(c: Config, chunks: seq<Chunk>, end: End)
    ensures var events := HandledEvents(c, chunks, end);
            var (s, err) := OnEvents(c, FRESH, events); var report := Consume(c, chunks, end);
            && WellKeyed(s.pending)
            && if err.Some? then report == Report(s.sent, Thrown(err.value))
               else if Disturbance("", chunks).Some? then
                 report == Report(TextFrames(events), Thrown(Disturbance("", chunks).value))
               else if end.Broken? || end.aborted then report == Report(TextFrames(events), Thrown(Interrupted))
               else report == Finish(c, s)
  {
    var handled := EventsOf(c.platform, Handled("", chunks));
    StartAhead(chunks);
    ChunksHandle(c, Reader(FRESH, ""), chunks);
    OnEventsKeyed(c, FRESH, HandledEvents(c, chunks, end));
    if OnEvents(c, FRESH, handled).1.None? {
      SentSoFar(c, handled);
    }
    if Disturbance("", chunks).None? && end.Closed? {
      var last := LastBlocks(Ahead("", chunks).1, end.tail);
      EventsOfConcat(c.platform, Handled("", chunks), last);
      OnEventsConcat(c, FRESH, handled, EventsOf(c.platform, last));
      if OnEvents(c, FRESH, handled).1.None? {
        RestIsAhead("", chunks, c, FRESH);
        if OnEvents(c, FRESH, handled + EventsOf(c.platform, last)).1.None? {
          SentSoFar(c, handled + EventsOf(c.platform, last));
        }
      }
    }
  }

  // ---------------------------------------------------------------------------------------------
  // The sink

  /** Every frame but the last was taken, and the last one too unless the sink's refusal is the error. */
  ghost predicate Took(c: Config, sent: seq<Frame>, err: Option<Error>) {
    && (forall n | 0 <= n < |sent| && c.sinkFails(n) :: n == |sent| - 1 && err == Some(SinkRejected))
    && (err == Some(SinkRejected) ==> sent != [] && c.sinkFails(|sent| - 1))
  }

  lemma EventTook(c: Config, s: Stream, e: Event)
    requires Took(c, s.sent, None)
    ensures Took(c, OnEvent(c, s, e).0.sent, OnEvent(c, s, e).1)
  {
  }

  lemma {:induction false} EventsTook(c: Config, s: Stream, events: seq<Event>)
    requires Took(c, s.sent, None)
    ensures Took(c, OnEvents(c, s, events).0.sent, OnEvents(c, s, events).1)
    decreases |events|
  {
    if events != [] {
      EventTook(c, s, events[0]);
      if OnEvent(c, s, events[0]).1.None? {
        EventsTook(c, OnEvent(c, s, events[0]).0, events[1..]);
      }
    }
  }

  lemma {:induction false} DeliveryTook(c: Config, s: Stream, from: nat)
    requires from <= |s.held| && Took(c, s.sent, None)
    ensures Took(c, DeliverHeld(c, s, from).0.sent, DeliverHeld(c, s, from).1)
    decreases |s.held| - from
  {
    if from < |s.held| && Deliver(c, s, s.held[from].frame).1.None? {
      DeliveryTook(c, Deliver(c, s, s.held[from].frame).0, from + 1);
    }
  }

  lemma {:induction false} FlushKeepsSent(c: Config, s: Stream, keys: seq<string>)
    requires forall k | k in keys :: k in s.pending.calls
    ensures Flush(c, s, keys).0.sent == s.sent && Flush(c, s, keys).1 != Some(SinkRejected)
    decreases |keys|
  {
    if keys != [] {
      var call := s.pending.calls[keys[0]];
      if call.emitted {
        FlushKeepsSent(c, s, keys[1..]);
      } else {
        var arguments := if s.completed then ParseArguments(c.platform, call.args, false) else Some(JObj(map[]));
        if arguments.Some? && AcceptTool(c, s, keys[0], call, arguments.value).1.None? {
          var s' := AcceptTool(c, s, keys[0], call, arguments.value).0;
          FlushKeepsSent(c, s'.(pending := Put(s'.pending, keys[0], call.(emitted := true))), keys[1..]);
        }
      }
    }
  }

  lemma FinishTook(c: Config, s: Stream)
    requires WellKeyed(s.pending) && Took(c, s.sent, None)
    ensures var report := Finish(c, s);
            Took(c, report.sent, if report.outcome.Thrown? then Some(report.outcome.error) else None)
  {
    if !s.failed {
      FlushKeepsSent(c, s, s.pending.keys);
      var (flushed, err) := Flush(c, s, s.pending.keys);
      if err.None? && s.completed {
        DeliveryTook(c, flushed, 0);
      }
    }
  }

  /**
   * In every run, a frame that the sink refuses is the last one that it is handed, and then the read throws
   * that refusal; and it throws it only then.
   */
  lemma RefusalStopsRead(c: Config, chunks: seq<Chunk>, end: End)
    ensures var report := Consume(c, chunks, end);
            Took(c, report.sent, if report.outcome.Thrown? then Some(report.outcome.error) else None)
  {
    var events := HandledEvents(c, chunks, end);
    ReadDelivers(c, chunks, end);
    EventsTook(c, FRESH, events);
    var (s, err) := OnEvents(c, FRESH, events);
    if err.None? {
      SentSoFar(c, events);
      FinishTook(c, s);
      NoRefusal("", chunks);
    }
  }

  lemma {:induction false} NoRefusal(buffer: string, chunks: seq<Chunk>)
    ensures Disturbance(buffer, chunks) != Some(SinkRejected)
    decreases |chunks|
  {
    if chunks != [] {
      NoRefusal(Sse.Split(buffer + Sse.Normalize(chunks[0].text)).1, chunks[1..]);
    }
  }
}
