/** The chunked reader agrees with one pass over the whole text, and what it hands to the sink. */
module CodexStreamReading {
  import opened Prelude
  import opened Json
  import opened CodexStream
  import Sse
  import ToolNames

  // ---------------------------------------------------------------------------------------------
  // Chunks

  /** The specification of a read without chunks: frame the whole text, map its events, finish. */
  function ConsumeText(c: Config, text: string, tail: string): Report {
    var (blocks, rest) := Sse.Split(text);
    var events := EventsOf(c.platform, blocks + LastBlocks(rest, tail));
    var (s, err) := OnEvents(c, FRESH, events);
    OnEventsKeyed(c, FRESH, events);
    if err.Some? then Report(s.sent, Thrown(err.value)) else Finish(c, s)
  }

  function Texts(chunks: seq<Chunk>): seq<string> {
    seq(|chunks|, i requires 0 <= i < |chunks| => chunks[i].text)
  }

  /** The 1 MiB guard does not trip: a remainder plus the next normalized chunk always fits. */
  predicate FitsBuffer(buffer: string, chunks: seq<string>)
    decreases |chunks|
  {
    chunks == [] || (|buffer + chunks[0]| <= MAX_SSE_BUFFER && FitsBuffer(Sse.Split(buffer + chunks[0]).1, chunks[1..]))
  }

  lemma {:induction false} OnEventsConcat(c: Config, s: Stream, a: seq<Event>, b: seq<Event>)
    ensures var (s', err) := OnEvents(c, s, a);
            OnEvents(c, s, a + b) == if err.Some? then (s', err) else OnEvents(c, s', b)
    decreases |a|
  {
    if a == [] {
      assert a + b == b;
    } else {
      assert (a + b)[0] == a[0] && (a + b)[1..] == a[1..] + b;
      if OnEvent(c, s, a[0]).1.None? {
        OnEventsConcat(c, OnEvent(c, s, a[0]).0, a[1..], b);
      }
    }
  }

  lemma {:induction false} JoinFront(chunks: seq<string>)
    requires chunks != []
    ensures Sse.Join(chunks) == chunks[0] + Sse.Join(chunks[1..])
  {
    var n := |chunks| - 1;
    if n > 0 {
      JoinFront(chunks[..n]);
      assert chunks[1..][..n - 1] == chunks[..n][1..];
      assert chunks[0] + (Sse.Join(chunks[..n][1..]) + chunks[n]) == chunks[0] + Sse.Join(chunks[..n][1..]) + chunks[n];
    } else {
      assert chunks[..0] == [] && Sse.Join(chunks[1..]) == "";
      assert Sse.Join(chunks) == "" + chunks[0];
    }
  }

  /** The blocks that a buffer and the chunks behind it will yield, and the final remainder. */
  function Ahead(buffer: string, chunks: seq<Chunk>): (seq<string>, string) {
    Sse.Split(buffer + Sse.Join(Sse.NormalizeAll(Texts(chunks))))
  }

  lemma AheadOfNothing(buffer: string)
    requires Sse.Split(buffer) == ([], buffer)
    ensures Ahead(buffer, []) == ([], buffer)
  {
    assert buffer + Sse.Join(Sse.NormalizeAll(Texts([]))) == buffer;
  }

  lemma AheadOfChunk(buffer: string, chunks: seq<Chunk>)
    requires chunks != []
    ensures var (blocks, rest) := Sse.Split(buffer + Sse.Normalize(chunks[0].text));
            var (more, rest') := Ahead(rest, chunks[1..]);
            Ahead(buffer, chunks) == (blocks + more, rest') && Sse.Split(rest) == ([], rest)
  {
    var norms := Sse.NormalizeAll(Texts(chunks));
    var first := buffer + norms[0];
    var tails := Sse.NormalizeAll(Texts(chunks[1..]));
    assert norms[1..] == tails;
    JoinFront(norms);
    assert buffer + (norms[0] + Sse.Join(tails)) == first + Sse.Join(tails);
    Sse.SplitConcat(first, Sse.Join(tails));
    Sse.SplitThenEncode(first);
    RestStays(Sse.Split(first).1);
  }

  lemma RestStays(rest: string)
    requires !Sse.HasSeparator(rest)
    ensures Sse.Split(rest) == ([], rest)
  {
  }

  lemma EventsOfConcat(p: Platform, a: seq<string>, b: seq<string>)
    ensures EventsOf(p, a + b) == EventsOf(p, a) + EventsOf(p, b)
  {
  }

  lemma {:induction false} OnChunksIsSplit(c: Config, r: Reader, chunks: seq<Chunk>)
    requires Sse.Split(r.buffer) == ([], r.buffer)
    requires forall chunk | chunk in chunks :: !chunk.aborted
    requires FitsBuffer(r.buffer, Sse.NormalizeAll(Texts(chunks)))
    ensures var (blocks, rest) := Ahead(r.buffer, chunks);
            var (s, err) := OnEvents(c, r.stream, EventsOf(c.platform, blocks));
            var (r', err') := OnChunks(c, r, chunks);
            r'.stream == s && err' == err && (err.None? ==> r'.buffer == rest)
    decreases |chunks|
  {
    if chunks == [] {
      AheadOfNothing(r.buffer);
    } else {
      AheadOfChunk(r.buffer, chunks);
      var (blocks, rest) := Sse.Split(r.buffer + Sse.Normalize(chunks[0].text));
      var more := Ahead(rest, chunks[1..]).0;
      EventsOfConcat(c.platform, blocks, more);
      OnEventsConcat(c, r.stream, EventsOf(c.platform, blocks), EventsOf(c.platform, more));
      FitsNext(r.buffer, chunks);
      assert chunks[0] in chunks;
      var (r', err) := OnChunk(c, r, chunks[0]);
      if err.None? {
        OnChunksIsSplit(c, r', chunks[1..]);
      }
    }
  }

  lemma FitsNext(buffer: string, chunks: seq<Chunk>)
    requires chunks != [] && FitsBuffer(buffer, Sse.NormalizeAll(Texts(chunks)))
    ensures |buffer + Sse.Normalize(chunks[0].text)| <= MAX_SSE_BUFFER
    ensures FitsBuffer(Sse.Split(buffer + Sse.Normalize(chunks[0].text)).1, Sse.NormalizeAll(Texts(chunks[1..])))
  {
    assert Sse.NormalizeAll(Texts(chunks))[1..] == Sse.NormalizeAll(Texts(chunks[1..]));
  }

  /**
   * However the upstream text is cut into chunks, an undisturbed read that never trips the buffer
   * guard delivers the same frames with the same outcome as one pass over the chunks' joined
   * normalized text.
   */
  lemma ChunkedReadIsWholeRead(c: Config, chunks: seq<Chunk>, tail: string)
    requires forall chunk | chunk in chunks :: !chunk.aborted
    requires FitsBuffer("", Sse.NormalizeAll(Texts(chunks)))
    ensures Consume(c, chunks, Closed(tail, false))
         == ConsumeText(c, Sse.Join(Sse.NormalizeAll(Texts(chunks))), tail)
  {
    StartAhead(chunks);
    OnChunksIsSplit(c, Reader(FRESH, ""), chunks);
    var (blocks, rest) := Ahead("", chunks);
    var last := LastBlocks(rest, tail);
    EventsOfConcat(c.platform, blocks, last);
    OnEventsConcat(c, FRESH, EventsOf(c.platform, blocks), EventsOf(c.platform, last));
  }

  lemma StartAhead(chunks: seq<Chunk>)
    ensures Ahead("", chunks) == Sse.Split(Sse.Join(Sse.NormalizeAll(Texts(chunks))))
    ensures Sse.Split("") == ([], "")
  {
    var text := Sse.Join(Sse.NormalizeAll(Texts(chunks)));
    assert "" + text == text;
  }

  /** Two chunkings of one text that cut no CR LF pair give the same frames and outcome. */
  lemma ChunkingDoesNotMatter(c: Config, chunks: seq<Chunk>, others: seq<Chunk>, tail: string)
    requires forall chunk | chunk in chunks + others :: !chunk.aborted
    requires FitsBuffer("", Sse.NormalizeAll(Texts(chunks))) && FitsBuffer("", Sse.NormalizeAll(Texts(others)))
    requires Sse.Join(Texts(chunks)) == Sse.Join(Texts(others))
    requires Sse.CutPairs(Texts(chunks)) == 0 && Sse.CutPairs(Texts(others)) == 0
    ensures Consume(c, chunks, Closed(tail, false)) == Consume(c, others, Closed(tail, false))
    ensures Consume(c, chunks, Closed(tail, false)) == ConsumeText(c, Sse.Normalize(Sse.Join(Texts(chunks))), tail)
  {
    ChunkedReadIsWholeRead(c, chunks, tail);
    ChunkedReadIsWholeRead(c, others, tail);
    Sse.NormalizePerChunk(Texts(chunks));
    Sse.NormalizePerChunk(Texts(others));
  }

  // ---------------------------------------------------------------------------------------------
  // What reaches the sink

  function TextFrames(events: seq<Event>): seq<Frame> {
    if events == [] then []
    else (if events[0].Text? then [TextFrame(events[0].text)] else []) + TextFrames(events[1..])
  }

  function Frames(held: seq<Emission>): seq<Frame> {
    seq(|held|, i requires 0 <= i < |held| => held[i].frame)
  }

  /** A tool frame that carries the canonical name of some name an upstream may use. */
  ghost predicate IsNamed(c: Config, f: Frame) {
    f.ToolFrame? && exists wire :: ToolNames.FromWire(c.names, wire) == Some(f.name)
  }

  ghost predicate HeldOk(c: Config, s: Stream) {
    |s.held| <= MAX_TOOL_CALLS && forall e | e in s.held :: IsNamed(c, e.frame)
  }

  /** Between two states some first part of `texts` was sent; all of it when `complete`. */
  ghost predicate Sends(before: seq<Frame>, after: seq<Frame>, texts: seq<Frame>, complete: bool) {
    exists n: nat :: n <= |texts| && after == before + texts[..n] && (complete ==> n == |texts|)
  }

  lemma SendsNothing(before: seq<Frame>)
    ensures Sends(before, before, [], true)
  {
    assert before + [][..0] == before;
  }

  lemma SendsThen(a: seq<Frame>, b: seq<Frame>, d: seq<Frame>, x: seq<Frame>, y: seq<Frame>, complete: bool)
    requires Sends(a, b, x, true) && Sends(b, d, y, complete)
    ensures Sends(a, d, x + y, complete)
  {
    var n: nat :| n <= |y| && d == b + y[..n] && (complete ==> n == |y|);
    assert d == a + (x + y)[..|x| + n];
  }

  lemma SendsPart(a: seq<Frame>, b: seq<Frame>, x: seq<Frame>, y: seq<Frame>)
    requires Sends(a, b, x, false)
    ensures Sends(a, b, x + y, false)
  {
    var n: nat :| n <= |x| && b == a + x[..n];
    assert b == a + (x + y)[..n];
  }

  /** One event sends at most its own text, and holds at most one more tool frame. */
  lemma OnEventSends(c: Config, s: Stream, e: Event)
    requires HeldOk(c, s)
    ensures HeldOk(c, OnEvent(c, s, e).0) && s.held <= OnEvent(c, s, e).0.held
    ensures Sends(s.sent, OnEvent(c, s, e).0.sent, TextFrames([e]), OnEvent(c, s, e).1.None?)
    ensures OnEvent(c, s, e).1.None? ==>
              && OnEvent(c, s, e).0.completed == (s.completed || e.Completed?)
              && OnEvent(c, s, e).0.failed == (s.failed || e.Failed?)
  {
    var texts := TextFrames([e]);
    assert [e][1..] == [] && TextFrames([e][1..]) == [];
    assert texts == (if e.Text? then [TextFrame(e.text)] else []) + TextFrames([e][1..]);
    var s' := OnEvent(c, s, e).0;
    if e.Text? && |s.pending.keys| <= MAX_TOOL_CALLS {
      assert s'.sent == s.sent + texts[..1];
    } else {
      assert s'.sent == s.sent + texts[..0];
      assert texts == [] || OnEvent(c, s, e).1.Some?;
    }
  }

  lemma {:induction false} TextFramesConcat(a: seq<Event>, b: seq<Event>)
    ensures TextFrames(a + b) == TextFrames(a) + TextFrames(b)
    decreases |a|
  {
    if a == [] {
      assert a + b == b;
    } else {
      assert (a + b)[0] == a[0] && (a + b)[1..] == a[1..] + b;
      TextFramesConcat(a[1..], b);
    }
  }

  lemma {:induction false} OnEventsSend(c: Config, s: Stream, events: seq<Event>)
    requires HeldOk(c, s)
    ensures HeldOk(c, OnEvents(c, s, events).0)
    ensures Sends(s.sent, OnEvents(c, s, events).0.sent, TextFrames(events), OnEvents(c, s, events).1.None?)
    decreases |events|
  {
    if events == [] {
      SendsNothing(s.sent);
    } else {
      var (s', err) := OnEvent(c, s, events[0]);
      OnEventSends(c, s, events[0]);
      var one, rest := TextFrames([events[0]]), TextFrames(events[1..]);
      TextFramesConcat([events[0]], events[1..]);
      assert events == [events[0]] + events[1..];
      if err.None? {
        OnEventsSend(c, s', events[1..]);
        SendsThen(s.sent, s'.sent, OnEvents(c, s, events).0.sent, one, rest, OnEvents(c, s, events).1.None?);
      } else {
        SendsPart(s.sent, s'.sent, one, rest);
      }
    }
  }

  lemma {:induction false} OnEventsFlags(c: Config, s: Stream, events: seq<Event>)
    requires HeldOk(c, s) && OnEvents(c, s, events).1.None?
    ensures OnEvents(c, s, events).0.completed <==> s.completed || Completes(events)
    ensures OnEvents(c, s, events).0.failed <==> s.failed || Fails(events)
    decreases |events|
  {
    if events != [] {
      OnEventSends(c, s, events[0]);
      OnEventsFlags(c, OnEvent(c, s, events[0]).0, events[1..]);
      assert events == [events[0]] + events[1..];
    }
  }

  ghost predicate Completes(events: seq<Event>) {
    exists e :: e in events && e.Completed?
  }

  ghost predicate Fails(events: seq<Event>) {
    exists e :: e in events && e.Failed?
  }

  lemma {:induction false} FlushHolds(c: Config, s: Stream, keys: seq<string>)
    requires HeldOk(c, s) && forall k | k in keys :: k in s.pending.calls
    ensures var (s', err) := Flush(c, s, keys);
            && HeldOk(c, s') && s.held <= s'.held
            && s'.sent == s.sent && s'.completed == s.completed && s'.usage == s.usage
    decreases |keys|
  {
    if keys != [] {
      var call := s.pending.calls[keys[0]];
      if call.emitted {
        FlushHolds(c, s, keys[1..]);
      } else {
        var arguments := if s.completed then ParseArguments(c.platform, call.args, false) else Some(JObj(map[]));
        if arguments.Some? {
          var (s', err) := AcceptTool(c, s, keys[0], call, arguments.value);
          if err.None? {
            FlushHolds(c, s'.(pending := Put(s'.pending, keys[0], call.(emitted := true))), keys[1..]);
          }
        }
      }
    }
  }

  lemma {:induction false} DeliverHeldSends(c: Config, s: Stream, from: nat)
    requires from <= |s.held|
    ensures DeliverHeld(c, s, from).0.usage == s.usage
    ensures Sends(s.sent, DeliverHeld(c, s, from).0.sent, Frames(s.held)[from..], DeliverHeld(c, s, from).1.None?)
    decreases |s.held| - from
  {
    var frames := Frames(s.held);
    if from == |s.held| {
      SendsNothing(s.sent);
    } else {
      var (s', err) := Deliver(c, s, s.held[from].frame);
      var one := [s.held[from].frame];
      assert frames[from..] == one + frames[from + 1..];
      assert s'.sent == s.sent + one[..1];
      assert Sends(s.sent, s'.sent, one, true);
      if err.None? {
        DeliverHeldSends(c, s', from + 1);
        var (done, err') := DeliverHeld(c, s, from);
        SendsThen(s.sent, s'.sent, done.sent, one, frames[from + 1..], err'.None?);
      } else {
        SendsPart(s.sent, s'.sent, one, frames[from + 1..]);
      }
    }
  }

  /** Everything held after the last event and the flush, item keys included. */
  function HeldAtEnd(c: Config, events: seq<Event>): seq<Emission> {
    var s := OnEvents(c, FRESH, events).0;
    OnEventsKeyed(c, FRESH, events);
    Flush(c, s, s.pending.keys).0.held
  }

  /** The events are mapped and complete the response without failing it, and the calls left open can be flushed. */
  ghost predicate Deliverable(c: Config, events: seq<Event>) {
    var (s, err) := OnEvents(c, FRESH, events);
    OnEventsKeyed(c, FRESH, events);
    err.None? && !s.failed && s.completed && Flush(c, s, s.pending.keys).1.None?
  }

  /**
   * A report sends text frames of the events in order, then held tool frames in their order, each with a
   * canonical name; all of them when it reports success.
   */
  ghost predicate TextThenTools(c: Config, report: Report, events: seq<Event>, texts: seq<Frame>,
                                tools: seq<Frame>)
  {
    && report.sent == texts + tools
    && Sends([], texts, TextFrames(events), false)
    && tools <= Frames(HeldAtEnd(c, events))
    && (forall f | f in tools :: IsNamed(c, f))
    && |tools| <= MAX_TOOL_CALLS
    && (tools != [] || report.outcome.Success? ==>
          texts == TextFrames(events) && Finished(events) && Deliverable(c, events))
    && (report.outcome.Success? ==> tools == Frames(HeldAtEnd(c, events)))
  }

  /** The response completed and did not fail. */
  ghost predicate Finished(events: seq<Event>) {
    Completes(events) && !Fails(events)
  }

  lemma SentFromFresh(texts: seq<Frame>, all: seq<Frame>)
    ensures Sends([], texts, all, true) <==> texts == all
  {
    assert [] + all[..|all|] == all;
    if n: nat :| n <= |all| && texts == [] + all[..n] && n == |all| {
      assert texts == all;
    }
  }

  lemma FinishShape(c: Config, events: seq<Event>) returns (texts: seq<Frame>, tools: seq<Frame>)
    requires OnEvents(c, FRESH, events).1.None?
    ensures WellKeyed(OnEvents(c, FRESH, events).0.pending)
    ensures TextThenTools(c, Finish(c, OnEvents(c, FRESH, events).0), events, texts, tools)
  {
    var s := OnEvents(c, FRESH, events).0;
    OnEventsSend(c, FRESH, events);
    OnEventsFlags(c, FRESH, events);
    OnEventsKeyed(c, FRESH, events);
    SentFromFresh(s.sent, TextFrames(events));
    texts, tools := s.sent, [];
    if !s.failed {
      FlushHolds(c, s, s.pending.keys);
      var (flushed, err) := Flush(c, s, s.pending.keys);
      if err.None? && s.completed {
        DeliverHeldSends(c, flushed, 0);
        var done, frames := DeliverHeld(c, flushed, 0).0, Frames(flushed.held);
        assert frames[0..] == frames;
        var n: nat :| n <= |frames| && done.sent == flushed.sent + frames[..n];
        tools := frames[..n];
        assert forall i | 0 <= i < n :: tools[i] == frames[i] && flushed.held[i] in flushed.held;
      }
    }
  }

  /** All the events of a read: those of the terminated blocks, then that of the last one. */
  function AllEvents(c: Config, chunks: seq<Chunk>, tail: string): seq<Event> {
    var (blocks, rest) := Ahead("", chunks);
    EventsOf(c.platform, blocks + LastBlocks(rest, tail))
  }

  /** The reading loop has sent a prefix of the text ahead of it, and no tool frame. */
  lemma {:induction false} OnChunksSend(c: Config, r: Reader, chunks: seq<Chunk>)
    requires HeldOk(c, r.stream) && Sse.Split(r.buffer) == ([], r.buffer)
    ensures var (blocks, rest) := Ahead(r.buffer, chunks);
            var events := EventsOf(c.platform, blocks);
            var (r', err) := OnChunks(c, r, chunks);
            (&& Sends(r.stream.sent, r'.stream.sent, TextFrames(events), false)
             && (err.None? ==> OnEvents(c, r.stream, events) == (r'.stream, None) && r'.buffer == rest))
    decreases |chunks|
  {
    if chunks == [] {
      AheadOfNothing(r.buffer);
      SendsNothing(r.stream.sent);
    } else {
      AheadOfChunk(r.buffer, chunks);
      var (blocks, rest) := Sse.Split(r.buffer + Sse.Normalize(chunks[0].text));
      var more := Ahead(rest, chunks[1..]).0;
      var a, b := EventsOf(c.platform, blocks), EventsOf(c.platform, more);
      EventsOfConcat(c.platform, blocks, more);
      OnEventsSend(c, r.stream, a);
      OnEventsConcat(c, r.stream, a, b);
      TextFramesConcat(a, b);
      var (r', err) := OnChunk(c, r, chunks[0]);
      if err.None? {
        OnChunksSend(c, r', chunks[1..]);
        var end := OnChunks(c, r, chunks).0;
        SendsThen(r.stream.sent, r'.stream.sent, end.stream.sent, TextFrames(a), TextFrames(b), false);
      } else if r'.stream == r.stream {
        SendsNothing(r.stream.sent);
        SendsPart(r.stream.sent, r'.stream.sent, [], TextFrames(a + b));
        assert [] + TextFrames(a + b) == TextFrames(a + b);
      } else {
        SendsPart(r.stream.sent, r'.stream.sent, TextFrames(a), TextFrames(b));
      }
    }
  }

  /** A read that did not get to deliver its held frames. */
  lemma NoTools(c: Config, report: Report, events: seq<Event>)
    requires Sends([], report.sent, TextFrames(events), false) && !report.outcome.Success?
    ensures TextThenTools(c, report, events, report.sent, [])
  {
    assert report.sent + [] == report.sent;
  }

  /** What the reading loop has sent, seen from all the events of the read. */
  lemma LoopSends(c: Config, chunks: seq<Chunk>, tail: string)
    ensures var events := AllEvents(c, chunks, tail);
            var (r, err) := OnChunks(c, Reader(FRESH, ""), chunks);
            && Sends([], r.stream.sent, TextFrames(events), false)
            && (err.None? ==>
                  OnEvents(c, FRESH, events) == OnEvents(c, r.stream, EventsOf(c.platform, LastBlocks(r.buffer, tail))))
  {
    var (blocks, rest) := Ahead("", chunks);
    var a, b := EventsOf(c.platform, blocks), EventsOf(c.platform, LastBlocks(rest, tail));
    EventsOfConcat(c.platform, blocks, LastBlocks(rest, tail));
    TextFramesConcat(a, b);
    StartAhead(chunks);
    OnChunksSend(c, Reader(FRESH, ""), chunks);
    SendsPart([], OnChunks(c, Reader(FRESH, ""), chunks).0.stream.sent, TextFrames(a), TextFrames(b));
    OnEventsConcat(c, FRESH, a, b);
  }

  /**
   * Every run, whatever the chunking, aborts, errors and sink failures: what the sink gets is a
   * prefix of the text frames in arrival order, then at most `MAX_TOOL_CALLS` tool frames with
   * canonical names; and a tool frame, like a success, means that all events were mapped, that the
   * response completed and that it did not fail.
   */
  lemma ToolsOnlyAfterSuccess(c: Config, chunks: seq<Chunk>, end: End) returns (texts: seq<Frame>, tools: seq<Frame>)
    ensures var events := AllEvents(c, chunks, if end.Closed? then end.tail else "");
            TextThenTools(c, Consume(c, chunks, end), events, texts, tools)
  {
    var events := AllEvents(c, chunks, if end.Closed? then end.tail else "");
    LoopSends(c, chunks, if end.Closed? then end.tail else "");
    var report := Consume(c, chunks, end);
    var read := OnChunks(c, Reader(FRESH, ""), chunks).1.None? && end.Closed? && !end.aborted;
    if read && OnEvents(c, FRESH, events).1.None? {
      texts, tools := FinishShape(c, events);
    } else {
      OnEventsSend(c, FRESH, events);
      texts, tools := report.sent, [];
      NoTools(c, report, events);
    }
  }
}
