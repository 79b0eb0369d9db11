/** One whole answer, from its text to the delivered frame: a call that is named only when it is closed. */
module CodexAnswerExample {
  import opened Prelude
  import opened Json
  import Sse
  import ToolNames
  import ToolNameTheorems
  import opened CodexStream
  import opened CodexStreamReading
  import opened CodexToolCalls
  import opened CodexFields
  import opened CodexRequest
  import opened CodexAnswer

  function Block(d: char): string {
    "data:" + [d]
  }

  function Blocks(): seq<string> {
    [Block('1'), Block('2'), Block('3')]
  }

  function Text(): string {
    Sse.Encode(Blocks(), "")
  }

  function DeltaRow(): Json {
    JObj(map["type" := JStr("response.function_call_arguments.delta"), "item_id" := JStr("a"), "delta" := JStr("{}")])
  }

  function DoneRow(wire: string): Json {
    JObj(map["type" := JStr("response.function_call_arguments.done"), "item_id" := JStr("a"), "name" := JStr(wire)])
  }

  function CompletedRow(): Json {
    JObj(map["type" := JStr("response.completed")])
  }

  /** The rows that the payloads of the text stand for. */
  function Parse(wire: string, payload: string): Option<Json> {
    if |payload| != 1 then Some(JObj(map[]))
    else if payload[0] == '1' then Some(DeltaRow())
    else if payload[0] == '2' then Some(DoneRow(wire))
    else Some(CompletedRow())
  }

  function ConfigOf(t: ToolNames.Tables, wire: string): Config {
    Config(Platform(payload => Parse(wire, payload), _ => "", _ => "", _ => None), t, _ => false)
  }

  function Closing(wire: string): Source {
    Source(Some(JStr("a")), None, None, Some(JStr(wire)), None, false)
  }

  function Answer(wire: string): seq<Event> {
    [Delta(Some(JStr("a")), "{}"), Done(Closing(wire)), Completed(None)]
  }

  // ---------------------------------------------------------------------------------------------
  // From the text to its events

  lemma {:induction false} OneLine(s: string, i: nat)
    requires i <= |s| && forall k | 0 <= k < |s| :: s[k] != '\n'
    ensures LinesFrom(s, i) == [s]
    decreases |s| - i
  {
    if i < |s| {
      OneLine(s, i + 1);
    }
  }

  lemma BlockEvent(p: Platform, d: char)
    requires '0' <= d <= '9'
    ensures EventOf(p, Block(d)) == match p.parse([d]) case None => Ignored case Some(row) => Classify(p, row)
  {
    var block := Block(d);
    OneLine(block, 0);
    assert TrimStart(block) == block && TrimEnd(block) == block;
    assert block[5..] == [d] && TrimStart([d]) == [d] && TrimEnd([d]) == [d];
    assert |[d]| == 1 && |"[DONE]"| == 6;
  }

  lemma DeltaIsRead(p: Platform)
    ensures Classify(p, DeltaRow()) == Delta(Some(JStr("a")), "{}")
  {
  }

  lemma DoneIsRead(p: Platform, wire: string)
    ensures Classify(p, DoneRow(wire)) == Done(Closing(wire))
  {
  }

  lemma CompletedIsRead(p: Platform)
    requires p.usage(None) == None
    ensures Classify(p, CompletedRow()) == Completed(None)
  {
  }

  lemma {:induction false} WithoutCr(s: string)
    requires forall i | 0 <= i < |s| :: s[i] != '\r'
    ensures Sse.ReplaceCrLf(s) == s && Sse.Normalize(s) == s
  {
    if s != "" {
      WithoutCr(s[1..]);
      assert s == [s[0]] + s[1..];
    }
  }

  lemma {:induction false} EncodedWithoutCr(blocks: seq<string>)
    requires forall b, i | b in blocks && 0 <= i < |b| :: b[i] != '\r'
    ensures forall i | 0 <= i < |Sse.Encode(blocks, "")| :: Sse.Encode(blocks, "")[i] != '\r'
  {
    if blocks != [] {
      EncodedWithoutCr(blocks[1..]);
    }
  }

  lemma {:induction false} EncodedLength(blocks: seq<string>)
    requires forall b | b in blocks :: |b| <= 6
    ensures |Sse.Encode(blocks, "")| <= 8 * |blocks|
  {
    if blocks != [] {
      EncodedLength(blocks[1..]);
    }
  }

  lemma BlockIsFrameable(d: char)
    requires d != '\n' && d != '\r'
    ensures Sse.Frameable(Block(d)) && forall i | 0 <= i < |Block(d)| :: Block(d)[i] != '\r'
  {
  }

  lemma TextIsFramed()
    ensures Sse.Split(Text()) == (Blocks(), "") && Sse.Normalize(Text()) == Text() && |Text()| <= MAX_SSE_BUFFER
  {
    BlockIsFrameable('1');
    BlockIsFrameable('2');
    BlockIsFrameable('3');
    EncodedWithoutCr(Blocks());
    EncodedLength(Blocks());
    WithoutCr(Text());
    Sse.EncodeThenSplit(Blocks(), "");
  }

  lemma ReadsDelta(t: ToolNames.Tables, wire: string)
    ensures EventOf(ConfigOf(t, wire).platform, Block('1')) == Answer(wire)[0]
  {
    BlockEvent(ConfigOf(t, wire).platform, '1');
    DeltaIsRead(ConfigOf(t, wire).platform);
    assert Parse(wire, ['1']) == Some(DeltaRow());
  }

  lemma ReadsDone(t: ToolNames.Tables, wire: string)
    ensures EventOf(ConfigOf(t, wire).platform, Block('2')) == Answer(wire)[1]
  {
    BlockEvent(ConfigOf(t, wire).platform, '2');
    DoneIsRead(ConfigOf(t, wire).platform, wire);
    assert Parse(wire, ['2']) == Some(DoneRow(wire));
  }

  lemma ReadsCompleted(t: ToolNames.Tables, wire: string)
    ensures EventOf(ConfigOf(t, wire).platform, Block('3')) == Answer(wire)[2]
  {
    BlockEvent(ConfigOf(t, wire).platform, '3');
    CompletedIsRead(ConfigOf(t, wire).platform);
    assert Parse(wire, ['3']) == Some(CompletedRow());
  }

  lemma EventsOfThree(p: Platform, a: string, b: string, d: string)
    ensures EventsOf(p, [a, b, d]) == [EventOf(p, a), EventOf(p, b), EventOf(p, d)]
  {
  }

  lemma EventsOfText(t: ToolNames.Tables, wire: string)
    ensures EventsOf(ConfigOf(t, wire).platform, Blocks()) == Answer(wire)
  {
    EventsOfThree(ConfigOf(t, wire).platform, Block('1'), Block('2'), Block('3'));
    ReadsDelta(t, wire);
    ReadsDone(t, wire);
    ReadsCompleted(t, wire);
  }

  lemma NothingLeft()
    ensures LastBlocks("", "") == []
  {
    assert Sse.Normalize("") == "" && "" + "" == "";
  }

  lemma OneChunkAhead(text: string)
    requires Sse.Normalize(text) == text
    ensures Sse.NormalizeAll(Texts([Chunk(text, false)])) == [text] && Sse.Join([text]) == text
    ensures Ahead("", [Chunk(text, false)]) == Sse.Split(text)
  {
    assert Sse.NormalizeAll(Texts([Chunk(text, false)])) == [text] && [text][..0] == [] && "" + text == text;
    assert Sse.Join([text]) == Sse.Join([]) + text;
  }

  /** A text that comes in one chunk. */
  lemma OneChunk(c: Config, text: string)
    requires Sse.Normalize(text) == text && |text| <= MAX_SSE_BUFFER
    ensures Consume(c, [Chunk(text, false)], Closed("", false)) == ConsumeText(c, text, "")
  {
    OneChunkAhead(text);
    assert FitsBuffer("", [text]) by {
      assert "" + text == text && [text][1..] == [];
    }
    ChunkedReadIsWholeRead(c, [Chunk(text, false)], "");
  }

  /** A text that is all terminated blocks has their events. */
  lemma AllBlocks(c: Config, text: string, blocks: seq<string>)
    requires Sse.Normalize(text) == text && Sse.Split(text) == (blocks, "")
    ensures AllEvents(c, [Chunk(text, false)], "") == EventsOf(c.platform, blocks)
    ensures blocks + LastBlocks("", "") == blocks
  {
    OneChunkAhead(text);
    NothingLeft();
    assert blocks + [] == blocks;
  }

  // ---------------------------------------------------------------------------------------------
  // From the events to the frame

  /** The one call, under its canonical name. */
  function Held(n: string): seq<Emission> {
    [Emission("a", ToolFrame("a", n, JObj(map[])))]
  }

  function AfterDone(wire: string, n: string): Stream {
    Stream(Pending(["a"], map["a" := Call("a", wire, "{}", true)]), Held(n), [], false, false, false, None)
  }

  function AfterDelta(): Stream {
    FRESH.(pending := Pending(["a"], map["a" := Call("a", "tool", "{}", false)]))
  }

  lemma DeltaGathers(c: Config, wire: string)
    ensures OnEvent(c, FRESH, Answer(wire)[0]) == (AfterDelta(), None)
  {
    var src := DeltaSource(Some(JStr("a")), "{}");
    assert KeyOf(c.platform, src) == "a" && "" + "{}" == "{}" && [] + ["a"] == ["a"];
    assert Upsert(c.platform, None, src) == Call("a", "tool", "{}", false);
    assert Put(FRESH.pending, "a", Call("a", "tool", "{}", false)) == AfterDelta().pending;
  }

  lemma DoneEmits(c: Config, wire: string, n: string)
    requires c.platform.parse("{}") == Some(JObj(map[])) && ToolNames.FromWire(c.names, wire) == Some(n)
    ensures Emit(c, AfterDelta(), "a", Call("a", wire, "{}", false), true) == (AfterDone(wire, n), None)
  {
    assert TrimStart("{}") == "{}" && !Blank("{}");
    assert ParseArguments(c.platform, "{}", true) == Some(JObj(map[]));
    assert Put(AfterDelta().pending, "a", Call("a", wire, "{}", true)) == AfterDone(wire, n).pending;
    assert [] + Held(n) == Held(n);
  }

  lemma DoneHandsOut(c: Config, wire: string, n: string)
    requires c.platform.parse("{}") == Some(JObj(map[])) && !Blank(wire)
    requires ToolNames.FromWire(c.names, wire) == Some(n)
    ensures OnEvent(c, AfterDelta(), Answer(wire)[1]) == (AfterDone(wire, n), None)
  {
    var call := Call("a", wire, "{}", false);
    assert KeyOf(c.platform, Closing(wire)) == "a";
    assert Upsert(c.platform, Lookup(AfterDelta().pending, "a"), Closing(wire)) == call;
    DoneEmits(c, wire, n);
  }

  lemma OnThree(c: Config, events: seq<Event>, s: Stream, t: Stream, u: Stream)
    requires |events| == 3
    requires OnEvent(c, FRESH, events[0]) == (s, None) && OnEvent(c, s, events[1]) == (t, None)
    requires OnEvent(c, t, events[2]) == (u, None)
    ensures OnEvents(c, FRESH, events) == (u, None)
  {
    assert events[1..][0] == events[1] && events[1..][1..][0] == events[2] && events[1..][1..][1..] == [];
    assert OnEvents(c, t, events[1..][1..]) == (u, None);
    assert OnEvents(c, s, events[1..]) == (u, None);
  }

  lemma AnswerIsRead(c: Config, wire: string, n: string)
    requires c.platform.parse("{}") == Some(JObj(map[])) && !Blank(wire)
    requires ToolNames.FromWire(c.names, wire) == Some(n)
    ensures OnEvents(c, FRESH, Answer(wire)) == (AfterDone(wire, n).(completed := true), None)
  {
    DeltaGathers(c, wire);
    DoneHandsOut(c, wire, n);
    OnThree(c, Answer(wire), AfterDelta(), AfterDone(wire, n), AfterDone(wire, n).(completed := true));
  }

  lemma AnswerFinishes(c: Config, wire: string, n: string)
    requires !c.sinkFails(0)
    ensures WellKeyed(AfterDone(wire, n).pending)
    ensures Finish(c, AfterDone(wire, n).(completed := true)) == Report(Frames(Held(n)), Success(None))
  {
    var s := AfterDone(wire, n).(completed := true);
    assert s.pending.keys[1..] == [] && Flush(c, s, s.pending.keys) == (s, None);
    var done := s.(sent := Frames(Held(n)));
    assert [] + [s.held[0].frame] == Frames(Held(n)) && Deliver(c, s, s.held[0].frame) == (done, None);
    assert DeliverHeld(c, done, 1) == (done, None);
  }

  lemma OneItem(p: Platform, e: Event, f: Event, end: Event, key: string)
    requires Concerns(p, e, key) && Concerns(p, f, key) && !ForItem(end)
    ensures Of(p, [e, f, end], key) == [e, f]
  {
    var none: seq<Event> := [];
    OfOneMore(p, none, e, key);
    OfOneMore(p, none + [e], f, key);
    OfOneMore(p, none + [e] + [f], end, key);
    assert none + [e] + [f] + [end] == [e, f, end] && none + [e] + [f] + none == [e, f];
  }

  lemma NamedLast(p: Platform, e: Event, f: Event, used: string)
    requires e.Delta? && SourceOfEvent(f).name == Some(JStr(used)) && !Blank(used)
    ensures CallsItselfBy(p, [e, f], used)
  {
    assert [e, f][..1] == [e] && [e][..0] == [];
    assert LastName([e, f]) == Some(used) && NamesHandedOut(p, [e]) == [];
  }

  lemma NamedWhenClosed(p: Platform, wire: string)
    requires !Blank(wire)
    ensures CallsItselfBy(p, Of(p, Answer(wire), "a"), wire)
  {
    var events := Answer(wire);
    OneItem(p, events[0], events[1], events[2], "a");
    assert events == [events[0], events[1], events[2]];
    NamedLast(p, events[0], events[1], wire);
  }

  /**
   * For any request and any of its tools: the upstream gathers the arguments of an item, names it by the
   * tool's wire name only when closing it, and completes. The read delivers one frame, under the tool's
   * canonical name. All that `AnswerIsCanonical` asks for is met.
   */
  lemma LateNameIsCanonical(hash: ToolNames.Hash, r: Request, t: ToolNames.Tables, n: string)
    requires ToolNames.Construct(hash, RequestedNames(r)) == Some(t) && n in RequestedNames(r)
    ensures ToolNames.ToWire(t, n).Some?
    ensures var wire := ToolNames.ToWire(t, n).value;
            var c, chunks := ConfigOf(t, wire), [Chunk(Text(), false)];
            && AllEvents(c, chunks, "") == Answer(wire)
            && CallsItselfBy(c.platform, Of(c.platform, Answer(wire), "a"), wire)
            && Consume(c, chunks, Closed("", false)) == Report(Frames(Held(n)), Success(None))
  {
    WireNameIsNotBlank(hash, r, t, n);
    ToolNameTheorems.RoundTrip(hash, RequestedNames(r), n);
    var wire := ToolNames.ToWire(t, n).value;
    NamedWhenClosed(ConfigOf(t, wire).platform, wire);
    TextIsFramed();
    AllBlocks(ConfigOf(t, wire), Text(), Blocks());
    EventsOfText(t, wire);
    OneChunk(ConfigOf(t, wire), Text());
    ReadsToItsFrame(ConfigOf(t, wire), Text(), Blocks(), wire, n);
  }

  /** A text of these three events is read to the one frame. */
  lemma ReadsToItsFrame(c: Config, text: string, blocks: seq<string>, wire: string, n: string)
    requires Sse.Split(text) == (blocks, "") && blocks + LastBlocks("", "") == blocks
    requires EventsOf(c.platform, blocks) == Answer(wire)
    requires c.platform.parse("{}") == Some(JObj(map[])) && !c.sinkFails(0) && !Blank(wire)
    requires ToolNames.FromWire(c.names, wire) == Some(n)
    ensures ConsumeText(c, text, "") == Report(Frames(Held(n)), Success(None))
  {
    AnswerIsRead(c, wire, n);
    AnswerFinishes(c, wire, n);
  }
}
