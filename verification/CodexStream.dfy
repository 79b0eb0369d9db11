/**
 * Reading one upstream completion: events are mapped one by one, text goes to the sink at once,
 * tool calls are assembled per item and held back until the whole response has succeeded.
 */
module CodexStream {
  import opened Prelude
  import opened Json
  import Sse
  import ToolNames

  const MAX_TOOL_CALLS: nat := 256
  const MAX_SSE_BUFFER: nat := 1_048_576

  // ---------------------------------------------------------------------------------------------
  // Upstream events

  /** The properties of an upstream item that `upsertPendingTool` reads. */
  datatype Source = Source(itemId: Option<Json>, id: Option<Json>, callId: Option<Json>, name: Option<Json>,
                           arguments: Option<Json>, append: bool)

  datatype Event =
    | Text(text: string)
    | Added(src: Source)
    | Delta(itemId: Option<Json>, text: string)
    | Done(src: Source)
    | Completed(usage: Option<Json>)
    | Failed(code: Option<string>)
    | Ignored

  function SourceOf(j: Json): Source {
    Source(Field(j, "item_id"), Field(j, "id"), Field(j, "call_id"), Field(j, "name"), Field(j, "arguments"),
           Truthy(Field(j, "append")))
  }

  /** The source that an arguments delta is upserted with. */
  function DeltaSource(itemId: Option<Json>, text: string): Source {
    Source(itemId, itemId, None, None, Some(JStr(text)), true)
  }

  predicate IsFunctionCall(item: Option<Json>) {
    IsObject(item) && Field(item.value, "type") == Some(JStr("function_call"))
  }

  function FailureCode(row: Json): Option<string> {
    var response := Field(row, "response");
    var error := if IsObject(Field(row, "error")) then Field(row, "error")
                 else if IsObject(response) && IsObject(Field(response.value, "error")) then
                   Field(response.value, "error")
                 else None;
    if error.Some? then
      match Field(error.value, "code")
      case Some(JStr(code)) => Some(code)
      case _ => None
    else None
  }

  function Classify(p: Platform, row: Json): Event {
    if !row.JObj? then Ignored
    else
      var kind := FirstText(p, Field(row, "type"), None, None, "");
      var item, delta := Field(row, "item"), Field(row, "delta");
      if kind == "response.output_text.delta" && delta.Some? && delta.value.JStr? then
        Text(delta.value.s)
      else if kind == "response.output_item.added" && IsFunctionCall(item) then
        Added(SourceOf(item.value))
      else if kind == "response.function_call_arguments.delta" then
        Delta(Field(row, "item_id"), if delta.Some? && delta.value.JStr? then delta.value.s else "")
      else if kind == "response.function_call_arguments.done"
           || (kind == "response.output_item.done" && IsFunctionCall(item)) then
        Done(SourceOf(if IsObject(item) then item.value else row))
      else if kind == "response.completed" then
        var response := Field(row, "response");
        Completed(p.usage(Field(if IsObject(response) then response.value else row, "usage")))
      else if kind == "response.failed" || kind == "response.incomplete" || kind == "error" then
        Failed(FailureCode(row))
      else Ignored
  }

  /** The payload of the first `data:` line of a block. */
  function DataOf(lines: seq<string>): Option<string> {
    if lines == [] then None
    else
      var line := Trim(lines[0]);
      if "data:" <= line then Some(Trim(line[5..])) else DataOf(lines[1..])
  }

  function EventOf(p: Platform, block: string): Event {
    match DataOf(Lines(block))
    case None => Ignored
    case Some(payload) =>
      if payload == "" || payload == "[DONE]" then Ignored
      else
        match p.parse(payload)
        case None => Ignored
        case Some(row) => Classify(p, row)
  }

  function EventsOf(p: Platform, blocks: seq<string>): seq<Event> {
    seq(|blocks|, i requires 0 <= i < |blocks| => EventOf(p, blocks[i]))
  }

  // ---------------------------------------------------------------------------------------------
  // Pending tool calls

  datatype Call = Call(id: string, name: string, args: string, emitted: bool)

  /** An insertion-ordered map from item keys to calls. */
  datatype Pending = Pending(keys: seq<string>, calls: map<string, Call>)

  function Put(pending: Pending, key: string, call: Call): Pending {
    Pending(if key in pending.calls then pending.keys else pending.keys + [key], pending.calls[key := call])
  }

  function KeyOf(p: Platform, src: Source): string {
    FirstText(p, src.itemId, src.id, src.callId, "tool")
  }

  function NonBlank(j: Option<Json>, fallback: string): string {
    if j.Some? && j.value.JStr? && !Blank(j.value.s) then j.value.s else fallback
  }

  /** The argument text after a source: deltas append, a non-blank text or an object replaces. */
  function Carry(p: Platform, args: string, src: Source): string {
    match src.arguments
    case Some(JStr(raw)) => if src.append then args + raw else if Blank(raw) then args else raw
    case Some(JObj(fields)) => if src.append then args else p.stringify(JObj(fields))
    case _ => args
  }

  function Upsert(p: Platform, current: Option<Call>, src: Source): Call {
    var call := current.GetOr(Call(FirstText(p, src.callId, src.id, None, KeyOf(p, src)), "tool", "", false));
    Call(NonBlank(src.callId, call.id), NonBlank(src.name, call.name), Carry(p, call.args, src), call.emitted)
  }

  predicate CompleteJson(p: Platform, raw: string) {
    !Blank(raw) && p.parse(Trim(raw)).Some?
  }

  /** Arguments must be a JSON object; a closed call may have none at all. */
  function ParseArguments(p: Platform, raw: string, closed: bool): Option<Json> {
    if closed && Blank(raw) then Some(JObj(map[]))
    else
      match p.parse(raw)
      case Some(JObj(fields)) => Some(JObj(fields))
      case _ => None
  }

  // ---------------------------------------------------------------------------------------------
  // The stream

  datatype Frame = TextFrame(text: string) | ToolFrame(id: string, name: string, arguments: Json)

  /** A held tool frame and the item it came from. */
  datatype Emission = Emission(key: string, frame: Frame)

  datatype Error =
    | ToolCallLimit | UnknownToolName | InvalidArguments | BufferExceeded | ContextLength | ResponseFailed
    | Interrupted | SinkRejected

  /** `sinkFails(n)` says whether the sink rejects the n-th frame handed to it. */
  datatype Config = Config(platform: Platform, names: ToolNames.Tables, sinkFails: nat -> bool)

  datatype Stream = Stream(pending: Pending, held: seq<Emission>, sent: seq<Frame>, completed: bool, failed: bool,
                           contextLength: bool, usage: Option<Json>)

  const FRESH := Stream(Pending([], map[]), [], [], false, false, false, None)

  type Stepped = (Stream, Option<Error>)

  function Deliver(c: Config, s: Stream, frame: Frame): Stepped {
    (s.(sent := s.sent + [frame]), if c.sinkFails(|s.sent|) then Some(SinkRejected) else None)
  }

  /** `acceptFrame` of no frame: only the number of pending calls is checked. */
  function AcceptNothing(s: Stream): Stepped {
    (s, if |s.pending.keys| > MAX_TOOL_CALLS then Some(ToolCallLimit) else None)
  }

  function AcceptTool(c: Config, s: Stream, key: string, call: Call, arguments: Json): Stepped {
    if |s.pending.keys| > MAX_TOOL_CALLS || |s.held| >= MAX_TOOL_CALLS then (s, Some(ToolCallLimit))
    else
      match ToolNames.FromWire(c.names, call.name)
      case None => (s, Some(UnknownToolName))
      case Some(name) => (s.(held := s.held + [Emission(key, ToolFrame(call.id, name, arguments))]), None)
  }

  /** Mark the call emitted, parse its arguments, and hold the frame. */
  function Emit(c: Config, s: Stream, key: string, call: Call, closed: bool): Stepped {
    var s' := s.(pending := Put(s.pending, key, call.(emitted := true)));
    match ParseArguments(c.platform, call.args, closed)
    case None => (s', Some(InvalidArguments))
    case Some(arguments) => AcceptTool(c, s', key, call, arguments)
  }

  function Lookup(pending: Pending, key: string): Option<Call> {
    if key in pending.calls then Some(pending.calls[key]) else None
  }

  function OnEvent(c: Config, s: Stream, e: Event): Stepped {
    match e
    case Text(text) =>
      if |s.pending.keys| > MAX_TOOL_CALLS then (s, Some(ToolCallLimit)) else Deliver(c, s, TextFrame(text))
    case Added(src) =>
      var key := KeyOf(c.platform, src);
      var call := Upsert(c.platform, Lookup(s.pending, key), src);
      if CompleteJson(c.platform, call.args) then Emit(c, s, key, call, false)
      else AcceptNothing(s.(pending := Put(s.pending, key, call)))
    case Delta(itemId, text) =>
      var src := DeltaSource(itemId, text);
      var key := KeyOf(c.platform, src);
      AcceptNothing(s.(pending := Put(s.pending, key, Upsert(c.platform, Lookup(s.pending, key), src))))
    case Done(src) =>
      var key := KeyOf(c.platform, src);
      var call := Upsert(c.platform, Lookup(s.pending, key), src);
      if !call.emitted then Emit(c, s, key, call, true)
      else AcceptNothing(s.(pending := Put(s.pending, key, call)))
    case Completed(usage) =>
      var (s', err) := AcceptNothing(s);
      if err.Some? then (s', err)
      else (s'.(completed := true, usage := if usage.Some? then usage else s.usage), None)
    case Failed(code) =>
      var (s', err) := AcceptNothing(s);
      if err.Some? then (s', err)
      else (s'.(failed := true, contextLength := s.contextLength || code == Some("context_length_exceeded")), None)
    case Ignored => AcceptNothing(s)
  }

  /** The events in turn, up to the first error. */
  function OnEvents(c: Config, s: Stream, events: seq<Event>): Stepped
    decreases |events|
  {
    if events == [] then (s, None)
    else
      var (s', err) := OnEvent(c, s, events[0]);
      if err.Some? then (s', err) else OnEvents(c, s', events[1..])
  }

  /** Emit what the upstream never closed. Without a terminal event the arguments are not parsed. */
  function Flush(c: Config, s: Stream, keys: seq<string>): Stepped
    requires forall k | k in keys :: k in s.pending.calls
    decreases |keys|
  {
    if keys == [] then (s, None)
    else
      var call := s.pending.calls[keys[0]];
      if call.emitted then Flush(c, s, keys[1..])
      else
        match if s.completed then ParseArguments(c.platform, call.args, false) else Some(JObj(map[]))
        case None => (s, Some(InvalidArguments))
        case Some(arguments) =>
          var (s', err) := AcceptTool(c, s, keys[0], call, arguments);
          if err.Some? then (s', err)
          else Flush(c, s'.(pending := Put(s'.pending, keys[0], call.(emitted := true))), keys[1..])
  }

  function DeliverHeld(c: Config, s: Stream, from: nat): Stepped
    requires from <= |s.held|
    decreases |s.held| - from
  {
    if from == |s.held| then (s, None)
    else
      var (s', err) := Deliver(c, s, s.held[from].frame);
      if err.Some? then (s', err) else DeliverHeld(c, s', from + 1)
  }

  datatype Outcome = Success(usage: Option<Json>) | Unknown(usage: Option<Json>) | Thrown(error: Error)

  datatype Report = Report(sent: seq<Frame>, outcome: Outcome)

  /** The insertion order lists every key once. */
  ghost predicate WellKeyed(pending: Pending) {
    && (forall k :: k in pending.keys <==> k in pending.calls)
    && (forall i, j | 0 <= i < j < |pending.keys| :: pending.keys[i] != pending.keys[j])
  }

  /** After the last read: failure first, then the open calls, then the held frames. */
  function Finish(c: Config, s: Stream): Report
    requires WellKeyed(s.pending)
  {
    if s.failed then Report(s.sent, Thrown(if s.contextLength then ContextLength else ResponseFailed))
    else
      var (flushed, err) := Flush(c, s, s.pending.keys);
      if err.Some? then Report(flushed.sent, Thrown(err.value))
      else if !s.completed then Report(flushed.sent, Unknown(flushed.usage))
      else
        var (done, err') := DeliverHeld(c, flushed, 0);
        Report(done.sent, if err'.Some? then Thrown(err'.value) else Success(done.usage))
  }

  // ---------------------------------------------------------------------------------------------
  // Reading

  /** One chunk of decoded text, and whether the signal is found aborted after it. */
  datatype Chunk = Chunk(text: string, aborted: bool)

  /** The end of the reads: the decoder's last text, or a read that was rejected or cut by the signal. */
  datatype End = Closed(tail: string, aborted: bool) | Broken

  /** The reader between two reads. */
  datatype Reader = Reader(stream: Stream, buffer: string)

  function OnChunk(c: Config, r: Reader, chunk: Chunk): (Reader, Option<Error>) {
    var buffer := r.buffer + Sse.Normalize(chunk.text);
    if |buffer| > MAX_SSE_BUFFER then (r.(buffer := buffer), Some(BufferExceeded))
    else
      var (blocks, rest) := Sse.Split(buffer);
      var (s, err) := OnEvents(c, r.stream, EventsOf(c.platform, blocks));
      (Reader(s, rest), if err.Some? then err else if chunk.aborted then Some(Interrupted) else None)
  }

  function OnChunks(c: Config, r: Reader, chunks: seq<Chunk>): (Reader, Option<Error>)
    decreases |chunks|
  {
    if chunks == [] then (r, None)
    else
      var (r', err) := OnChunk(c, r, chunks[0]);
      if err.Some? then (r', err) else OnChunks(c, r', chunks[1..])
  }

  /** What is left in the buffer is one last block. */
  function LastBlocks(rest: string, tail: string): seq<string> {
    if Blank(rest + Sse.Normalize(tail)) then [] else [rest + Sse.Normalize(tail)]
  }

  function Consume(c: Config, chunks: seq<Chunk>, end: End): Report {
    var (r, err) := OnChunks(c, Reader(FRESH, ""), chunks);
    OnChunksKeyed(c, Reader(FRESH, ""), chunks);
    if err.Some? then Report(r.stream.sent, Thrown(err.value))
    else
      match end
      case Broken => Report(r.stream.sent, Thrown(Interrupted))
      case Closed(tail, aborted) =>
        var last := EventsOf(c.platform, LastBlocks(r.buffer, tail));
        var (s, err) := OnEvents(c, r.stream, last);
        OnEventsKeyed(c, r.stream, last);
        if err.Some? then Report(s.sent, Thrown(err.value))
        else if aborted then Report(s.sent, Thrown(Interrupted))
        else Finish(c, s)
  }

  lemma PutKeyed(pending: Pending, key: string, call: Call)
    requires WellKeyed(pending)
    ensures WellKeyed(Put(pending, key, call))
  {
  }

  lemma EmitPending(c: Config, s: Stream, key: string, call: Call, closed: bool)
    ensures Emit(c, s, key, call, closed).0.pending == Put(s.pending, key, call.(emitted := true))
  {
  }

  lemma OnEventKeyed(c: Config, s: Stream, e: Event)
    requires WellKeyed(s.pending)
    ensures WellKeyed(OnEvent(c, s, e).0.pending)
  {
    if e.Added? || e.Done? {
      var key := KeyOf(c.platform, e.src);
      UpsertKeyed(c, s, e.src);
      EmitPending(c, s, key, Upsert(c.platform, Lookup(s.pending, key), e.src), e.Done?);
    } else if e.Delta? {
      UpsertKeyed(c, s, DeltaSource(e.itemId, e.text));
    }
  }

  lemma UpsertKeyed(c: Config, s: Stream, src: Source)
    requires WellKeyed(s.pending)
    ensures var key := KeyOf(c.platform, src);
            var call := Upsert(c.platform, Lookup(s.pending, key), src);
            WellKeyed(Put(s.pending, key, call)) && WellKeyed(Put(s.pending, key, call.(emitted := true)))
  {
    var key := KeyOf(c.platform, src);
    var call := Upsert(c.platform, Lookup(s.pending, key), src);
    PutKeyed(s.pending, key, call);
    PutKeyed(s.pending, key, call.(emitted := true));
  }

  lemma {:induction false} OnEventsKeyed(c: Config, s: Stream, events: seq<Event>)
    requires WellKeyed(s.pending)
    ensures WellKeyed(OnEvents(c, s, events).0.pending)
    decreases |events|
  {
    if events != [] {
      OnEventKeyed(c, s, events[0]);
    }
    if events != [] && OnEvent(c, s, events[0]).1.None? {
      OnEventsKeyed(c, OnEvent(c, s, events[0]).0, events[1..]);
    }
  }

  lemma {:induction false} OnChunksKeyed(c: Config, r: Reader, chunks: seq<Chunk>)
    requires WellKeyed(r.stream.pending)
    ensures WellKeyed(OnChunks(c, r, chunks).0.stream.pending)
    decreases |chunks|
  {
    if chunks != [] {
      var (blocks, rest) := Sse.Split(r.buffer + Sse.Normalize(chunks[0].text));
      OnEventsKeyed(c, r.stream, EventsOf(c.platform, blocks));
      if OnChunk(c, r, chunks[0]).1.None? {
        OnChunksKeyed(c, OnChunk(c, r, chunks[0]).0, chunks[1..]);
      }
    }
  }

  /** The reading loop as it runs: buffer, pending calls, held frames and flags are updated in place. */
  method ConsumeSse(c: Config, chunks: seq<Chunk>, end: End) returns (report: Report)
    ensures report == Consume(c, chunks, end)
  {
    var s := FRESH;
    var buffer := "";
    for n := 0 to |chunks|
      invariant WellKeyed(s.pending)
      invariant OnChunks(c, Reader(FRESH, ""), chunks) == OnChunks(c, Reader(s, buffer), chunks[n..])
    {
      assert chunks[n..][0] == chunks[n] && chunks[n..][1..] == chunks[n + 1..];
      ghost var before := Reader(s, buffer);
      buffer := buffer + Sse.Normalize(chunks[n].text);
      if |buffer| > MAX_SSE_BUFFER {
        return Report(s.sent, Thrown(BufferExceeded));
      }
      var (parts, rest) := Sse.Split(buffer);
      buffer := rest;
      var err;
      s, err := IngestBlocks(c, s, parts);
      if err.Some? {
        return Report(s.sent, Thrown(err.value));
      }
      if chunks[n].aborted {
        return Report(s.sent, Thrown(Interrupted));
      }
    }
    if end.Broken? {
      return Report(s.sent, Thrown(Interrupted));
    }
    buffer := buffer + Sse.Normalize(end.tail);
    var last := if Blank(buffer) then [] else [buffer];
    var err;
    s, err := IngestBlocks(c, s, last);
    if err.Some? {
      return Report(s.sent, Thrown(err.value));
    }
    if end.aborted {
      return Report(s.sent, Thrown(Interrupted));
    }
    if s.failed {
      return Report(s.sent, Thrown(if s.contextLength then ContextLength else ResponseFailed));
    }
    report := FlushAndDeliver(c, s);
  }

  method IngestBlocks(c: Config, start: Stream, parts: seq<string>) returns (s: Stream, err: Option<Error>)
    requires WellKeyed(start.pending)
    ensures (s, err) == OnEvents(c, start, EventsOf(c.platform, parts)) && WellKeyed(s.pending)
  {
    s, err := start, None;
    ghost var events := EventsOf(c.platform, parts);
    OnEventsKeyed(c, start, events);
    for i := 0 to |parts|
      invariant err.None? && OnEvents(c, start, events) == OnEvents(c, s, events[i..])
    {
      assert events[i..][0] == EventOf(c.platform, parts[i]) && events[i..][1..] == events[i + 1..];
      var next := OnEvent(c, s, EventOf(c.platform, parts[i]));
      s, err := next.0, next.1;
      if err.Some? {
        return;
      }
    }
  }

  method FlushAndDeliver(c: Config, start: Stream) returns (report: Report)
    requires WellKeyed(start.pending) && !start.failed
    ensures report == Finish(c, start)
  {
    var s := start;
    var keys := s.pending.keys;
    for i := 0 to |keys|
      invariant forall k | k in keys :: k in s.pending.calls
      invariant s.completed == start.completed
      invariant Flush(c, start, keys) == Flush(c, s, keys[i..])
    {
      assert keys[i..][0] == keys[i] && keys[i..][1..] == keys[i + 1..];
      var call := s.pending.calls[keys[i]];
      if !call.emitted {
        var arguments := if s.completed then ParseArguments(c.platform, call.args, false) else Some(JObj(map[]));
        if arguments.None? {
          return Report(s.sent, Thrown(InvalidArguments));
        }
        var (s', err) := AcceptTool(c, s, keys[i], call, arguments.value);
        if err.Some? {
          return Report(s'.sent, Thrown(err.value));
        }
        s := s'.(pending := Put(s'.pending, keys[i], call.(emitted := true)));
      }
    }
    if !s.completed {
      return Report(s.sent, Unknown(s.usage));
    }
    ghost var flushed := s;
    var held := s.held;
    for i := 0 to |held|
      invariant s.held == held && s.usage == flushed.usage
      invariant DeliverHeld(c, flushed, 0) == DeliverHeld(c, s, i)
    {
      var (s', err) := Deliver(c, s, held[i].frame);
      s := s';
      if err.Some? {
        return Report(s.sent, Thrown(err.value));
      }
    }
    report := Report(s.sent, Success(s.usage));
  }
}
