/**
 * The progress stream: a second event-stream reader, which stops at the first terminal or error event
 * and reports through callbacks, some of them debounced by a timer.
 */
module ProgressStream {
  import opened Prelude
  import opened Json
  import Sse

  datatype StepState = Running | Completed | Errored

  datatype ProgressStep = ProgressStep(toolCallId: string, labels: Json, state: StepState, durationMs: Option<real>,
                                       errorSummary: Option<string>)

  /** An error event of the stream, or a failure of the reader itself. */
  datatype Cause = Reported | Failed

  datatype Callback =
    | OnProgress(steps: seq<ProgressStep>)
    | OnSuspended(data: Json)
    | OnTerminal(data: Json)
    | OnError(cause: Cause)

  datatype Block = Block(event: string, data: Json)

  function Fields(lines: seq<string>): (string, seq<string>) {
    if lines == [] then ("message", [])
    else
      var (event, data) := Fields(lines[..|lines| - 1]);
      var line := lines[|lines| - 1];
      if "event:" <= line then (Trim(line[6..]), data)
      else if "data:" <= line then (event, data + [Trim(line[5..])])
      else (event, data)
  }

  function JoinLines(lines: seq<string>): string {
    if lines == [] then ""
    else if |lines| == 1 then lines[0]
    else JoinLines(lines[..|lines| - 1]) + "\n" + lines[|lines| - 1]
  }

  function ParseBlock(p: Platform, block: string): Option<Block> {
    var (event, data) := Fields(Lines(block));
    if data == [] then None
    else
      match p.parse(JoinLines(data))
      case None => None
      case Some(j) => Some(Block(event, j))
  }

  /** Reading goes on, or is over with the stream marked closed, or is over without that. */
  datatype Status = Open | Closed | Over

  /** `timer` says that a debounced progress update is scheduled. */
  datatype Stream = Stream(steps: seq<ProgressStep>, calls: seq<Callback>, status: Status, timer: bool)

  const FRESH := Stream([], [], Open, false)

  /** `String(value ?? fallback)`. */
  function TextOr(p: Platform, j: Option<Json>, fallback: string): string {
    if j.Some? && !j.value.JNull? then ToText(p, j.value) else fallback
  }

  function Complete(p: Platform, steps: seq<ProgressStep>, d: Json): seq<ProgressStep> {
    var id := match Field(d, "toolCallId") case None => "undefined" case Some(j) => ToText(p, j);
    var k := FindStep(steps, id);
    if k == |steps| then steps
    else
      var duration := match Field(d, "durationMs") case Some(JNum(n)) => Some(n) case _ => None;
      var summary := match Field(d, "errorSummary") case Some(JStr(s)) => Some(s) case _ => None;
      steps[k := steps[k].(state := if Truthy(Field(d, "isError")) then Errored else Completed,
                           durationMs := duration, errorSummary := summary)]
  }

  function FindStep(steps: seq<ProgressStep>, id: string): (k: nat)
    ensures k <= |steps|
    ensures k < |steps| ==> steps[k].toolCallId == id
    ensures forall i | 0 <= i < k :: steps[i].toolCallId != id
  {
    if steps == [] then 0
    else if steps[0].toolCallId == id then 0
    else 1 + FindStep(steps[1..], id)
  }

  function Called(s: Stream, call: Callback): Stream {
    s.(calls := s.calls + [call])
  }

  function Flushed(s: Stream): Stream {
    if s.status.Closed? || s.steps == [] then s else Called(s, OnProgress(s.steps))
  }

  datatype Kind = ToolStart | ToolComplete | Suspended | Terminal | ErrorEvent | Ignored

  function KindOf(event: string): Kind {
    match event
    case "tool_start" => ToolStart
    case "tool_complete" => ToolComplete
    case "suspended" => Suspended
    case "terminal" => Terminal
    case "error" => ErrorEvent
    case _ => Ignored
  }

  /** Reading a property of JSON `null` throws; a completion reads one only when there are steps to look through. */
  predicate ReadsNull(s: Stream, kind: Kind, d: Json) {
    d.JNull? && (kind.ToolStart? || kind.ErrorEvent? || (kind.ToolComplete? && s.steps != []))
  }

  /** One event; what it throws, the reader's `catch` reports once. */
  function OnEvent(p: Platform, s: Stream, kind: Kind, d: Json): Stream {
    if ReadsNull(s, kind, d) then Called(s, OnError(Failed)).(status := Over)
    else
      match kind
      case ToolStart =>
        s.(steps := s.steps + [ProgressStep(TextOr(p, Field(d, "toolCallId"), ""), d, Running, None, None)],
           timer := true)
      case ToolComplete => s.(steps := Complete(p, s.steps, d), timer := true)
      case Suspended => Called(Flushed(s.(timer := false)), OnSuspended(d))
      case Terminal => Called(Flushed(s.(timer := false)), OnTerminal(d)).(status := Closed)
      case ErrorEvent => Called(s, OnError(Reported)).(status := Closed, timer := false)
      case Ignored => s
  }

  function OnBlock(p: Platform, s: Stream, text: string): Stream {
    match ParseBlock(p, text)
    case None => s
    case Some(Block(event, d)) => OnEvent(p, s, KindOf(event), d)
  }

  /** The blocks in turn; once the stream is over nothing is looked at. */
  function OnBlocks(p: Platform, s: Stream, blocks: seq<string>): Stream
    decreases |blocks|
  {
    if blocks == [] || s.status != Open then s
    else OnBlocks(p, OnBlock(p, s, blocks[0]), blocks[1..])
  }

  // ---------------------------------------------------------------------------------------------
  // The reader among its timer and its consumer

  /** What can happen between two awaits of the reader. */
  datatype Happening = Chunk(text: string) | TimerFires | CloseCalled | ReadEnds | ReadFails

  datatype Reader = Reader(stream: Stream, buffer: string)

  function OnHappening(p: Platform, r: Reader, h: Happening): Reader {
    var s := r.stream;
    match h
    case Chunk(text) =>
      if !s.status.Open? then r
      else
        var (blocks, rest) := Sse.Split(r.buffer + text);
        var s' := OnBlocks(p, s, blocks);
        Reader(s', if s'.status.Open? then rest else "")
    case TimerFires => if s.timer then r.(stream := Flushed(s.(timer := false))) else r
    case CloseCalled => if s.status.Closed? then r else r.(stream := s.(status := Closed, timer := false))
    case ReadEnds => if s.status.Open? then r.(stream := Flushed(s).(status := Over)) else r
    case ReadFails => if s.status.Open? then r.(stream := Called(s, OnError(Failed)).(status := Over)) else r
  }

  function Run(p: Platform, hs: seq<Happening>): Reader {
    if hs == [] then Reader(FRESH, "") else OnHappening(p, Run(p, hs[..|hs| - 1]), hs[|hs| - 1])
  }

  class ProgressReader {
    var stream: Stream
    var buffer: string

    ghost function Model(): Reader
      reads this
    {
      Reader(stream, buffer)
    }

    constructor ()
      ensures Model() == Reader(FRESH, "")
    {
      stream, buffer := FRESH, "";
    }

    /** A chunk is read: blocks are cut off the buffer and handled one at a time until the stream is over. */
    method Feed(p: Platform, text: string)
      modifies this
      ensures Model() == OnHappening(p, old(Model()), Chunk(text))
    {
      if !stream.status.Open? {
        return;
      }
      buffer := buffer + text;
      ghost var before, whole := stream, buffer;
      var splitAt := Sse.FindSeparator(buffer, 0);
      while splitAt < |buffer| && stream.status.Open?
        invariant splitAt == Sse.FindSeparator(buffer, 0)
        invariant OnBlocks(p, before, Sse.Split(whole).0) == OnBlocks(p, stream, Sse.Split(buffer).0)
        invariant Sse.Split(whole).1 == Sse.Split(buffer).1
        decreases |buffer|
      {
        var block := buffer[..splitAt];
        buffer := buffer[splitAt + 2..];
        splitAt := Sse.FindSeparator(buffer, 0);
        assert ([block] + Sse.Split(buffer).0)[1..] == Sse.Split(buffer).0;
        stream := OnBlock(p, stream, block);
      }
      if !stream.status.Open? {
        buffer := "";
      }
    }

    method FireTimer(p: Platform)
      modifies this`stream
      ensures Model() == OnHappening(p, old(Model()), TimerFires)
    {
      if stream.timer {
        stream := stream.(timer := false);
        if !stream.status.Closed? && |stream.steps| > 0 {
          stream := Called(stream, OnProgress(stream.steps));
        }
      }
    }

    method Close(p: Platform)
      modifies this`stream
      ensures Model() == OnHappening(p, old(Model()), CloseCalled)
    {
      if stream.status.Closed? {
        return;
      }
      stream := stream.(status := Closed, timer := false);
    }

    /** The last read says that the text is over, or is rejected. */
    method Finish(p: Platform, failed: bool)
      modifies this`stream
      ensures Model() == OnHappening(p, old(Model()), if failed then ReadFails else ReadEnds)
    {
      if !stream.status.Open? {
        return;
      }
      stream := if failed then Called(stream, OnError(Failed)) else Flushed(stream);
      stream := stream.(status := Over);
    }
  }

  // ---------------------------------------------------------------------------------------------
  // The chunked reader against the whole text

  lemma {:induction false} OnBlocksConcat(p: Platform, s: Stream, a: seq<string>, b: seq<string>)
    ensures OnBlocks(p, s, a + b) == OnBlocks(p, OnBlocks(p, s, a), b)
    decreases |a|
  {
    if a == [] {
      assert a + b == b;
    } else if s.status.Open? {
      assert (a + b)[0] == a[0] && (a + b)[1..] == a[1..] + b;
      OnBlocksConcat(p, OnBlock(p, s, a[0]), a[1..], b);
    }
  }

  function Text(hs: seq<Happening>): string {
    if hs == [] then ""
    else Text(hs[..|hs| - 1]) + if hs[|hs| - 1].Chunk? then hs[|hs| - 1].text else ""
  }

  /** The callbacks without the progress updates. */
  function Essential(calls: seq<Callback>): seq<Callback> {
    if calls == [] then []
    else Essential(calls[..|calls| - 1]) + if calls[|calls| - 1].OnProgress? then [] else [calls[|calls| - 1]]
  }

  /** The same to a consumer that does not count progress updates. */
  predicate Alike(s: Stream, t: Stream) {
    s.steps == t.steps && s.status == t.status && Essential(s.calls) == Essential(t.calls)
  }

  lemma CalledAlike(s: Stream, call: Callback)
    ensures Essential(Called(s, call).calls) == Essential(s.calls) + if call.OnProgress? then [] else [call]
  {
    assert (s.calls + [call])[..|s.calls|] == s.calls;
  }

  lemma FlushedAlike(s: Stream)
    ensures Essential(Flushed(s).calls) == Essential(s.calls)
  {
    CalledAlike(s, OnProgress(s.steps));
    assert Essential(s.calls) + [] == Essential(s.calls);
  }

  lemma CallsStayAlike(s: Stream, t: Stream, call: Callback)
    requires Alike(s, t)
    ensures Alike(Called(s, call), Called(t, call))
    ensures Alike(Called(Flushed(s.(timer := false)), call), Called(Flushed(t.(timer := false)), call))
  {
    CalledAlike(s, call);
    CalledAlike(t, call);
    var s', t' := Flushed(s.(timer := false)), Flushed(t.(timer := false));
    FlushedAlike(s.(timer := false));
    FlushedAlike(t.(timer := false));
    CalledAlike(s', call);
    CalledAlike(t', call);
    assert s'.steps == t'.steps && s'.status == t'.status;
  }

  lemma OnEventAlike(p: Platform, s: Stream, t: Stream, kind: Kind, d: Json)
    requires Alike(s, t)
    ensures Alike(OnEvent(p, s, kind, d), OnEvent(p, t, kind, d))
  {
    if ReadsNull(s, kind, d) {
      CallsStayAlike(s, t, OnError(Failed));
    } else {
      match kind
      case Suspended => CallsStayAlike(s, t, OnSuspended(d));
      case Terminal => CallsStayAlike(s, t, OnTerminal(d));
      case ErrorEvent => CallsStayAlike(s, t, OnError(Reported));
      case _ =>
    }
  }

  lemma {:induction false} OnBlocksAlike(p: Platform, s: Stream, t: Stream, blocks: seq<string>)
    requires Alike(s, t)
    ensures Alike(OnBlocks(p, s, blocks), OnBlocks(p, t, blocks))
    decreases |blocks|
  {
    if blocks != [] && s.status.Open? {
      var parsed := ParseBlock(p, blocks[0]);
      if parsed.Some? {
        OnEventAlike(p, s, t, KindOf(parsed.value.event), parsed.value.data);
      }
      OnBlocksAlike(p, OnBlock(p, s, blocks[0]), OnBlock(p, t, blocks[0]), blocks[1..]);
    }
  }

  /** One pass over a whole text. */
  function ReadText(p: Platform, text: string): Stream {
    OnBlocks(p, FRESH, Sse.Split(text).0)
  }

  lemma MoreText(p: Platform, a: string, b: string)
    ensures ReadText(p, a + b) == OnBlocks(p, ReadText(p, a), Sse.Split(Sse.Split(a).1 + b).0)
    ensures Sse.Split(a + b).1 == Sse.Split(Sse.Split(a).1 + b).1
    ensures !ReadText(p, a).status.Open? ==> ReadText(p, a + b) == ReadText(p, a)
  {
    Sse.SplitConcat(a, b);
    OnBlocksConcat(p, FRESH, Sse.Split(a).0, Sse.Split(Sse.Split(a).1 + b).0);
  }

  /**
   * However the text is cut into chunks, and whenever the timer fires in between, the consumer sees the
   * steps, the state and, progress updates aside, the callbacks of one pass over the text read so far;
   * with no timer firing it sees exactly that pass.
   */
  lemma {:induction false} TimersDoNotMatter(p: Platform, hs: seq<Happening>)
    requires forall h | h in hs :: h.Chunk? || h.TimerFires?
    ensures Alike(Run(p, hs).stream, ReadText(p, Text(hs)))
    ensures Run(p, hs).stream.status.Open? ==> Run(p, hs).buffer == Sse.Split(Text(hs)).1
    ensures (forall h | h in hs :: h.Chunk?) ==> Run(p, hs).stream == ReadText(p, Text(hs))
  {
    if hs != [] {
      var before, h := hs[..|hs| - 1], hs[|hs| - 1];
      var r := Run(p, before);
      TimersDoNotMatter(p, before);
      if h.Chunk? {
        MoreText(p, Text(before), h.text);
        OnBlocksAlike(p, r.stream, ReadText(p, Text(before)), Sse.Split(r.buffer + h.text).0);
      } else {
        assert h in hs && Text(before) + "" == Text(before);
        FlushedAlike(r.stream.(timer := false));
      }
    }
  }

  // ---------------------------------------------------------------------------------------------
  // What the consumer is told last

  predicate Ends(call: Callback) {
    call.OnTerminal? || call.OnError?
  }

  /**
   * A terminal or error callback is the last one, but for one progress update that was still scheduled
   * when the reader failed; while reading goes on there is none.
   */
  ghost predicate EndsOnce(s: Stream) {
    var n := |s.calls|;
    && (forall i | 0 <= i < n && Ends(s.calls[i]) ::
          || i == n - 1
          || (i == n - 2 && s.calls[i] == OnError(Failed) && s.calls[n - 1].OnProgress? && !s.timer))
    && (s.status.Open? ==> forall i | 0 <= i < n :: !Ends(s.calls[i]))
    && (s.timer && n > 0 && Ends(s.calls[n - 1]) ==> s.calls[n - 1] == OnError(Failed))
    && (s.status.Closed? ==> !s.timer)
  }

  lemma OnEventEndsOnce(p: Platform, s: Stream, kind: Kind, d: Json)
    requires EndsOnce(s) && s.status.Open?
    ensures EndsOnce(OnEvent(p, s, kind, d))
  {
  }

  lemma {:induction false} OnBlocksEndOnce(p: Platform, s: Stream, blocks: seq<string>)
    requires EndsOnce(s)
    ensures EndsOnce(OnBlocks(p, s, blocks))
    decreases |blocks|
  {
    if blocks != [] && s.status.Open? {
      var parsed := ParseBlock(p, blocks[0]);
      if parsed.Some? {
        OnEventEndsOnce(p, s, KindOf(parsed.value.event), parsed.value.data);
      }
      OnBlocksEndOnce(p, OnBlock(p, s, blocks[0]), blocks[1..]);
    }
  }

  lemma {:induction false} RunEndsOnce(p: Platform, hs: seq<Happening>)
    ensures EndsOnce(Run(p, hs).stream)
  {
    if hs != [] {
      var r, h := Run(p, hs[..|hs| - 1]), hs[|hs| - 1];
      RunEndsOnce(p, hs[..|hs| - 1]);
      if h.Chunk? {
        OnBlocksEndOnce(p, r.stream, Sse.Split(r.buffer + h.text).0);
      }
    }
  }

  /**
   * In every run, with timers, closes and failing reads at any moment: a terminal callback and the
   * callback of an error event are the last; the callback of a failure can only be followed by one
   * progress update; so there is at most one of them in all.
   */
  lemma OneEnd(p: Platform, hs: seq<Happening>, i: nat, j: nat)
    requires i < j < |Run(p, hs).stream.calls| && Ends(Run(p, hs).stream.calls[i])
    ensures var calls := Run(p, hs).stream.calls;
            calls[i] == OnError(Failed) && calls[j].OnProgress? && j == i + 1 == |calls| - 1
  {
    RunEndsOnce(p, hs);
  }

  // ---------------------------------------------------------------------------------------------
  // What may follow when reading is over

  predicate Closes(hs: seq<Happening>) {
    CloseCalled in hs
  }

  /** The timer's moment comes before the consumer closes the stream, if it ever does. */
  predicate FiresFirst(hs: seq<Happening>) {
    hs != [] &&
    (FiresFirst(hs[..|hs| - 1]) || (hs[|hs| - 1].TimerFires? && !Closes(hs[..|hs| - 1])))
  }

  /** One more progress update, if it is scheduled, there are steps to report, and its moment comes. */
  function Late(s: Stream, more: seq<Happening>): seq<Callback> {
    if s.timer && s.steps != [] && FiresFirst(more) then [OnProgress(s.steps)] else []
  }

  /** `t` is what becomes of a stream `s` that is over but not closed. */
  ghost predicate OverAfter(s: Stream, more: seq<Happening>, t: Stream) {
    && t.calls == s.calls + Late(s, more) && t.steps == s.steps
    && t.status == (if Closes(more) then Closed else Over)
    && (t.timer <==> s.timer && !Closes(more) && !FiresFirst(more))
  }

  lemma OverStep(p: Platform, s: Stream, more: seq<Happening>, r: Reader, h: Happening)
    requires OverAfter(s, more, r.stream)
    ensures OverAfter(s, more + [h], OnHappening(p, r, h).stream)
  {
    assert (more + [h])[..|more|] == more;
    assert Closes(more + [h]) <==> Closes(more) || h.CloseCalled?;
  }

  /** Once reading is over without a close, whatever happens, exactly the scheduled update can still come. */
  lemma {:induction false} AfterOver(p: Platform, hs: seq<Happening>, more: seq<Happening>)
    requires Run(p, hs).stream.status.Over?
    ensures OverAfter(Run(p, hs).stream, more, Run(p, hs + more).stream)
    decreases |more|
  {
    if more == [] {
      assert hs + more == hs;
    } else {
      var n := |more| - 1;
      AfterOver(p, hs, more[..n]);
      assert (hs + more)[..|hs + more| - 1] == hs + more[..n] && more == more[..n] + [more[n]];
      OverStep(p, Run(p, hs).stream, more[..n], Run(p, hs + more[..n]), more[n]);
    }
  }

  /**
   * A read that fails: whatever happens afterwards, the error callback is followed by a progress update
   * exactly when one is scheduled, there are steps, and its timer fires before a close; nothing else
   * follows.
   */
  lemma ProgressAfterFailureIff(p: Platform, hs: seq<Happening>, more: seq<Happening>)
    requires Run(p, hs).stream.status.Open?
    ensures var s := Run(p, hs).stream;
            Run(p, hs + [ReadFails] + more).stream.calls == s.calls + [OnError(Failed)] + Late(s, more)
  {
    assert (hs + [ReadFails])[..|hs|] == hs;
    AfterOver(p, hs + [ReadFails], more);
  }

  lemma OneBlockText(block: string)
    requires Sse.Frameable(block)
    ensures Sse.Split(block + "\n\n").0 == [block]
  {
    Sse.SplitFirst(block, "");
    assert block + "\n\n" + "" == block + "\n\n" && Sse.Split("").0 == [] && [block] + [] == [block];
  }

  lemma OneBlock(p: Platform, s: Stream, block: string)
    ensures s.status.Open? ==> OnBlocks(p, s, [block]) == OnBlock(p, s, block)
  {
    assert [block][1..] == [] && OnBlocks(p, OnBlock(p, s, block), []) == OnBlock(p, s, block);
  }

  lemma OneBlockChunk(p: Platform, text: string, block: string)
    requires Sse.Split(text).0 == [block]
    ensures Run(p, [Chunk(text)]).stream == OnBlock(p, FRESH, block)
  {
    OneBlock(p, FRESH, block);
    assert [Chunk(text)][..0] == [] && Run(p, []) == Reader(FRESH, "") && "" + text == text;
  }

  /** It does happen: a step starts, the read fails, and then the timer fires. */
  lemma ProgressAfterFailure(p: Platform, text: string, b: Block)
    requires Sse.Frameable(text) && ParseBlock(p, text) == Some(b) && KindOf(b.event) == ToolStart && !b.data.JNull?
    ensures |OnBlock(p, FRESH, text).steps| == 1
    ensures Run(p, [Chunk(text + "\n\n")] + [ReadFails] + [TimerFires]).stream.calls
         == [OnError(Failed), OnProgress(OnBlock(p, FRESH, text).steps)]
  {
    OneBlockText(text);
    OneBlockChunk(p, text + "\n\n", text);
    var s := OnBlock(p, FRESH, text);
    assert s == OnEvent(p, FRESH, ToolStart, b.data);
    assert [TimerFires][..0] == [] && FiresFirst([TimerFires]);
    ProgressAfterFailureIff(p, [Chunk(text + "\n\n")], [TimerFires]);
  }

  /** A block that cannot be digested is reported, and leaves steps and timer as they were. */
  lemma {:induction false} CrashIsReported(p: Platform, s: Stream, blocks: seq<string>) returns (k: nat)
    requires s.status.Open? && OnBlocks(p, s, blocks).status.Over?
    ensures k < |blocks| && OnBlocks(p, s, blocks[..k]).status.Open?
    ensures OnBlocks(p, s, blocks) == Called(OnBlocks(p, s, blocks[..k]), OnError(Failed)).(status := Over)
    decreases |blocks|
  {
    var first := OnBlock(p, s, blocks[0]);
    if first.status.Open? {
      var j := CrashIsReported(p, first, blocks[1..]);
      k := j + 1;
      assert blocks[..k][0] == blocks[0] && blocks[..k][1..] == blocks[1..][..j];
    } else {
      k := 0;
      assert blocks[..0] == [] && OnBlocks(p, s, blocks) == first;
    }
  }

  /** The same for a chunk in which block `k` cannot be digested: `s` is the stream before it. */
  lemma ProgressAfterCrashIff(p: Platform, hs: seq<Happening>, text: string, more: seq<Happening>)
    returns (k: nat, s: Stream)
    requires Run(p, hs).stream.status.Open? && Run(p, hs + [Chunk(text)]).stream.status.Over?
    ensures var blocks := Sse.Split(Run(p, hs).buffer + text).0;
            k < |blocks| && s == OnBlocks(p, Run(p, hs).stream, blocks[..k]) && s.status.Open?
    ensures Run(p, hs + [Chunk(text)] + more).stream.calls == s.calls + [OnError(Failed)] + Late(s, more)
  {
    assert (hs + [Chunk(text)])[..|hs|] == hs;
    var blocks := Sse.Split(Run(p, hs).buffer + text).0;
    k := CrashIsReported(p, Run(p, hs).stream, blocks);
    s := OnBlocks(p, Run(p, hs).stream, blocks[..k]);
    AfterOver(p, hs + [Chunk(text)], more);
  }

  lemma {:induction false} SilentWhenClosed(p: Platform, hs: seq<Happening>, more: seq<Happening>)
    requires Run(p, hs).stream.status.Closed?
    ensures Run(p, hs + more).stream.status.Closed? && Run(p, hs + more).stream.calls == Run(p, hs).stream.calls
    decreases |more|
  {
    if more == [] {
      assert hs + more == hs;
    } else {
      var n := |more| - 1;
      SilentWhenClosed(p, hs, more[..n]);
      assert (hs + more)[..|hs + more| - 1] == hs + more[..n];
    }
  }

  /** After the consumer closes the stream it is never called again. */
  lemma SilentAfterClose(p: Platform, hs: seq<Happening>, more: seq<Happening>)
    ensures Run(p, hs + [CloseCalled] + more).stream.status.Closed?
    ensures Run(p, hs + [CloseCalled] + more).stream.calls == Run(p, hs).stream.calls
  {
    assert (hs + [CloseCalled])[..|hs|] == hs;
    SilentWhenClosed(p, hs + [CloseCalled], more);
  }

  /** When the text ends by itself, the steps so far are reported once more, and reading is over. */
  lemma EndReportsSteps(p: Platform, hs: seq<Happening>)
    requires Run(p, hs).stream.status.Open?
    ensures var s, t := Run(p, hs).stream, Run(p, hs + [ReadEnds]).stream;
            t.status.Over? && t.calls == s.calls + if s.steps == [] then [] else [OnProgress(s.steps)]
  {
    assert (hs + [ReadEnds])[..|hs|] == hs;
  }
}
