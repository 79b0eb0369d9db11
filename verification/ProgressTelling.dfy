/** What the progress events of a text come to: the steps, and the callbacks about them. */
module ProgressTelling {
  import opened Prelude
  import opened Json
  import opened JsonText
  import opened ProgressStream
  import Sse

  // ---------------------------------------------------------------------------------------------
  // The steps

  datatype Parsed = Parsed(kind: Kind, data: Json)

  /** The steps after some events, as the reader keeps them. */
  function StepsAfter(p: Platform, events: seq<Parsed>): seq<ProgressStep> {
    if events == [] then []
    else OnEvent(p, FRESH.(steps := StepsAfter(p, events[..|events| - 1])), events[|events| - 1].kind,
                 events[|events| - 1].data).steps
  }

  /** The names of the events that the reader knows. */
  lemma KindNames(event: string)
    ensures KindOf(event).ToolStart? <==> event == "tool_start"
    ensures KindOf(event).ToolComplete? <==> event == "tool_complete"
    ensures KindOf(event).Suspended? <==> event == "suspended"
    ensures KindOf(event).Terminal? <==> event == "terminal"
    ensures KindOf(event).ErrorEvent? <==> event == "error"
  {
  }

  /** The data of the starting events, in order. */
  function Starts(events: seq<Parsed>): seq<Json> {
    if events == [] then []
    else
      Starts(events[..|events| - 1])
      + if events[|events| - 1].kind.ToolStart? && !events[|events| - 1].data.JNull? then [events[|events| - 1].data]
        else []
  }

  /** The tool call that a starting event names; none is the empty name. */
  function StartId(p: Platform, d: Json): string {
    match Field(d, "toolCallId")
    case None => ""
    case Some(JNull) => ""
    case Some(j) => ToText(p, j)
  }

  /** The tool call that a completing event names. */
  function DoneId(p: Platform, d: Json): string {
    match Field(d, "toolCallId")
    case None => "undefined"
    case Some(j) => ToText(p, j)
  }

  predicate IsStarted(p: Platform, starts: seq<Json>, id: string) {
    exists i | 0 <= i < |starts| :: StartId(p, starts[i]) == id
  }

  /** The last completion of a tool call after it started. */
  function LastDone(p: Platform, events: seq<Parsed>, id: string): Option<Json> {
    if events == [] then None
    else
      var before, e := events[..|events| - 1], events[|events| - 1];
      if e.kind.ToolComplete? && !e.data.JNull? && DoneId(p, e.data) == id && IsStarted(p, Starts(before), id) then
        Some(e.data)
      else LastDone(p, before, id)
  }

  /** The step of a start: running, or as its last completion says. A repeated start is never completed. */
  ghost predicate StepSays(p: Platform, starts: seq<Json>, done: Option<Json>, i: nat, step: ProgressStep)
    requires i < |starts|
  {
    && step.labels == starts[i] && step.toolCallId == StartId(p, starts[i])
    && if done.None? || IsStarted(p, starts[..i], StartId(p, starts[i])) then
         step.state == Running && step.durationMs == None && step.errorSummary == None
       else
         && (step.state.Errored? <==> Truthy(Field(done.value, "isError"))) && !step.state.Running?
         && (forall n :: step.durationMs == Some(n) <==> Field(done.value, "durationMs") == Some(JNum(n)))
         && (forall s :: step.errorSummary == Some(s) <==> Field(done.value, "errorSummary") == Some(JStr(s)))
  }

  ghost predicate StepsSay(p: Platform, events: seq<Parsed>, steps: seq<ProgressStep>) {
    var starts := Starts(events);
    && |steps| == |starts|
    && forall i | 0 <= i < |starts| :: StepSays(p, starts, LastDone(p, events, StartId(p, starts[i])), i, steps[i])
  }

  lemma StartedStays(p: Platform, starts: seq<Json>, d: Json, i: nat)
    requires i < |starts|
    ensures (starts + [d])[i] == starts[i] && (starts + [d])[..i] == starts[..i]
  {
  }

  lemma StartSays(p: Platform, before: seq<Parsed>, steps: seq<ProgressStep>, d: Json)
    requires StepsSay(p, before, steps) && !d.JNull?
    ensures StepsSay(p, before + [Parsed(ToolStart, d)],
                     steps + [ProgressStep(TextOr(p, Field(d, "toolCallId"), ""), d, Running, None, None)])
  {
    var events, starts := before + [Parsed(ToolStart, d)], Starts(before);
    assert events[..|before|] == before && Starts(events) == starts + [d];
    forall i | 0 <= i < |starts|
      ensures (starts + [d])[i] == starts[i] && (starts + [d])[..i] == starts[..i]
    {
      StartedStays(p, starts, d, i);
    }
    assert (starts + [d])[..|starts|] == starts;
    NotDoneBeforeStart(p, before, StartId(p, d));
  }

  /** Nothing is completed before it starts. */
  lemma {:induction false} NotDoneBeforeStart(p: Platform, events: seq<Parsed>, id: string)
    ensures LastDone(p, events, id).Some? ==> IsStarted(p, Starts(events), id)
  {
    if events != [] {
      var before := events[..|events| - 1];
      NotDoneBeforeStart(p, before, id);
      if IsStarted(p, Starts(before), id) {
        var i :| 0 <= i < |Starts(before)| && StartId(p, Starts(before)[i]) == id;
        assert Starts(events)[i] == Starts(before)[i];
      }
    }
  }

  lemma FirstStepOf(p: Platform, starts: seq<Json>, steps: seq<ProgressStep>, id: string)
    requires |steps| == |starts| && forall i | 0 <= i < |starts| :: steps[i].toolCallId == StartId(p, starts[i])
    ensures FindStep(steps, id) < |steps| <==> IsStarted(p, starts, id)
    ensures FindStep(steps, id) < |steps| ==> !IsStarted(p, starts[..FindStep(steps, id)], id)
    ensures forall i | 0 <= i < |steps| && i != FindStep(steps, id) && StartId(p, starts[i]) == id ::
              IsStarted(p, starts[..i], id)
  {
    var k := FindStep(steps, id);
    forall i | 0 <= i < |steps| && i != k && StartId(p, starts[i]) == id
      ensures IsStarted(p, starts[..i], id)
    {
      assert steps[i].toolCallId == id && k < i;
      assert starts[..i][k] == starts[k];
    }
  }

  /** A completion changes the first step of its tool call, in all but its name and data, and no other step. */
  lemma CompletesFirst(p: Platform, steps: seq<ProgressStep>, d: Json, i: nat)
    requires i < |steps|
    ensures |Complete(p, steps, d)| == |steps|
    ensures var step, k := Complete(p, steps, d)[i], FindStep(steps, DoneId(p, d));
            && step.labels == steps[i].labels && step.toolCallId == steps[i].toolCallId
            && (i != k ==> step == steps[i])
            && (i == k ==>
                  && !step.state.Running? && (step.state.Errored? <==> Truthy(Field(d, "isError")))
                  && (forall n :: step.durationMs == Some(n) <==> Field(d, "durationMs") == Some(JNum(n)))
                  && (forall s :: step.errorSummary == Some(s) <==> Field(d, "errorSummary") == Some(JStr(s))))
  {
  }

  lemma DoneSays(p: Platform, before: seq<Parsed>, steps: seq<ProgressStep>, d: Json)
    requires StepsSay(p, before, steps) && !d.JNull?
    ensures StepsSay(p, before + [Parsed(ToolComplete, d)], Complete(p, steps, d))
  {
    var events, starts := before + [Parsed(ToolComplete, d)], Starts(before);
    assert events[..|before|] == before && Starts(events) == starts + [] && starts + [] == starts;
    forall i | 0 <= i < |starts|
      ensures StepSays(p, starts, LastDone(p, events, StartId(p, starts[i])), i, Complete(p, steps, d)[i])
    {
      DoneSaysAt(p, before, steps, d, i);
    }
  }

  lemma DoneSaysAt(p: Platform, before: seq<Parsed>, steps: seq<ProgressStep>, d: Json, i: nat)
    requires StepsSay(p, before, steps) && !d.JNull? && i < |Starts(before)|
    ensures |Complete(p, steps, d)| == |steps|
    ensures var starts := Starts(before);
            var done := LastDone(p, before + [Parsed(ToolComplete, d)], StartId(p, starts[i]));
            StepSays(p, starts, done, i, Complete(p, steps, d)[i])
  {
    var starts, id := Starts(before), DoneId(p, d);
    assert (before + [Parsed(ToolComplete, d)])[..|before|] == before;
    FirstStepOf(p, starts, steps, id);
    CompletesFirst(p, steps, d, i);
    if StartId(p, starts[i]) == id {
      assert IsStarted(p, starts, id);
    }
  }

  /**
   * The steps that the consumer is told of: one for every started tool call, in order, with its own data,
   * running until its completion arrives, and then errored exactly if that says so, with its duration and
   * summary.
   */
  lemma {:induction false} StepsFollowEvents(p: Platform, events: seq<Parsed>)
    ensures StepsSay(p, events, StepsAfter(p, events))
  {
    if events != [] {
      var before, e := events[..|events| - 1], events[|events| - 1];
      var steps := StepsAfter(p, before);
      assert events == before + [e];
      StepsFollowEvents(p, before);
      if e.kind.ToolStart? && !e.data.JNull? {
        StartSays(p, before, steps, e.data);
      } else if e.kind.ToolComplete? && !e.data.JNull? {
        DoneSays(p, before, steps, e.data);
      } else {
        assert Starts(events) == Starts(before) + [] && Starts(before) + [] == Starts(before);
      }
    }
  }

  /** The events that the blocks of a text parse to. */
  function EventsIn(p: Platform, blocks: seq<string>): seq<Parsed> {
    if blocks == [] then []
    else
      EventsIn(p, blocks[..|blocks| - 1])
      + match ParseBlock(p, blocks[|blocks| - 1])
        case None => []
        case Some(Block(event, d)) => [Parsed(KindOf(event), d)]
  }

  lemma {:induction false} BlocksGiveSteps(p: Platform, blocks: seq<string>)
    requires OnBlocks(p, FRESH, blocks).status.Open?
    ensures OnBlocks(p, FRESH, blocks).steps == StepsAfter(p, EventsIn(p, blocks))
  {
    if blocks != [] {
      var before, last := blocks[..|blocks| - 1], blocks[|blocks| - 1];
      var s := OnBlocks(p, FRESH, before);
      OnBlocksConcat(p, FRESH, before, [last]);
      assert blocks == before + [last];
      OneBlock(p, s, last);
      BlocksGiveSteps(p, before);
      match ParseBlock(p, last)
      case None =>
        assert EventsIn(p, blocks) == EventsIn(p, before) + [] && EventsIn(p, before) + [] == EventsIn(p, before);
      case Some(Block(event, d)) =>
        var events, e := EventsIn(p, before), Parsed(KindOf(event), d);
        assert (events + [e])[..|events|] == events && EventsIn(p, blocks) == events + [e];
    }
  }

  /** While reading goes on, the steps are those of the events in the text so far. */
  lemma StepsOfText(p: Platform, hs: seq<Happening>)
    requires forall h | h in hs :: h.Chunk? || h.TimerFires?
    requires Run(p, hs).stream.status.Open?
    ensures StepsSay(p, EventsIn(p, Sse.Split(Text(hs)).0), Run(p, hs).stream.steps)
  {
    TimersDoNotMatter(p, hs);
    BlocksGiveSteps(p, Sse.Split(Text(hs)).0);
    StepsFollowEvents(p, EventsIn(p, Sse.Split(Text(hs)).0));
  }

  // ---------------------------------------------------------------------------------------------
  // The other callbacks

  /** The block is an event of this name with this data. */
  predicate Tells(p: Platform, block: string, event: string, d: Json) {
    ParseBlock(p, block) == Some(Block(event, d))
  }

  /** The last `event:` line names the event. */
  function EventName(lines: seq<string>): string {
    if lines == [] then "message"
    else if "event:" <= lines[|lines| - 1] then Trim(lines[|lines| - 1][6..])
    else EventName(lines[..|lines| - 1])
  }

  /** The `data:` lines, in order. */
  function DataLines(lines: seq<string>): seq<string> {
    if lines == [] then []
    else (if "data:" <= lines[0] then [Trim(lines[0][5..])] else []) + DataLines(lines[1..])
  }

  lemma {:induction false} DataLinesConcat(a: seq<string>, b: seq<string>)
    ensures DataLines(a + b) == DataLines(a) + DataLines(b)
    decreases |a|
  {
    if a == [] {
      assert a + b == b;
    } else {
      assert (a + b)[0] == a[0] && (a + b)[1..] == a[1..] + b;
      DataLinesConcat(a[1..], b);
    }
  }

  lemma OneDataLine(line: string)
    ensures DataLines([line]) == if "data:" <= line then [Trim(line[5..])] else []
  {
    var none: seq<string> := [];
    assert [line][1..] == none && DataLines(none) == none;
    assert forall s: seq<string> :: s + none == s;
  }

  lemma OneField(line: string)
    ensures "event:" <= line ==> !("data:" <= line)
  {
    if "event:" <= line {
      assert line[0] == 'e';
    }
  }

  lemma {:induction false} FieldsAre(lines: seq<string>)
    ensures Fields(lines) == (EventName(lines), DataLines(lines))
  {
    if lines != [] {
      var before, last := lines[..|lines| - 1], lines[|lines| - 1];
      FieldsAre(before);
      DataLinesConcat(before, [last]);
      OneDataLine(last);
      OneField(last);
      assert lines == before + [last] && DataLines(before) + [] == DataLines(before);
    }
  }

  lemma {:induction false} JoinsLines(lines: seq<string>)
    requires lines != []
    ensures JoinLines(lines) == JoinedLines(lines)
  {
    if |lines| > 1 {
      JoinsLines(lines[..|lines| - 1]);
      JoinedLast(lines[..|lines| - 1], lines[|lines| - 1]);
      assert lines == lines[..|lines| - 1] + [lines[|lines| - 1]];
    }
  }

  lemma {:induction false} JoinedLast(lines: seq<string>, last: string)
    requires lines != []
    ensures JoinedLines(lines + [last]) == JoinedLines(lines) + "\n" + last
    decreases |lines|
  {
    assert (lines + [last])[1..] == lines[1..] + [last];
    if |lines| > 1 {
      JoinedLast(lines[1..], last);
      var a, b := lines[0] + "\n", JoinedLines(lines[1..]);
      assert a + (b + "\n" + last) == a + b + "\n" + last;
    } else {
      assert lines[1..] + [last] == [last];
    }
  }

  /** A block is an event exactly when it has data, and the data lines, put together, parse. */
  lemma TellsIff(p: Platform, block: string, event: string, d: Json)
    ensures Tells(p, block, event, d)
       <==> (&& event == EventName(Lines(block)) && DataLines(Lines(block)) != []
             && p.parse(JoinedLines(DataLines(Lines(block)))) == Some(d))
  {
    FieldsAre(Lines(block));
    if DataLines(Lines(block)) != [] {
      JoinsLines(DataLines(Lines(block)));
    }
  }

  /** The usual form of a block: an event line and a data line. */
  lemma EventAndData(p: Platform, event: string, payload: string, d: Json)
    requires IsLine(event) && IsLine(payload) && Trim(event) == event && Trim(payload) == payload
    requires p.parse(payload) == Some(d)
    ensures Tells(p, "event:" + event + "\n" + ("data:" + payload), event, d)
  {
    var first, second := "event:" + event, "data:" + payload;
    var lines := [first, second];
    assert lines[1..] == [second] && JoinedLines(lines) == first + "\n" + second;
    LinesOfJoined(lines);
    assert lines[..1] == [first] && [first][..0] == [];
    assert first[6..] == event && second[5..] == payload && !("event:" <= second);
    assert Fields([first]) == (event, []);
    assert Fields(lines) == (event, [] + [payload]) && [] + [payload] == [payload];
  }

  /** What a suspending block tells. */
  function Suspension(p: Platform, block: string): seq<Callback> {
    match ParseBlock(p, block)
    case Some(Block(event, d)) => if event == "suspended" then [OnSuspended(d)] else []
    case None => []
  }

  function Suspensions(p: Platform, blocks: seq<string>): seq<Callback> {
    if blocks == [] then [] else Suspensions(p, blocks[..|blocks| - 1]) + Suspension(p, blocks[|blocks| - 1])
  }

  lemma OneMoreEssential(p: Platform, s: Stream, kind: Kind, d: Json)
    requires s.status.Open? && OnEvent(p, s, kind, d).status.Open?
    ensures Essential(OnEvent(p, s, kind, d).calls)
         == Essential(s.calls) + if kind.Suspended? then [OnSuspended(d)] else []
  {
    var t := s.(timer := false);
    FlushedAlike(t);
    CalledAlike(Flushed(t), OnSuspended(d));
    assert Essential(s.calls) + [] == Essential(s.calls);
  }

  lemma BlockTells(p: Platform, s: Stream, block: string)
    requires s.status.Open? && OnBlock(p, s, block).status.Open?
    ensures Essential(OnBlock(p, s, block).calls) == Essential(s.calls) + Suspension(p, block)
  {
    match ParseBlock(p, block)
    case None => assert Essential(s.calls) + [] == Essential(s.calls);
    case Some(Block(event, d)) =>
      KindNames(event);
      OneMoreEssential(p, s, KindOf(event), d);
  }

  /** While reading goes on the consumer has been told, progress aside, of every suspension, in order. */
  lemma {:induction false} SuspensionsAreTold(p: Platform, blocks: seq<string>)
    requires OnBlocks(p, FRESH, blocks).status.Open?
    ensures Essential(OnBlocks(p, FRESH, blocks).calls) == Suspensions(p, blocks)
  {
    if blocks != [] {
      var before, last := blocks[..|blocks| - 1], blocks[|blocks| - 1];
      OnBlocksConcat(p, FRESH, before, [last]);
      assert blocks == before + [last];
      OneBlock(p, OnBlocks(p, FRESH, before), last);
      SuspensionsAreTold(p, before);
      BlockTells(p, OnBlocks(p, FRESH, before), last);
    }
  }

  lemma FlushedThenCalled(t: Stream, call: Callback)
    requires !call.OnProgress?
    ensures Essential(Called(Flushed(t), call).calls) == Essential(t.calls) + [call]
  {
    FlushedAlike(t);
    CalledAlike(Flushed(t), call);
  }

  /** What an ending event tells. */
  function Farewell(kind: Kind, d: Json): Callback {
    if kind.Terminal? then OnTerminal(d) else OnError(Reported)
  }

  lemma EndingEvent(p: Platform, s: Stream, kind: Kind, d: Json)
    requires kind.Terminal? || (kind.ErrorEvent? && !d.JNull?)
    ensures OnEvent(p, s, kind, d).status.Closed?
    ensures Essential(OnEvent(p, s, kind, d).calls) == Essential(s.calls) + [Farewell(kind, d)]
  {
    if kind.Terminal? {
      FlushedThenCalled(s.(timer := false), OnTerminal(d));
    } else {
      CalledAlike(s, OnError(Reported));
    }
  }

  lemma EndIsTold(p: Platform, blocks: seq<string>, block: string, b: Block)
    requires OnBlocks(p, FRESH, blocks).status.Open? && ParseBlock(p, block) == Some(b)
    requires KindOf(b.event).Terminal? || (KindOf(b.event).ErrorEvent? && !b.data.JNull?)
    ensures OnBlocks(p, FRESH, blocks + [block]).status.Closed?
    ensures Essential(OnBlocks(p, FRESH, blocks + [block]).calls)
         == Suspensions(p, blocks) + [Farewell(KindOf(b.event), b.data)]
  {
    OnBlocksConcat(p, FRESH, blocks, [block]);
    OneBlock(p, OnBlocks(p, FRESH, blocks), block);
    SuspensionsAreTold(p, blocks);
    EndingEvent(p, OnBlocks(p, FRESH, blocks), KindOf(b.event), b.data);
  }

  /** The first terminal or error block ends the reading, and its callback is the last. */
  lemma FirstEndIsTold(p: Platform, blocks: seq<string>, block: string, d: Json)
    requires OnBlocks(p, FRESH, blocks).status.Open?
    requires Tells(p, block, "terminal", d) || (Tells(p, block, "error", d) && !d.JNull?)
    ensures OnBlocks(p, FRESH, blocks + [block]).status.Closed?
    ensures var calls := Essential(OnBlocks(p, FRESH, blocks + [block]).calls);
            && (Tells(p, block, "terminal", d) ==> calls == Suspensions(p, blocks) + [OnTerminal(d)])
            && (Tells(p, block, "error", d) ==> calls == Suspensions(p, blocks) + [OnError(Reported)])
  {
    EndIsTold(p, blocks, block, ParseBlock(p, block).value);
  }

  /** A suspension and an end come after an update with the steps so far, if there are any. */
  lemma ProgressBeforeTelling(p: Platform, s: Stream, block: string, d: Json)
    requires s.status.Open? && s.steps != [] && (Tells(p, block, "terminal", d) || Tells(p, block, "suspended", d))
    ensures s.calls + [OnProgress(s.steps)] <= OnBlock(p, s, block).calls && !OnBlock(p, s, block).timer
  {
  }

  /** Starts and completions are reported later: they schedule an update and call nobody. */
  lemma StepsAreDebounced(p: Platform, s: Stream, block: string, d: Json)
    requires !d.JNull? && (Tells(p, block, "tool_start", d) || Tells(p, block, "tool_complete", d))
    ensures OnBlock(p, s, block).calls == s.calls && OnBlock(p, s, block).timer
  {
  }
}
