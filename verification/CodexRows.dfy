/** From the upstream's text and the rows in it to what is delivered, without the classification of events. */
module CodexRows {
  import opened Prelude
  import opened Json
  import opened JsonText
  import opened CodexStream
  import opened CodexStreamReading
  import opened CodexToolCalls
  import opened CodexToolOrder
  import opened CodexFields
  import Sse

  // ---------------------------------------------------------------------------------------------
  // Rows

  /** Line `i` is the first of the block that says `data:`. */
  ghost predicate FirstData(block: string, i: nat) {
    && i < |Lines(block)| && "data:" <= Trim(Lines(block)[i])
    && forall j | 0 <= j < i :: !("data:" <= Trim(Lines(block)[j]))
  }

  function PayloadAt(block: string, i: nat): string
    requires i < |Lines(block)| && "data:" <= Trim(Lines(block)[i])
  {
    Trim(Trim(Lines(block)[i])[5..])
  }

  /** The block's payload, which is neither empty nor the end marker, parses to this row. */
  ghost predicate Carries(p: Platform, block: string, row: Json) {
    exists i: nat ::
      && FirstData(block, i)
      && PayloadAt(block, i) != "" && PayloadAt(block, i) != "[DONE]"
      && p.parse(PayloadAt(block, i)) == Some(row)
  }

  lemma {:induction false} DataOfIs(lines: seq<string>) returns (i: nat)
    ensures i <= |lines| && forall j | 0 <= j < i :: !("data:" <= Trim(lines[j]))
    ensures if i < |lines| then "data:" <= Trim(lines[i]) && DataOf(lines) == Some(Trim(Trim(lines[i])[5..]))
            else DataOf(lines) == None
  {
    if lines == [] {
      i := 0;
    } else if "data:" <= Trim(lines[0]) {
      i := 0;
    } else {
      var k := DataOfIs(lines[1..]);
      i := k + 1;
      assert forall j | 0 < j < i :: lines[j] == lines[1..][j - 1];
    }
  }

  lemma CarriedIsMapped(p: Platform, block: string, row: Json)
    requires Carries(p, block, row)
    ensures EventOf(p, block) == Classify(p, row)
  {
    var i: nat :| FirstData(block, i) && PayloadAt(block, i) != "" && PayloadAt(block, i) != "[DONE]"
                  && p.parse(PayloadAt(block, i)) == Some(row);
    var k := DataOfIs(Lines(block));
    assert k == i;
  }

  /** A block whose event is not ignored carries a row. */
  lemma MappedIsCarried(p: Platform, block: string) returns (row: Json)
    requires !EventOf(p, block).Ignored?
    ensures Carries(p, block, row) && EventOf(p, block) == Classify(p, row)
  {
    var i := DataOfIs(Lines(block));
    assert FirstData(block, i);
    row := p.parse(PayloadAt(block, i)).value;
  }

  /** The usual form of a block: an event line and a data line. */
  lemma EventAndData(p: Platform, name: string, payload: string, row: Json)
    requires IsLine(name) && IsLine(payload) && payload != "" && payload != "[DONE]" && Trim(payload) == payload
    requires p.parse(payload) == Some(row)
    ensures Carries(p, "event: " + name + "\n" + ("data: " + payload), row)
  {
    var first, second := "event: " + name, "data: " + payload;
    var lines := [first, second];
    assert lines[1..] == [second] && JoinedLines(lines) == first + "\n" + second;
    LinesOfJoined(lines);
    EventLineIsNoData(name);
    DataLineIsRead(payload);
    assert Lines(first + "\n" + second) == lines;
    assert FirstData(first + "\n" + second, 1);
  }

  lemma EventLineIsNoData(name: string)
    ensures !("data:" <= Trim("event: " + name))
  {
    var line := "event: " + name;
    assert line[0] == 'e' && TrimStart(line) == line;
    TrimEndKeepsFirst(line);
  }

  lemma DataLineIsRead(payload: string)
    requires payload != "" && Trim(payload) == payload
    ensures "data:" <= Trim("data: " + payload) && Trim(Trim("data: " + payload)[5..]) == payload
  {
    var line := "data: " + payload;
    var i, j := TrimIsMiddle(payload);
    assert !IsSpace(payload[0]) && !IsSpace(payload[|payload| - 1]);
    assert TrimStart(line) == line && TrimEnd(line) == line;
    assert line[5..] == " " + payload && (" " + payload)[1..] == payload;
    assert TrimStart(payload) == payload && TrimStart(" " + payload) == payload;
  }

  // ---------------------------------------------------------------------------------------------
  // What a row means

  /** The `type` of a row, as text. */
  function TypeText(p: Platform, row: Json): string {
    match Field(row, "type")
    case Some(JStr(s)) => s
    case Some(j) => if Truthy(Some(j)) then p.show(j) else ""
    case None => ""
  }

  predicate HasType(p: Platform, row: Json, name: string) {
    row.JObj? && TypeText(p, row) == name
  }

  /** A row that says that the response did not succeed. */
  predicate SaysFailed(p: Platform, row: Json) {
    HasType(p, row, "response.failed") || HasType(p, row, "response.incomplete") || HasType(p, row, "error")
  }

  predicate SaysCompleted(p: Platform, row: Json) {
    HasType(p, row, "response.completed")
  }

  function TextDelta(p: Platform, row: Json): Option<string> {
    if HasType(p, row, "response.output_text.delta") then
      match Field(row, "delta")
      case Some(JStr(s)) => Some(s)
      case _ => None
    else None
  }

  /** The row is about a function call. */
  predicate SaysCall(p: Platform, row: Json) {
    || HasType(p, row, "response.function_call_arguments.delta")
    || HasType(p, row, "response.function_call_arguments.done")
    || ((HasType(p, row, "response.output_item.added") || HasType(p, row, "response.output_item.done"))
        && HasCallItem(row))
  }

  predicate HasCallItem(row: Json) {
    && IsObject(Field(row, "item"))
    && Field(Field(row, "item").value, "type") == Some(JStr("function_call"))
  }

  lemma TypeIsFirstText(p: Platform, row: Json)
    ensures FirstText(p, Field(row, "type"), None, None, "") == TypeText(p, row)
  {
  }

  lemma FailedIff(p: Platform, row: Json)
    ensures Classify(p, row).Failed? <==> SaysFailed(p, row)
  {
    TypeIsFirstText(p, row);
  }

  lemma CompletedIff(p: Platform, row: Json)
    ensures Classify(p, row).Completed? <==> SaysCompleted(p, row)
  {
    TypeIsFirstText(p, row);
  }

  lemma TextIff(p: Platform, row: Json)
    ensures Classify(p, row).Text? <==> TextDelta(p, row).Some?
    ensures Classify(p, row).Text? ==> TextDelta(p, row) == Some(Classify(p, row).text)
  {
    TypeIsFirstText(p, row);
  }

  lemma CallIff(p: Platform, row: Json)
    ensures ForItem(Classify(p, row)) <==> SaysCall(p, row)
  {
    TypeIsFirstText(p, row);
  }

  /** The properties of an item are read under their own names. */
  predicate ReadFrom(src: Source, j: Json) {
    && src.itemId == Field(j, "item_id") && src.id == Field(j, "id") && src.callId == Field(j, "call_id")
    && src.name == Field(j, "name") && src.arguments == Field(j, "arguments")
    && (src.append <==> Truthy(Field(j, "append")))
  }

  /** What a function call row brings: an item added or closed, or a piece of its arguments. */
  lemma CallSource(p: Platform, row: Json)
    requires SaysCall(p, row)
    ensures var e := Classify(p, row);
            && (e.Added? <==> HasType(p, row, "response.output_item.added"))
            && (e.Delta? <==> HasType(p, row, "response.function_call_arguments.delta"))
            && (e.Added? ==> ReadFrom(e.src, Field(row, "item").value))
            && (e.Done? ==> ReadFrom(e.src, if IsObject(Field(row, "item")) then Field(row, "item").value else row))
            && (e.Delta? ==> e.itemId == Field(row, "item_id")
                             && Some(JStr(e.text)) == (if Field(row, "delta").Some? && Field(row, "delta").value.JStr?
                                                       then Field(row, "delta") else Some(JStr(""))))
  {
    TypeIsFirstText(p, row);
  }

  /** The failure code is the text `code` of the row's error, or else of its response's error. */
  ghost predicate HasCode(row: Json, code: string) {
    || (IsObject(Field(row, "error")) && Field(Field(row, "error").value, "code") == Some(JStr(code)))
    || (&& !IsObject(Field(row, "error")) && IsObject(Field(row, "response"))
        && IsObject(Field(Field(row, "response").value, "error"))
        && Field(Field(Field(row, "response").value, "error").value, "code") == Some(JStr(code)))
  }

  lemma FailureCodeIff(p: Platform, row: Json, code: string)
    requires SaysFailed(p, row)
    ensures Classify(p, row) == Failed(Some(code)) <==> HasCode(row, code)
  {
    FailedIff(p, row);
    CompletedIff(p, row);
    TypeIsFirstText(p, row);
  }

  /** The usage of a completed row is that of its response, or its own if it has no response. */
  lemma CompletedUsage(p: Platform, row: Json)
    requires SaysCompleted(p, row)
    ensures Classify(p, row).Completed?
    ensures var usage := Classify(p, row).usage;
            && (IsObject(Field(row, "response")) ==> usage == p.usage(Field(Field(row, "response").value, "usage")))
            && (!IsObject(Field(row, "response")) ==> usage == p.usage(Field(row, "usage")))
  {
    CompletedIff(p, row);
    TypeIsFirstText(p, row);
  }

  // ---------------------------------------------------------------------------------------------
  // Reads

  /** The blocks of a read, with what is left at its end. */
  function BlocksOf(chunks: seq<Chunk>, tail: string): seq<string> {
    var (blocks, rest) := Ahead("", chunks);
    blocks + LastBlocks(rest, tail)
  }

  /**
   * The blocks of a read are the pieces between the blank lines of its normalized text, and what follows
   * the last blank line, unless that is nothing but white space.
   */
  lemma BlocksAre(chunks: seq<Chunk>, tail: string) returns (blocks: seq<string>, rest: string)
    ensures Sse.Encode(blocks, rest) == Sse.Join(Sse.NormalizeAll(Texts(chunks)))
    ensures !Sse.HasSeparator(rest) && forall b | b in blocks :: Sse.Frameable(b)
    ensures BlocksOf(chunks, tail)
         == blocks + if AllSpace(rest + Sse.Normalize(tail)) then [] else [rest + Sse.Normalize(tail)]
  {
    blocks, rest := Ahead("", chunks).0, Ahead("", chunks).1;
    StartAhead(chunks);
    Sse.SplitThenEncode(Sse.Join(Sse.NormalizeAll(Texts(chunks))));
    BlankIff(rest + Sse.Normalize(tail));
  }

  function TailOf(end: End): string {
    if end.Closed? then end.tail else ""
  }

  lemma EventAt(c: Config, chunks: seq<Chunk>, tail: string, i: nat)
    requires i < |BlocksOf(chunks, tail)|
    ensures |AllEvents(c, chunks, tail)| == |BlocksOf(chunks, tail)|
    ensures AllEvents(c, chunks, tail)[i] == EventOf(c.platform, BlocksOf(chunks, tail)[i])
  {
  }

  /** A read of a text with a failing row, wherever it stands, never releases a tool call and is no success. */
  lemma NothingAfterFailingRow(c: Config, chunks: seq<Chunk>, end: End, i: nat, row: Json)
    requires i < |BlocksOf(chunks, TailOf(end))| && Carries(c.platform, BlocksOf(chunks, TailOf(end))[i], row)
    requires SaysFailed(c.platform, row)
    ensures !Consume(c, chunks, end).outcome.Success?
    ensures forall f | f in Consume(c, chunks, end).sent :: f.TextFrame?
  {
    var events := AllEvents(c, chunks, TailOf(end));
    EventAt(c, chunks, TailOf(end), i);
    CarriedIsMapped(c.platform, BlocksOf(chunks, TailOf(end))[i], row);
    FailedIff(c.platform, row);
    assert events[i] in events && Fails(events);
    var texts, tools := ToolsInOrder(c, chunks, end);
    TextsAreText(events, texts);
  }

  /** A success, like a delivered tool call, needs a row that says that the response completed. */
  lemma CompletedRowNeeded(c: Config, chunks: seq<Chunk>, end: End) returns (i: nat, row: Json)
    requires Consume(c, chunks, end).outcome.Success?
          || exists f :: f in Consume(c, chunks, end).sent && f.ToolFrame?
    ensures i < |BlocksOf(chunks, TailOf(end))| && Carries(c.platform, BlocksOf(chunks, TailOf(end))[i], row)
    ensures SaysCompleted(c.platform, row)
  {
    var events := AllEvents(c, chunks, TailOf(end));
    var texts, tools := ToolsInOrder(c, chunks, end);
    TextsAreText(events, texts);
    var e :| e in events && e.Completed?;
    i :| 0 <= i < |events| && events[i] == e;
    EventAt(c, chunks, TailOf(end), i);
    row := MappedIsCarried(c.platform, BlocksOf(chunks, TailOf(end))[i]);
    CompletedIff(c.platform, row);
  }

  /** The text frame of a block: the string delta of an output-text row. */
  ghost predicate Speaks(p: Platform, block: string, text: string) {
    exists row :: Carries(p, block, row) && TextDelta(p, row) == Some(text)
  }

  /** The texts of the blocks that speak, in their order. */
  ghost predicate SpokenBy(p: Platform, blocks: seq<string>, frames: seq<Frame>) {
    if blocks == [] then frames == []
    else
      var n := |blocks| - 1;
      || (frames != [] && frames[|frames| - 1].TextFrame? && Speaks(p, blocks[n], frames[|frames| - 1].text)
          && SpokenBy(p, blocks[..n], frames[..|frames| - 1]))
      || ((forall text :: !Speaks(p, blocks[n], text)) && SpokenBy(p, blocks[..n], frames))
  }

  lemma SpeaksIff(p: Platform, block: string, text: string)
    ensures Speaks(p, block, text) <==> EventOf(p, block) == Text(text)
  {
    if EventOf(p, block).Text? {
      var row := MappedIsCarried(p, block);
      TextIff(p, row);
    }
    if Speaks(p, block, text) {
      var row :| Carries(p, block, row) && TextDelta(p, row) == Some(text);
      CarriedIsMapped(p, block, row);
      TextIff(p, row);
    }
  }

  lemma OneMoreBlock(p: Platform, blocks: seq<string>, block: string)
    ensures TextFrames(EventsOf(p, blocks + [block]))
         == TextFrames(EventsOf(p, blocks)) + match EventOf(p, block) case Text(text) => [TextFrame(text)] case _ => []
  {
    var e := EventOf(p, block);
    assert EventsOf(p, blocks + [block]) == EventsOf(p, blocks) + [e];
    TextFramesConcat(EventsOf(p, blocks), [e]);
    assert [e][1..] == [] && TextFrames([e][1..]) == [];
  }

  lemma {:induction false} TextFramesAreSpoken(p: Platform, blocks: seq<string>)
    ensures SpokenBy(p, blocks, TextFrames(EventsOf(p, blocks)))
  {
    if blocks != [] {
      var n := |blocks| - 1;
      TextFramesAreSpoken(p, blocks[..n]);
      OneMoreBlock(p, blocks[..n], blocks[n]);
      assert blocks == blocks[..n] + [blocks[n]];
      forall text
        ensures Speaks(p, blocks[n], text) <==> EventOf(p, blocks[n]) == Text(text)
      {
        SpeaksIff(p, blocks[n], text);
      }
      var before := TextFrames(EventsOf(p, blocks[..n]));
      if EventOf(p, blocks[n]).Text? {
        var frame := TextFrame(EventOf(p, blocks[n]).text);
        assert (before + [frame])[..|before|] == before;
      } else {
        assert before + [] == before;
      }
    }
  }

  /**
   * What any read hands to the sink: first a prefix of the text deltas of the rows, in order, and all of
   * them if anything follows or the read succeeds; then tool frames.
   */
  lemma TextIsDeltas(c: Config, chunks: seq<Chunk>, end: End)
    returns (spoken: seq<Frame>, texts: seq<Frame>, tools: seq<Frame>)
    ensures SpokenBy(c.platform, BlocksOf(chunks, TailOf(end)), spoken)
    ensures Consume(c, chunks, end).sent == texts + tools && texts <= spoken
    ensures forall f | f in tools :: f.ToolFrame?
    ensures tools != [] || Consume(c, chunks, end).outcome.Success? ==> texts == spoken
  {
    var events := AllEvents(c, chunks, TailOf(end));
    texts, tools := ToolsInOrder(c, chunks, end);
    spoken := TextFrames(events);
    TextFramesAreSpoken(c.platform, BlocksOf(chunks, TailOf(end)));
    SentIsPrefix(texts, spoken);
  }

  lemma SentIsPrefix(texts: seq<Frame>, spoken: seq<Frame>)
    requires Sends([], texts, spoken, false)
    ensures texts <= spoken
  {
    var n: nat :| n <= |spoken| && texts == [] + spoken[..n];
  }

  /** A delivered tool call comes from an item of which some row of the text speaks. */
  lemma CallsComeFromRows(c: Config, chunks: seq<Chunk>, end: End, f: Frame) returns (i: nat, row: Json)
    requires f in Consume(c, chunks, end).sent && f.ToolFrame?
    ensures i < |BlocksOf(chunks, TailOf(end))| && Carries(c.platform, BlocksOf(chunks, TailOf(end))[i], row)
    ensures SaysCall(c.platform, row)
  {
    var events := AllEvents(c, chunks, TailOf(end));
    var key, m, closed := DeliveredFramesSay(c, chunks, end, f);
    i := OwnIsThere(c.platform, events[..m], key);
    EventAt(c, chunks, TailOf(end), i);
    row := MappedIsCarried(c.platform, BlocksOf(chunks, TailOf(end))[i]);
    CallIff(c.platform, row);
  }

  lemma {:induction false} OwnIsThere(p: Platform, events: seq<Event>, key: string) returns (i: nat)
    requires Of(p, events, key) != []
    ensures i < |events| && Concerns(p, events[i], key)
  {
    if Concerns(p, events[|events| - 1], key) {
      i := |events| - 1;
    } else {
      i := OwnIsThere(p, events[..|events| - 1], key);
    }
  }
}
