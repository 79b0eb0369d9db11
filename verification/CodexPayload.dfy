/** What the upstream payload says of the request, message by message and field by field. */
module CodexPayload {
  import opened Prelude
  import opened Json
  import opened JsonText
  import ToolNames
  import ToolNameTheorems
  import opened CodexRequest

  /** How many items a message becomes. */
  function Size(m: Message): nat {
    match m.role
    case System => 0
    case Assistant => if m.toolCalls == [] then 1 else |m.toolCalls| + if Blank(m.content) then 0 else 1
    case _ => 1
  }

  /** Where the items of message `k` begin. */
  function Offset(messages: seq<Message>, k: nat): nat
    requires k <= |messages|
  {
    if k == 0 then 0 else Offset(messages, k - 1) + Size(messages[k - 1])
  }

  // ---------------------------------------------------------------------------------------------
  // One message

  predicate IsOutputOf(m: Message, item: Item) {
    && item.CallOutput? && item.output == m.content
    && (m.toolCallId != "" ==> item.callId == m.toolCallId)
    && (m.toolCallId == "" && m.name != "" ==> item.callId == m.name)
    && (m.toolCallId == "" && m.name == "" ==> item.callId == "tool")
  }

  predicate IsCallOf(p: Platform, t: ToolNames.Tables, call: ToolCall, item: Item) {
    && item.FunctionCall? && item.callId == call.id
    && ToolNames.ToWire(t, call.name) == Some(item.name)
    && (call.arguments.Some? ==> item.arguments == p.stringify(call.arguments.value))
    && (call.arguments.None? ==> item.arguments == p.stringify(JObj(map[])))
  }

  predicate IsPart(part: Part, content: Content) {
    && (part.TextPart? ==> content == InputText(part.text))
    && (part.ImagePart? ==>
          content.InputImage? && content.detail == "high"
          && content.imageUrl == "data:" + part.mimeType + ";base64," + part.data)
  }

  predicate AreParts(parts: seq<Part>, content: seq<Content>) {
    |parts| == |content| && forall i | 0 <= i < |parts| :: IsPart(parts[i], content[i])
  }

  /** The message makes the model call tools: its text, unless blank, and then every call in order. */
  predicate AreCallsOf(p: Platform, t: ToolNames.Tables, m: Message, items: seq<Item>) {
    var lead := |items| - |m.toolCalls|;
    && lead == (if Blank(m.content) then 0 else 1)
    && (lead == 1 ==> items[0] == Plain(Assistant, m.content))
    && forall i | 0 <= i < |m.toolCalls| :: IsCallOf(p, t, m.toolCalls[i], items[lead + i])
  }

  /** These items say what the message says. */
  predicate Say(p: Platform, t: ToolNames.Tables, m: Message, items: seq<Item>) {
    match m.role
    case System => items == []
    case Tool => |items| == 1 && IsOutputOf(m, items[0])
    case role =>
      if role.Assistant? && m.toolCalls != [] then AreCallsOf(p, t, m, items)
      else if m.parts.Some? then
        |items| == 1 && items[0].Parts? && items[0].role == role && AreParts(m.parts.value, items[0].contentItems)
      else items == [Plain(role, m.content)]
  }

  lemma {:induction false} CallsSay(p: Platform, t: ToolNames.Tables, calls: seq<ToolCall>)
    requires WireCalls(p, t, calls).Some?
    ensures |WireCalls(p, t, calls).value| == |calls|
    ensures forall i | 0 <= i < |calls| :: IsCallOf(p, t, calls[i], WireCalls(p, t, calls).value[i])
  {
    if calls != [] {
      CallsSay(p, t, calls[..|calls| - 1]);
    }
  }

  lemma MessageSays(p: Platform, t: ToolNames.Tables, m: Message)
    requires ItemsOf(p, t, m).Some?
    ensures Say(p, t, m, ItemsOf(p, t, m).value) && |ItemsOf(p, t, m).value| == Size(m)
  {
    if m.role.Assistant? && m.toolCalls != [] {
      CallsSay(p, t, m.toolCalls);
    }
  }

  // ---------------------------------------------------------------------------------------------
  // All messages

  lemma {:induction false} InputLength(p: Platform, t: ToolNames.Tables, messages: seq<Message>)
    requires InputOf(p, t, messages).Some?
    ensures |InputOf(p, t, messages).value| == Offset(messages, |messages|)
  {
    if messages != [] {
      var n := |messages| - 1;
      InputLength(p, t, messages[..n]);
      MessageSays(p, t, messages[n]);
      OffsetsAgree(messages, n);
    }
  }

  lemma SliceStays<T>(a: seq<T>, b: seq<T>, from: nat, to: nat)
    requires from <= to <= |a|
    ensures (a + b)[from..to] == a[from..to] && (a + b)[|a|..|a| + |b|] == b
  {
  }

  /** What message `k` became stands at its place. */
  lemma {:induction false} InputSlice(p: Platform, t: ToolNames.Tables, messages: seq<Message>, k: nat)
    requires InputOf(p, t, messages).Some? && k < |messages|
    ensures ItemsOf(p, t, messages[k]).Some? && |ItemsOf(p, t, messages[k]).value| == Size(messages[k])
    ensures Offset(messages, k) + Size(messages[k]) <= |InputOf(p, t, messages).value|
    ensures InputOf(p, t, messages).value[Offset(messages, k)..Offset(messages, k) + Size(messages[k])]
         == ItemsOf(p, t, messages[k]).value
  {
    var n := |messages| - 1;
    var before := messages[..n];
    var earlier, items := InputOf(p, t, before).value, ItemsOf(p, t, messages[n]).value;
    InputLength(p, t, before);
    OffsetsAgree(messages, k);
    if k < n {
      InputSlice(p, t, before, k);
      SliceStays(earlier, items, Offset(messages, k), Offset(messages, k) + Size(messages[k]));
    } else {
      MessageSays(p, t, messages[n]);
      SliceStays(earlier, items, 0, 0);
    }
  }

  lemma {:induction false} OffsetsAgree(messages: seq<Message>, k: nat)
    requires k < |messages|
    ensures Offset(messages[..|messages| - 1], k) == Offset(messages, k)
  {
    if k > 0 {
      OffsetsAgree(messages, k - 1);
    }
  }

  /**
   * The payload's input is the messages in order, one after the other: the items at message `k`'s place
   * say what it says, nobody else's items are in between, and nothing is left over.
   */
  lemma InputIsConversation(p: Platform, hash: ToolNames.Hash, r: Request, t: ToolNames.Tables, k: nat)
    returns (items: seq<Item>)
    requires ToolNames.Construct(hash, RequestedNames(r)) == Some(t) && k < |r.messages|
    ensures UpstreamPayload(p, t, r).Some?
    ensures |UpstreamPayload(p, t, r).value.input| == Offset(r.messages, |r.messages|)
    ensures Offset(r.messages, k) + Size(r.messages[k]) <= |UpstreamPayload(p, t, r).value.input|
    ensures var from := Offset(r.messages, k);
            UpstreamPayload(p, t, r).value.input[from..from + Size(r.messages[k])] == items
    ensures Say(p, t, r.messages[k], items)
  {
    EveryNameIsMapped(p, hash, r, t);
    InputLength(p, t, r.messages);
    InputSlice(p, t, r.messages, k);
    MessageSays(p, t, r.messages[k]);
    items := ItemsOf(p, t, r.messages[k]).value;
  }

  // ---------------------------------------------------------------------------------------------
  // The other fields

  /** The system messages that say something, in order. */
  function SystemTexts(messages: seq<Message>): seq<string> {
    if messages == [] then []
    else
      (if messages[0].role.System? && !Blank(messages[0].content) then [messages[0].content] else [])
      + SystemTexts(messages[1..])
  }

  function Paragraphs(texts: seq<string>): string {
    if texts == [] then ""
    else if |texts| == 1 then texts[0]
    else Paragraphs(texts[..|texts| - 1]) + "\n\n" + texts[|texts| - 1]
  }

  lemma {:induction false} SystemTextsConcat(a: seq<Message>, b: seq<Message>)
    ensures SystemTexts(a + b) == SystemTexts(a) + SystemTexts(b)
    decreases |a|
  {
    if a == [] {
      assert a + b == b;
    } else {
      assert (a + b)[0] == a[0] && (a + b)[1..] == a[1..] + b;
      SystemTextsConcat(a[1..], b);
    }
  }

  lemma ParagraphsOneMore(texts: seq<string>, text: string)
    ensures Paragraphs(texts + [text]) == if texts == [] then text else Paragraphs(texts) + "\n\n" + text
  {
    assert (texts + [text])[..|texts|] == texts;
  }

  lemma SystemTextsOneMore(messages: seq<Message>, m: Message)
    ensures SystemTexts(messages + [m])
         == SystemTexts(messages) + if m.role.System? && !Blank(m.content) then [m.content] else []
  {
    SystemTextsConcat(messages, [m]);
    assert [m][1..] == [] && SystemTexts([m][1..]) == [];
  }

  lemma BlankIsEmpty()
    ensures Blank("")
  {
  }

  lemma {:induction false} InstructionsAre(messages: seq<Message>)
    ensures Instructions(messages) == Paragraphs(SystemTexts(messages))
    ensures Instructions(messages) == "" <==> SystemTexts(messages) == []
  {
    if messages != [] {
      var before, m := messages[..|messages| - 1], messages[|messages| - 1];
      assert messages == before + [m];
      InstructionsAre(before);
      BlankIsEmpty();
      SystemTextsOneMore(before, m);
      ParagraphsOneMore(SystemTexts(before), m.content);
      assert SystemTexts(before) + [] == SystemTexts(before);
    }
  }

  predicate IsOffer(t: ToolNames.Tables, tool: Tool, wire: WireTool) {
    && ToolNames.ToWire(t, tool.name) == Some(wire.name)
    && wire.description == tool.description && wire.parameters == tool.parameters && !wire.strict
  }

  lemma {:induction false} ToolsAreOffered(t: ToolNames.Tables, tools: seq<Tool>)
    requires WireTools(t, tools).Some?
    ensures |WireTools(t, tools).value| == |tools|
    ensures forall i | 0 <= i < |tools| :: IsOffer(t, tools[i], WireTools(t, tools).value[i])
  {
    if tools != [] {
      ToolsAreOffered(t, tools[..|tools| - 1]);
    }
  }

  /**
   * The rest of the payload: the model, a stream that is not stored, the system texts as instructions, the
   * tools in order with their schemas left as they are, and the choice and cache key when there are any.
   */
  lemma PayloadIsRequest(p: Platform, hash: ToolNames.Hash, r: Request, t: ToolNames.Tables)
    requires ToolNames.Construct(hash, RequestedNames(r)) == Some(t)
    ensures UpstreamPayload(p, t, r).Some?
    ensures var payload, texts := UpstreamPayload(p, t, r).value, SystemTexts(r.messages);
            && payload.model == r.model && payload.stream && !payload.store
            && payload.instructions == (if texts == [] then None else Some(Paragraphs(texts)))
            && (payload.tools.None? <==> r.tools == [])
            && (payload.tools.Some? ==>
                  && |payload.tools.value| == |r.tools|
                  && forall i | 0 <= i < |r.tools| :: IsOffer(t, r.tools[i], payload.tools.value[i]))
            && (payload.toolChoice.Some? <==> Truthy(r.toolChoice))
            && (payload.toolChoice.Some? ==> payload.toolChoice == r.toolChoice)
            && (payload.promptCacheKey.Some? <==> r.promptCacheKey != "")
            && (payload.promptCacheKey.Some? ==> payload.promptCacheKey.value == r.promptCacheKey)
  {
    EveryNameIsMapped(p, hash, r, t);
    InstructionsAre(r.messages);
    ToolsAreOffered(t, r.tools);
  }
}
