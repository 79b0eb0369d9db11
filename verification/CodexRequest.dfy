/** The upstream request: every tool name in it travels under its wire name. */
module CodexRequest {
  import opened Prelude
  import opened Json
  import ToolNames
  import ToolNameTheorems
  import opened CodexStream
  import opened CodexToolCalls

  datatype Role = System | User | Assistant | Tool

  datatype ToolCall = ToolCall(id: string, name: string, arguments: Option<Json>)

  datatype Part = TextPart(text: string) | ImagePart(mimeType: string, data: string)

  /** Absent optional texts are empty. */
  datatype Message = Message(role: Role, content: string, toolCalls: seq<ToolCall>, toolCallId: string, name: string,
                             parts: Option<seq<Part>>)

  datatype Tool = Tool(name: string, description: Option<string>, parameters: Option<Json>)

  datatype Request = Request(model: string, messages: seq<Message>, tools: seq<Tool>, toolChoice: Option<Json>,
                             promptCacheKey: string)

  datatype Content = InputText(text: string) | InputImage(imageUrl: string, detail: string)

  datatype Item =
    | CallOutput(callId: string, output: string)
    | FunctionCall(callId: string, name: string, arguments: string)
    | Plain(role: Role, content: string)
    | Parts(role: Role, contentItems: seq<Content>)

  datatype WireTool = WireTool(name: string, description: Option<string>, parameters: Option<Json>, strict: bool)

  /** What is sent. An absent field is `None`; `tools` come together with parallel calls. */
  datatype Payload = Payload(model: string, stream: bool, store: bool, input: seq<Item>,
                             instructions: Option<string>, tools: Option<seq<WireTool>>,
                             toolChoice: Option<Json>, promptCacheKey: Option<string>)

  /** The names the map is built from: the offered tools, then the calls of assistant messages. */
  function RequestedNames(r: Request): seq<string> {
    ToolNamesOf(r.tools) + CalledNames(r.messages)
  }

  function ToolNamesOf(tools: seq<Tool>): seq<string> {
    seq(|tools|, i requires 0 <= i < |tools| => tools[i].name)
  }

  function CallNames(calls: seq<ToolCall>): seq<string> {
    seq(|calls|, i requires 0 <= i < |calls| => calls[i].name)
  }

  function CalledNames(messages: seq<Message>): seq<string> {
    if messages == [] then []
    else
      var m := messages[|messages| - 1];
      CalledNames(messages[..|messages| - 1]) + if m.role.Assistant? then CallNames(m.toolCalls) else []
  }

  /** `names.toWire(name)`; `None` is its error. */
  function WireCalls(p: Platform, t: ToolNames.Tables, calls: seq<ToolCall>): Option<seq<Item>> {
    if calls == [] then Some([])
    else
      var call := calls[|calls| - 1];
      match (WireCalls(p, t, calls[..|calls| - 1]), ToolNames.ToWire(t, call.name))
      case (Some(before), Some(wire)) =>
        Some(before + [FunctionCall(call.id, wire, p.stringify(call.arguments.GetOr(JObj(map[]))))])
      case _ => None
  }

  function ContentOf(parts: seq<Part>): seq<Content> {
    seq(|parts|, i requires 0 <= i < |parts| =>
          match parts[i]
          case TextPart(text) => InputText(text)
          case ImagePart(mimeType, data) => InputImage("data:" + mimeType + ";base64," + data, "high"))
  }

  function ItemsOf(p: Platform, t: ToolNames.Tables, m: Message): Option<seq<Item>> {
    if m.role.System? then Some([])
    else if m.role.Tool? then
      var callId := if m.toolCallId != "" then m.toolCallId else if m.name != "" then m.name else "tool";
      Some([CallOutput(callId, m.content)])
    else if m.role.Assistant? && m.toolCalls != [] then
      var said := if Blank(m.content) then [] else [Plain(Assistant, m.content)];
      match WireCalls(p, t, m.toolCalls)
      case None => None
      case Some(calls) => Some(said + calls)
    else if m.parts.Some? then Some([Parts(m.role, ContentOf(m.parts.value))])
    else Some([Plain(m.role, m.content)])
  }

  function InputOf(p: Platform, t: ToolNames.Tables, messages: seq<Message>): Option<seq<Item>> {
    if messages == [] then Some([])
    else
      match (InputOf(p, t, messages[..|messages| - 1]), ItemsOf(p, t, messages[|messages| - 1]))
      case (Some(before), Some(items)) => Some(before + items)
      case _ => None
  }

  function WireTools(t: ToolNames.Tables, tools: seq<Tool>): Option<seq<WireTool>> {
    if tools == [] then Some([])
    else
      var tool := tools[|tools| - 1];
      match (WireTools(t, tools[..|tools| - 1]), ToolNames.ToWire(t, tool.name))
      case (Some(before), Some(wire)) => Some(before + [WireTool(wire, tool.description, tool.parameters, false)])
      case _ => None
  }

  function Instructions(messages: seq<Message>): string {
    if messages == [] then ""
    else
      var before, m := Instructions(messages[..|messages| - 1]), messages[|messages| - 1];
      if !m.role.System? || Blank(m.content) then before
      else if before == "" then m.content
      else before + "\n\n" + m.content
  }

  function UpstreamPayload(p: Platform, t: ToolNames.Tables, r: Request): Option<Payload> {
    match (InputOf(p, t, r.messages), WireTools(t, r.tools))
    case (Some(input), Some(tools)) => Some(Assemble(r, input, tools))
    case _ => None
  }

  function Assemble(r: Request, input: seq<Item>, tools: seq<WireTool>): Payload {
    var instructions := Instructions(r.messages);
    Payload(r.model, true, false, input,
            if instructions == "" then None else Some(instructions),
            if r.tools == [] then None else Some(tools),
            if Truthy(r.toolChoice) then r.toolChoice else None,
            if r.promptCacheKey == "" then None else Some(r.promptCacheKey))
  }

  /** Building the body: the name map first, then the payload; `None` when either throws. */
  method BuildUpstreamBody(p: Platform, hash: ToolNames.Hash, r: Request)
    returns (body: Option<(ToolNames.Tables, Payload)>)
    ensures body.Some? <==> ToolNames.Construct(hash, RequestedNames(r)).Some?
    ensures body.Some? ==> ToolNames.Construct(hash, RequestedNames(r)) == Some(body.value.0)
    ensures body.Some? ==> UpstreamPayload(p, body.value.0, r) == Some(body.value.1)
  {
    var names := ToolNames.Build(hash, RequestedNames(r));
    if names.None? {
      return None;
    }
    EveryNameIsMapped(p, hash, r, names.value);
    var input := [];
    for n := 0 to |r.messages|
      invariant InputOf(p, names.value, r.messages[..n]) == Some(input)
    {
      assert r.messages[..n + 1][..n] == r.messages[..n];
      InputPrefix(p, names.value, r.messages, n + 1);
      input := input + ItemsOf(p, names.value, r.messages[n]).value;
    }
    assert r.messages[..|r.messages|] == r.messages;
    body := Some((names.value, Assemble(r, input, WireTools(names.value, r.tools).value)));
  }

  lemma {:induction false} InputPrefix(p: Platform, t: ToolNames.Tables, messages: seq<Message>, n: nat)
    requires n <= |messages| && InputOf(p, t, messages).Some?
    ensures InputOf(p, t, messages[..n]).Some?
    decreases |messages|
  {
    if n < |messages| {
      InputPrefix(p, t, messages[..|messages| - 1], n);
      assert messages[..|messages| - 1][..n] == messages[..n];
    } else {
      assert messages[..n] == messages;
    }
  }

  // ---------------------------------------------------------------------------------------------
  // Every requested name is mapped, and comes back

  /** The names of the function calls in the payload, in order. */
  function SentNames(items: seq<Item>): seq<string> {
    if items == [] then []
    else
      var last := items[|items| - 1];
      SentNames(items[..|items| - 1]) + if last.FunctionCall? then [last.name] else []
  }

  function WireNamesOf(tools: seq<WireTool>): seq<string> {
    seq(|tools|, i requires 0 <= i < |tools| => tools[i].name)
  }

  /** The names of the tools that the payload offers. */
  function OfferedNames(payload: Payload): seq<string> {
    WireNamesOf(payload.tools.GetOr([]))
  }

  /** `wires` are the wire names of `names`, one for one. */
  ghost predicate AreWires(t: ToolNames.Tables, names: seq<string>, wires: seq<string>) {
    |names| == |wires| && forall i | 0 <= i < |names| :: ToolNames.ToWire(t, names[i]) == Some(wires[i])
  }

  ghost predicate AllMapped(t: ToolNames.Tables, names: seq<string>) {
    forall n | n in names :: n in t.outbound
  }

  lemma {:induction false} SentNamesConcat(a: seq<Item>, b: seq<Item>)
    ensures SentNames(a + b) == SentNames(a) + SentNames(b)
  {
    if b == [] {
      assert a + b == a && SentNames(a) + [] == SentNames(a);
    } else {
      assert (a + b)[..|a + b| - 1] == a + b[..|b| - 1];
      SentNamesConcat(a, b[..|b| - 1]);
    }
  }

  lemma {:induction false} WireCallsMapped(p: Platform, t: ToolNames.Tables, calls: seq<ToolCall>)
    requires AllMapped(t, CallNames(calls))
    ensures WireCalls(p, t, calls).Some? && AreWires(t, CallNames(calls), SentNames(WireCalls(p, t, calls).value))
  {
    if calls != [] {
      var before, call := calls[..|calls| - 1], calls[|calls| - 1];
      assert CallNames(calls) == CallNames(before) + [call.name];
      WireCallsMapped(p, t, before);
      var items := WireCalls(p, t, before).value;
      var last := FunctionCall(call.id, t.outbound[call.name], p.stringify(call.arguments.GetOr(JObj(map[]))));
      assert (items + [last])[..|items|] == items;
    }
  }

  lemma {:induction false} InputMapped(p: Platform, t: ToolNames.Tables, messages: seq<Message>)
    requires AllMapped(t, CalledNames(messages))
    ensures InputOf(p, t, messages).Some?
    ensures AreWires(t, CalledNames(messages), SentNames(InputOf(p, t, messages).value))
  {
    if messages != [] {
      var before, m := messages[..|messages| - 1], messages[|messages| - 1];
      InputMapped(p, t, before);
      if m.role.Assistant? {
        WireCallsMapped(p, t, m.toolCalls);
      }
      ItemsSendCalls(p, t, m);
      SentNamesConcat(InputOf(p, t, before).value, ItemsOf(p, t, m).value);
    }
  }

  lemma ItemsSendCalls(p: Platform, t: ToolNames.Tables, m: Message)
    requires m.role.Assistant? ==> WireCalls(p, t, m.toolCalls).Some?
    ensures ItemsOf(p, t, m).Some?
    ensures SentNames(ItemsOf(p, t, m).value)
         == if m.role.Assistant? then SentNames(WireCalls(p, t, m.toolCalls).value) else []
  {
    var items := ItemsOf(p, t, m).value;
    if m.role.Assistant? && m.toolCalls != [] {
      var said := if Blank(m.content) then [] else [Plain(Assistant, m.content)];
      SentNamesConcat(said, WireCalls(p, t, m.toolCalls).value);
      assert |said| <= 1 && (said != [] ==> said[..0] == []);
    } else {
      assert |items| <= 1 && (items != [] ==> items[..0] == []);
    }
  }

  lemma {:induction false} ToolsMapped(t: ToolNames.Tables, tools: seq<Tool>)
    requires AllMapped(t, ToolNamesOf(tools))
    ensures WireTools(t, tools).Some? && AreWires(t, ToolNamesOf(tools), WireNamesOf(WireTools(t, tools).value))
  {
    if tools != [] {
      var before, tool := tools[..|tools| - 1], tools[|tools| - 1];
      assert ToolNamesOf(tools) == ToolNamesOf(before) + [tool.name];
      ToolsMapped(t, before);
    }
  }

  /** The payload never asks the map for a name it was not built from. */
  lemma EveryNameIsMapped(p: Platform, hash: ToolNames.Hash, r: Request, t: ToolNames.Tables)
    requires ToolNames.Construct(hash, RequestedNames(r)) == Some(t)
    ensures UpstreamPayload(p, t, r).Some?
    ensures AreWires(t, CalledNames(r.messages), SentNames(UpstreamPayload(p, t, r).value.input))
    ensures AreWires(t, ToolNamesOf(r.tools), OfferedNames(UpstreamPayload(p, t, r).value))
  {
    ToolNameTheorems.WireNamesAreUnique(hash, RequestedNames(r));
    forall n | n in ToolNamesOf(r.tools) || n in CalledNames(r.messages)
      ensures n in t.outbound
    {
      assert n in RequestedNames(r);
    }
    InputMapped(p, t, r.messages);
    ToolsMapped(t, r.tools);
  }

  /**
   * Reading the payload's names back through the map gives the request's names: the history's calls
   * and the offered tools, in order, every one of them fit for the wire.
   */
  lemma PayloadRoundTrip(p: Platform, hash: ToolNames.Hash, r: Request, t: ToolNames.Tables, i: nat)
    requires ToolNames.Construct(hash, RequestedNames(r)) == Some(t)
    ensures UpstreamPayload(p, t, r).Some?
    ensures var sent := SentNames(UpstreamPayload(p, t, r).value.input);
            (&& |sent| == |CalledNames(r.messages)|
             && (i < |sent| ==> ToolNames.Compliant(sent[i]))
             && (i < |sent| ==> ToolNames.FromWire(t, sent[i]) == Some(CalledNames(r.messages)[i])))
    ensures var offered := OfferedNames(UpstreamPayload(p, t, r).value);
            (&& |offered| == |r.tools|
             && (i < |offered| ==> ToolNames.Compliant(offered[i]))
             && (i < |offered| ==> ToolNames.FromWire(t, offered[i]) == Some(r.tools[i].name)))
  {
    EveryNameIsMapped(p, hash, r, t);
    ToolNameTheorems.WireNamesAreUnique(hash, RequestedNames(r));
    var sent := SentNames(UpstreamPayload(p, t, r).value.input);
    if i < |sent| {
      assert CalledNames(r.messages)[i] in RequestedNames(r);
      ToolNameTheorems.RoundTrip(hash, RequestedNames(r), CalledNames(r.messages)[i]);
    }
    var offered := OfferedNames(UpstreamPayload(p, t, r).value);
    if i < |offered| {
      assert ToolNamesOf(r.tools)[i] in RequestedNames(r);
      ToolNameTheorems.RoundTrip(hash, RequestedNames(r), r.tools[i].name);
    }
  }
}
