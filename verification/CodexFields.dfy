/**
 * What an item's events make of its call, field by field: read off the events themselves, without the
 * step that updates the pending call.
 */
module CodexFields {
  import opened Prelude
  import opened Json
  import opened CodexStream
  import opened CodexStreamReading
  import opened CodexToolCalls
  import opened CodexToolOrder

  // ---------------------------------------------------------------------------------------------
  // The item an event is about

  /** The first of the three properties that is there and not falsy, as text. */
  predicate IsKeyOf(p: Platform, src: Source, key: string) {
    if Truthy(src.itemId) then key == ToText(p, src.itemId.value)
    else if Truthy(src.id) then key == ToText(p, src.id.value)
    else if Truthy(src.callId) then key == ToText(p, src.callId.value)
    else key == "tool"
  }

  /** An event is about the item that its `item_id` names, else its `id`, else its `call_id`. */
  lemma KeyIsFirstId(p: Platform, src: Source, key: string)
    ensures KeyOf(p, src) == key <==> IsKeyOf(p, src, key)
  {
  }

  // ---------------------------------------------------------------------------------------------
  // The call id

  /** The last `call_id` of the events that is a text and not blank. */
  function LastCallId(own: seq<Event>): Option<string> {
    if own == [] then None
    else
      match SourceOfEvent(own[|own| - 1]).callId
      case Some(JStr(id)) => if Blank(id) then LastCallId(own[..|own| - 1]) else Some(id)
      case _ => LastCallId(own[..|own| - 1])
  }

  /** What a call is called before any text `call_id`: the first event's `call_id`, else its `id`, else its key. */
  function FirstId(p: Platform, src: Source, key: string): string {
    if Truthy(src.callId) then ToText(p, src.callId.value)
    else if Truthy(src.id) then ToText(p, src.id.value)
    else key
  }

  function CallId(p: Platform, own: seq<Event>, key: string): string
    requires own != []
  {
    LastCallId(own).GetOr(FirstId(p, SourceOfEvent(own[0]), key))
  }

  // ---------------------------------------------------------------------------------------------
  // The name

  /** The last name that the events give; blank ones are ignored. */
  function LastName(own: seq<Event>): Option<string> {
    if own == [] then None
    else
      match SourceOfEvent(own[|own| - 1]).name
      case Some(JStr(name)) => if Blank(name) then LastName(own[..|own| - 1]) else Some(name)
      case _ => LastName(own[..|own| - 1])
  }

  // ---------------------------------------------------------------------------------------------
  // The arguments

  /** The whole argument text that an event brings, if it brings one. */
  function WholeText(p: Platform, e: Event): Option<string> {
    var src := SourceOfEvent(e);
    if src.append then None
    else
      match src.arguments
      case Some(JStr(raw)) => if Blank(raw) then None else Some(raw)
      case Some(JObj(fields)) => Some(p.stringify(JObj(fields)))
      case _ => None
  }

  /** The piece of argument text that an event adds. */
  function Piece(e: Event): string {
    var src := SourceOfEvent(e);
    if src.append && src.arguments.Some? && src.arguments.value.JStr? then src.arguments.value.s else ""
  }

  function Pieces(own: seq<Event>): string {
    if own == [] then "" else Pieces(own[..|own| - 1]) + Piece(own[|own| - 1])
  }

  /** The last event that brings a whole text, or the number of events if there is none. */
  function LastWhole(p: Platform, own: seq<Event>): (j: nat)
    ensures j <= |own|
    ensures j < |own| ==> WholeText(p, own[j]).Some?
    ensures forall k | 0 <= k < |own| && (j < k || j == |own|) :: WholeText(p, own[k]).None?
  {
    if own == [] then 0
    else if WholeText(p, own[|own| - 1]).Some? then |own| - 1
    else
      var j := LastWhole(p, own[..|own| - 1]);
      if j == |own| - 1 then |own| else j
  }

  /** The last whole text with all the pieces after it; all pieces if there is no whole text. */
  function ArgumentsSoFar(p: Platform, own: seq<Event>): string {
    var j := LastWhole(p, own);
    if j == |own| then Pieces(own) else WholeText(p, own[j]).value + Pieces(own[j + 1..])
  }

  // ---------------------------------------------------------------------------------------------
  // The call is made of these

  /** A call of an item that holds what the item's events `own` say. */
  ghost predicate Says(p: Platform, own: seq<Event>, key: string, call: Call) {
    && own != []
    && call.id == CallId(p, own, key)
    && call.name == LastName(own).GetOr("tool")
    && call.args == ArgumentsSoFar(p, own)
  }

  lemma PiecesOneMore(a: string, own: seq<Event>, e: Event)
    ensures a + Pieces(own + [e]) == a + Pieces(own) + Piece(e)
  {
    assert (own + [e])[..|own|] == own;
  }

  lemma LastWholeOneMore(p: Platform, own: seq<Event>, e: Event)
    ensures LastWhole(p, own + [e])
         == if WholeText(p, e).Some? then |own|
            else if LastWhole(p, own) == |own| then |own| + 1
            else LastWhole(p, own)
  {
    assert (own + [e])[..|own|] == own;
  }

  lemma TailOneMore(own: seq<Event>, e: Event, j: nat)
    requires j < |own|
    ensures (own + [e])[j] == own[j] && (own + [e])[j + 1..] == own[j + 1..] + [e]
  {
  }

  lemma ArgumentsExtended(p: Platform, own: seq<Event>, e: Event)
    requires WholeText(p, e).None?
    ensures ArgumentsSoFar(p, own + [e]) == ArgumentsSoFar(p, own) + Piece(e)
  {
    var j := LastWhole(p, own);
    LastWholeOneMore(p, own, e);
    if j < |own| {
      TailOneMore(own, e, j);
      PiecesOneMore(WholeText(p, own[j]).value, own[j + 1..], e);
    } else {
      PiecesOneMore("", own, e);
      assert "" + Pieces(own + [e]) == Pieces(own + [e]) && "" + Pieces(own) == Pieces(own);
    }
  }

  lemma ArgumentsReplaced(p: Platform, own: seq<Event>, e: Event)
    requires WholeText(p, e).Some?
    ensures ArgumentsSoFar(p, own + [e]) == WholeText(p, e).value
  {
    LastWholeOneMore(p, own, e);
    assert (own + [e])[|own| + 1..] == [] && WholeText(p, e).value + "" == WholeText(p, e).value;
  }

  lemma ArgumentsOneMore(p: Platform, own: seq<Event>, e: Event)
    ensures ArgumentsSoFar(p, own + [e])
         == if WholeText(p, e).Some? then WholeText(p, e).value else ArgumentsSoFar(p, own) + Piece(e)
  {
    if WholeText(p, e).Some? {
      ArgumentsReplaced(p, own, e);
    } else {
      ArgumentsExtended(p, own, e);
    }
  }

  lemma IdAfter(p: Platform, before: seq<Event>, e: Event, current: Option<Call>)
    requires before == [] <==> current.None?
    requires current.Some? ==> current.value.id == CallId(p, before, KeyOf(p, SourceOfEvent(e)))
    ensures Upsert(p, current, SourceOfEvent(e)).id == CallId(p, before + [e], KeyOf(p, SourceOfEvent(e)))
  {
    var all := before + [e];
    assert all[..|all| - 1] == before && all[|all| - 1] == e;
    if before == [] {
      assert all[0] == e && LastCallId(before).None?;
    } else {
      assert all[0] == before[0];
    }
  }

  lemma NameAfter(p: Platform, before: seq<Event>, e: Event, current: Option<Call>)
    requires before == [] <==> current.None?
    requires current.Some? ==> current.value.name == LastName(before).GetOr("tool")
    ensures Upsert(p, current, SourceOfEvent(e)).name == LastName(before + [e]).GetOr("tool")
  {
    assert (before + [e])[..|before|] == before;
  }

  lemma CarryIs(p: Platform, args: string, e: Event)
    ensures Carry(p, args, SourceOfEvent(e)) == WholeText(p, e).GetOr(args + Piece(e))
  {
    assert args + "" == args;
  }

  lemma NoArguments(p: Platform)
    ensures ArgumentsSoFar(p, []) == ""
  {
  }

  lemma ArgumentsAfter(p: Platform, before: seq<Event>, e: Event, current: Option<Call>)
    requires before == [] <==> current.None?
    requires current.Some? ==> current.value.args == ArgumentsSoFar(p, before)
    ensures Upsert(p, current, SourceOfEvent(e)).args == ArgumentsSoFar(p, before + [e])
  {
    NoArguments(p);
    CarryIs(p, ArgumentsSoFar(p, before), e);
    ArgumentsOneMore(p, before, e);
  }

  lemma UpsertSays(p: Platform, before: seq<Event>, e: Event, current: Option<Call>)
    requires before == [] <==> current.None?
    requires current.Some? ==> Says(p, before, KeyOf(p, SourceOfEvent(e)), current.value)
    ensures Says(p, before + [e], KeyOf(p, SourceOfEvent(e)), Upsert(p, current, SourceOfEvent(e)))
  {
    IdAfter(p, before, e, current);
    NameAfter(p, before, e, current);
    ArgumentsAfter(p, before, e, current);
  }

  /** However its events come, the pending call of an item says what they say. */
  lemma {:induction false} CallSays(p: Platform, own: seq<Event>, key: string)
    requires own != [] && forall e | e in own :: Concerns(p, e, key)
    ensures CallOf(p, own).Some? && Says(p, own, key, CallOf(p, own).value)
  {
    var before, e := own[..|own| - 1], own[|own| - 1];
    assert own == before + [e] && e in own;
    if before != [] {
      CallSays(p, before, key);
    }
    UpsertSays(p, before, e, CallOf(p, before));
  }

  lemma HandedOutSays(p: Platform, before: seq<Event>, e: Event, key: string)
    requires Concerns(p, e, key) && forall e | e in before :: Concerns(p, e, key)
    ensures Says(p, before + [e], key, Upsert(p, CallOf(p, before), SourceOfEvent(e)))
  {
    if before != [] {
      CallSays(p, before, key);
    }
    UpsertSays(p, before, e, CallOf(p, before));
  }

  // ---------------------------------------------------------------------------------------------
  // When it is handed out

  /**
   * The last of the events hands the call out: an `added` event whose item has a complete argument text,
   * or the first closing event if nothing handed it out before.
   */
  predicate HandsOutLast(p: Platform, own: seq<Event>)
    requires own != []
    decreases |own|, 0
  {
    var e, args := own[|own| - 1], ArgumentsSoFar(p, own);
    || (e.Added? && !Blank(args) && p.parse(Trim(args)).Some?)
    || (e.Done? && !HandedOut(p, own[..|own| - 1]))
  }

  predicate HandedOut(p: Platform, own: seq<Event>)
    decreases |own|, 1
  {
    own != [] && (HandsOutLast(p, own) || HandedOut(p, own[..|own| - 1]))
  }

  lemma {:induction false} EmittedIffHanded(p: Platform, own: seq<Event>, key: string)
    requires forall e | e in own :: Concerns(p, e, key)
    ensures HandedOut(p, own) <==> own != [] && CallOf(p, own).value.emitted
  {
    if own != [] {
      var before, e := own[..|own| - 1], own[|own| - 1];
      EmittedIffHanded(p, before, key);
      HandsOutIff(p, before, e, key);
      assert own == before + [e];
      if before != [] {
        CallSays(p, before, key);
      }
    }
  }

  lemma HandsOutIff(p: Platform, before: seq<Event>, e: Event, key: string)
    requires Concerns(p, e, key) && forall f | f in before :: Concerns(p, f, key)
    requires HandedOut(p, before) <==> before != [] && CallOf(p, before).value.emitted
    ensures HandsOut(p, Upsert(p, CallOf(p, before), SourceOfEvent(e)), e) <==> HandsOutLast(p, before + [e])
  {
    assert (before + [e])[..|before|] == before;
    HandedOutSays(p, before, e, key);
    if before != [] {
      CallSays(p, before, key);
    }
  }

  /** The call `k` is handed out by event `m - 1`, or left open to the end, and says what its item said by then. */
  ghost predicate ComesFrom(p: Platform, events: seq<Event>, k: Keyed, m: nat) {
    && m <= |events|
    && var own := Of(p, events[..m], k.key);
       && Says(p, own, k.key, k.handout.call)
       && if k.handout.closed || m < |events| || HandedOut(p, own) then
            && m > 0 && Concerns(p, events[m - 1], k.key) && HandsOutLast(p, own)
            && (k.handout.closed <==> events[m - 1].Done?)
          else true
  }

  lemma OutComesFrom(p: Platform, history: seq<Event>, e: Event, events: seq<Event>)
    requires history + [e] <= events
    ensures forall k | k in HandedOutBy(p, history, e) :: ComesFrom(p, events, k, |history| + 1)
  {
    var m := |history| + 1;
    assert events[..m] == history + [e];
    if ForItem(e) {
      var key := KeyOf(p, SourceOfEvent(e));
      var before := Of(p, history, key);
      OfOneMore(p, history, e, key);
      HandedOutSays(p, before, e, key);
      EmittedIffHanded(p, before, key);
      HandsOutIff(p, before, e, key);
      assert (before + [e])[|before|] == e;
    }
  }

  lemma {:induction false} InOrderComesFrom(p: Platform, history: seq<Event>, events: seq<Event>)
    requires history <= events
    ensures forall k | k in InEventOrder(p, history) :: exists m: nat :: ComesFrom(p, events, k, m)
  {
    if history != [] {
      var before, e := history[..|history| - 1], history[|history| - 1];
      assert history == before + [e];
      InOrderComesFrom(p, before, events);
      OutComesFrom(p, before, e, events);
      forall k | k in HandedOutBy(p, before, e)
        ensures exists m: nat :: ComesFrom(p, events, k, m)
      {
        assert ComesFrom(p, events, k, |before| + 1);
      }
    }
  }

  lemma {:induction false} OpenComesFrom(p: Platform, events: seq<Event>, keys: seq<string>)
    ensures forall k | k in OpenCalls(p, events, keys) :: ComesFrom(p, events, k, |events|)
  {
    if keys != [] {
      OpenComesFrom(p, events, keys[1..]);
      var own := Of(p, events, keys[0]);
      assert events[..|events|] == events;
      if own != [] {
        CallSays(p, own, keys[0]);
        EmittedIffHanded(p, own, keys[0]);
      }
    }
  }

  /** Every tool call of a response says what its item's events said when it was handed out, or at the end. */
  lemma ToolCallsSay(p: Platform, events: seq<Event>, i: nat) returns (m: nat)
    requires i < |ToolCalls(p, events)|
    ensures ComesFrom(p, events, ToolCalls(p, events)[i], m)
  {
    InOrderComesFrom(p, events, events);
    OpenComesFrom(p, events, Items(p, events));
    var k := ToolCalls(p, events)[i];
    if i < |InEventOrder(p, events)| {
      assert k in InEventOrder(p, events);
      m :| ComesFrom(p, events, k, m);
    } else {
      assert k in OpenCalls(p, events, Items(p, events));
      m := |events|;
    }
  }

  // ---------------------------------------------------------------------------------------------
  // The frame

  /** The arguments are the object that the text parses to; a closed call without text has none. */
  predicate AreArguments(p: Platform, text: string, closed: bool, arguments: Json) {
    if closed && Blank(text) then arguments == JObj(map[])
    else p.parse(text) == Some(arguments) && arguments.JObj?
  }

  lemma ArgumentsIff(p: Platform, text: string, closed: bool, arguments: Json)
    ensures ParseArguments(p, text, closed) == Some(arguments) <==> AreArguments(p, text, closed, arguments)
  {
  }

  /** A delivered frame says what the events of some item of the response said by event `m`. */
  ghost predicate FrameSays(c: Config, events: seq<Event>, f: Frame, key: string, m: nat, closed: bool) {
    && m <= |events| && f.ToolFrame?
    && var own := Of(c.platform, events[..m], key);
       && own != []
       && f.id == CallId(c.platform, own, key)
       && CodexStream.ToolNames.FromWire(c.names, LastName(own).GetOr("tool")) == Some(f.name)
       && AreArguments(c.platform, ArgumentsSoFar(c.platform, own), closed, f.arguments)
       && (closed || m < |events| ==> m > 0 && Concerns(c.platform, events[m - 1], key)
                                      && HandsOutLast(c.platform, own) && (closed <==> events[m - 1].Done?))
  }

  /**
   * In every run, each delivered tool frame carries the call id, the canonical name and the arguments
   * that the events of its own item gave it.
   */
  lemma DeliveredFramesSay(c: Config, chunks: seq<Chunk>, end: End, f: Frame)
    returns (key: string, m: nat, closed: bool)
    requires f in Consume(c, chunks, end).sent && f.ToolFrame?
    ensures FrameSays(c, AllEvents(c, chunks, if end.Closed? then end.tail else ""), f, key, m, closed)
  {
    var events := AllEvents(c, chunks, if end.Closed? then end.tail else "");
    var texts, tools := ToolsInOrder(c, chunks, end);
    TextsAreText(events, texts);
    var i :| 0 <= i < |tools| && tools[i] == f;
    var k := ToolCalls(c.platform, events)[i];
    m := ToolCallsSay(c.platform, events, i);
    key, closed := k.key, k.handout.closed;
    ArgumentsIff(c.platform, k.handout.call.args, closed, f.arguments);
  }

  lemma TextsAreText(events: seq<Event>, texts: seq<Frame>)
    requires Sends([], texts, TextFrames(events), false)
    ensures forall f | f in texts :: f.TextFrame?
  {
    TextFramesAreText(events);
    var n: nat :| n <= |TextFrames(events)| && texts == [] + TextFrames(events)[..n];
    forall f | f in texts
      ensures f.TextFrame?
    {
      assert f in TextFrames(events);
    }
  }

  lemma {:induction false} TextFramesAreText(events: seq<Event>)
    ensures forall f | f in TextFrames(events) :: f.TextFrame?
  {
    if events != [] {
      TextFramesAreText(events[1..]);
    }
  }

  // ---------------------------------------------------------------------------------------------
  // An item as the upstream sends it

  /** A function call item: its own id, the id to answer under, the tool's name and the text so far. */
  function Item(id: string, callId: string, name: string, text: string): Source {
    Source(None, Some(JStr(id)), Some(JStr(callId)), Some(JStr(name)), Some(JStr(text)), false)
  }

  function Streamed(id: string, texts: seq<string>): seq<Event> {
    if texts == [] then []
    else Streamed(id, texts[..|texts| - 1]) + [Delta(Some(JStr(id)), texts[|texts| - 1])]
  }

  function Joined(texts: seq<string>): string {
    if texts == [] then "" else Joined(texts[..|texts| - 1]) + texts[|texts| - 1]
  }

  /** The item is announced without arguments, its arguments stream in, and `done` repeats all of it. */
  function UpstreamItem(id: string, callId: string, name: string, texts: seq<string>, text: string): seq<Event> {
    [Added(Item(id, callId, name, ""))] + Streamed(id, texts) + [Done(Item(id, callId, name, text))]
  }

  lemma FirstArguments(p: Platform, e: Event)
    ensures ArgumentsSoFar(p, [e]) == WholeText(p, e).GetOr(Piece(e))
  {
    var none: seq<Event> := [];
    NoArguments(p);
    ArgumentsOneMore(p, none, e);
    assert none + [e] == [e] && "" + Piece(e) == Piece(e);
  }

  lemma FirstSays(e: Event, callId: string, name: string)
    requires SourceOfEvent(e).callId == Some(JStr(callId)) && !Blank(callId)
    requires SourceOfEvent(e).name == Some(JStr(name)) && !Blank(name)
    ensures LastCallId([e]) == Some(callId) && LastName([e]) == Some(name)
  {
    assert [e][..0] == [];
  }

  lemma BlankHandsNothingOut(p: Platform, e: Event)
    requires e.Added? && Blank(ArgumentsSoFar(p, [e]))
    ensures !HandedOut(p, [e])
  {
    assert [e][..0] == [];
  }

  lemma AddedSays(p: Platform, id: string, callId: string, name: string)
    requires id != "" && !Blank(callId) && !Blank(name)
    ensures var own := [Added(Item(id, callId, name, ""))];
            && Concerns(p, own[0], id) && LastCallId(own) == Some(callId) && LastName(own) == Some(name)
            && ArgumentsSoFar(p, own) == "" && !HandedOut(p, own)
  {
    var e := Added(Item(id, callId, name, ""));
    assert Blank("");
    FirstSays(e, callId, name);
    FirstArguments(p, e);
    BlankHandsNothingOut(p, e);
  }

  lemma DeltaSays(p: Platform, own: seq<Event>, id: string, text: string)
    requires id != "" && own != []
    ensures var e := Delta(Some(JStr(id)), text);
            && Concerns(p, e, id) && LastCallId(own + [e]) == LastCallId(own) && LastName(own + [e]) == LastName(own)
            && ArgumentsSoFar(p, own + [e]) == ArgumentsSoFar(p, own) + text
            && (HandedOut(p, own + [e]) <==> HandedOut(p, own))
  {
    var e := Delta(Some(JStr(id)), text);
    assert (own + [e])[..|own|] == own;
    ArgumentsOneMore(p, own, e);
  }

  lemma DoneSays(p: Platform, own: seq<Event>, id: string, callId: string, name: string, text: string)
    requires id != "" && own != [] && !Blank(callId) && !Blank(name) && !HandedOut(p, own)
    ensures var e := Done(Item(id, callId, name, text));
            && Concerns(p, e, id) && CallId(p, own + [e], id) == callId && LastName(own + [e]) == Some(name)
            && ArgumentsSoFar(p, own + [e]) == (if Blank(text) then ArgumentsSoFar(p, own) else text)
            && HandsOutLast(p, own + [e])
  {
    var e := Done(Item(id, callId, name, text));
    assert (own + [e])[..|own|] == own;
    ArgumentsOneMore(p, own, e);
    assert ArgumentsSoFar(p, own) + "" == ArgumentsSoFar(p, own);
  }

  lemma {:induction false} StreamedSays(p: Platform, id: string, callId: string, name: string, texts: seq<string>)
    requires id != "" && !Blank(callId) && !Blank(name)
    ensures var own := [Added(Item(id, callId, name, ""))] + Streamed(id, texts);
            && (forall e | e in own :: Concerns(p, e, id))
            && ArgumentsSoFar(p, own) == Joined(texts) && !HandedOut(p, own)
  {
    var first := [Added(Item(id, callId, name, ""))];
    if texts == [] {
      assert first + [] == first;
      AddedSays(p, id, callId, name);
    } else {
      var before, text := Streamed(id, texts[..|texts| - 1]), texts[|texts| - 1];
      StreamedSays(p, id, callId, name, texts[..|texts| - 1]);
      DeltaSays(p, first + before, id, text);
      assert first + (before + [Delta(Some(JStr(id)), text)]) == first + before + [Delta(Some(JStr(id)), text)];
    }
  }

  /**
   * An item that the upstream streams in the usual way is one item, is handed out by its `done` event and
   * not before, under its `call_id` and not its own id, with its name, and with the repeated text, or the
   * streamed one if `done` brings none.
   */
  lemma UpstreamItemIsOneCall(p: Platform, id: string, callId: string, name: string, texts: seq<string>, text: string)
    requires id != "" && !Blank(callId) && !Blank(name)
    ensures var own := UpstreamItem(id, callId, name, texts, text);
            && (forall e | e in own :: Concerns(p, e, id))
            && HandsOutLast(p, own) && !HandedOut(p, own[..|own| - 1])
            && CallId(p, own, id) == callId && LastName(own) == Some(name)
            && ArgumentsSoFar(p, own) == if Blank(text) then Joined(texts) else text
  {
    var before := [Added(Item(id, callId, name, ""))] + Streamed(id, texts);
    StreamedSays(p, id, callId, name, texts);
    DoneSays(p, before, id, callId, name, text);
    assert UpstreamItem(id, callId, name, texts, text)[..|before|] == before;
  }
}
