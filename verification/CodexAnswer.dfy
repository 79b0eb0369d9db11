/** The way back: the names under which a request's tool calls are delivered. */
module CodexAnswer {
  import opened Prelude
  import opened Json
  import ToolNames
  import ToolNameTheorems
  import opened CodexStream
  import opened CodexStreamReading
  import opened CodexToolCalls
  import opened CodexFields
  import opened CodexRequest

  /** A requested canonical name, or a safe unregistered one, which is left to the host to refuse. */
  predicate KnownName(r: Request, name: string) {
    name in RequestedNames(r) || (ToolNames.Compliant(name) && !(ToolNames.ALIAS_PREFIX <= name))
  }

  lemma NamedIsKnown(c: Config, hash: ToolNames.Hash, r: Request, f: Frame)
    requires ToolNames.Construct(hash, RequestedNames(r)) == Some(c.names) && IsNamed(c, f)
    ensures KnownName(r, f.name)
  {
    var wire :| ToolNames.FromWire(c.names, wire) == Some(f.name);
    ToolNameTheorems.WireNamesAreUnique(hash, RequestedNames(r));
    ToolNameTheorems.FromWireIsIdempotent(hash, RequestedNames(r), wire);
    if wire in c.names.outbound.Values {
      var n :| n in c.names.outbound && c.names.outbound[n] == wire;
      ToolNameTheorems.RoundTrip(hash, RequestedNames(r), n);
    }
  }

  /**
   * Every tool frame that any read of an answer to `r` hands to the sink, successful or not, carries a
   * requested canonical name or a safe unregistered one, never an alias.
   */
  lemma ReadDeliversKnownNames(c: Config, hash: ToolNames.Hash, r: Request, chunks: seq<Chunk>, end: End)
    requires ToolNames.Construct(hash, RequestedNames(r)) == Some(c.names)
    ensures forall f | f in Consume(c, chunks, end).sent && f.ToolFrame? :: KnownName(r, f.name)
  {
    var texts, tools := ToolsOnlyAfterSuccess(c, chunks, end);
    var events := AllEvents(c, chunks, if end.Closed? then end.tail else "");
    TextFramesAreText(events);
    var n: nat :| n <= |TextFrames(events)| && texts == [] + TextFrames(events)[..n];
    forall f | f in Consume(c, chunks, end).sent && f.ToolFrame?
      ensures KnownName(r, f.name)
    {
      assert f in texts || f in tools;
      assert f in texts ==> f in TextFrames(events);
      NamedIsKnown(c, hash, r, f);
    }
  }

  /** The name the call has each time it is handed out. */
  function NamesHandedOut(p: Platform, own: seq<Event>): seq<string> {
    if own == [] then []
    else
      var before, e := own[..|own| - 1], own[|own| - 1];
      NamesHandedOut(p, before)
      + if HandsOut(p, Upsert(p, CallOf(p, before), SourceOfEvent(e)), e) then [LastName(own).GetOr("tool")] else []
  }

  /** Whenever the call is handed out, by an event or by the flush, `used` is the last name it was given. */
  ghost predicate CallsItselfBy(p: Platform, own: seq<Event>, used: string) {
    && own != []
    && (forall name | name in NamesHandedOut(p, own) :: name == used)
    && (NamesHandedOut(p, own) == [] ==> LastName(own).GetOr("tool") == used)
  }

  lemma {:induction false} HandedOutAs(p: Platform, own: seq<Event>)
    ensures own != [] ==> CallOf(p, own).Some? && CallOf(p, own).value.name == LastName(own).GetOr("tool")
    ensures |NamesHandedOut(p, own)| == |Handouts(p, own)|
    ensures forall i | 0 <= i < |Handouts(p, own)| :: Handouts(p, own)[i].call.name == NamesHandedOut(p, own)[i]
  {
    if own != [] {
      var before, e := own[..|own| - 1], own[|own| - 1];
      HandedOutAs(p, before);
      assert own == before + [e];
      NameAfter(p, before, e, CallOf(p, before));
    }
  }

  lemma {:induction false} HeldForIsHeld(held: seq<Emission>, key: string)
    ensures forall f | f in HeldFor(held, key) :: f in Frames(held)
  {
    if held != [] {
      HeldForIsHeld(held[..|held| - 1], key);
      assert Frames(held) == Frames(held[..|held| - 1]) + [held[|held| - 1].frame];
    }
  }

  /** A call handed out under a requested tool's wire name, or under its canonical name, gets a canonical frame. */
  lemma FrameIsCanonical(c: Config, hash: ToolNames.Hash, r: Request, h: Handout, frame: Frame, n: string)
    requires ToolNames.Construct(hash, RequestedNames(r)) == Some(c.names) && n in RequestedNames(r)
    requires IsFrameOf(c, h, frame)
    requires Some(h.call.name) == ToolNames.ToWire(c.names, n) || h.call.name == n
    ensures frame.ToolFrame? && frame.name == n
  {
    ToolNameTheorems.RoundTrip(hash, RequestedNames(r), n);
  }

  lemma FramesAreCanonical(c: Config, hash: ToolNames.Hash, r: Request, handouts: seq<Handout>, frames: seq<Frame>,
                           n: string, used: string)
    requires ToolNames.Construct(hash, RequestedNames(r)) == Some(c.names) && n in RequestedNames(r)
    requires Some(used) == ToolNames.ToWire(c.names, n) || used == n
    requires AreFramesOf(c, handouts, frames) && forall h | h in handouts :: h.call.name == used
    ensures forall f | f in frames :: f.ToolFrame? && f.name == n
  {
    forall i | 0 <= i < |frames|
      ensures frames[i].ToolFrame? && frames[i].name == n
    {
      assert handouts[i] in handouts;
      FrameIsCanonical(c, hash, r, handouts[i], frames[i], n);
    }
  }

  lemma AllHandedOutAs(p: Platform, own: seq<Event>, used: string)
    requires CallsItselfBy(p, own, used)
    ensures forall h | h in Handouts(p, own) :: h.call.name == used
    ensures Handouts(p, own) == [] ==> CallOf(p, own).Some? && CallOf(p, own).value.name == used
  {
    HandedOutAs(p, own);
    forall i | 0 <= i < |Handouts(p, own)|
      ensures Handouts(p, own)[i].call.name == used
    {
      assert NamesHandedOut(p, own)[i] in NamesHandedOut(p, own);
    }
  }

  /** At the end every item's frames are those of its hand-outs, the flushed call included. */
  lemma FramesComeFromCalls(c: Config, events: seq<Event>, key: string, used: string) returns (handouts: seq<Handout>)
    requires Succeeds(c, events) && CallsItselfBy(c.platform, Of(c.platform, events, key), used)
    ensures AreFramesOf(c, handouts, HeldFor(HeldAtEnd(c, events), key))
    ensures forall h | h in handouts :: h.call.name == used
  {
    var own := Of(c.platform, events, key);
    AllHandedOutAs(c.platform, own, used);
    ItemAtEnd(c, events, key);
    handouts := Handouts(c.platform, own);
    if handouts == [] {
      handouts := [Handout(CallOf(c.platform, own).value, false)];
    }
  }

  /**
   * A successful read of an answer to `r`: a call whose last name, when it is handed out, is a requested
   * tool's wire name, or an echo of its canonical name, is delivered, and all its frames carry that tool's
   * canonical name.
   */
  lemma AnswerIsCanonical(c: Config, hash: ToolNames.Hash, r: Request, chunks: seq<Chunk>, end: End, key: string,
                          n: string, used: string)
    requires ToolNames.Construct(hash, RequestedNames(r)) == Some(c.names) && n in RequestedNames(r)
    requires Consume(c, chunks, end).outcome.Success? && end.Closed?
    requires Some(used) == ToolNames.ToWire(c.names, n) || used == n
    requires CallsItselfBy(c.platform, Of(c.platform, AllEvents(c, chunks, end.tail), key), used)
    ensures var frames := HeldFor(HeldAtEnd(c, AllEvents(c, chunks, end.tail)), key);
            frames != [] && forall f | f in frames :: f in Consume(c, chunks, end).sent && f.ToolFrame? && f.name == n
  {
    var events := AllEvents(c, chunks, end.tail);
    SuccessfulRead(c, chunks, end);
    var handouts := FramesComeFromCalls(c, events, key, used);
    FramesAreCanonical(c, hash, r, handouts, HeldFor(HeldAtEnd(c, events), key), n, used);
    OneFramePerItemIff(c, events, key);
    HeldForIsHeld(HeldAtEnd(c, events), key);
  }

  /**
   * The converse, for every frame of every run: a frame named after a requested tool comes from an item
   * whose last name, when it was handed out, was that tool's wire name or its canonical name. A frame with
   * any other name carries that item's last name unchanged.
   */
  lemma FrameNameIsAsked(c: Config, hash: ToolNames.Hash, r: Request, chunks: seq<Chunk>, end: End, f: Frame)
    returns (key: string, m: nat)
    requires ToolNames.Construct(hash, RequestedNames(r)) == Some(c.names)
    requires f in Consume(c, chunks, end).sent && f.ToolFrame?
    ensures m <= |AllEvents(c, chunks, if end.Closed? then end.tail else "")|
    ensures var events := AllEvents(c, chunks, if end.Closed? then end.tail else "");
            var used := LastName(Of(c.platform, events[..m], key)).GetOr("tool");
            if f.name in RequestedNames(r) then used == f.name || Some(used) == ToolNames.ToWire(c.names, f.name)
            else used == f.name
  {
    var closed;
    key, m, closed := DeliveredFramesSay(c, chunks, end, f);
    var events := AllEvents(c, chunks, if end.Closed? then end.tail else "");
    var used := LastName(Of(c.platform, events[..m], key)).GetOr("tool");
    ToolNameTheorems.FromWireIff(hash, RequestedNames(r), used, f.name);
  }

  /** No wire name is blank, so the upstream can always name a requested tool. */
  lemma WireNameIsNotBlank(hash: ToolNames.Hash, r: Request, t: ToolNames.Tables, n: string)
    requires ToolNames.Construct(hash, RequestedNames(r)) == Some(t) && n in RequestedNames(r)
    ensures ToolNames.ToWire(t, n).Some? && !Blank(ToolNames.ToWire(t, n).value)
  {
    ToolNameTheorems.WireNamesAreUnique(hash, RequestedNames(r));
    assert n in t.outbound;
    var wire := t.outbound[n];
    assert ToolNames.IsWireChar(wire[0]) && ToolNames.IsWireChar(wire[|wire| - 1]);
    assert TrimStart(wire) == wire && TrimEnd(wire) == wire;
  }
}
