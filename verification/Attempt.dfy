/**
 * One provider attempt: check, redeem the single-use ticket, stream, and finalize the receipt.
 * Everything outside the proxy is an arbitrary environment.
 */
module Attempts {
  import opened Prelude
  import opened Json
  import CodexStream
  import CodexRequest
  import CodexAnswer
  import ToolNames

  /** How a failure looks to the attempt's `catch`. */
  datatype Failure = AbortError | OriginDenied | Transport | Foreign

  datatype Outcome = Success | Canceled | Error | Unknown

  /** What the outside does in one run of the attempt. */
  datatype World = World(
    checks: Option<Failure>,         // a pre-dispatch check that throws
    abortedBefore: bool,             // the client is gone before the redeem
    redeem: Option<string>,          // the attempt receipt, or a rejected redeem
    servesModel: bool,               // the redeem serves the requested model
    idleTimeoutMs: Option<int>,      // the caller's idle timeout, if any
    onRedeemedThrows: bool,
    preflight: Option<Failure>,      // a failure before the upstream body is built
    fetch: Option<Failure>,          // a failure after that, with no response body to read
    interruption: Failure,           // why a read was cut
    sinkFailure: Failure,            // what a rejecting sink throws
    abortedAtCatch: bool,            // the client's signal when a failure is caught
    finalizeAccepted: nat -> bool)   // whether the n-th finalize is accepted

  datatype Receipt = Receipt(attemptReceipt: string, outcome: Outcome, usage: Option<Json>)

  /** The calls the attempt makes to the control plane. */
  datatype Call = Redeem | Finalize(receipt: Receipt)

  datatype Result = Returned(outcome: Outcome, usage: Option<Json>) | Rejected(failure: Failure)

  predicate ValidIdleTimeout(ms: Option<int>) {
    ms.Some? ==> ms.value > 0
  }

  function FailureOf(w: World, e: CodexStream.Error): Failure {
    match e
    case Interrupted => w.interruption
    case SinkRejected => w.sinkFailure
    case _ => Transport
  }

  /** The request of an attempt, and the answer that the upstream streams if it is asked. */
  datatype Exchange = Exchange(platform: Platform, hash: ToolNames.Hash, request: CodexRequest.Request,
                               sinkFails: nat -> bool, chunks: seq<CodexStream.Chunk>, end: CodexStream.End)

  function Names(x: Exchange): Option<ToolNames.Tables> {
    ToolNames.Construct(x.hash, CodexRequest.RequestedNames(x.request))
  }

  /** What is read of the answer; `None` if there is nothing to read it from. */
  function Reading(w: World, x: Exchange): Option<CodexStream.Report> {
    if w.preflight.Some? || Names(x).None? || w.fetch.Some? then None
    else Some(CodexStream.Consume(CodexStream.Config(x.platform, Names(x).value, x.sinkFails), x.chunks, x.end))
  }

  /** It is the answer as read under the names of the request, by the sink that the caller gave. */
  lemma ReadingIs(w: World, x: Exchange, t: ToolNames.Tables)
    ensures Reading(w, x).Some? <==> w.preflight.None? && w.fetch.None? && Names(x).Some?
    ensures Reading(w, x).Some? && ToolNames.Construct(x.hash, CodexRequest.RequestedNames(x.request)) == Some(t) ==>
              var c := CodexStream.Config(x.platform, t, x.sinkFails);
              Reading(w, x).value == CodexStream.Consume(c, x.chunks, x.end)
  {
  }

  /** What the upstream part throws, if it does. */
  function Thrown(w: World, x: Exchange): Option<Failure> {
    if w.preflight.Some? then w.preflight
    else if Names(x).None? then Some(Foreign)
    else if w.fetch.Some? then w.fetch
    else if Reading(w, x).value.outcome.Thrown? then Some(FailureOf(w, Reading(w, x).value.outcome.error))
    else None
  }

  /** `f` is what the upstream part throws: a failure before or at its dispatch, or why its read ended. */
  ghost predicate Throws(w: World, x: Exchange, f: Failure) {
    if w.preflight.Some? then w.preflight == Some(f)
    else if Names(x).None? then f == Foreign
    else if w.fetch.Some? then w.fetch == Some(f)
    else
      var outcome := Reading(w, x).value.outcome;
      && outcome.Thrown?
      && (outcome.error == CodexStream.Interrupted ==> f == w.interruption)
      && (outcome.error == CodexStream.SinkRejected ==> f == w.sinkFailure)
      && (outcome.error != CodexStream.Interrupted && outcome.error != CodexStream.SinkRejected ==> f == Transport)
  }

  lemma FailureOfIs(w: World, e: CodexStream.Error)
    ensures e == CodexStream.Interrupted ==> FailureOf(w, e) == w.interruption
    ensures e == CodexStream.SinkRejected ==> FailureOf(w, e) == w.sinkFailure
    ensures e != CodexStream.Interrupted && e != CodexStream.SinkRejected ==> FailureOf(w, e) == Transport
  {
  }

  lemma ThrownIff(w: World, x: Exchange, f: Failure)
    ensures Thrown(w, x) == Some(f) <==> Throws(w, x, f)
  {
    if Reading(w, x).Some? && Reading(w, x).value.outcome.Thrown? {
      FailureOfIs(w, Reading(w, x).value.outcome.error);
    }
  }

  /** The ticket was redeemed, and nothing between the redeem and the stream threw. */
  predicate Owed(w: World) {
    && w.checks.None? && !w.abortedBefore && w.redeem.Some?
    && (w.servesModel ==> ValidIdleTimeout(w.idleTimeoutMs) && !w.onRedeemedThrows)
  }

  /** One finalize, or two with the same receipt exactly when the first is rejected; nothing follows the second. */
  ghost predicate Finalizes(calls: seq<Call>, receipt: Receipt, accepted: nat -> bool) {
    && 1 <= |calls| <= 2
    && (forall i | 0 <= i < |calls| :: calls[i] == Finalize(receipt))
    && (|calls| == 2 <==> !accepted(0))
  }

  method FinalizeQuietly(w: World, receipt: Receipt) returns (calls: seq<Call>)
    ensures Finalizes(calls, receipt, w.finalizeAccepted)
  {
    calls := [Finalize(receipt)];
    if !w.finalizeAccepted(0) {
      calls := calls + [Finalize(receipt)];
    }
  }

  /** Build the body, dispatch it, and read the answer. */
  method ReadUpstream(w: World, x: Exchange)
    returns (streamed: Prelude.Result<CodexStream.Outcome, Failure>, delivered: seq<CodexStream.Frame>)
    ensures streamed.Err? <==> Thrown(w, x).Some?
    ensures streamed.Err? ==> Thrown(w, x) == Some(streamed.error)
    ensures streamed.Ok? ==> Reading(w, x).Some? && streamed.value == Reading(w, x).value.outcome
    ensures delivered == if Reading(w, x).Some? then Reading(w, x).value.sent else []
  {
    if w.preflight.Some? {
      return Err(w.preflight.value), [];
    }
    var body := CodexRequest.BuildUpstreamBody(x.platform, x.hash, x.request);
    if body.None? {
      return Err(Foreign), [];
    }
    if w.fetch.Some? {
      return Err(w.fetch.value), [];
    }
    var c := CodexStream.Config(x.platform, body.value.0, x.sinkFails);
    var report := CodexStream.ConsumeSse(c, x.chunks, x.end);
    delivered := report.sent;
    if report.outcome.Thrown? {
      streamed := Err(FailureOf(w, report.outcome.error));
    } else {
      streamed := Ok(report.outcome);
    }
  }

  /** What a receipt says of an attempt whose model was served. */
  ghost predicate ReceiptTells(w: World, x: Exchange, r: Receipt) {
    && (r.outcome == Success <==> Reading(w, x).Some? && Reading(w, x).value.outcome.Success?)
    && (r.outcome == Unknown <==> Reading(w, x).Some? && Reading(w, x).value.outcome.Unknown?)
    && (r.outcome == Canceled <==> exists f :: Throws(w, x, f) && (w.abortedAtCatch || f == AbortError))
    && r.usage == if Thrown(w, x).Some? then None else Reading(w, x).value.outcome.usage
  }

  /** How many redeems there are: one, unless the run is refused before. */
  function Redeems(w: World): nat {
    if w.checks.Some? || w.abortedBefore then 0 else 1
  }

  /**
   * The attempt: the calls it makes, its result, the receipt it sends if any, and what reached the
   * sink.
   *
   * - A run refused before the redeem makes no call at all; otherwise the ticket is redeemed once,
   *   before anything else.
   * - A receipt is sent exactly when one is owed: a redeemed ticket stays without a finalize exactly
   *   when its model is served but the idle timeout is invalid or `onRedeemed` throws.
   * - The receipt tells what happened, and a returned outcome is the receipt's outcome.
   * - Frames reach the sink only under a redeemed ticket whose model is served, and tool frames only
   *   under names that the request knows or the host can refuse.
   */
  method StreamCodexCompletion(w: World, x: Exchange)
    returns (calls: seq<Call>, result: Result, receipt: Option<Receipt>, delivered: seq<CodexStream.Frame>)
    ensures Redeems(w) <= |calls| && forall i | 0 <= i < |calls| :: calls[i].Redeem? <==> i < Redeems(w)
    ensures receipt.Some? ==> Finalizes(calls[Redeems(w)..], receipt.value, w.finalizeAccepted)
    ensures receipt.None? ==> |calls| == Redeems(w)
    ensures receipt.Some? <==> Owed(w)
    ensures receipt.Some? ==> receipt.value.attemptReceipt == w.redeem.value
    ensures receipt.Some? && !w.servesModel ==> receipt.value.outcome == Error && receipt.value.usage == None
    ensures receipt.Some? && w.servesModel ==> ReceiptTells(w, x, receipt.value)
    ensures receipt.Some? ==> (result.Rejected? <==> receipt.value.outcome == Error)
    ensures receipt.Some? && result.Rejected? ==>
              if !w.servesModel then result.failure == Transport
              else exists f :: Throws(w, x, f) && result.failure == if f == OriginDenied then Transport else f
    ensures receipt.Some? && result.Returned? ==> result == Returned(receipt.value.outcome, receipt.value.usage)
    ensures receipt.None? ==> result == if w.checks.Some? then Rejected(w.checks.value)
                                        else if w.abortedBefore then Returned(Canceled, None)
                                        else Rejected(Foreign)
    ensures delivered == if Owed(w) && w.servesModel && Reading(w, x).Some? then Reading(w, x).value.sent else []
    ensures forall f | f in delivered && f.ToolFrame? :: CodexAnswer.KnownName(x.request, f.name)
  {
    calls, receipt, delivered := [], None, [];
    if w.checks.Some? {
      return calls, Rejected(w.checks.value), receipt, delivered;
    }
    if w.abortedBefore {
      return calls, Returned(Canceled, None), receipt, delivered;
    }
    calls := [Redeem];
    if w.redeem.None? {
      return calls, Rejected(Foreign), receipt, delivered;
    }
    if !w.servesModel {
      receipt := Some(Receipt(w.redeem.value, Error, None));
      var finalizes := FinalizeQuietly(w, receipt.value);
      return calls + finalizes, Rejected(Transport), receipt, delivered;
    }
    if !ValidIdleTimeout(w.idleTimeoutMs) {
      return calls, Rejected(Foreign), receipt, delivered;
    }
    if w.onRedeemedThrows {
      return calls, Rejected(Foreign), receipt, delivered;
    }
    var outcome, usage := Unknown, None;
    var streamed;
    streamed, delivered := ReadUpstream(w, x);
    DeliveredNamesAreKnown(w, x);
    ThrowsOnce(w, x);
    if streamed.Ok? {
      outcome, usage := if streamed.value.Success? then Success else Unknown, streamed.value.usage;
      result := Returned(outcome, usage);
    } else if w.abortedAtCatch || streamed.error.AbortError? {
      outcome := Canceled;
      result := Returned(outcome, usage);
    } else {
      outcome := Error;
      result := Rejected(if streamed.error.OriginDenied? then Transport else streamed.error);
    }
    receipt := Some(Receipt(w.redeem.value, outcome, usage));
    var finalizes := FinalizeQuietly(w, receipt.value);
    calls := calls + finalizes;
  }

  lemma ThrowsOnce(w: World, x: Exchange)
    ensures forall f :: Throws(w, x, f) <==> Thrown(w, x) == Some(f)
  {
    forall f
      ensures Throws(w, x, f) <==> Thrown(w, x) == Some(f)
    {
      ThrownIff(w, x, f);
    }
  }

  lemma DeliveredNamesAreKnown(w: World, x: Exchange)
    ensures Reading(w, x).Some? ==>
              forall f | f in Reading(w, x).value.sent && f.ToolFrame? :: CodexAnswer.KnownName(x.request, f.name)
  {
    if Reading(w, x).Some? {
      var c := CodexStream.Config(x.platform, Names(x).value, x.sinkFails);
      CodexAnswer.ReadDeliversKnownNames(c, x.hash, x.request, x.chunks, x.end);
    }
  }

  /**
   * A call with a zero idle timeout redeems its ticket and never finalizes it. The server's own
   * configuration is always positive, so it takes another caller.
   */
  method ZeroIdleTimeoutIsNeverFinalized(w: World, x: Exchange) returns (calls: seq<Call>)
    requires w.checks.None? && !w.abortedBefore && w.redeem.Some? && w.servesModel && w.idleTimeoutMs == Some(0)
    ensures calls == [Redeem]
  {
    var result, receipt, delivered;
    calls, result, receipt, delivered := StreamCodexCompletion(w, x);
  }
}
