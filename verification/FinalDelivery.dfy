/**
 * Delivering a task's final text: the polling fallback, the terminal callback and the
 * error-reconcile callback all call `deliverFinalResult`, whose awaits let them interleave.
 */
module FinalDelivery {
  import opened Prelude

  /** What the shared delivery promise will yield. */
  datatype Yielded = True | False | Throws

  /**
   * Where the delivery body in flight stands: awaiting the result, awaiting the status edit, awaiting
   * the fallback message, just past a successful delivery of the text, awaiting the attachments, or
   * settled but not yet cleared by its owner.
   */
  datatype Body = Fetching | Editing(attachments: bool) | Sending(attachments: bool) | Posted(attachments: bool)
                | Attaching | Settled(outcome: Yielded)

  /**
   * `posts` counts successful deliveries of the final text. `notices` counts the cancel and error notices
   * that were put into the queue of status edits, also those whose edit the channel then rejects.
   * `extras` counts the attachment messages that were sent.
   */
  datatype State = State(delivered: bool, inFlight: Option<Body>, posts: nat, notices: nat, extras: nat)

  const START := State(false, None, 0, 0, 0)

  /** One atomic step: what happens between two awaits, or an awaited call that settles. */
  datatype Op =
    | Call                            // any of the callers calls deliverFinalResult
    | Fetched(ready: bool, attachments: bool)  // the result arrives: final, or pending / awaiting approval
    | FetchFails
    | Posts                           // the edit, or the fallback message, succeeds
    | PostFails                       // it is rejected
    | Continue                        // the body runs on after the text was delivered
    | AttachmentsDone(ok: bool)
    | Clear                           // the owner's `finally`
    | Notice                          // the terminal callback of a cancelled or failed task

  /** What a call of `deliverFinalResult` does: nothing more to do, join the delivery in flight, or start one. */
  function OnCall(s: State): State {
    if s.delivered || s.inFlight.Some? then s else s.(inFlight := Some(Fetching))
  }

  function OnBody(s: State, body: Body, op: Op): State {
    match (body, op)
    case (Fetching, Fetched(ready, attachments)) =>
      s.(inFlight := Some(if ready then Editing(attachments) else Settled(False)))
    case (Fetching, FetchFails) => s.(inFlight := Some(Settled(Throws)))
    case (Editing(a), Posts) => s.(inFlight := Some(Posted(a)), posts := s.posts + 1)
    case (Editing(a), PostFails) => s.(inFlight := Some(Sending(a)))
    case (Sending(a), Posts) => s.(inFlight := Some(Posted(a)), posts := s.posts + 1)
    case (Sending(a), PostFails) => s.(inFlight := Some(Settled(Throws)))
    case (Posted(a), Continue) => s.(delivered := true, inFlight := Some(if a then Attaching else Settled(True)))
    case (Attaching, AttachmentsDone(ok)) =>
      s.(inFlight := Some(Settled(if ok then True else Throws)), extras := s.extras + if ok then 1 else 0)
    case (Settled(_), Clear) => s.(inFlight := None)
    case _ => s
  }

  function Step(s: State, op: Op): State {
    if op.Call? then OnCall(s)
    else if op.Notice? then if s.delivered then s else s.(delivered := true, notices := s.notices + 1)
    else if s.inFlight.Some? then OnBody(s, s.inFlight.value, op)
    else s
  }

  function Run(ops: seq<Op>): State {
    if ops == [] then START else Step(Run(ops[..|ops| - 1]), ops[|ops| - 1])
  }

  /** The closure's flags, updated in place by the callbacks and by the delivery body. */
  class Delivery {
    var finalDelivered: bool
    var finalDeliveryInFlight: Option<Body>
    ghost var posts: nat
    ghost var notices: nat
    ghost var extras: nat

    ghost function Model(): State
      reads this
    {
      State(finalDelivered, finalDeliveryInFlight, posts, notices, extras)
    }

    constructor ()
      ensures Model() == START
    {
      finalDelivered, finalDeliveryInFlight, posts, notices, extras := false, None, 0, 0, 0;
    }

    /** The synchronous part of `deliverFinalResult`; `Some(true)` answers at once, `None` awaits the shared promise. */
    method DeliverFinalResult() returns (now: Option<bool>)
      modifies this
      ensures Model() == Step(old(Model()), Call)
      ensures now == if old(finalDelivered) then Some(true) else None
    {
      if finalDelivered {
        return Some(true);
      }
      if finalDeliveryInFlight.Some? {
        return None;
      }
      finalDeliveryInFlight := Some(Fetching);
      now := None;
    }

    /** The body resumes when what it awaits settles; the owner then clears the promise. */
    method Resume(op: Op)
      requires !op.Call? && !op.Notice?
      modifies this
      ensures Model() == Step(old(Model()), op)
    {
      if finalDeliveryInFlight.None? {
        return;
      }
      match (finalDeliveryInFlight.value, op) {
        case (Fetching, Fetched(ready, a)) =>
          finalDeliveryInFlight := Some(if ready then Editing(a) else Settled(False));
        case (Fetching, FetchFails) => finalDeliveryInFlight := Some(Settled(Throws));
        case (Editing(a), Posts) => finalDeliveryInFlight, posts := Some(Posted(a)), posts + 1;
        case (Editing(a), PostFails) => finalDeliveryInFlight := Some(Sending(a));
        case (Sending(a), Posts) => finalDeliveryInFlight, posts := Some(Posted(a)), posts + 1;
        case (Sending(a), PostFails) => finalDeliveryInFlight := Some(Settled(Throws));
        case (Posted(a), Continue) =>
          finalDelivered := true;
          finalDeliveryInFlight := Some(if a then Attaching else Settled(True));
        case (Attaching, AttachmentsDone(ok)) =>
          finalDeliveryInFlight := Some(Settled(if ok then True else Throws));
          extras := extras + if ok then 1 else 0;
        case (Settled(_), Clear) => finalDeliveryInFlight := None;
        case _ =>
      }
    }

    /** The terminal callback of a cancelled task, or of a failed one that carries its error. */
    method TerminalNotice()
      modifies this
      ensures Model() == Step(old(Model()), Notice)
    {
      if finalDelivered {
        return;
      }
      finalDelivered := true;
      notices := notices + 1;
    }
  }

  // ---------------------------------------------------------------------------------------------
  // At most once

  /** The delivery in flight has not delivered the text, but still may. */
  predicate MayPost(s: State) {
    s.inFlight.Some? && (s.inFlight.value.Fetching? || s.inFlight.value.Editing? || s.inFlight.value.Sending?)
  }

  ghost predicate Inv(s: State) {
    && s.posts <= 1 && s.notices <= 1
    && (s.posts == 1 ==> !MayPost(s) && (s.delivered || (s.inFlight.Some? && s.inFlight.value.Posted?)))
    && (s.notices == 1 ==> s.delivered)
    && (s.delivered ==> s.posts + s.notices >= 1)
    && (s.inFlight.Some? && s.inFlight.value.Posted? ==> s.posts == 1)
    && (s.inFlight == Some(Attaching) || s.inFlight == Some(Settled(True)) ==> s.posts == 1 && s.delivered)
  }

  lemma {:induction false} RunInv(ops: seq<Op>)
    ensures Inv(Run(ops))
  {
    if ops != [] {
      RunInv(ops[..|ops| - 1]);
    }
  }

  /**
   * Whatever the interleaving of callers, retries after failures and terminal notices, the final text
   * is delivered at most once; a shared promise yields true only after it was delivered; and with no
   * notice in the run the delivered flag is set only by a delivery.
   */
  lemma DeliveredAtMostOnce(ops: seq<Op>)
    ensures Run(ops).posts <= 1
    ensures Run(ops).inFlight == Some(Settled(True)) ==> Run(ops).posts == 1 && Run(ops).delivered
    ensures Notice !in ops && Run(ops).delivered ==> Run(ops).posts == 1
  {
    RunInv(ops);
    if Notice !in ops {
      NoNoticeNone(ops);
    }
  }

  lemma {:induction false} NoNoticeNone(ops: seq<Op>)
    requires Notice !in ops
    ensures Run(ops).notices == 0
  {
    if ops != [] {
      NoNoticeNone(ops[..|ops| - 1]);
    }
  }

  /** A failed attempt can be retried, and an attempt whose attachments failed never repeats the text. */
  lemma RetryAfterFailure(ops: seq<Op>)
    requires Run(ops).inFlight == Some(Settled(Throws))
    ensures Run(ops + [Clear] + [Call]).inFlight == if Run(ops).delivered then None else Some(Fetching)
    ensures Run(ops + [Clear] + [Call]).posts == Run(ops).posts
  {
    assert (ops + [Clear])[..|ops|] == ops;
    assert (ops + [Clear] + [Call])[..|ops| + 1] == ops + [Clear];
  }

  // ---------------------------------------------------------------------------------------------
  // One delivery from beginning to end

  /** How the outside answers one delivery: the fetch, the status edit, the fallback message, the attachments. */
  datatype Answers = Answers(fetched: bool, ready: bool, edited: bool, sent: bool, attachments: bool, attached: bool)

  /** The final text is there, and the edit or, if that is rejected, the message gets it to the user. */
  predicate Reaches(a: Answers) {
    a.fetched && a.ready && (a.edited || a.sent)
  }

  function Yields(a: Answers): Yielded {
    if a.fetched && !a.ready then False
    else if Reaches(a) && (a.attachments ==> a.attached) then True
    else Throws
  }

  /** The awaits that the delivery goes through, in order. */
  function Course(a: Answers): seq<Op> {
    if !a.fetched then [Call, FetchFails]
    else if !a.ready then [Call, Fetched(false, a.attachments)]
    else [Call, Fetched(true, a.attachments)] + (Posting(a) + Closing(a))
  }

  function Steps(s: State, ops: seq<Op>): State
    decreases |ops|
  {
    if ops == [] then s else Steps(Step(s, ops[0]), ops[1..])
  }

  lemma Steps2(s: State, a: Op, b: Op, ops: seq<Op>)
    ensures Steps(s, [a, b] + ops) == Steps(Step(Step(s, a), b), ops)
  {
    assert ([a, b] + ops)[1..] == [b] + ops && ([b] + ops)[1..] == ops;
  }

  lemma Steps1(s: State, a: Op, ops: seq<Op>)
    ensures Steps(s, [a] + ops) == Steps(Step(s, a), ops)
  {
    assert ([a] + ops)[1..] == ops;
  }

  function Posting(a: Answers): seq<Op> {
    if a.edited then [Posts] else if a.sent then [PostFails, Posts] else [PostFails, PostFails]
  }

  function Closing(a: Answers): seq<Op> {
    if !Reaches(a) then [] else if a.attachments then [Continue, AttachmentsDone(a.attached)] else [Continue]
  }

  /** The edit, or else the message, delivers the text. */
  lemma PostingCourse(s: State, a: Answers, rest: seq<Op>)
    requires s.inFlight == Some(Editing(a.attachments))
    ensures Steps(s, Posting(a) + rest)
         == Steps(if a.edited || a.sent then s.(inFlight := Some(Posted(a.attachments)), posts := s.posts + 1)
                  else s.(inFlight := Some(Settled(Throws))), rest)
  {
    if a.edited {
      Steps1(s, Posts, rest);
    } else {
      Steps2(s, PostFails, if a.sent then Posts else PostFails, rest);
    }
  }

  /** The attachments follow the text. */
  lemma ClosingCourse(s: State, a: Answers)
    requires Reaches(a) && s.inFlight == Some(Posted(a.attachments))
    ensures Steps(s, Closing(a))
         == s.(delivered := true, inFlight := Some(Settled(Yields(a))),
               extras := s.extras + if a.attachments && a.attached then 1 else 0)
  {
    if a.attachments {
      Steps2(s, Continue, AttachmentsDone(a.attached), []);
      assert Closing(a) == [Continue, AttachmentsDone(a.attached)] + [];
    } else {
      Steps1(s, Continue, []);
      assert Closing(a) == [Continue] + [];
    }
  }

  /**
   * A delivery that nobody interrupts, from any state in which none is in flight or done: the text is
   * delivered once exactly when it is ready and the edit or the fallback message succeeds, the attachments
   * follow exactly then, and the shared promise yields what the callers act on.
   */
  lemma DeliveryCourse(s: State, a: Answers)
    requires !s.delivered && s.inFlight.None?
    ensures Steps(s, Course(a))
         == State(Reaches(a), Some(Settled(Yields(a))), s.posts + (if Reaches(a) then 1 else 0), s.notices,
                  s.extras + if Reaches(a) && a.attachments && a.attached then 1 else 0)
  {
    if a.fetched && a.ready {
      Steps2(s, Call, Fetched(true, a.attachments), Posting(a) + Closing(a));
      var editing := s.(inFlight := Some(Editing(a.attachments)));
      PostingCourse(editing, a, Closing(a));
      if Reaches(a) {
        ClosingCourse(editing.(inFlight := Some(Posted(a.attachments)), posts := s.posts + 1), a);
      }
    } else {
      var answer := if a.fetched then Fetched(false, a.attachments) else FetchFails;
      Steps2(s, Call, answer, []);
      assert Course(a) == [Call, answer] + [];
    }
  }

  // ---------------------------------------------------------------------------------------------
  // Final text and terminal notice together

  /** Step `i` is a notice that goes out while a delivery in flight may still post, or has just posted. */
  ghost predicate Overlaps(ops: seq<Op>, i: nat) {
    && i < |ops| && ops[i].Notice? && !Run(ops[..i]).delivered
    && (MayPost(Run(ops[..i])) || Run(ops[..i]).posts == 1)
  }

  lemma {:induction false} OverlapHistory(ops: seq<Op>)
    ensures Run(ops).posts + Run(ops).notices == 2 ==> exists i: nat :: Overlaps(ops, i)
    ensures Run(ops).notices == 1 && MayPost(Run(ops)) ==> exists i: nat :: Overlaps(ops, i)
    ensures (exists i: nat :: Overlaps(ops, i)) ==> Run(ops).notices == 1
  {
    if ops != [] {
      var n := |ops| - 1;
      var before := ops[..n];
      OverlapHistory(before);
      RunInv(before);
      RunInv(ops);
      if i: nat :| Overlaps(before, i) {
        assert before[..i] == ops[..i];
        assert Overlaps(ops, i);
      } else if ops[n].Notice? {
        assert Overlaps(ops, n) || Run(before).delivered || !(MayPost(Run(before)) || Run(before).posts == 1);
      }
      if i: nat :| Overlaps(ops, i) && i < n {
        assert before[..i] == ops[..i];
        assert Overlaps(before, i);
      }
    }
  }

  /**
   * When the final text was delivered, a cancel or error notice was issued too exactly when it went out
   * while that delivery was in flight or had just posted. Both edit one status message, unless the text
   * fell back to a message of its own, so the later edit is the one that stays.
   */
  lemma BothIffOverlap(ops: seq<Op>)
    requires Run(ops).posts == 1
    ensures Run(ops).notices == 1 <==> exists i: nat :: Overlaps(ops, i)
  {
    OverlapHistory(ops);
  }

  /** And it does happen: a cancel that arrives while the result is being fetched does not stop the delivery. */
  lemma NoticeDoesNotStopDelivery()
    ensures Run([Call, Notice, Fetched(true, false), Posts]).posts == 1
    ensures Run([Call, Notice, Fetched(true, false), Posts]).notices == 1
  {
    var ops := [Call, Notice, Fetched(true, false), Posts];
    assert ops[..3] == [Call, Notice, Fetched(true, false)] && ops[..3][..2] == [Call, Notice];
    assert [Call, Notice][..1] == [Call] && [Call][..0] == [];
    assert Run([Call]) == State(false, Some(Fetching), 0, 0, 0);
    assert Run([Call, Notice]) == State(true, Some(Fetching), 0, 1, 0);
    assert Run(ops[..3]) == State(true, Some(Editing(false)), 0, 1, 0);
  }
}
