/** What each call of a stream gate does to each request, read off the history of the run. */
module StreamGateOutcomes {
  import opened Prelude
  import opened Settlements
  import opened AdmissionQueue
  import opened AdmissionRuns
  import opened StreamGates
  import opened StreamGateRuns

  /** The request arrived and has not settled. */
  ghost predicate Waiting(c: Config, ops: seq<GateOp>, id: nat) {
    id < |Arrivals(ops)| && !Settled(Run(c, ops).1, id)
  }

  lemma WaitingIsQueued(c: Config, ops: seq<GateOp>, queued: set<nat>)
    requires forall id: nat :: id in queued <==> Waiting(c, ops, id)
    ensures forall id: nat :: id in queued <==> id in Ids(Run(c, ops).0.waiters)
    ensures |queued| == |Run(c, ops).0.waiters|
  {
    SettledOnceInOrder(c, ops);
    DistinctCard(Ids(Run(c, ops).0.waiters), queued);
  }

  // ---------------------------------------------------------------------------------------------
  // Bounds

  /** After waiting for `waited` the request is inside every bound that applies to it. */
  predicate Inside(c: Config, a: Arrival, waited: Millis) {
    && waited < c.maxQueueWaitMs as real
    && (a.deadlineAt.At? ==> waited < a.deadlineAt.ms - a.epoch)
    && (a.startedAt.At? ==> waited < a.startedAt.ms + c.maxQueueWaitMs as real - a.epoch)
  }

  /** The caller's deadline is the bound that ends the wait: the first one, and not just the own bound restated. */
  predicate DeadlineEnds(c: Config, a: Arrival) {
    && a.deadlineAt.At?
    && (a.startedAt.At? ==> a.deadlineAt.ms < a.startedAt.ms + c.maxQueueWaitMs as real)
    && (!a.startedAt.At? ==> a.deadlineAt.ms <= a.epoch + c.maxQueueWaitMs as real)
  }

  function TooLate(c: Config, a: Arrival): Outcome {
    if DeadlineEnds(c, a) then Refused(Deadline, ProviderUnavailable) else Refused(QueueWait, c.fullCode)
  }

  lemma WaitBoundIs(c: Config, a: Arrival, waited: Millis)
    ensures waited < WaitBound(c, a) <==> Inside(c, a, waited)
  {
  }

  lemma ExpiryIs(c: Config, w: Waiter<Claim>, a: Arrival, now: Millis)
    requires w.claim == ClaimOf(c, a)
    ensures Overdue(w, now) <==> !Inside(c, a, now - a.now)
    ensures Expiry(c, w, now) == Settlement(w.id, TooLate(c, a), now)
  {
    WaitBoundIs(c, a, now - a.now);
  }

  // ---------------------------------------------------------------------------------------------
  // Arrivals

  /** What an arrival settles at once, if anything, beside so many taken slots and queued requests. */
  function AtOnce(c: Config, a: Arrival, taken: nat, queued: nat): Option<Outcome> {
    if a.deadlineAt.NonFinite? || a.startedAt.NonFinite? then Some(BadArgument)
    else if a.aborted then Some(Refused(Aborted, ProviderUnavailable))
    else if taken < c.maxConcurrent then Some(Granted)
    else if queued >= c.maxQueued then Some(Refused(QueueFull, c.fullCode))
    else if Inside(c, a, 0.0) then None
    else Some(TooLate(c, a))
  }

  /**
   * In every run, an arrival that is neither malformed nor aborted is granted at once exactly when a slot
   * is free, refused as `QueueFull` exactly when all slots are held and the queue is at its length, and
   * otherwise queued exactly when each of its bounds is still ahead; else the bound that ended refuses it.
   */
  lemma ArrivalOutcome(c: Config, ops: seq<GateOp>, a: Arrival, slots: set<nat>, queued: set<nat>)
    requires ValidConfig(c)
    requires forall id: nat :: id in slots <==> HoldsSlot(c, ops, id)
    requires forall id: nat :: id in queued <==> Waiting(c, ops, id)
    ensures var id, out := |Arrivals(ops)|, AtOnce(c, a, |slots|, |queued|);
            && Run(c, ops + [Acquire(a)]).1
               == Run(c, ops).1 + (if out.Some? then [Settlement(id, out.value, a.now)] else [])
            && (Waiting(c, ops + [Acquire(a)], id) <==> out.None?)
            && (HoldsSlot(c, ops + [Acquire(a)], id) <==> out == Some(Granted))
  {
    var id, g := |Arrivals(ops)|, Run(c, ops).0;
    SlotsAreAccounted(c, ops, slots);
    WaitingIsQueued(c, ops, queued);
    SettledOnceInOrder(c, ops);
    SettledOnceInOrder(c, ops + [Acquire(a)]);
    HeldIsHistory(c, ops, id);
    HeldIsHistory(c, ops + [Acquire(a)], id);
    RunOneMore(Stepper(c), IDLE, ops, Acquire(a));
    ArrivalStep(c, g, a);
    assert (ops + [Acquire(a)])[..|ops|] == ops;
    var out := AtOnce(c, a, |slots|, |queued|);
    if out.Some? {
      SettledAppend(Run(c, ops).1, Settlement(id, out.value, a.now));
    } else {
      NotSettledYet(Run(c, ops).1, Ids(g.waiters), id);
      assert Run(c, ops).1 + [] == Run(c, ops).1;
    }
  }

  lemma ArrivalStep(c: Config, g: State, a: Arrival)
    requires ValidConfig(c) && Inv(c, g)
    ensures var out, (g', s) := AtOnce(c, a, |g.held|, |g.waiters|), AcquireStep(c, g, a);
            && s == (if out.Some? then [Settlement(g.next, out.value, a.now)] else [])
            && (g.next in g'.held <==> out == Some(Granted))
  {
    WaitBoundIs(c, a, 0.0);
    ExpiryIs(c, Waiter(g.next, ClaimOf(c, a)), a, a.now);
  }

  // ---------------------------------------------------------------------------------------------
  // Departures

  lemma MatchingWaiter(c: Config, ops: seq<GateOp>, w: Waiter<Claim>, now: Millis)
    requires w in Run(c, ops).0.waiters
    ensures w.id < |Arrivals(ops)|
    ensures Overdue(w, now) <==> !Inside(c, Arrivals(ops)[w.id], now - Arrivals(ops)[w.id].now)
    ensures Expiry(c, w, now) == Settlement(w.id, TooLate(c, Arrivals(ops)[w.id]), now)
  {
    RunInTime(c, ops);
    ExpiryIs(c, w, Arrivals(ops)[w.id], now);
  }

  /** An abort or a timer refuses the request if it still waits, with its own reason, and is nothing otherwise. */
  lemma LeaveOutcome(c: Config, ops: seq<GateOp>, id: nat, abort: bool, now: Millis)
    ensures Run(c, ops + [Leave(id, abort, now)]).1
         == Run(c, ops).1
          + if !Waiting(c, ops, id) then []
            else if abort then [Settlement(id, Refused(Aborted, ProviderUnavailable), now)]
            else [Settlement(id, TooLate(c, Arrivals(ops)[id]), now)]
  {
    var g := Run(c, ops).0;
    RunOneMore(Stepper(c), IDLE, ops, Leave(id, abort, now));
    SettledOnceInOrder(c, ops);
    var k := Position(g.waiters, id);
    if k < |g.waiters| {
      assert Ids(g.waiters)[k] == id && g.waiters[k] in g.waiters;
      MatchingWaiter(c, ops, g.waiters[k], now);
    }
  }

  ghost predicate AllServed(c: Config, arr: seq<Arrival>, queue: seq<nat>, clock: Clock, k: nat, s: seq<Settlement>) {
    |s| <= |queue| && forall i | 0 <= i < |s| :: Served(c, arr, queue[i], clock(k + i), s[i])
  }

  lemma OneMoreServed(c: Config, arr: seq<Arrival>, queue: seq<nat>, clock: Clock, k: nat, first: Settlement,
                      s: seq<Settlement>)
    requires queue != [] && Served(c, arr, queue[0], clock(k), first)
    requires AllServed(c, arr, queue[1..], clock, k + 1, s)
    ensures AllServed(c, arr, queue, clock, k, [first] + s)
    ensures !first.outcome.Granted? && EndsServed(s, |queue| - 1) ==> EndsServed([first] + s, |queue|)
  {
    var all := [first] + s;
    forall i | 0 <= i < |all|
      ensures Served(c, arr, queue[i], clock(k + i), all[i])
    {
      if i > 0 {
        assert all[i] == s[i - 1] && queue[1..][i - 1] == queue[i] && k + 1 + (i - 1) == k + i;
      }
    }
  }

  lemma FrontServed(c: Config, w: Waiter<Claim>, now: Millis, arr: seq<Arrival>)
    requires w.id < |arr| && w.claim == ClaimOf(c, arr[w.id])
    ensures Overdue(w, now) ==> Served(c, arr, w.id, now, Expiry(c, w, now)) && !Expiry(c, w, now).outcome.Granted?
    ensures !Overdue(w, now) ==> Served(c, arr, w.id, now, Settlement(w.id, Granted, now))
  {
    ExpiryIs(c, w, arr[w.id], now);
  }

  lemma OneServed(c: Config, arr: seq<Arrival>, queue: seq<nat>, clock: Clock, k: nat, s: Settlement)
    requires queue != [] && Served(c, arr, queue[0], clock(k), s) && s.outcome.Granted?
    ensures AllServed(c, arr, queue, clock, k, [s]) && EndsServed([s], |queue|)
  {
  }

  lemma {:induction false} HandOffOutcome(c: Config, g: State, clock: Clock, k: nat, arr: seq<Arrival>)
    requires WaitersMatch(c, g.waiters, arr)
    ensures AllServed(c, arr, Ids(g.waiters), clock, k, HandOff(c, g, clock, k).1)
    ensures EndsServed(HandOff(c, g, clock, k).1, |g.waiters|)
    decreases |g.waiters|
  {
    if g.waiters != [] {
      var w, rest, now := g.waiters[0], g.(waiters := g.waiters[1..]), clock(k);
      assert w in g.waiters;
      IdsWithout(g.waiters, 0);
      assert Ids(rest.waiters) == Ids(g.waiters)[1..];
      FrontServed(c, w, now, arr);
      if Overdue(w, now) {
        HandOffOutcome(c, rest, clock, k + 1, arr);
        OneMoreServed(c, arr, Ids(g.waiters), clock, k, Expiry(c, w, now), HandOff(c, rest, clock, k + 1).1);
      } else {
        OneServed(c, arr, Ids(g.waiters), clock, k, Settlement(w.id, Granted, now));
      }
    }
  }

  /** A waiter that a release reaches is granted exactly when it is inside its bounds by then. */
  ghost predicate Served(c: Config, arr: seq<Arrival>, id: nat, now: Millis, s: Settlement) {
    && id < |arr|
    && s == Settlement(id, if Inside(c, arr[id], now - arr[id].now) then Granted else TooLate(c, arr[id]), now)
  }

  /** The last one is granted and nobody before it, or nobody is and all were reached. */
  ghost predicate EndsServed(s: seq<Settlement>, waiting: nat) {
    && (forall i | 0 <= i < |s| - 1 :: !s[i].outcome.Granted?)
    && (|s| == waiting || (s != [] && s[|s| - 1].outcome.Granted?))
  }

  /**
   * A release of a request that holds a slot reaches the waiting requests in arrival order up to the first
   * one inside its bounds, which is granted; the ones before it are refused. Any other release is nothing.
   */
  lemma ReleaseOutcome(c: Config, ops: seq<GateOp>, id: nat, clock: Clock) returns (s: seq<Settlement>, queue: seq<nat>)
    requires ValidConfig(c)
    ensures Run(c, ops + [Release(id, clock)]).1 == Run(c, ops).1 + s
    ensures Increasing(queue) && forall q: nat :: q in queue <==> Waiting(c, ops, q)
    ensures !HoldsSlot(c, ops, id) ==> s == []
    ensures HoldsSlot(c, ops, id) ==>
              EndsServed(s, |queue|) && AllServed(c, Arrivals(ops), queue, clock, 0, s)
  {
    var g := Run(c, ops).0;
    RunOneMore(Stepper(c), IDLE, ops, Release(id, clock));
    SettledOnceInOrder(c, ops);
    HeldIsHistory(c, ops, id);
    RunInTime(c, ops);
    queue := Ids(g.waiters);
    s := ReleaseStep(c, g, id, clock).1;
    HandOffOutcome(c, g.(held := g.held - {id}), clock, 0, Arrivals(ops));
  }

  // ---------------------------------------------------------------------------------------------
  // A run with a queue

  /** One slot, two requests: the second queues, and is granted when the first releases, if that is in time. */
  lemma QueuedThenGranted(c: Config, first: Arrival, second: Arrival, clock: Clock)
    requires ValidConfig(c) && c.maxConcurrent == 1 && c.maxQueued >= 1
    requires !Malformed(first) && !first.aborted && !Malformed(second) && !second.aborted
    requires Inside(c, second, 0.0) && Inside(c, second, clock(0) - second.now)
    ensures var none: seq<GateOp> := [];
            var two := none + [Acquire(first)] + [Acquire(second)];
            && Run(c, two).1 == [Settlement(0, Granted, first.now)] && Ids(Run(c, two).0.waiters) == [1]
            && Run(c, two + [Release(0, clock)]).1
               == [Settlement(0, Granted, first.now), Settlement(1, Granted, clock(0))]
  {
    var none: seq<GateOp> := [];
    var one := none + [Acquire(first)];
    var two := one + [Acquire(second)];
    RunOneMore(Stepper(c), IDLE, none, Acquire(first));
    RunOneMore(Stepper(c), IDLE, one, Acquire(second));
    RunOneMore(Stepper(c), IDLE, two, Release(0, clock));
    WaitBoundIs(c, second, 0.0);
    WaitBoundIs(c, second, clock(0) - second.now);
    assert Run(c, two).0.waiters == [Waiter(1, ClaimOf(c, second))];
    assert Run(c, two).1 == [Settlement(0, Granted, first.now)] + [];
  }
}
