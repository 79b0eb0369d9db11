/** What each call of a body budget does to each body, read off the history of the run. */
module BodyBudgetOutcomes {
  import opened Prelude
  import opened Settlements
  import opened AdmissionQueue
  import opened AdmissionRuns
  import opened BodyBudgets
  import opened BodyBudgetRuns

  /** The body arrived and has not settled. */
  ghost predicate Waiting(c: Config, ops: seq<BudgetOp>, id: nat) {
    id < |Arrivals(ops)| && !Settled(Run(c, ops).1, id)
  }

  lemma WaitingIsQueued(c: Config, ops: seq<BudgetOp>, queued: set<nat>)
    requires forall id: nat :: id in queued <==> Waiting(c, ops, id)
    ensures forall id: nat :: id in queued <==> id in Ids(Run(c, ops).0.waiters)
    ensures |queued| == |Run(c, ops).0.waiters|
  {
    SettledOnceInOrder(c, ops);
    DistinctCard(Ids(Run(c, ops).0.waiters), queued);
  }

  /** What an arrival settles at once, if anything, beside so many reserved bytes and queued bodies. */
  function AtOnce(c: Config, a: Arrival, reserved: nat, queued: nat): Option<Outcome> {
    if a.bytes < 0 || a.bytes > c.capacityBytes || a.deadlineAt.NonFinite? then Some(BadArgument)
    else if a.aborted then Some(Refused(Aborted, ProviderUnavailable))
    else if queued == 0 && reserved + a.bytes <= c.capacityBytes then Some(Granted)
    else if queued >= c.maxQueued then Some(Refused(QueueFull, ProxyCapacityExceeded))
    else None
  }

  lemma ArrivalStep(c: Config, g: State, a: Arrival)
    requires ValidConfig(c) && Inv(c, g)
    ensures g.inFlight >= 0
    ensures var out, (g', s) := AtOnce(c, a, g.inFlight, |g.waiters|), AcquireStep(c, g, a);
            && s == (if out.Some? then [Settlement(g.next, out.value, a.now)] else [])
            && (g.next in g'.held <==> out == Some(Granted))
  {
  }

  /**
   * In every run, a well-formed arrival that is not aborted is admitted at once exactly when nobody queues
   * and it fits beside the admitted bodies, refused as `QueueFull` exactly when it is not and the queue is
   * at its length, and otherwise queued.
   */
  lemma ArrivalOutcome(c: Config, ops: seq<BudgetOp>, a: Arrival, bodies: map<nat, nat>, queued: set<nat>)
    requires ValidConfig(c)
    requires forall id: nat :: id in bodies <==> HoldsBytes(c, ops, id)
    requires forall id: nat | id in bodies :: id < |Arrivals(ops)| && bodies[id] == Arrivals(ops)[id].bytes
    requires forall id: nat :: id in queued <==> Waiting(c, ops, id)
    ensures var id, out := |Arrivals(ops)|, AtOnce(c, a, Total(bodies), |queued|);
            && Run(c, ops + [Acquire(a)]).1
               == Run(c, ops).1 + (if out.Some? then [Settlement(id, out.value, a.now)] else [])
            && (Waiting(c, ops + [Acquire(a)], id) <==> out.None?)
            && (HoldsBytes(c, ops + [Acquire(a)], id) <==> out == Some(Granted))
  {
    var id, g := |Arrivals(ops)|, Run(c, ops).0;
    BytesAreAccounted(c, ops, bodies);
    WaitingIsQueued(c, ops, queued);
    SettledOnceInOrder(c, ops);
    HeldIsHistory(c, ops, id);
    HeldIsHistory(c, ops + [Acquire(a)], id);
    RunOneMore(Stepper(c), IDLE, ops, Acquire(a));
    ArrivalStep(c, g, a);
    assert (ops + [Acquire(a)])[..|ops|] == ops;
    var out := AtOnce(c, a, Total(bodies), |queued|);
    if out.Some? {
      SettledAppend(Run(c, ops).1, Settlement(id, out.value, a.now));
    } else {
      NotSettledYet(Run(c, ops).1, Ids(g.waiters), id);
      assert Run(c, ops).1 + [] == Run(c, ops).1;
    }
  }

  ghost predicate AllAdmitted(s: seq<Settlement>, now: Millis) {
    forall i | 0 <= i < |s| :: s[i].outcome.Granted? && s[i].at == now
  }

  lemma {:induction false} DrainAdmits(c: Config, g: State, now: Millis)
    ensures AllAdmitted(Drain(c, g, now).1, now)
    decreases |g.waiters|
  {
    if g.waiters != [] && g.inFlight + g.waiters[0].claim <= c.capacityBytes {
      var w := g.waiters[0];
      DrainAdmits(c, Take(g.(waiters := g.waiters[1..]), w.id, w.claim), now);
    }
  }

  /**
   * An abort or a deadline refuses the body if it still waits, with its own reason, and admits whoever fits
   * then; it is nothing otherwise.
   */
  lemma LeaveOutcome(c: Config, ops: seq<BudgetOp>, id: nat, abort: bool, now: Millis) returns (s: seq<Settlement>)
    ensures Run(c, ops + [Leave(id, abort, now)]).1 == Run(c, ops).1 + s
    ensures !Waiting(c, ops, id) ==> s == []
    ensures Waiting(c, ops, id) ==>
              && s != [] && AllAdmitted(s[1..], now)
              && s[0] == Settlement(id, Refused(if abort then Aborted else Deadline, ProviderUnavailable), now)
  {
    var g := Run(c, ops).0;
    RunOneMore(Stepper(c), IDLE, ops, Leave(id, abort, now));
    SettledOnceInOrder(c, ops);
    s := LeaveStep(c, g, id, abort, now).1;
    var k := Position(g.waiters, id);
    if k < |g.waiters| {
      assert Ids(g.waiters)[k] == id && id in Ids(g.waiters);
      DrainAdmits(c, g.(waiters := Without(g.waiters, k)), now);
    }
  }

  /** A release of a body that holds bytes only admits; any other release is nothing. */
  lemma ReleaseOutcome(c: Config, ops: seq<BudgetOp>, id: nat, now: Millis) returns (s: seq<Settlement>)
    requires ValidConfig(c)
    ensures Run(c, ops + [Release(id, now)]).1 == Run(c, ops).1 + s
    ensures if HoldsBytes(c, ops, id) then AllAdmitted(s, now) else s == []
  {
    var g := Run(c, ops).0;
    RunOneMore(Stepper(c), IDLE, ops, Release(id, now));
    HeldIsHistory(c, ops, id);
    s := ReleaseStep(c, g, id, now).1;
    if id in g.held {
      DrainAdmits(c, g.(inFlight := g.inFlight - g.held[id], held := g.held - {id}), now);
    }
  }
}
