/**
 * The stream gate: a fixed number of slots and a bounded FIFO queue of callers, each with a wait bound
 * of its own. A slot that frees goes to the queue first.
 */
module StreamGates {
  import opened Prelude
  import opened Settlements
  import opened AdmissionQueue
  import opened AdmissionRuns

  /** The longest delay a timer honours. */
  const MAX_TIMER_DELAY_MS := 2_147_483_647

  datatype Config = Config(maxConcurrent: int, maxQueued: int, maxQueueWaitMs: int, fullCode: Code)

  predicate ValidConfig(c: Config) {
    c.maxConcurrent >= 1 && c.maxQueued >= 0 && 0 < c.maxQueueWaitMs <= MAX_TIMER_DELAY_MS
  }

  /** What a queued caller waits on: when it queued on the monotonic clock, its wait bound, and what that bound is. */
  datatype Claim = Claim(queuedAt: Millis, waitBoundMs: Millis, deadlineGoverns: bool)

  /** The monotonic clock as one release reads it: `clock(k)` for the k-th waiter that it looks at. */
  type Clock = nat -> Millis

  /** `held` are the requests whose release closure exists and has not run yet. */
  datatype State = State(running: int, waiters: seq<Waiter<Claim>>, held: set<nat>, next: nat)

  const IDLE := State(0, [], {}, 0)

  /** One call of `acquire`: its arguments and both clocks when it runs. */
  datatype Arrival = Arrival(aborted: bool, deadlineAt: Stamp, startedAt: Stamp, now: Millis, epoch: Millis)

  predicate Malformed(a: Arrival) {
    a.deadlineAt.NonFinite? || a.startedAt.NonFinite?
  }

  function OwnBoundAt(c: Config, a: Arrival): Millis {
    (if a.startedAt.At? then a.startedAt.ms else a.epoch) + c.maxQueueWaitMs as real
  }

  predicate DeadlineGoverns(c: Config, a: Arrival) {
    && a.deadlineAt.At?
    && if a.startedAt.At? then a.deadlineAt.ms < OwnBoundAt(c, a) else a.deadlineAt.ms <= OwnBoundAt(c, a)
  }

  /** How long the caller may stay queued, fixed when it queues. */
  function WaitBound(c: Config, a: Arrival): Millis {
    var boundAt := if DeadlineGoverns(c, a) then a.deadlineAt.ms else OwnBoundAt(c, a);
    Min(c.maxQueueWaitMs as real, boundAt - a.epoch)
  }

  function ClaimOf(c: Config, a: Arrival): Claim {
    Claim(a.now, WaitBound(c, a), DeadlineGoverns(c, a))
  }

  predicate Overdue(w: Waiter<Claim>, now: Millis) {
    now - w.claim.queuedAt >= w.claim.waitBoundMs
  }

  function Expiry(c: Config, w: Waiter<Claim>, now: Millis): Settlement {
    Settlement(w.id,
               if w.claim.deadlineGoverns then Refused(Deadline, ProviderUnavailable)
               else Refused(QueueWait, c.fullCode),
               now)
  }

  /**
   * What a release does with its slot: the overdue waiters in front expire, the next one is granted.
   * The clock is read for each of them; `k` readings are used up.
   */
  function HandOff(c: Config, g: State, clock: Clock, k: nat): (State, seq<Settlement>)
    decreases |g.waiters|
  {
    if g.waiters == [] then
      (g.(running := g.running - 1), [])
    else
      var w := g.waiters[0];
      if Overdue(w, clock(k)) then
        var (g', s) := HandOff(c, g.(waiters := g.waiters[1..]), clock, k + 1);
        (g', [Expiry(c, w, clock(k))] + s)
      else
        (g.(waiters := g.waiters[1..], held := g.held + {w.id}), [Settlement(w.id, Granted, clock(k))])
  }

  function AcquireStep(c: Config, g: State, a: Arrival): (State, seq<Settlement>) {
    var arrived := g.(next := g.next + 1);
    if Malformed(a) then
      (arrived, [Settlement(g.next, BadArgument, a.now)])
    else if a.aborted then
      (arrived, [Settlement(g.next, Refused(Aborted, ProviderUnavailable), a.now)])
    else if |g.waiters| == 0 && g.running < c.maxConcurrent then
      (arrived.(running := g.running + 1, held := g.held + {g.next}), [Settlement(g.next, Granted, a.now)])
    else if |g.waiters| >= c.maxQueued then
      (arrived, [Settlement(g.next, Refused(QueueFull, c.fullCode), a.now)])
    else
      var w := Waiter(g.next, ClaimOf(c, a));
      if w.claim.waitBoundMs <= 0.0 then
        (arrived, [Expiry(c, w, a.now)])
      else
        (arrived.(waiters := g.waiters + [w]), [])
  }

  function ReleaseStep(c: Config, g: State, id: nat, clock: Clock): (State, seq<Settlement>) {
    if id in g.held then HandOff(c, g.(held := g.held - {id}), clock, 0) else (g, [])
  }

  /** A waiter's abort listener or deadline timer runs; both are gone once it has left the queue. */
  function LeaveStep(c: Config, g: State, id: nat, abort: bool, now: Millis): (State, seq<Settlement>) {
    var k := Position(g.waiters, id);
    if k == |g.waiters| then
      (g, [])
    else
      var w := g.waiters[k];
      (g.(waiters := Without(g.waiters, k)),
       [if abort then Settlement(id, Refused(Aborted, ProviderUnavailable), now) else Expiry(c, w, now)])
  }

  // ---------------------------------------------------------------------------------------------
  // The gate itself

  class StreamGate {
    const cfg: Config
    var running: int
    var waiters: seq<Waiter<Claim>>
    var held: set<nat>
    var arrivals: nat

    ghost function Model(): State
      reads this
    {
      State(running, waiters, held, arrivals)
    }

    ghost predicate Valid()
      reads this
    {
      ValidConfig(cfg) && Inv(cfg, Model())
    }

    constructor (c: Config)
      requires ValidConfig(c)
      ensures Valid() && cfg == c && Model() == IDLE
    {
      cfg := c;
      running, waiters, held, arrivals := 0, [], {}, 0;
      new;
      InitInv(c);
    }

    method Acquire(a: Arrival) returns (settled: seq<Settlement>)
      requires Valid()
      modifies this
      ensures Valid() && (Model(), settled) == AcquireStep(cfg, old(Model()), a)
    {
      StepInv(cfg, Model(), Op.Acquire(a));
      var id := arrivals;
      arrivals := arrivals + 1;
      if a.deadlineAt.NonFinite? || a.startedAt.NonFinite? {
        return [Settlement(id, BadArgument, a.now)];
      }
      if a.aborted {
        return [Settlement(id, Refused(Aborted, ProviderUnavailable), a.now)];
      }
      if |waiters| == 0 && running < cfg.maxConcurrent {
        running := running + 1;
        held := held + {id};
        return [Settlement(id, Granted, a.now)];
      }
      if |waiters| >= cfg.maxQueued {
        return [Settlement(id, Refused(QueueFull, cfg.fullCode), a.now)];
      }
      settled := Enqueue(Waiter(id, ClaimOf(cfg, a)), a.now);
    }

    /** A waiter whose bound is already over is queued and expired in one go. */
    method Enqueue(w: Waiter<Claim>, now: Millis) returns (settled: seq<Settlement>)
      modifies this`waiters
      ensures waiters == if w.claim.waitBoundMs <= 0.0 then old(waiters) else old(waiters) + [w]
      ensures settled == if w.claim.waitBoundMs <= 0.0 then [Expiry(cfg, w, now)] else []
    {
      waiters := waiters + [w];
      settled := [];
      if w.claim.waitBoundMs <= 0.0 {
        waiters := waiters[..|waiters| - 1];
        settled := [Expiry(cfg, w, now)];
      }
    }

    method Release(id: nat, clock: Clock) returns (settled: seq<Settlement>)
      requires Valid()
      modifies this
      ensures Valid() && (Model(), settled) == ReleaseStep(cfg, old(Model()), id, clock)
    {
      StepInv(cfg, Model(), Op.Release(id, clock));
      if id !in held {
        return [];
      }
      held := held - {id};
      settled := PassSlotOn(clock);
    }

    /** The loop of a release that runs for the first time. */
    method PassSlotOn(clock: Clock) returns (settled: seq<Settlement>)
      modifies this
      ensures (Model(), settled) == HandOff(cfg, old(Model()), clock, 0)
    {
      settled := [];
      ghost var start := Model();
      var k := 0;
      while |waiters| > 0
        invariant HandOff(cfg, start, clock, 0).0 == HandOff(cfg, Model(), clock, k).0
        invariant HandOff(cfg, start, clock, 0).1 == settled + HandOff(cfg, Model(), clock, k).1
        invariant running == start.running && held == start.held && arrivals == start.next
        decreases |waiters|
      {
        var w, now := waiters[0], clock(k);
        ghost var soFar := settled;
        waiters := waiters[1..];
        k := k + 1;
        if Overdue(w, now) {
          settled := settled + [Expiry(cfg, w, now)];
          assert soFar + ([Expiry(cfg, w, now)] + HandOff(cfg, Model(), clock, k).1)
              == settled + HandOff(cfg, Model(), clock, k).1;
        } else {
          held := held + {w.id};
          settled := settled + [Settlement(w.id, Granted, now)];
          return;
        }
      }
      assert waiters == [] && settled + [] == settled;
      running := running - 1;
    }

    /** The abort listener (`abort`) or the deadline timer of a request runs. */
    method Leave(id: nat, abort: bool, now: Millis) returns (settled: seq<Settlement>)
      requires Valid()
      modifies this
      ensures Valid() && (Model(), settled) == LeaveStep(cfg, old(Model()), id, abort, now)
    {
      StepInv(cfg, Model(), Op.Leave(id, abort, now));
      var k := Position(waiters, id);
      if k == |waiters| {
        return [];
      }
      var w := waiters[k];
      waiters := Without(waiters, k);
      settled := [if abort then Settlement(id, Refused(Aborted, ProviderUnavailable), now) else Expiry(cfg, w, now)];
    }
  }

  /** The constructor's range checks: a gate exists exactly for a valid configuration. */
  method OpenGate(c: Config) returns (gate: StreamGate?)
    ensures gate != null <==> ValidConfig(c)
    ensures gate != null ==> fresh(gate) && gate.Valid() && gate.cfg == c && gate.Model() == IDLE
  {
    if c.maxConcurrent < 1 || c.maxQueued < 0 || c.maxQueueWaitMs <= 0 || c.maxQueueWaitMs > MAX_TIMER_DELAY_MS {
      return null;
    }
    gate := new StreamGate(c);
  }

  // ---------------------------------------------------------------------------------------------
  // Runs

  type GateOp = Op<Arrival, Clock>

  function Step(c: Config, g: State, op: GateOp): (State, seq<Settlement>) {
    match op
    case Acquire(a) => AcquireStep(c, g, a)
    case Release(id, clock) => ReleaseStep(c, g, id, clock)
    case Leave(id, abort, now) => LeaveStep(c, g, id, abort, now)
  }

  function Stepper(c: Config): (State, GateOp) -> (State, seq<Settlement>) {
    (g, op) => Step(c, g, op)
  }

  /** A run from the idle gate: the state it reaches and every settlement, in order. */
  function Run(c: Config, ops: seq<GateOp>): (State, seq<Settlement>) {
    RunOf(Stepper(c), IDLE, ops)
  }

  /** The state invariant: slots are exactly the unreleased grants, and nobody queues beside a free slot. */
  ghost predicate Inv(c: Config, g: State) {
    && g.running == |g.held| <= c.maxConcurrent
    && |g.waiters| <= c.maxQueued
    && (g.waiters != [] ==> g.running == c.maxConcurrent)
    && Increasing(Ids(g.waiters))
    && (forall w | w in g.waiters :: w.id < g.next && w.id !in g.held)
    && (forall h | h in g.held :: h < g.next)
  }

  lemma InitInv(c: Config)
    requires ValidConfig(c)
    ensures Inv(c, IDLE)
  {
  }

  /** After a hand-off: `running` and the held slots move together, whoever takes the slot. */
  lemma {:induction false} HandOffInv(c: Config, g: State, clock: Clock, k: nat)
    requires ValidConfig(c)
    requires Inv(c, g.(running := g.running - 1, waiters := []))
    requires |g.waiters| <= c.maxQueued && (g.waiters != [] ==> g.running == c.maxConcurrent)
    requires g.running <= c.maxConcurrent
    requires Increasing(Ids(g.waiters))
    requires forall w | w in g.waiters :: w.id < g.next && w.id !in g.held
    ensures Inv(c, HandOff(c, g, clock, k).0)
    decreases |g.waiters|
  {
    if g.waiters != [] {
      LeavesInOrder(g.waiters, 0);
      assert Without(g.waiters, 0) == g.waiters[1..];
      if Overdue(g.waiters[0], clock(k)) {
        HandOffInv(c, g.(waiters := g.waiters[1..]), clock, k + 1);
      }
    }
  }

  lemma AcquireInv(c: Config, g: State, a: Arrival)
    requires ValidConfig(c) && Inv(c, g)
    ensures Inv(c, AcquireStep(c, g, a).0)
  {
    JoinsInOrder(g.waiters, Waiter(g.next, ClaimOf(c, a)));
  }

  lemma LeaveInv(c: Config, g: State, k: nat)
    requires Inv(c, g) && k < |g.waiters|
    ensures Inv(c, g.(waiters := Without(g.waiters, k)))
  {
    LeavesInOrder(g.waiters, k);
  }

  /** Every step keeps the invariant: arrivals, releases and double releases, aborts and timers. */
  lemma StepInv(c: Config, g: State, op: GateOp)
    requires ValidConfig(c) && Inv(c, g)
    ensures Inv(c, Step(c, g, op).0)
  {
    match op
    case Acquire(a) =>
      AcquireInv(c, g, a);
    case Release(id, clock) =>
      if id in g.held {
        HandOffInv(c, g.(held := g.held - {id}), clock, 0);
      }
    case Leave(id, abort, now) =>
      if Position(g.waiters, id) < |g.waiters| {
        LeaveInv(c, g, Position(g.waiters, id));
      }
  }
}
