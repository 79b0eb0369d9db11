/**
 * The body budget: a byte capacity, a bounded FIFO queue of bodies that do not fit yet, and a
 * drain loop that runs after every release and after every waiter that leaves.
 */
module BodyBudgets {
  import opened Prelude
  import opened Settlements
  import opened AdmissionQueue
  import opened AdmissionRuns

  const MAX_SAFE_INTEGER := 9_007_199_254_740_991

  datatype Config = Config(capacityBytes: int, maxQueued: int)

  predicate ValidConfig(c: Config) {
    1 <= c.capacityBytes <= MAX_SAFE_INTEGER && c.maxQueued >= 0
  }

  /** A queued body waits on its bytes; `held` maps every reservation whose release closure has not run to its own. */
  datatype State = State(inFlight: int, waiters: seq<Waiter<nat>>, held: map<nat, nat>, next: nat)

  const IDLE := State(0, [], map[], 0)

  datatype Arrival = Arrival(bytes: int, aborted: bool, deadlineAt: Stamp, now: Millis)

  predicate Malformed(c: Config, a: Arrival) {
    a.bytes < 0 || a.bytes > c.capacityBytes || a.deadlineAt.NonFinite?
  }

  /** The state once the queue is empty or its head too big for what is left, and the grants on the way there. */
  function Drain(c: Config, g: State, now: Millis): (State, seq<Settlement>)
    decreases |g.waiters|
  {
    if g.waiters == [] || g.inFlight + g.waiters[0].claim > c.capacityBytes then
      (g, [])
    else
      var w := g.waiters[0];
      var (g', s) := Drain(c, Take(g.(waiters := g.waiters[1..]), w.id, w.claim), now);
      (g', [Settlement(w.id, Granted, now)] + s)
  }

  function Take(g: State, id: nat, bytes: nat): State {
    g.(inFlight := g.inFlight + bytes, held := g.held[id := bytes])
  }

  function AcquireStep(c: Config, g: State, a: Arrival): (State, seq<Settlement>) {
    var arrived := g.(next := g.next + 1);
    if Malformed(c, a) then
      (arrived, [Settlement(g.next, BadArgument, a.now)])
    else if a.aborted then
      (arrived, [Settlement(g.next, Refused(Aborted, ProviderUnavailable), a.now)])
    else if |g.waiters| == 0 && g.inFlight + a.bytes <= c.capacityBytes then
      (Take(arrived, g.next, a.bytes), [Settlement(g.next, Granted, a.now)])
    else if |g.waiters| >= c.maxQueued then
      (arrived, [Settlement(g.next, Refused(QueueFull, ProxyCapacityExceeded), a.now)])
    else
      (arrived.(waiters := g.waiters + [Waiter(g.next, a.bytes)]), [])
  }

  function ReleaseStep(c: Config, g: State, id: nat, now: Millis): (State, seq<Settlement>) {
    if id in g.held then
      Drain(c, g.(inFlight := g.inFlight - g.held[id], held := g.held - {id}), now)
    else
      (g, [])
  }

  function Departure(id: nat, abort: bool, now: Millis): Settlement {
    Settlement(id, Refused(if abort then Aborted else Deadline, ProviderUnavailable), now)
  }

  /** An abort listener or a deadline timer runs: the waiter leaves and those behind it are reconsidered. */
  function LeaveStep(c: Config, g: State, id: nat, abort: bool, now: Millis): (State, seq<Settlement>) {
    var k := Position(g.waiters, id);
    if k == |g.waiters| then
      (g, [])
    else
      var (g', s) := Drain(c, g.(waiters := Without(g.waiters, k)), now);
      (g', [Departure(id, abort, now)] + s)
  }

  class BodyBudget {
    const cfg: Config
    var inFlight: int
    var waiters: seq<Waiter<nat>>
    var held: map<nat, nat>
    var arrivals: nat

    ghost function Model(): State
      reads this
    {
      State(inFlight, waiters, held, arrivals)
    }

    ghost predicate Valid()
      reads this
    {
      ValidConfig(cfg) && Inv(cfg, Model())
    }

    constructor (c: Config)
      requires ValidConfig(c)
      ensures Valid() && cfg == c && Model() == IDLE
    {
      cfg := c;
      inFlight, waiters, held, arrivals := 0, [], map[], 0;
      new;
      InitInv(c);
    }

    method Acquire(a: Arrival) returns (settled: seq<Settlement>)
      requires Valid()
      modifies this
      ensures Valid() && (Model(), settled) == AcquireStep(cfg, old(Model()), a)
    {
      StepInv(cfg, Model(), Op.Acquire(a));
      var id := arrivals;
      arrivals := arrivals + 1;
      if a.bytes < 0 || a.bytes > cfg.capacityBytes || a.deadlineAt.NonFinite? {
        return [Settlement(id, BadArgument, a.now)];
      }
      if a.aborted {
        return [Settlement(id, Refused(Aborted, ProviderUnavailable), a.now)];
      }
      if |waiters| == 0 && inFlight + a.bytes <= cfg.capacityBytes {
        inFlight := inFlight + a.bytes;
        held := held[id := a.bytes];
        return [Settlement(id, Granted, a.now)];
      }
      if |waiters| >= cfg.maxQueued {
        return [Settlement(id, Refused(QueueFull, ProxyCapacityExceeded), a.now)];
      }
      waiters := waiters + [Waiter(id, a.bytes)];
      settled := [];
    }

    method Release(id: nat, now: Millis) returns (settled: seq<Settlement>)
      requires Valid()
      modifies this
      ensures Valid() && (Model(), settled) == ReleaseStep(cfg, old(Model()), id, now)
    {
      StepInv(cfg, Model(), Op.Release(id, now));
      if id !in held {
        return [];
      }
      inFlight := inFlight - held[id];
      held := held - {id};
      settled := DrainQueue(now);
    }

    method Leave(id: nat, abort: bool, now: Millis) returns (settled: seq<Settlement>)
      requires Valid()
      modifies this
      ensures Valid() && (Model(), settled) == LeaveStep(cfg, old(Model()), id, abort, now)
    {
      StepInv(cfg, Model(), Op.Leave(id, abort, now));
      var k := Position(waiters, id);
      if k == |waiters| {
        return [];
      }
      waiters := Without(waiters, k);
      var drained := DrainQueue(now);
      settled := [Departure(id, abort, now)] + drained;
    }

    method DrainQueue(now: Millis) returns (settled: seq<Settlement>)
      modifies this
      ensures (Model(), settled) == Drain(cfg, old(Model()), now)
    {
      settled := [];
      ghost var start := Model();
      while |waiters| > 0 && inFlight + waiters[0].claim <= cfg.capacityBytes
        invariant Drain(cfg, start, now).0 == Drain(cfg, Model(), now).0
        invariant Drain(cfg, start, now).1 == settled + Drain(cfg, Model(), now).1
        decreases |waiters|
      {
        var w := waiters[0];
        ghost var soFar := settled;
        waiters := waiters[1..];
        inFlight := inFlight + w.claim;
        held := held[w.id := w.claim];
        settled := settled + [Settlement(w.id, Granted, now)];
        assert soFar + ([Settlement(w.id, Granted, now)] + Drain(cfg, Model(), now).1)
            == settled + Drain(cfg, Model(), now).1;
      }
      assert settled + [] == settled;
    }
  }

  /** The constructor's range checks. */
  method OpenBudget(c: Config) returns (budget: BodyBudget?)
    ensures budget != null <==> ValidConfig(c)
    ensures budget != null ==> fresh(budget) && budget.Valid() && budget.cfg == c && budget.Model() == IDLE
  {
    if c.capacityBytes < 1 || c.capacityBytes > MAX_SAFE_INTEGER || c.maxQueued < 0 {
      return null;
    }
    budget := new BodyBudget(c);
  }

  type BudgetOp = Op<Arrival, Millis>

  function Step(c: Config, g: State, op: BudgetOp): (State, seq<Settlement>) {
    match op
    case Acquire(a) => AcquireStep(c, g, a)
    case Release(id, now) => ReleaseStep(c, g, id, now)
    case Leave(id, abort, now) => LeaveStep(c, g, id, abort, now)
  }

  function Stepper(c: Config): (State, BudgetOp) -> (State, seq<Settlement>) {
    (g, op) => Step(c, g, op)
  }

  function Run(c: Config, ops: seq<BudgetOp>): (State, seq<Settlement>) {
    RunOf(Stepper(c), IDLE, ops)
  }

  // ---------------------------------------------------------------------------------------------
  // The invariant

  /** The bytes of a set of reservations. */
  ghost function Total(held: map<nat, nat>): nat {
    if held == map[] then 0 else
      var id :| id in held;
      held[id] + Total(held - {id})
  }

  lemma {:induction false} TotalWithout(held: map<nat, nat>, id: nat)
    requires id in held
    ensures Total(held) == held[id] + Total(held - {id})
    decreases |held|
  {
    assert held != map[];
    var first :| first in held && Total(held) == held[first] + Total(held - {first});
    if first != id {
      var rest := held - {first};
      assert |rest.Keys| < |held.Keys| by {
        assert rest.Keys == held.Keys - {first};
      }
      TotalWithout(rest, id);
      var other := held - {id};
      assert other - {first} == rest - {id};
      assert |other.Keys| < |held.Keys| by {
        assert other.Keys == held.Keys - {id};
      }
      TotalWithout(other, first);
    }
  }

  lemma TotalWith(held: map<nat, nat>, id: nat, bytes: nat)
    requires id !in held
    ensures Total(held[id := bytes]) == Total(held) + bytes
  {
    TotalWithout(held[id := bytes], id);
    assert held[id := bytes] - {id} == held;
  }

  /** The invariant that the drain loop starts from: everything but "the head does not fit". */
  ghost predicate Accounted(c: Config, g: State) {
    && g.inFlight == Total(g.held) <= c.capacityBytes
    && |g.waiters| <= c.maxQueued
    && Increasing(Ids(g.waiters))
    && (forall w | w in g.waiters :: w.id < g.next && w.id !in g.held && w.claim <= c.capacityBytes)
    && (forall h | h in g.held :: h < g.next)
  }

  ghost predicate Inv(c: Config, g: State) {
    Accounted(c, g) && (g.waiters != [] ==> g.inFlight + g.waiters[0].claim > c.capacityBytes)
  }

  lemma InitInv(c: Config)
    requires ValidConfig(c)
    ensures Inv(c, IDLE)
  {
  }

  /** Granting the head keeps everything accounted for. */
  lemma TakeHead(c: Config, g: State)
    requires Accounted(c, g) && g.waiters != [] && g.inFlight + g.waiters[0].claim <= c.capacityBytes
    ensures g.waiters[0].id !in g.held
    ensures Accounted(c, Take(g.(waiters := g.waiters[1..]), g.waiters[0].id, g.waiters[0].claim))
  {
    var w := g.waiters[0];
    assert w in g.waiters;
    TotalWith(g.held, w.id, w.claim);
    LeavesInOrder(g.waiters, 0);
    assert Without(g.waiters, 0) == g.waiters[1..];
  }

  lemma {:induction false} DrainInv(c: Config, g: State, now: Millis)
    requires ValidConfig(c) && Accounted(c, g)
    ensures Inv(c, Drain(c, g, now).0)
    decreases |g.waiters|
  {
    if g.waiters != [] && g.inFlight + g.waiters[0].claim <= c.capacityBytes {
      TakeHead(c, g);
      DrainInv(c, Take(g.(waiters := g.waiters[1..]), g.waiters[0].id, g.waiters[0].claim), now);
    }
  }

  /** Arrivals, releases and double releases, aborts and timers all keep the invariant. */
  lemma StepInv(c: Config, g: State, op: BudgetOp)
    requires ValidConfig(c) && Inv(c, g)
    ensures Inv(c, Step(c, g, op).0)
  {
    match op
    case Acquire(a) =>
      if !Malformed(c, a) {
        TotalWith(g.held, g.next, a.bytes);
        JoinsInOrder(g.waiters, Waiter(g.next, a.bytes));
      }
    case Release(id, now) =>
      if id in g.held {
        TotalWithout(g.held, id);
        DrainInv(c, g.(inFlight := g.inFlight - g.held[id], held := g.held - {id}), now);
      }
    case Leave(id, abort, now) =>
      var k := Position(g.waiters, id);
      if k < |g.waiters| {
        LeavesInOrder(g.waiters, k);
        DrainInv(c, g.(waiters := Without(g.waiters, k)), now);
      }
  }
}
