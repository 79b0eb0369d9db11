/** What every run of a body budget keeps: byte accounting, no deadlock, exactly-once settlement, FIFO, draining. */
module BodyBudgetRuns {
  import opened Prelude
  import opened Settlements
  import opened AdmissionQueue
  import opened AdmissionRuns
  import opened BodyBudgets

  // ---------------------------------------------------------------------------------------------
  // Byte accounting against the history

  /** The body was admitted at some step of the run and its release never ran after that step. */
  ghost predicate HoldsBytes(c: Config, ops: seq<BudgetOp>, id: nat) {
    HoldsAfter(Stepper(c), IDLE, ops, id)
  }

  ghost predicate WaitersMatch(waiters: seq<Waiter<nat>>, arr: seq<Arrival>) {
    forall w | w in waiters :: w.id < |arr| && w.claim == arr[w.id].bytes
  }

  ghost predicate HeldMatch(held: map<nat, nat>, arr: seq<Arrival>) {
    forall h | h in held :: h < |arr| && held[h] == arr[h].bytes
  }

  lemma {:induction false} DrainHeld(c: Config, g: State, now: Millis, id: nat, arr: seq<Arrival>)
    requires WaitersMatch(g.waiters, arr) && HeldMatch(g.held, arr)
    ensures id in Drain(c, g, now).0.held <==> id in g.held || Grants(Drain(c, g, now).1, id)
    ensures Grants(Drain(c, g, now).1, id) ==> exists w | w in g.waiters :: w.id == id
    ensures WaitersMatch(Drain(c, g, now).0.waiters, arr) && HeldMatch(Drain(c, g, now).0.held, arr)
    decreases |g.waiters|
  {
    if g.waiters != [] && g.inFlight + g.waiters[0].claim <= c.capacityBytes {
      var w := g.waiters[0];
      assert w in g.waiters;
      var g' := Take(g.(waiters := g.waiters[1..]), w.id, w.claim);
      DrainHeld(c, g', now, id, arr);
      var one := [Settlement(w.id, Granted, now)];
      GrantsConcat(one, Drain(c, g', now).1, id);
      assert one[0] == Settlement(w.id, Granted, now);
      assert forall v | v in g'.waiters :: v in g.waiters;
    }
  }

  lemma AcquireHeld(c: Config, g: State, a: Arrival, id: nat, arr: seq<Arrival>)
    requires |arr| == g.next && WaitersMatch(g.waiters, arr) && HeldMatch(g.held, arr)
    requires forall h | h in g.held :: h < g.next
    ensures id in AcquireStep(c, g, a).0.held <==> Grants(AcquireStep(c, g, a).1, id) || id in g.held
    ensures WaitersMatch(AcquireStep(c, g, a).0.waiters, arr + [a])
    ensures HeldMatch(AcquireStep(c, g, a).0.held, arr + [a])
  {
    var s := AcquireStep(c, g, a).1;
    assert s == [] || s == [s[0]];
  }

  lemma LeaveHeld(c: Config, g: State, l: nat, abort: bool, now: Millis, id: nat, arr: seq<Arrival>)
    requires WaitersMatch(g.waiters, arr) && HeldMatch(g.held, arr)
    ensures var (g', s) := LeaveStep(c, g, l, abort, now);
            && (id in g'.held <==> Grants(s, id) || id in g.held)
            && WaitersMatch(g'.waiters, arr) && HeldMatch(g'.held, arr)
  {
    var k := Position(g.waiters, l);
    if k < |g.waiters| {
      var left := g.(waiters := Without(g.waiters, k));
      assert forall w | w in left.waiters :: w in g.waiters;
      DrainHeld(c, left, now, id, arr);
      GrantsConcat([Departure(l, abort, now)], Drain(c, left, now).1, id);
    }
  }

  lemma StepHeld(c: Config, g: State, op: BudgetOp, id: nat, arr: seq<Arrival>)
    requires ValidConfig(c) && Inv(c, g)
    requires |arr| == g.next && WaitersMatch(g.waiters, arr) && HeldMatch(g.held, arr)
    ensures id in Step(c, g, op).0.held
       <==> Grants(Step(c, g, op).1, id) || (id in g.held && !Releases(op, id))
    ensures var arr' := arr + if op.Acquire? then [op.a] else [];
            WaitersMatch(Step(c, g, op).0.waiters, arr') && HeldMatch(Step(c, g, op).0.held, arr')
  {
    match op
    case Acquire(a) =>
      AcquireHeld(c, g, a, id, arr);
    case Release(r, now) =>
      assert arr + [] == arr;
      if r in g.held {
        DrainHeld(c, g.(inFlight := g.inFlight - g.held[r], held := g.held - {r}), now, id, arr);
      }
    case Leave(l, abort, now) =>
      assert arr + [] == arr;
      LeaveHeld(c, g, l, abort, now, id, arr);
  }

  /** Every reachable state satisfies the invariant, and holds what its history says. */
  lemma {:induction false} HeldIsHistory(c: Config, ops: seq<BudgetOp>, id: nat)
    requires ValidConfig(c)
    ensures Inv(c, Run(c, ops).0)
    ensures id in Run(c, ops).0.held <==> HoldsBytes(c, ops, id)
    ensures Run(c, ops).0.next == |Arrivals(ops)|
    ensures WaitersMatch(Run(c, ops).0.waiters, Arrivals(ops)) && HeldMatch(Run(c, ops).0.held, Arrivals(ops))
  {
    if ops == [] {
      InitInv(c);
    } else {
      var n := |ops| - 1;
      HeldIsHistory(c, ops[..n], id);
      StepInv(c, Run(c, ops[..n]).0, ops[n]);
      SettledOnceInOrder(c, ops);
      StepHeld(c, Run(c, ops[..n]).0, ops[n], id, Arrivals(ops[..n]));
      HoldsAfterStep(Stepper(c), IDLE, ops, id);
    }
  }

  /**
   * In every reachable state `inFlight` is the sum, over the bodies admitted and not yet released,
   * of the bytes each declared; it never exceeds the capacity; and when anything is queued the head
   * does not fit, so some admitted body still holds bytes whose release will reconsider it.
   */
  lemma BytesAreAccounted(c: Config, ops: seq<BudgetOp>, bodies: map<nat, nat>)
    requires ValidConfig(c)
    requires forall id: nat :: id in bodies <==> HoldsBytes(c, ops, id)
    requires forall id: nat | id in bodies :: id < |Arrivals(ops)| && bodies[id] == Arrivals(ops)[id].bytes
    ensures Run(c, ops).0.inFlight == Total(bodies) <= c.capacityBytes
    ensures |Run(c, ops).0.waiters| <= c.maxQueued
    ensures Run(c, ops).0.waiters != [] ==>
              Run(c, ops).0.inFlight + Run(c, ops).0.waiters[0].claim > c.capacityBytes && bodies != map[]
  {
    var g := Run(c, ops).0;
    HeldIsHistory(c, ops, 0);
    forall id: nat
      ensures id in bodies <==> id in g.held
      ensures id in g.held ==> id < |Arrivals(ops)| && g.held[id] == Arrivals(ops)[id].bytes
    {
      HeldIsHistory(c, ops, id);
    }
    assert bodies == g.held;
    if g.waiters != [] {
      assert g.waiters[0] in g.waiters;
    }
  }

  // ---------------------------------------------------------------------------------------------
  // Exactly-once settlement and FIFO

  lemma {:induction false} DrainDeparts(c: Config, g: State, now: Millis)
    ensures Departs(Ids(g.waiters), Drain(c, g, now).1, Ids(Drain(c, g, now).0.waiters))
    ensures Drain(c, g, now).0.next == g.next
    decreases |g.waiters|
  {
    if g.waiters != [] && g.inFlight + g.waiters[0].claim <= c.capacityBytes {
      var w := g.waiters[0];
      var g' := Take(g.(waiters := g.waiters[1..]), w.id, w.claim);
      DrainDeparts(c, g', now);
      IdsWithout(g.waiters, 0);
      var (end, s) := Drain(c, g', now);
      DepartsFirst(g.waiters, 0, Settlement(w.id, Granted, now), s, Ids(end.waiters));
    }
  }

  /** Every step settles arriving bodies at once or queues them, and lets queued ones depart in order. */
  lemma StepIsOrderly(c: Config, g: State, op: BudgetOp)
    ensures var (g', s) := Step(c, g, op); Orderly(op, Ids(g.waiters), g.next, s, Ids(g'.waiters), g'.next)
  {
    match op
    case Acquire(a) =>
      if !Malformed(c, a) {
        assert Ids(g.waiters + [Waiter(g.next, a.bytes)]) == Ids(g.waiters) + [g.next];
      }
    case Release(id, now) =>
      if id in g.held {
        DrainDeparts(c, g.(inFlight := g.inFlight - g.held[id], held := g.held - {id}), now);
      }
    case Leave(id, abort, now) =>
      var k := Position(g.waiters, id);
      if k < |g.waiters| {
        var left := g.(waiters := Without(g.waiters, k));
        DrainDeparts(c, left, now);
        var (end, s) := Drain(c, left, now);
        DepartsFirst(g.waiters, k, Departure(id, abort, now), s, Ids(end.waiters));
      }
  }

  /**
   * Over every run each call of `acquire` is queued or has settled exactly once, and bodies are
   * admitted in arrival order even when waiters abort or expire in the middle of the queue.
   */
  lemma SettledOnceInOrder(c: Config, ops: seq<BudgetOp>)
    ensures Ledger(Run(c, ops).1, Ids(Run(c, ops).0.waiters), |Arrivals(ops)|)
    ensures Run(c, ops).0.next == |Arrivals(ops)|
  {
    forall g, op: BudgetOp
      ensures var (g', s) := Stepper(c)(g, op); Orderly(op, Ids(g.waiters), g.next, s, Ids(g'.waiters), g'.next)
    {
      StepIsOrderly(c, g, op);
    }
    RunLedger(Stepper(c), IDLE, (g: State) => Ids(g.waiters), (g: State) => g.next, ops);
  }

  // ---------------------------------------------------------------------------------------------
  // Draining and the clock

  lemma {:induction false} DrainKeepsLoad(c: Config, g: State, now: Millis)
    requires Accounted(c, g)
    ensures |Drain(c, g, now).0.held| + |Drain(c, g, now).0.waiters| == |g.held| + |g.waiters|
    decreases |g.waiters|
  {
    if g.waiters != [] && g.inFlight + g.waiters[0].claim <= c.capacityBytes {
      var w := g.waiters[0];
      TakeHead(c, g);
      assert g.held[w.id := w.claim].Keys == g.held.Keys + {w.id};
      DrainKeepsLoad(c, Take(g.(waiters := g.waiters[1..]), w.id, w.claim), now);
    }
  }

  /** One release takes one body out of the held and queued ones. */
  lemma ReleaseShrinksLoad(c: Config, g: State, id: nat, now: Millis)
    requires Inv(c, g) && id in g.held
    ensures var g' := ReleaseStep(c, g, id, now).0; 1 + |g'.held| + |g'.waiters| == |g.held| + |g.waiters|
  {
    var freed := g.(inFlight := g.inFlight - g.held[id], held := g.held - {id});
    TotalWithout(g.held, id);
    assert freed.held.Keys == g.held.Keys - {id};
    DrainKeepsLoad(c, freed, now);
  }

  function Load(g: State): nat {
    |g.held| + |g.waiters|
  }

  /**
   * Releasing reservations in any order, those granted meanwhile included, takes exactly
   * `|held| + |waiters|` releases to finish, and then the queue is empty and `inFlight` is zero.
   */
  lemma ReleasingDrains(c: Config, g: State, rs: seq<(nat, Millis)>)
    requires ValidConfig(c) && Inv(c, g)
    requires Releasing(Stepper(c), (g: State, id) => id in g.held, g, rs)
    ensures var end := AfterReleases(Stepper(c), g, rs);
            && Inv(c, end) && |rs| + |end.held| + |end.waiters| == |g.held| + |g.waiters|
            && (end.held == map[] ==> end.waiters == [] && end.inFlight == 0)
  {
    forall g, id, now: Millis | Inv(c, g) && id in g.held
      ensures var g' := Stepper(c)(g, Release(id, now)).0; Inv(c, g') && Load(g') + 1 == Load(g)
    {
      StepInv(c, g, Release(id, now));
      ReleaseShrinksLoad(c, g, id, now);
    }
    ReleasesShrink(Stepper(c), (g: State, id) => id in g.held, (g: State) => Inv(c, g), Load, true, g, rs);
  }

  // ---------------------------------------------------------------------------------------------
  // Which bodies a drain admits, and when that is past their deadline

  function Bytes(waiters: seq<Waiter<nat>>): nat {
    if waiters == [] then 0 else waiters[0].claim + Bytes(waiters[1..])
  }

  /** A drain admits exactly the queue positions up to which everything fits together. */
  lemma {:induction false} DrainAdmitsFittingPrefix(c: Config, g: State, now: Millis, k: nat)
    requires k < |g.waiters| && Increasing(Ids(g.waiters))
    ensures Grants(Drain(c, g, now).1, g.waiters[k].id)
       <==> g.inFlight + Bytes(g.waiters[..k + 1]) <= c.capacityBytes
    decreases k
  {
    var w := g.waiters[0];
    var id := g.waiters[k].id;
    assert g.waiters[..k + 1][0] == w && g.waiters[..k + 1][1..] == g.waiters[1..k + 1];
    if g.inFlight + w.claim <= c.capacityBytes {
      var g' := Take(g.(waiters := g.waiters[1..]), w.id, w.claim);
      var one := [Settlement(w.id, Granted, now)];
      GrantsConcat(one, Drain(c, g', now).1, id);
      assert forall i | 0 <= i < |g'.waiters| :: Ids(g'.waiters)[i] == Ids(g.waiters)[i + 1];
      if k == 0 {
        assert one[0].id == id && one[0].outcome.Granted?;
      } else {
        assert Ids(g.waiters)[0] < Ids(g.waiters)[k];
        assert g'.waiters[k - 1] == g.waiters[k] && g'.waiters[..k] == g.waiters[1..k + 1];
        DrainAdmitsFittingPrefix(c, g', now, k - 1);
      }
    }
  }

  predicate PastDeadline(a: Arrival, now: Millis) {
    a.deadlineAt.At? && now >= a.deadlineAt.ms
  }

  /** The step frees bytes or takes a waiter out of the queue, and so starts a drain. */
  predicate StartsDrain(g: State, op: BudgetOp) {
    match op
    case Acquire(_) => false
    case Release(id, _) => id in g.held
    case Leave(id, _, _) => Position(g.waiters, id) < |g.waiters|
  }

  /** The state that the step hands to its drain. */
  function BeforeDrain(g: State, op: BudgetOp): State
    requires StartsDrain(g, op)
  {
    match op
    case Release(id, _) => g.(inFlight := g.inFlight - g.held[id], held := g.held - {id})
    case Leave(id, _, _) =>
      var k := Position(g.waiters, id);
      g.(waiters := Without(g.waiters, k))
  }

  /** Position `k` of the queue is overdue, and fits together with everything in front of it. */
  predicate OverdueFits(c: Config, g: State, arr: seq<Arrival>, now: Millis, k: nat) {
    && k < |g.waiters| && g.waiters[k].id < |arr|
    && PastDeadline(arr[g.waiters[k].id], now)
    && g.inFlight + Bytes(g.waiters[..k + 1]) <= c.capacityBytes
  }

  function TimeOf(op: BudgetOp): Millis
    requires !op.Acquire?
  {
    if op.Release? then op.at else op.now
  }

  /** A grant of this step to a body whose deadline is over. */
  ghost predicate GrantsLate(c: Config, g: State, arr: seq<Arrival>, op: BudgetOp, w: nat)
    requires StartsDrain(g, op)
  {
    w < |arr| && Grants(Step(c, g, op).1, w) && PastDeadline(arr[w], TimeOf(op))
  }

  lemma DrainingStep(c: Config, g: State, op: BudgetOp, w: nat)
    requires ValidConfig(c) && Inv(c, g) && StartsDrain(g, op)
    ensures Grants(Step(c, g, op).1, w) <==> Grants(Drain(c, BeforeDrain(g, op), TimeOf(op)).1, w)
    ensures Increasing(Ids(BeforeDrain(g, op).waiters))
    ensures forall v | v in BeforeDrain(g, op).waiters :: v in g.waiters
  {
    if op.Leave? {
      LeavesInOrder(g.waiters, Position(g.waiters, op.id));
      GrantsConcat([Departure(op.id, op.abort, op.now)], Drain(c, BeforeDrain(g, op), TimeOf(op)).1, w);
    }
  }

  /**
   * Unlike the stream gate, the budget does not look at the clock when it grants: a release, or a
   * waiter that leaves, lets some body in past its deadline exactly when an overdue body fits behind
   * the bodies in front of it.
   */
  lemma AdmitsPastDeadlineIff(c: Config, ops: seq<BudgetOp>, op: BudgetOp)
    requires ValidConfig(c) && StartsDrain(Run(c, ops).0, op)
    ensures (exists w: nat :: GrantsLate(c, Run(c, ops).0, Arrivals(ops), op, w))
       <==> (exists k: nat :: OverdueFits(c, BeforeDrain(Run(c, ops).0, op), Arrivals(ops), TimeOf(op), k))
  {
    var g, arr := Run(c, ops).0, Arrivals(ops);
    var start := BeforeDrain(g, op);
    HeldIsHistory(c, ops, 0);
    if w: nat :| GrantsLate(c, g, arr, op, w) {
      var k := LateGrantFits(c, g, arr, op, w);
      assert OverdueFits(c, start, arr, TimeOf(op), k);
    }
    if k: nat :| OverdueFits(c, start, arr, TimeOf(op), k) {
      DrainingStep(c, g, op, start.waiters[k].id);
      DrainAdmitsFittingPrefix(c, start, TimeOf(op), k);
      assert GrantsLate(c, g, arr, op, start.waiters[k].id);
    }
  }

  lemma LateGrantFits(c: Config, g: State, arr: seq<Arrival>, op: BudgetOp, w: nat) returns (k: nat)
    requires ValidConfig(c) && Inv(c, g) && WaitersMatch(g.waiters, arr) && HeldMatch(g.held, arr)
    requires StartsDrain(g, op) && GrantsLate(c, g, arr, op, w)
    ensures OverdueFits(c, BeforeDrain(g, op), arr, TimeOf(op), k)
  {
    var start := BeforeDrain(g, op);
    DrainingStep(c, g, op, w);
    DrainHeld(c, start, TimeOf(op), w, arr);
    var v :| v in start.waiters && v.id == w;
    k :| 0 <= k < |start.waiters| && start.waiters[k] == v;
    DrainAdmitsFittingPrefix(c, start, TimeOf(op), k);
  }

  /** Two bodies arrive, and the first is released at `t`. */
  function LateTimer(first: Arrival, second: Arrival, t: Millis): seq<BudgetOp> {
    [] + [Acquire(first)] + [Acquire(second)] + [Release(0, t)]
  }

  /**
   * A late timer: two bodies that do not fit together, the second with a deadline. Whenever the first
   * is released, the second is granted, also at a time `t` far past its deadline.
   */
  lemma LateTimerAdmitsPastDeadline(c: Config, first: Arrival, second: Arrival, t: Millis)
    requires ValidConfig(c) && c.maxQueued >= 1
    requires !Malformed(c, first) && !Malformed(c, second) && !first.aborted && !second.aborted
    requires first.bytes + second.bytes > c.capacityBytes
    ensures Run(c, LateTimer(first, second, t)).1 == [Settlement(0, Granted, first.now), Settlement(1, Granted, t)]
  {
    var one := [] + [Acquire(first)];
    var two := one + [Acquire(second)];
    RunOneMore(Stepper(c), IDLE, [], Acquire(first));
    RunOneMore(Stepper(c), IDLE, one, Acquire(second));
    RunOneMore(Stepper(c), IDLE, two, Release(0, t));
    var g := Run(c, two).0;
    assert g.waiters == [Waiter(1, second.bytes)];
    var freed := g.(inFlight := 0, held := g.held - {0});
    assert Drain(c, Take(freed.(waiters := freed.waiters[1..]), 1, second.bytes), t).1 == [];
    assert Drain(c, freed, t).1 == [Settlement(1, Granted, t)];
  }
}
