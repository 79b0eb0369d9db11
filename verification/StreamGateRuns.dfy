/** What every run of a stream gate keeps: slot accounting, exactly-once settlement, FIFO, bounded waits, draining. */
module StreamGateRuns {
  import opened Prelude
  import opened Settlements
  import opened AdmissionQueue
  import opened AdmissionRuns
  import opened StreamGates

  // ---------------------------------------------------------------------------------------------
  // Slot accounting against the history

  /** The request was granted at some step of the run and its release never ran after that step. */
  ghost predicate HoldsSlot(c: Config, ops: seq<GateOp>, id: nat) {
    HoldsAfter(Stepper(c), IDLE, ops, id)
  }

  /** A hand-off adds to the held slots what it grants, and it grants only queued requests. */
  lemma {:induction false} HandOffHeld(c: Config, g: State, clock: Clock, k: nat, id: nat)
    ensures id in HandOff(c, g, clock, k).0.held <==> id in g.held || Grants(HandOff(c, g, clock, k).1, id)
    ensures Grants(HandOff(c, g, clock, k).1, id) ==> exists w :: w in g.waiters && w.id == id
    decreases |g.waiters|
  {
    if g.waiters != [] {
      var w := g.waiters[0];
      assert w in g.waiters;
      if Overdue(w, clock(k)) {
        var rest := g.(waiters := g.waiters[1..]);
        HandOffHeld(c, rest, clock, k + 1, id);
        GrantsConcat([Expiry(c, w, clock(k))], HandOff(c, rest, clock, k + 1).1, id);
      } else {
        assert HandOff(c, g, clock, k).1[0] == Settlement(w.id, Granted, clock(k));
      }
    }
  }

  lemma AcquireHeld(c: Config, g: State, a: Arrival, id: nat)
    ensures id in AcquireStep(c, g, a).0.held <==> Grants(AcquireStep(c, g, a).1, id) || id in g.held
  {
    var s := AcquireStep(c, g, a).1;
    assert s == [] || s == [s[0]];
  }

  lemma ReleaseHeld(c: Config, g: State, r: nat, clock: Clock, id: nat)
    requires Inv(c, g)
    ensures id in ReleaseStep(c, g, r, clock).0.held
       <==> Grants(ReleaseStep(c, g, r, clock).1, id) || (id in g.held && id != r)
  {
    if r in g.held {
      HandOffHeld(c, g.(held := g.held - {r}), clock, 0, id);
    }
  }

  lemma StepHeld(c: Config, g: State, op: GateOp, id: nat)
    requires Inv(c, g)
    ensures id in Step(c, g, op).0.held
       <==> Grants(Step(c, g, op).1, id) || (id in g.held && !Releases(op, id))
  {
    match op
    case Acquire(a) =>
      AcquireHeld(c, g, a, id);
    case Release(r, clock) =>
      ReleaseHeld(c, g, r, clock, id);
    case Leave(l, abort, now) =>
  }

  /** Every reachable state satisfies the invariant, and holds what its history says. */
  lemma {:induction false} HeldIsHistory(c: Config, ops: seq<GateOp>, id: nat)
    requires ValidConfig(c)
    ensures Inv(c, Run(c, ops).0)
    ensures id in Run(c, ops).0.held <==> HoldsSlot(c, ops, id)
  {
    if ops == [] {
      InitInv(c);
    } else {
      var n := |ops| - 1;
      HeldIsHistory(c, ops[..n], id);
      StepInv(c, Run(c, ops[..n]).0, ops[n]);
      StepHeld(c, Run(c, ops[..n]).0, ops[n], id);
      HoldsAfterStep(Stepper(c), IDLE, ops, id);
    }
  }

  /**
   * In every reachable state `running` is the number of requests granted and not yet released,
   * it stays within the gate's width, the queue within its length, and no slot is free while
   * somebody queues.
   */
  lemma SlotsAreAccounted(c: Config, ops: seq<GateOp>, slots: set<nat>)
    requires ValidConfig(c)
    requires forall id: nat :: id in slots <==> HoldsSlot(c, ops, id)
    ensures Run(c, ops).0.running == |slots| <= c.maxConcurrent
    ensures |Run(c, ops).0.waiters| <= c.maxQueued
    ensures Run(c, ops).0.waiters != [] ==> |slots| == c.maxConcurrent
  {
    HeldIsHistory(c, ops, 0);
    forall id: nat
      ensures id in slots <==> id in Run(c, ops).0.held
    {
      HeldIsHistory(c, ops, id);
    }
    assert slots == Run(c, ops).0.held;
  }

  // ---------------------------------------------------------------------------------------------
  // Exactly-once settlement and FIFO

  lemma {:induction false} HandOffDeparts(c: Config, g: State, clock: Clock, k: nat)
    ensures Departs(Ids(g.waiters), HandOff(c, g, clock, k).1, Ids(HandOff(c, g, clock, k).0.waiters))
    ensures HandOff(c, g, clock, k).0.next == g.next
    decreases |g.waiters|
  {
    if g.waiters != [] {
      var w := g.waiters[0];
      var rest := g.(waiters := g.waiters[1..]);
      IdsWithout(g.waiters, 0);
      if Overdue(w, clock(k)) {
        HandOffDeparts(c, rest, clock, k + 1);
        DepartsFirst(g.waiters, 0, Expiry(c, w, clock(k)), HandOff(c, rest, clock, k + 1).1,
                     Ids(HandOff(c, rest, clock, k + 1).0.waiters));
      } else {
        DepartsFirst(g.waiters, 0, Settlement(w.id, Granted, clock(k)), [], Ids(rest.waiters));
      }
    }
  }

  /** Every step settles arriving requests at once or queues them, and lets queued ones depart in order. */
  lemma StepIsOrderly(c: Config, g: State, op: GateOp)
    ensures var (g', s) := Step(c, g, op); Orderly(op, Ids(g.waiters), g.next, s, Ids(g'.waiters), g'.next)
  {
    match op
    case Acquire(a) =>
      assert Ids(g.waiters + [Waiter(g.next, ClaimOf(c, a))]) == Ids(g.waiters) + [g.next];
    case Release(id, clock) =>
      if id in g.held {
        HandOffDeparts(c, g.(held := g.held - {id}), clock, 0);
      }
    case Leave(id, abort, now) =>
      var k := Position(g.waiters, id);
      if k < |g.waiters| {
        var s := LeaveStep(c, g, id, abort, now).1;
        DepartsFirst(g.waiters, k, s[0], [], Ids(Without(g.waiters, k)));
        assert [s[0]] + [] == s;
      }
  }

  /**
   * Over every run each call of `acquire` is queued or has settled exactly once, and grants
   * happen in arrival order: no grant overtakes an earlier request that is granted later or
   * still waits.
   */
  lemma SettledOnceInOrder(c: Config, ops: seq<GateOp>)
    ensures Ledger(Run(c, ops).1, Ids(Run(c, ops).0.waiters), |Arrivals(ops)|)
    ensures Run(c, ops).0.next == |Arrivals(ops)|
  {
    forall g, op: GateOp
      ensures var (g', s) := Stepper(c)(g, op); Orderly(op, Ids(g.waiters), g.next, s, Ids(g'.waiters), g'.next)
    {
      StepIsOrderly(c, g, op);
    }
    RunLedger(Stepper(c), IDLE, (g: State) => Ids(g.waiters), (g: State) => g.next, ops);
  }

  // ---------------------------------------------------------------------------------------------
  // Who a release serves

  /**
   * A release refuses exactly the waiters in front whom its clock finds overdue and grants the first
   * one still inside its bound, whoever that is; the waiters behind keep their places, and only when
   * nobody can take the slot is it freed. `k` waiters were looked at before.
   */
  lemma {:induction false} ReleaseServesFirstInBound(c: Config, g: State, clock: Clock, k: nat, n: nat)
    requires n <= |g.waiters|
    requires forall i | 0 <= i < n :: Overdue(g.waiters[i], clock(k + i))
    requires n < |g.waiters| ==> !Overdue(g.waiters[n], clock(k + n))
    ensures |HandOff(c, g, clock, k).1| == if n < |g.waiters| then n + 1 else n
    ensures forall i | 0 <= i < n :: HandOff(c, g, clock, k).1[i] == Expiry(c, g.waiters[i], clock(k + i))
    ensures n < |g.waiters| ==> HandOff(c, g, clock, k).1[n] == Settlement(g.waiters[n].id, Granted, clock(k + n))
    ensures HandOff(c, g, clock, k).0
         == if n < |g.waiters| then g.(waiters := g.waiters[n + 1..], held := g.held + {g.waiters[n].id})
            else g.(waiters := [], running := g.running - 1)
    decreases n
  {
    if n > 0 {
      var rest := g.(waiters := g.waiters[1..]);
      forall i | 0 <= i < |rest.waiters|
        ensures rest.waiters[i] == g.waiters[i + 1] && k + 1 + i == k + (i + 1)
      {
      }
      ReleaseServesFirstInBound(c, rest, clock, k + 1, n - 1);
      assert forall i | 0 < i < n :: HandOff(c, g, clock, k).1[i] == HandOff(c, rest, clock, k + 1).1[i - 1];
    }
  }

  // ---------------------------------------------------------------------------------------------
  // Bounded waits

  /** Every waiter waits on the claim of its own arrival, and queued because its bound was still ahead. */
  ghost predicate WaitersMatch(c: Config, waiters: seq<Waiter<Claim>>, arr: seq<Arrival>) {
    forall w | w in waiters ::
      w.id < |arr| && w.claim == ClaimOf(c, arr[w.id]) && w.claim.waitBoundMs > 0.0
  }

  /** A grant on arrival, or to a waiter whose bound was ahead then and is ahead still. */
  ghost predicate GrantInTime(c: Config, arr: seq<Arrival>, s: Settlement) {
    s.outcome.Granted? ==>
      && s.id < |arr|
      && (s.at == arr[s.id].now || (0.0 < WaitBound(c, arr[s.id]) && s.at - arr[s.id].now < WaitBound(c, arr[s.id])))
  }

  lemma {:induction false} HandOffInTime(c: Config, g: State, clock: Clock, k: nat, arr: seq<Arrival>)
    requires WaitersMatch(c, g.waiters, arr)
    ensures WaitersMatch(c, HandOff(c, g, clock, k).0.waiters, arr)
    ensures forall s | s in HandOff(c, g, clock, k).1 :: GrantInTime(c, arr, s)
    decreases |g.waiters|
  {
    if g.waiters != [] {
      assert g.waiters[0] in g.waiters;
      HandOffInTime(c, g.(waiters := g.waiters[1..]), clock, k + 1, arr);
    }
  }

  lemma AcquireInTime(c: Config, g: State, a: Arrival, arr: seq<Arrival>)
    requires g.next == |arr| && WaitersMatch(c, g.waiters, arr)
    ensures WaitersMatch(c, AcquireStep(c, g, a).0.waiters, arr + [a])
    ensures forall s | s in AcquireStep(c, g, a).1 :: GrantInTime(c, arr + [a], s)
  {
    assert (arr + [a])[g.next] == a;
    assert forall w | w in g.waiters :: (arr + [a])[w.id] == arr[w.id];
  }

  lemma StepInTime(c: Config, g: State, op: GateOp, arr: seq<Arrival>)
    requires g.next == |arr| && WaitersMatch(c, g.waiters, arr)
    ensures var arr' := arr + if op.Acquire? then [op.a] else [];
            && WaitersMatch(c, Step(c, g, op).0.waiters, arr')
            && forall s | s in Step(c, g, op).1 :: GrantInTime(c, arr', s)
  {
    match op
    case Acquire(a) =>
      AcquireInTime(c, g, a, arr);
    case Release(id, clock) =>
      assert arr + [] == arr;
      HandOffInTime(c, g.(held := g.held - {id}), clock, 0, arr);
    case Leave(id, abort, now) =>
      assert arr + [] == arr;
      if Position(g.waiters, id) < |g.waiters| {
        IdsWithout(g.waiters, Position(g.waiters, id));
      }
  }

  lemma {:induction false} RunInTime(c: Config, ops: seq<GateOp>)
    ensures WaitersMatch(c, Run(c, ops).0.waiters, Arrivals(ops))
    ensures forall s | s in Run(c, ops).1 :: GrantInTime(c, Arrivals(ops), s)
  {
    if ops != [] {
      var before, op := ops[..|ops| - 1], ops[|ops| - 1];
      RunInTime(c, before);
      SettledOnceInOrder(c, before);
      StepInTime(c, Run(c, before).0, op, Arrivals(before));
    }
  }

  /**
   * No queued request is ever granted once its wait reached any of its three bounds: the gate's
   * own wait, the caller's deadline, and the own wait measured from the caller's stamp. Nothing
   * is assumed about when timers fire.
   */
  lemma NeverGrantedLate(c: Config, ops: seq<GateOp>, s: Settlement)
    requires s in Run(c, ops).1 && s.outcome.Granted?
    ensures s.id < |Arrivals(ops)|
    ensures var a := Arrivals(ops)[s.id]; var waited := s.at - a.now;
            waited == 0.0 ||
            (&& waited < c.maxQueueWaitMs as real
             && (a.deadlineAt.At? ==> waited < a.deadlineAt.ms - a.epoch)
             && (a.startedAt.At? ==> waited < a.startedAt.ms + c.maxQueueWaitMs as real - a.epoch))
  {
    RunInTime(c, ops);
    assert GrantInTime(c, Arrivals(ops), s);
  }

  /**
   * One request passes two gates under one clock. It reaches the first with its arrival stamp and
   * the admission deadline `arrivedAt + maxQueueWaitMs`, and the second, after that grant, with a
   * deadline no later than that. Whatever the two gates do in between and however late timers
   * fire, it queues for less than `maxQueueWaitMs` in total.
   */
  lemma TwoGatesShareOneWait(c1: Config, ops1: seq<GateOp>, s1: Settlement,
                             c2: Config, ops2: seq<GateOp>, s2: Settlement, arrivedAt: Millis)
    requires ValidConfig(c1)
    requires s1 in Run(c1, ops1).1 && s1.outcome.Granted? && s2 in Run(c2, ops2).1 && s2.outcome.Granted?
    requires s1.id < |Arrivals(ops1)| && s2.id < |Arrivals(ops2)|
    requires var a1 := Arrivals(ops1)[s1.id];
             && a1.epoch == a1.now && arrivedAt <= a1.now
             && a1.startedAt == At(arrivedAt) && a1.deadlineAt == At(arrivedAt + c1.maxQueueWaitMs as real)
    requires var a2 := Arrivals(ops2)[s2.id];
             && a2.epoch == a2.now && s1.at <= a2.now
             && a2.deadlineAt.At? && a2.deadlineAt.ms <= arrivedAt + c1.maxQueueWaitMs as real
    ensures (s1.at - Arrivals(ops1)[s1.id].now) + (s2.at - Arrivals(ops2)[s2.id].now) < c1.maxQueueWaitMs as real
  {
    NeverGrantedLate(c1, ops1, s1);
    NeverGrantedLate(c2, ops2, s2);
  }

  // ---------------------------------------------------------------------------------------------
  // Draining

  function Load(g: State): nat {
    |g.held| + |g.waiters|
  }

  lemma {:induction false} HandOffShrinks(c: Config, g: State, clock: Clock, k: nat)
    requires forall w | w in g.waiters :: w.id !in g.held
    ensures Load(HandOff(c, g, clock, k).0) <= Load(g)
    decreases |g.waiters|
  {
    if g.waiters != [] {
      HandOffShrinks(c, g.(waiters := g.waiters[1..]), clock, k + 1);
    }
  }

  lemma ReleaseShrinks(c: Config, g: State, id: nat, clock: Clock)
    requires ValidConfig(c) && Inv(c, g) && id in g.held
    ensures Inv(c, ReleaseStep(c, g, id, clock).0) && Load(ReleaseStep(c, g, id, clock).0) + 1 <= Load(g)
  {
    StepInv(c, g, Release(id, clock));
    HandOffShrinks(c, g.(held := g.held - {id}), clock, 0);
  }

  /**
   * Releasing held slots in any order, those handed off meanwhile included, ends within
   * `|held| + |waiters|` releases, and when nothing is held any more the queue is empty and
   * `running` is zero.
   */
  lemma ReleasingDrains(c: Config, g: State, rs: seq<(nat, Clock)>)
    requires ValidConfig(c) && Inv(c, g)
    requires Releasing(Stepper(c), (g: State, id) => id in g.held, g, rs)
    ensures var end := AfterReleases(Stepper(c), g, rs);
            && Inv(c, end) && |rs| + |end.held| + |end.waiters| <= |g.held| + |g.waiters|
            && (end.held == {} ==> end.waiters == [] && end.running == 0)
  {
    forall g, id, clock: Clock | Inv(c, g) && id in g.held
      ensures var g' := Stepper(c)(g, Release(id, clock)).0; Inv(c, g') && Load(g') + 1 <= Load(g)
    {
      ReleaseShrinks(c, g, id, clock);
    }
    ReleasesShrink(Stepper(c), (g: State, id) => id in g.held, (g: State) => Inv(c, g), Load, false, g, rs);
  }
}
