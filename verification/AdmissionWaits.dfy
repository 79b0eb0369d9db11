/** One request passes several queues under one admission clock: what bounds its wait in total. */
module AdmissionWaits {
  import opened Prelude
  import opened Settlements
  import opened AdmissionRuns
  import StreamGates
  import StreamGateRuns
  import BodyBudgets
  import BodyBudgetRuns

  /** Request `s.id` of the run was granted by settlement `s`. */
  ghost predicate GateGrants(c: StreamGates.Config, ops: seq<StreamGates.GateOp>, s: Settlement) {
    s in StreamGates.Run(c, ops).1 && s.outcome.Granted? && s.id < |Arrivals(ops)|
  }

  ghost predicate BudgetGrants(c: BodyBudgets.Config, ops: seq<BodyBudgets.BudgetOp>, s: Settlement) {
    s in BodyBudgets.Run(c, ops).1 && s.outcome.Granted? && s.id < |Arrivals(ops)|
  }

  /**
   * What a gate's deadline is worth: under one clock a request is granted before its deadline exactly
   * when it reached the gate before its deadline. The gate itself grants a free slot whatever the
   * deadline, so the caller has to look.
   */
  lemma GrantedBeforeDeadlineIff(c: StreamGates.Config, ops: seq<StreamGates.GateOp>, s: Settlement)
    requires GateGrants(c, ops, s)
    requires var a := Arrivals(ops)[s.id]; a.epoch == a.now && a.deadlineAt.At?
    ensures var a := Arrivals(ops)[s.id]; s.at < a.deadlineAt.ms <==> a.now < a.deadlineAt.ms
  {
    StreamGateRuns.RunInTime(c, ops);
    assert StreamGateRuns.GrantInTime(c, Arrivals(ops), s);
  }

  /** The time spent in one queue. */
  datatype Wait = Wait(since: Millis, until: Millis)

  /** Waits one after the other, none before `start` and all over by `end`. */
  ghost predicate InTurn(waits: seq<Wait>, start: Millis, end: Millis) {
    if waits == [] then start <= end
    else start <= waits[0].since && InTurn(waits[1..], waits[0].until, end)
  }

  function TotalWait(waits: seq<Wait>): Millis {
    if waits == [] then 0.0 else waits[0].until - waits[0].since + TotalWait(waits[1..])
  }

  lemma {:induction false} TurnsFit(waits: seq<Wait>, start: Millis, end: Millis)
    requires InTurn(waits, start, end)
    ensures TotalWait(waits) <= end - start
  {
    if waits != [] {
      TurnsFit(waits[1..], waits[0].until, end);
    }
  }

  /**
   * The guard in front of the last gate: a request that passed any queues since its arrival, and whose
   * deadline is then still ahead, waits for less than the gate's maximal wait in all its queues
   * together, however late the earlier ones let it through.
   */
  lemma GuardBoundsTotalWait(c: StreamGates.Config, ops: seq<StreamGates.GateOp>, s: Settlement, arrivedAt: Millis,
                             earlier: seq<Wait>)
    requires GateGrants(c, ops, s)
    requires var a := Arrivals(ops)[s.id];
             && a.epoch == a.now && InTurn(earlier, arrivedAt, a.now)
             && a.deadlineAt.At? && a.deadlineAt.ms <= arrivedAt + c.maxQueueWaitMs as real
             && a.now < a.deadlineAt.ms
    ensures TotalWait(earlier) + (s.at - Arrivals(ops)[s.id].now) < c.maxQueueWaitMs as real
  {
    GrantedBeforeDeadlineIff(c, ops, s);
    TurnsFit(earlier, arrivedAt, Arrivals(ops)[s.id].now);
  }

  /**
   * The visual gate, the body budget and the stream gate, one after the other: with the guard in front
   * of the stream gate the request queues for less than `maxQueueWaitMs` in all three together.
   */
  lemma ThreeQueuesShareOneWait(
      visual: StreamGates.Config, ops1: seq<StreamGates.GateOp>, s1: Settlement,
      budget: BodyBudgets.Config, ops2: seq<BodyBudgets.BudgetOp>, s2: Settlement,
      stream: StreamGates.Config, ops3: seq<StreamGates.GateOp>, s3: Settlement, arrivedAt: Millis)
    requires GateGrants(visual, ops1, s1) && BudgetGrants(budget, ops2, s2) && GateGrants(stream, ops3, s3)
    requires arrivedAt <= Arrivals(ops1)[s1.id].now
    requires s1.at <= Arrivals(ops2)[s2.id].now
    requires var a := Arrivals(ops3)[s3.id];
             && s2.at <= a.now == a.epoch && a.deadlineAt.At?
             && a.deadlineAt.ms <= arrivedAt + stream.maxQueueWaitMs as real && a.now < a.deadlineAt.ms
    ensures (s1.at - Arrivals(ops1)[s1.id].now) + (s2.at - Arrivals(ops2)[s2.id].now)
          + (s3.at - Arrivals(ops3)[s3.id].now) < stream.maxQueueWaitMs as real
  {
    var first, second := Wait(Arrivals(ops1)[s1.id].now, s1.at), Wait(Arrivals(ops2)[s2.id].now, s2.at);
    assert [first, second][1..] == [second] && [second][1..] == [];
    assert InTurn([second], s1.at, Arrivals(ops3)[s3.id].now);
    assert TotalWait([second]) == s2.at - Arrivals(ops2)[s2.id].now + TotalWait([]);
    GuardBoundsTotalWait(stream, ops3, s3, arrivedAt, [first, second]);
  }

  /**
   * Without the guard there is no bound: a body that the budget lets in late, at any `t`, is granted by
   * an idle stream gate at once, although its deadline for all its waiting is over.
   */
  lemma UnguardedWaitIsUnbounded(budget: BodyBudgets.Config, first: BodyBudgets.Arrival, second: BodyBudgets.Arrival,
                                 stream: StreamGates.Config, third: StreamGates.Arrival, t: Millis)
    requires BodyBudgets.ValidConfig(budget) && budget.maxQueued >= 1 && StreamGates.ValidConfig(stream)
    requires !BodyBudgets.Malformed(budget, first) && !first.aborted
    requires !BodyBudgets.Malformed(budget, second) && !second.aborted
    requires first.bytes + second.bytes > budget.capacityBytes
    requires !third.aborted && third.startedAt == Absent && third.now == third.epoch == t
    requires second.deadlineAt == third.deadlineAt == At(second.now + stream.maxQueueWaitMs as real)
    requires t >= second.now + stream.maxQueueWaitMs as real
    ensures Settlement(1, Granted, t) in BodyBudgets.Run(budget, BodyBudgetRuns.LateTimer(first, second, t)).1
    ensures StreamGates.Run(stream, [Acquire(third)]).1 == [Settlement(0, Granted, t)]
    ensures t - second.now >= stream.maxQueueWaitMs as real
  {
    BodyBudgetRuns.LateTimerAdmitsPastDeadline(budget, first, second, t);
    var none: seq<StreamGates.GateOp> := [];
    RunOneMore(StreamGates.Stepper(stream), StreamGates.IDLE, none, Acquire(third));
    assert none + [Acquire(third)] == [Acquire(third)];
  }
}
