/** Runs of an admission queue, and what a run's history says about who holds what it admits. */
module AdmissionRuns {
  import opened Prelude
  import opened Settlements
  import opened AdmissionQueue

  /**
   * A call of `acquire`, a release closure that runs, or the abort listener (`abort`) or deadline timer
   * of a queued request. A double release is a `Release` of a request no longer held; a late timer is a
   * `Leave` at any later time.
   */
  datatype Op<A, T> =
    | Acquire(a: A)
    | Release(id: nat, at: T)
    | Leave(id: nat, abort: bool, now: Millis)

  /** A run: the state it reaches from `init` and every settlement, in order. */
  function RunOf<S, A, T>(step: (S, Op<A, T>) -> (S, seq<Settlement>), init: S, ops: seq<Op<A, T>>)
    : (S, seq<Settlement>)
  {
    if ops == [] then
      (init, [])
    else
      var (g, log) := RunOf(step, init, ops[..|ops| - 1]);
      var (g', s) := step(g, ops[|ops| - 1]);
      (g', log + s)
  }

  lemma RunOneMore<S, A, T>(step: (S, Op<A, T>) -> (S, seq<Settlement>), init: S, ops: seq<Op<A, T>>, op: Op<A, T>)
    ensures RunOf(step, init, ops + [op]).0 == step(RunOf(step, init, ops).0, op).0
    ensures RunOf(step, init, ops + [op]).1 == RunOf(step, init, ops).1 + step(RunOf(step, init, ops).0, op).1
  {
    assert (ops + [op])[..|ops|] == ops;
  }

  /** The calls of `acquire` in a run; the request with arrival number `n` is the n-th of them. */
  function Arrivals<A, T>(ops: seq<Op<A, T>>): seq<A> {
    if ops == [] then []
    else
      var op := ops[|ops| - 1];
      Arrivals(ops[..|ops| - 1]) + if op.Acquire? then [op.a] else []
  }

  // ---------------------------------------------------------------------------------------------
  // Grants and releases

  ghost predicate Grants(s: seq<Settlement>, id: nat) {
    exists i | 0 <= i < |s| :: s[i].id == id && s[i].outcome.Granted?
  }

  predicate Releases<A, T>(op: Op<A, T>, id: nat) {
    op.Release? && op.id == id
  }

  ghost predicate GrantedAt<S, A, T>(step: (S, Op<A, T>) -> (S, seq<Settlement>), init: S, ops: seq<Op<A, T>>,
                                     k: nat, id: nat)
    requires k < |ops|
  {
    Grants(step(RunOf(step, init, ops[..k]).0, ops[k]).1, id)
  }

  ghost predicate ReleasedAfter<A, T>(ops: seq<Op<A, T>>, k: nat, id: nat) {
    exists j | k < j < |ops| :: Releases(ops[j], id)
  }

  /** The request was granted at some step of the run and its release never ran after that step. */
  ghost predicate HoldsAfter<S, A, T>(step: (S, Op<A, T>) -> (S, seq<Settlement>), init: S, ops: seq<Op<A, T>>,
                                      id: nat)
  {
    exists k: nat | k < |ops| :: GrantedAt(step, init, ops, k, id) && !ReleasedAfter(ops, k, id)
  }

  /** One more step: a grant of the shorter run still counts unless this step releases it. */
  lemma HoldsAfterStep<S, A, T>(step: (S, Op<A, T>) -> (S, seq<Settlement>), init: S, ops: seq<Op<A, T>>, id: nat)
    requires ops != []
    ensures HoldsAfter(step, init, ops, id)
       <==> (|| Grants(step(RunOf(step, init, ops[..|ops| - 1]).0, ops[|ops| - 1]).1, id)
             || (HoldsAfter(step, init, ops[..|ops| - 1], id) && !Releases(ops[|ops| - 1], id)))
  {
    var n := |ops| - 1;
    var before := ops[..n];
    forall k: nat | k < n
      ensures GrantedAt(step, init, before, k, id) == GrantedAt(step, init, ops, k, id)
      ensures ReleasedAfter(ops, k, id) <==> ReleasedAfter(before, k, id) || Releases(ops[n], id)
    {
      assert before[..k] == ops[..k] && before[k] == ops[k];
      assert forall j | k < j < n :: before[j] == ops[j];
    }
    assert !ReleasedAfter(ops, n, id);
    assert GrantedAt(step, init, ops, n, id) == Grants(step(RunOf(step, init, before).0, ops[n]).1, id);
    if HoldsAfter(step, init, before, id) {
      var k: nat :| k < n && GrantedAt(step, init, before, k, id) && !ReleasedAfter(before, k, id);
      assert GrantedAt(step, init, ops, k, id);
    }
  }

  lemma GrantsConcat(s: seq<Settlement>, t: seq<Settlement>, id: nat)
    ensures Grants(s + t, id) <==> Grants(s, id) || Grants(t, id)
  {
    if Grants(s, id) {
      var i :| 0 <= i < |s| && s[i].id == id && s[i].outcome.Granted?;
      assert (s + t)[i] == s[i];
    }
    if Grants(t, id) {
      var i :| 0 <= i < |t| && t[i].id == id && t[i].outcome.Granted?;
      assert (s + t)[|s| + i] == t[i];
    }
  }

  // ---------------------------------------------------------------------------------------------
  // The ledger of a run

  /** What a step may do to the queue: let one request arrive, or let queued ones depart. */
  ghost predicate Orderly<A, T>(op: Op<A, T>, queued: seq<nat>, next: nat, s: seq<Settlement>, after: seq<nat>,
                                next': nat)
  {
    if op.Acquire? then next' == next + 1 && Arrives(queued, next, s, after)
    else next' == next && Departs(queued, s, after)
  }

  /** A queue whose steps are orderly settles every request at most once, and grants in arrival order. */
  lemma {:induction false} RunLedger<S, A, T>(step: (S, Op<A, T>) -> (S, seq<Settlement>), init: S,
                                              queue: S -> seq<nat>, next: S -> nat, ops: seq<Op<A, T>>)
    requires queue(init) == [] && next(init) == 0
    requires forall g, op ::
               Orderly(op, queue(g), next(g), step(g, op).1, queue(step(g, op).0), next(step(g, op).0))
    ensures Ledger(RunOf(step, init, ops).1, queue(RunOf(step, init, ops).0), |Arrivals(ops)|)
    ensures next(RunOf(step, init, ops).0) == |Arrivals(ops)|
  {
    if ops != [] {
      RunLedger(step, init, queue, next, ops[..|ops| - 1]);
      var (g, log) := RunOf(step, init, ops[..|ops| - 1]);
      var op := ops[|ops| - 1];
      var (g', s) := step(g, op);
      assert Orderly(op, queue(g), next(g), s, queue(g'), next(g'));
      if op.Acquire? {
        ArrivalKeepsLedger(log, queue(g), next(g), s, queue(g'));
      } else {
        DeparturesKeepLedger(log, queue(g), next(g), s, queue(g'));
      }
    }
  }

  // ---------------------------------------------------------------------------------------------
  // Draining

  /** Releases `rs` in turn, each of a request that holds something at that moment. */
  ghost predicate Releasing<S, A, T>(step: (S, Op<A, T>) -> (S, seq<Settlement>), holds: (S, nat) -> bool, g: S,
                                     rs: seq<(nat, T)>)
    decreases |rs|
  {
    rs != [] ==> holds(g, rs[0].0) && Releasing(step, holds, step(g, Release(rs[0].0, rs[0].1)).0, rs[1..])
  }

  function AfterReleases<S, A, T>(step: (S, Op<A, T>) -> (S, seq<Settlement>), g: S, rs: seq<(nat, T)>): S
    decreases |rs|
  {
    if rs == [] then g else AfterReleases(step, step(g, Release(rs[0].0, rs[0].1)).0, rs[1..])
  }

  /** When every release shrinks the load, by one if `exact`, a queue is released to the end within its load. */
  lemma {:induction false} ReleasesShrink<S, A, T>(step: (S, Op<A, T>) -> (S, seq<Settlement>),
                                                   holds: (S, nat) -> bool, inv: S -> bool, load: S -> nat,
                                                   exact: bool, g: S, rs: seq<(nat, T)>)
    requires inv(g) && Releasing(step, holds, g, rs)
    requires forall g, id, at | inv(g) && holds(g, id) ::
               && inv(step(g, Release(id, at)).0)
               && load(step(g, Release(id, at)).0) + 1 <= load(g)
               && (exact ==> load(step(g, Release(id, at)).0) + 1 == load(g))
    ensures inv(AfterReleases(step, g, rs))
    ensures |rs| + load(AfterReleases(step, g, rs)) <= load(g)
    ensures exact ==> |rs| + load(AfterReleases(step, g, rs)) == load(g)
    decreases |rs|
  {
    if rs != [] {
      ReleasesShrink(step, holds, inv, load, exact, step(g, Release(rs[0].0, rs[0].1)).0, rs[1..]);
    }
  }
}
