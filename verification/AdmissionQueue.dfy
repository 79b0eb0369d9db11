/** The waiting line that both admission queues keep, and the ways in which requests join and leave it. */
module AdmissionQueue {
  import opened Prelude
  import opened Settlements

  /** A queued request: its arrival number and what it asks for. */
  datatype Waiter<C> = Waiter(id: nat, claim: C)

  function Ids<C>(waiters: seq<Waiter<C>>): seq<nat> {
    seq(|waiters|, i requires 0 <= i < |waiters| => waiters[i].id)
  }

  /** The queue position of a request, or the queue's length when it is not queued. */
  function Position<C>(waiters: seq<Waiter<C>>, id: nat): (k: nat)
    ensures k <= |waiters|
    ensures k < |waiters| ==> waiters[k].id == id
    ensures forall i | 0 <= i < k :: waiters[i].id != id
  {
    if waiters == [] then 0
    else if waiters[0].id == id then 0
    else 1 + Position(waiters[1..], id)
  }

  function Without<T>(s: seq<T>, k: nat): seq<T>
    requires k < |s|
  {
    s[..k] + s[k + 1..]
  }

  lemma IdsWithout<C>(waiters: seq<Waiter<C>>, k: nat)
    requires k < |waiters|
    ensures Ids(Without(waiters, k)) == Without(Ids(waiters), k)
    ensures k == 0 ==> Without(waiters, k) == waiters[1..]
    ensures forall w | w in Without(waiters, k) :: w in waiters
  {
  }

  /** In a queue of increasing numbers whoever leaves is gone, and the others stay in order. */
  lemma LeavesInOrder<C>(waiters: seq<Waiter<C>>, k: nat)
    requires k < |waiters| && Increasing(Ids(waiters))
    ensures Increasing(Ids(Without(waiters, k)))
    ensures forall w | w in Without(waiters, k) :: w in waiters && w.id != waiters[k].id
  {
    IdsWithout(waiters, k);
    RemoveAt(Ids(waiters), k);
    var rest := Without(waiters, k);
    forall w | w in rest
      ensures w.id != waiters[k].id
    {
      var i :| 0 <= i < |rest| && rest[i] == w;
      assert Ids(rest)[i] == w.id && w.id in Ids(rest);
    }
  }

  lemma JoinsInOrder<C>(waiters: seq<Waiter<C>>, w: Waiter<C>)
    requires Increasing(Ids(waiters)) && forall v | v in waiters :: v.id < w.id
    ensures Ids(waiters + [w]) == Ids(waiters) + [w.id] && Increasing(Ids(waiters + [w]))
  {
    assert forall i | 0 <= i < |waiters| :: Ids(waiters + [w])[i] == Ids(waiters)[i] && waiters[i] in waiters;
  }

  /** The settlements take requests out of the queue one by one, grants only from its head. */
  ghost predicate Departs(queued: seq<nat>, s: seq<Settlement>, left: seq<nat>)
    decreases |s|
  {
    if s == [] then left == queued
    else
      exists k: nat ::
        && k < |queued| && queued[k] == s[0].id && (s[0].outcome.Granted? ==> k == 0)
        && Departs(Without(queued, k), s[1..], left)
  }

  lemma DepartsFirst<C>(waiters: seq<Waiter<C>>, k: nat, first: Settlement, s: seq<Settlement>, left: seq<nat>)
    requires k < |waiters| && first.id == waiters[k].id && (first.outcome.Granted? ==> k == 0)
    requires Departs(Ids(Without(waiters, k)), s, left)
    ensures Departs(Ids(waiters), [first] + s, left)
  {
    IdsWithout(waiters, k);
    assert ([first] + s)[1..] == s && Ids(waiters)[k] == first.id;
  }

  /** A request that arrives settles at once, granted only beside an empty queue, or joins the back of the queue. */
  ghost predicate Arrives(queued: seq<nat>, next: nat, s: seq<Settlement>, after: seq<nat>) {
    if s == [] then after == queued + [next]
    else after == queued && |s| == 1 && s[0].id == next && (s[0].outcome.Granted? ==> queued == [])
  }

  lemma DepartureKeepsLedger(log: seq<Settlement>, queued: seq<nat>, next: nat, k: nat, s: Settlement)
    requires Ledger(log, queued, next)
    requires k < |queued| && s.id == queued[k] && (s.outcome.Granted? ==> k == 0)
    ensures Ledger(log + [s], Without(queued, k), next)
  {
    LedgerSettleQueued(log, queued, next, k, s);
  }

  lemma {:induction false} DeparturesKeepLedger(log: seq<Settlement>, queued: seq<nat>, next: nat, s: seq<Settlement>,
                                                left: seq<nat>)
    requires Ledger(log, queued, next) && Departs(queued, s, left)
    ensures Ledger(log + s, left, next)
    decreases |s|
  {
    if s == [] {
      assert log + s == log;
    } else {
      var k: nat :| k < |queued| && queued[k] == s[0].id && (s[0].outcome.Granted? ==> k == 0)
                    && Departs(Without(queued, k), s[1..], left);
      DepartureKeepsLedger(log, queued, next, k, s[0]);
      DeparturesKeepLedger(log + [s[0]], Without(queued, k), next, s[1..], left);
      assert log + [s[0]] + s[1..] == log + s;
    }
  }

  lemma ArrivalKeepsLedger(log: seq<Settlement>, queued: seq<nat>, next: nat, s: seq<Settlement>, after: seq<nat>)
    requires Ledger(log, queued, next) && Arrives(queued, next, s, after)
    ensures Ledger(log + s, after, next + 1)
  {
    if s == [] {
      LedgerEnqueue(log, queued, next);
      assert log + s == log;
    } else {
      LedgerSettleNew(log, queued, next, s[0]);
      assert s == [s[0]];
    }
  }
}
