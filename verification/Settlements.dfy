/**
 * How an admission promise settles, and the ledger of settlements that a run of
 * an admission queue produces. A request is named by its arrival number.
 */
module Settlements {
  import opened Prelude

  datatype Kind = Aborted | Deadline | QueueFull | QueueWait

  datatype Code = ProviderUnavailable | ProxyCapacityExceeded | VisualGate

  /** `BadArgument` is the RangeError of a malformed call; `Refused` is a RequestLimitError. */
  datatype Outcome = Granted | Refused(kind: Kind, code: Code) | BadArgument

  datatype Settlement = Settlement(id: nat, outcome: Outcome, at: Millis)

  ghost predicate Increasing(s: seq<nat>) {
    forall i, j | 0 <= i < j < |s| :: s[i] < s[j]
  }

  ghost predicate Settled(log: seq<Settlement>, id: nat) {
    exists i | 0 <= i < |log| :: log[i].id == id
  }

  /**
   * Every request that arrived is either still queued or settled, never both, and
   * settled at most once; grants appear in arrival order, ahead of everything queued.
   */
  ghost predicate Ledger(log: seq<Settlement>, queued: seq<nat>, next: nat) {
    && Increasing(queued)
    && (forall id: nat :: id < next <==> id in queued || Settled(log, id))
    && (forall id | id in queued :: !Settled(log, id))
    && (forall i, j | 0 <= i < j < |log| :: log[i].id != log[j].id)
    && (forall i, j | 0 <= i < j < |log| && log[i].outcome.Granted? && log[j].outcome.Granted? ::
          log[i].id < log[j].id)
    && (forall i, q | 0 <= i < |log| && log[i].outcome.Granted? && q in queued :: log[i].id < q)
  }

  lemma SettledAppend(log: seq<Settlement>, s: Settlement)
    ensures forall id: nat :: Settled(log + [s], id) <==> Settled(log, id) || id == s.id
  {
    var log' := log + [s];
    forall id: nat
      ensures Settled(log', id) <==> Settled(log, id) || id == s.id
    {
      if Settled(log, id) {
        var i :| 0 <= i < |log| && log[i].id == id;
        assert log'[i].id == id;
      }
      assert log'[|log|] == s;
    }
  }

  /** A request joins the back of the queue. */
  lemma LedgerEnqueue(log: seq<Settlement>, queued: seq<nat>, next: nat)
    requires Ledger(log, queued, next)
    ensures Ledger(log, queued + [next], next + 1)
  {
    forall i | 0 <= i < |log|
      ensures log[i].id < next
    {
      assert Settled(log, log[i].id);
    }
    forall i | 0 <= i < |queued|
      ensures queued[i] < next
    {
      assert queued[i] in queued;
    }
    forall id: nat
      ensures id < next + 1 <==> id in queued + [next] || Settled(log, id)
    {
      assert id < next <==> id in queued || Settled(log, id);
    }
    forall id | id in queued + [next]
      ensures !Settled(log, id)
    {
    }
  }

  /** A request settles on arrival; it may be granted only when nobody is queued. */
  lemma LedgerSettleNew(log: seq<Settlement>, queued: seq<nat>, next: nat, s: Settlement)
    requires Ledger(log, queued, next)
    requires s.id == next && (s.outcome.Granted? ==> queued == [])
    ensures Ledger(log + [s], queued, next + 1)
  {
    SettledAppend(log, s);
    forall i | 0 <= i < |log|
      ensures log[i].id < next
    {
      assert Settled(log, log[i].id);
    }
    forall id: nat
      ensures id < next + 1 <==> id in queued || Settled(log + [s], id)
    {
      assert id < next <==> id in queued || Settled(log, id);
    }
  }

  lemma RemoveAt(queued: seq<nat>, k: nat)
    requires k < |queued| && Increasing(queued)
    ensures var rest := queued[..k] + queued[k + 1..];
            && Increasing(rest)
            && (forall id: nat :: id in rest <==> id in queued && id != queued[k])
            && (k == 0 ==> forall q | q in rest :: queued[0] < q)
  {
    var rest := queued[..k] + queued[k + 1..];
    assert forall i | 0 <= i < |rest| :: rest[i] == queued[if i < k then i else i + 1];
    forall id: nat
      ensures id in queued && id != queued[k] ==> id in rest
    {
      if id in queued && id != queued[k] {
        var i :| 0 <= i < |queued| && queued[i] == id;
        assert rest[if i < k then i else i - 1] == id;
      }
    }
  }

  /** A queued request settles and leaves; it may be granted only from the head of the queue. */
  lemma LedgerSettleQueued(log: seq<Settlement>, queued: seq<nat>, next: nat, k: nat, s: Settlement)
    requires Ledger(log, queued, next)
    requires k < |queued| && s.id == queued[k] && (s.outcome.Granted? ==> k == 0)
    ensures Ledger(log + [s], queued[..k] + queued[k + 1..], next)
  {
    SettledAppend(log, s);
    RemoveAt(queued, k);
    assert queued[k] in queued;
    forall i | 0 <= i < |log|
      ensures log[i].id != s.id
    {
      assert Settled(log, log[i].id);
    }
    forall id: nat
      ensures id < next <==> id in queued[..k] + queued[k + 1..] || Settled(log + [s], id)
    {
      assert id < next <==> id in queued || Settled(log, id);
    }
  }

  lemma {:induction false} DistinctCard(s: seq<nat>, members: set<nat>)
    requires Increasing(s) && forall id: nat :: id in members <==> id in s
    ensures |members| == |s|
  {
    if s == [] {
      assert members == {};
    } else {
      var last, before := s[|s| - 1], s[..|s| - 1];
      assert s == before + [last];
      DistinctCard(before, members - {last});
    }
  }

  lemma NotSettledYet(log: seq<Settlement>, queued: seq<nat>, next: nat)
    requires Ledger(log, queued, next)
    ensures !Settled(log, next)
  {
  }
}
