/**
 * The unresolved-sender notice limiter: one attempt per sender and conversation per 24 hours, and
 * never more than fifty live records in total.
 */
module NoticeLimiter {
  import opened Prelude

  const TTL_MS: int := 24 * 60 * 60 * 1000
  const GLOBAL_CAP: nat := 50

  /** `sent` maps a limiter key to the time of its attempt. */
  datatype State = State(sent: map<string, int>, capLogged: bool)

  datatype Verdict = Duplicate | Capped(warned: bool) | Attempted

  function AttemptStep(s: State, key: string, now: int): (State, Verdict) {
    if key in s.sent then (s, Duplicate)
    else if |s.sent| >= GLOBAL_CAP then (s.(capLogged := true), Capped(!s.capLogged))
    else (s.(sent := s.sent[key := now]), Attempted)
  }

  function SweepStep(s: State, now: int): State {
    var live := map k | k in s.sent && now - s.sent[k] <= TTL_MS :: s.sent[k];
    State(live, s.capLogged && |live| >= GLOBAL_CAP)
  }

  class Limiter {
    var sent: map<string, int>
    var capLogged: bool

    ghost function Model(): State
      reads this
    {
      State(sent, capLogged)
    }

    constructor ()
      ensures Model() == State(map[], false)
    {
      sent, capLogged := map[], false;
    }

    method Attempt(key: string, now: int) returns (v: Verdict)
      modifies this
      ensures (Model(), v) == AttemptStep(old(Model()), key, now)
    {
      if key in sent {
        return Duplicate;
      }
      if |sent| >= GLOBAL_CAP {
        v := Capped(false);
        if !capLogged {
          capLogged := true;
          v := Capped(true);
        }
        return;
      }
      sent := sent[key := now];
      v := Attempted;
    }

    /** The limiter's part of the periodic cleanup. */
    method Sweep(now: int)
      modifies this
      ensures Model() == SweepStep(old(Model()), now)
    {
      ghost var before := sent;
      var todo := sent.Keys;
      while todo != {}
        invariant todo <= before.Keys && todo <= sent.Keys && sent.Keys <= before.Keys
        invariant forall k | k in sent :: sent[k] == before[k]
        invariant forall k | k in before && k !in todo :: k in sent <==> now - before[k] <= TTL_MS
        invariant capLogged == old(capLogged)
        decreases |todo|
      {
        var key :| key in todo;
        todo := todo - {key};
        if now - sent[key] > TTL_MS {
          sent := sent - {key};
        }
      }
      assert sent == map k | k in before && now - before[k] <= TTL_MS :: before[k];
      if |sent| < GLOBAL_CAP {
        capLogged := false;
      }
    }
  }

  // ---------------------------------------------------------------------------------------------
  // Runs

  datatype Op = Attempt(key: string, now: int) | Sweep(now: int)

  function Step(s: State, op: Op): State {
    match op
    case Attempt(key, now) => AttemptStep(s, key, now).0
    case Sweep(now) => SweepStep(s, now)
  }

  function Run(ops: seq<Op>): State {
    if ops == [] then State(map[], false) else Step(Run(ops[..|ops| - 1]), ops[|ops| - 1])
  }

  /** Operation `i` of the run is an attempt that went out. */
  ghost predicate Sends(ops: seq<Op>, i: nat) {
    i < |ops| && ops[i].Attempt? && AttemptStep(Run(ops[..i]), ops[i].key, ops[i].now).1.Attempted?
  }

  /** Operation `i` of the run logs the cap warning. */
  ghost predicate Warns(ops: seq<Op>, i: nat) {
    i < |ops| && ops[i].Attempt? && AttemptStep(Run(ops[..i]), ops[i].key, ops[i].now).1 == Capped(true)
  }

  ghost predicate Monotone(ops: seq<Op>) {
    forall i, j | 0 <= i < j < |ops| :: ops[i].now <= ops[j].now
  }

  /** The records are at most fifty, and a set warning flag means that the cap is still reached. */
  lemma {:induction false} CapHolds(ops: seq<Op>)
    ensures |Run(ops).sent| <= GLOBAL_CAP
    ensures Run(ops).capLogged ==> |Run(ops).sent| == GLOBAL_CAP
  {
    if ops != [] {
      var s, op := Run(ops[..|ops| - 1]), ops[|ops| - 1];
      CapHolds(ops[..|ops| - 1]);
      match op
      case Attempt(key, now) =>
        if key !in s.sent && |s.sent| < GLOBAL_CAP {
          assert s.sent[key := now].Keys == s.sent.Keys + {key};
        }
      case Sweep(now) =>
        var live := SweepStep(s, now).sent;
        assert live.Keys <= s.sent.Keys;
        SubsetCard(live.Keys, s.sent.Keys);
    }
  }

  lemma StepKeepsRecord(s: State, op: Op, key: string)
    requires key in s.sent && op.now - s.sent[key] <= TTL_MS
    ensures key in Step(s, op).sent && Step(s, op).sent[key] == s.sent[key]
  {
  }

  /** An attempt's record is still there, with its time, until more than 24 hours later. */
  lemma {:induction false} RecordLives(ops: seq<Op>, i: nat)
    requires Monotone(ops) && Sends(ops, i)
    requires ops[|ops| - 1].now - ops[i].now <= TTL_MS
    ensures ops[i].key in Run(ops).sent && Run(ops).sent[ops[i].key] == ops[i].now
  {
    var n := |ops| - 1;
    if i < n {
      var before := ops[..n];
      assert before[..i] == ops[..i] && before[i] == ops[i];
      RecordLives(before, i);
      StepKeepsRecord(Run(before), ops[n], ops[i].key);
    }
  }

  /** Two attempts for one key are more than 24 hours apart. */
  lemma SameKeyDayApart(ops: seq<Op>, i: nat, j: nat)
    requires Monotone(ops) && i < j && Sends(ops, i) && Sends(ops, j) && ops[i].key == ops[j].key
    ensures ops[j].now - ops[i].now > TTL_MS
  {
    assert ops[..j][..i] == ops[..i];
    if ops[j].now - ops[i].now <= TTL_MS {
      RecordLives(ops[..j], i);
    }
  }

  /** Any closed 24-hour window contains at most fifty attempts. */
  lemma WindowCap(ops: seq<Op>, from: int, window: set<nat>)
    requires Monotone(ops)
    requires forall i: nat | i in window :: Sends(ops, i) && from <= ops[i].now <= from + TTL_MS
    ensures |window| <= GLOBAL_CAP
  {
    if window != {} {
      var last := Largest(window);
      var upTo := ops[..last + 1];
      forall i: nat | i in window
        ensures i <= last && ops[i].key in Run(upTo).sent
      {
        assert upTo[..i] == ops[..i];
        RecordLives(upTo, i);
      }
      forall i: nat, j: nat | i in window && j in window && i < j
        ensures ops[i].key != ops[j].key
      {
        if ops[i].key == ops[j].key {
          SameKeyDayApart(ops, i, j);
        }
      }
      CapHolds(upTo);
      DistinctKeys(ops, window, Run(upTo).sent.Keys);
    }
  }

  lemma {:induction false} DistinctKeys(ops: seq<Op>, window: set<nat>, keys: set<string>)
    requires forall i: nat | i in window :: i < |ops| && ops[i].Attempt? && ops[i].key in keys
    requires forall i: nat, j: nat | i in window && j in window && i < j :: ops[i].key != ops[j].key
    ensures |window| <= |keys|
    decreases |window|
  {
    if window != {} {
      var last := Largest(window);
      assert forall i: nat | i in window - {last} :: i < last;
      DistinctKeys(ops, window - {last}, keys - {ops[last].key});
    }
  }

  lemma {:induction false} Largest(s: set<nat>) returns (m: nat)
    requires s != {}
    ensures m in s && forall i: nat | i in s :: i <= m
    decreases |s|
  {
    var first :| first in s;
    m := first;
    if s != {first} {
      var rest := Largest(s - {first});
      m := if rest > first then rest else first;
      assert forall i | i in s :: i == first || i in s - {first};
    } else {
      assert forall i | i in s :: i == first;
    }
  }

  /** A warned limiter stays warned, but for a sweep that leaves fewer than fifty records. */
  lemma StaysWarned(ops: seq<Op>, m: nat)
    requires m < |ops| && Run(ops[..m]).capLogged
    requires ops[m].Sweep? ==> |Run(ops[..m + 1]).sent| >= GLOBAL_CAP
    ensures Run(ops[..m + 1]).capLogged
  {
    assert ops[..m + 1][..m] == ops[..m];
  }

  lemma WarnedUntilDrained(ops: seq<Op>, i: nat, j: nat)
    requires i < j <= |ops| && Warns(ops, i)
    requires forall m | i < m < j && ops[m].Sweep? :: |Run(ops[..m + 1]).sent| >= GLOBAL_CAP
    ensures Run(ops[..j]).capLogged
  {
    assert ops[..i + 1][..i] == ops[..i];
    var m := i + 1;
    while m < j
      invariant i < m <= j && Run(ops[..m]).capLogged
    {
      StaysWarned(ops, m);
      m := m + 1;
    }
  }

  /** Between two cap warnings some sweep brought the number of records below the cap. */
  lemma DrainedBetweenWarnings(ops: seq<Op>, i: nat, j: nat)
    requires i < j && Warns(ops, i) && Warns(ops, j)
    ensures exists m :: i < m < j && ops[m].Sweep? && |Run(ops[..m + 1]).sent| < GLOBAL_CAP
  {
    if forall m | i < m < j && ops[m].Sweep? :: |Run(ops[..m + 1]).sent| >= GLOBAL_CAP {
      WarnedUntilDrained(ops, i, j);
    }
  }

  // ---------------------------------------------------------------------------------------------
  // The records are exactly the live attempts

  /** Operation `j` is a sweep more than 24 hours after `at`. */
  predicate Expires(ops: seq<Op>, j: nat, at: int) {
    j < |ops| && ops[j].Sweep? && ops[j].now - at > TTL_MS
  }

  /** Attempt `i` went out, and no later sweep came more than 24 hours after it. */
  ghost predicate Lives(ops: seq<Op>, i: nat) {
    Sends(ops, i) && forall j | i < j < |ops| :: !Expires(ops, j, ops[i].now)
  }

  lemma SendsOneMore(ops: seq<Op>, op: Op, i: nat)
    ensures i < |ops| ==> (Sends(ops + [op], i) <==> Sends(ops, i)) && (Warns(ops + [op], i) <==> Warns(ops, i))
    ensures Sends(ops + [op], |ops|) <==> op.Attempt? && AttemptStep(Run(ops), op.key, op.now).1.Attempted?
    ensures Warns(ops + [op], |ops|) <==> op.Attempt? && AttemptStep(Run(ops), op.key, op.now).1 == Capped(true)
    ensures Run(ops + [op]) == Step(Run(ops), op)
  {
    assert (ops + [op])[..|ops|] == ops;
    if i < |ops| {
      assert (ops + [op])[..i] == ops[..i];
    }
  }

  lemma LivesOneMore(ops: seq<Op>, op: Op, i: nat)
    ensures i < |ops| ==> (Lives(ops + [op], i) <==> Lives(ops, i) && (op.Sweep? ==> op.now - ops[i].now <= TTL_MS))
    ensures Lives(ops + [op], |ops|) <==> op.Attempt? && AttemptStep(Run(ops), op.key, op.now).1.Attempted?
  {
    SendsOneMore(ops, op, i);
    if i < |ops| {
      var at := ops[i].now;
      assert forall j | 0 <= j < |ops| :: Expires(ops + [op], j, at) == Expires(ops, j, at);
      assert Expires(ops + [op], |ops|, at) <==> op.Sweep? && op.now - at > TTL_MS;
    }
  }

  ghost predicate Recorded(s: State, key: string, at: int) {
    key in s.sent && s.sent[key] == at
  }

  /** A record is there exactly as long as its attempt lives: sweeps take the older ones away, and only them. */
  lemma {:induction false} RecordIff(ops: seq<Op>, key: string, at: int)
    ensures Recorded(Run(ops), key, at)
       <==> exists i: nat :: Lives(ops, i) && ops[i].key == key && ops[i].now == at
  {
    if ops != [] {
      var n := |ops| - 1;
      var before, op := ops[..n], ops[n];
      assert ops == before + [op];
      RecordIff(before, key, at);
      if Recorded(Run(ops), key, at) {
        if i: nat :| Lives(before, i) && before[i].key == key && before[i].now == at {
          LivesOneMore(before, op, i);
          assert Lives(ops, i) && ops[i] == before[i];
        } else {
          LivesOneMore(before, op, n);
          assert Lives(ops, n);
        }
      }
      if i: nat :| Lives(ops, i) && ops[i].key == key && ops[i].now == at {
        LivesOneMore(before, op, i);
        assert i < n ==> ops[i] == before[i];
      }
    }
  }

  /** Live attempts have different keys. */
  lemma LiveKeysDiffer(ops: seq<Op>, i: nat, j: nat)
    requires Lives(ops, i) && Lives(ops, j) && ops[i].key == ops[j].key
    ensures i == j
  {
    if i < j {
      LiveWhenSent(ops, i, j);
    } else if j < i {
      LiveWhenSent(ops, j, i);
    }
  }

  lemma LiveWhenSent(ops: seq<Op>, i: nat, j: nat)
    requires i < j && Lives(ops, i) && Sends(ops, j)
    ensures ops[i].key != ops[j].key
  {
    var before := ops[..j];
    assert before[..i] == ops[..i] && before[i] == ops[i];
    assert forall m | i < m < j :: Expires(before, m, ops[i].now) == Expires(ops, m, ops[i].now);
    assert Lives(before, i);
    RecordIff(before, ops[i].key, ops[i].now);
  }

  ghost predicate LivesFor(ops: seq<Op>, i: nat, key: string) {
    Lives(ops, i) && ops[i].key == key
  }

  lemma RecordedIff(ops: seq<Op>, key: string)
    ensures key in Run(ops).sent <==> exists i: nat :: LivesFor(ops, i, key)
  {
    if key in Run(ops).sent {
      RecordIff(ops, key, Run(ops).sent[key]);
      var i: nat :| Lives(ops, i) && ops[i].key == key && ops[i].now == Run(ops).sent[key];
      assert LivesFor(ops, i, key);
    }
    if i: nat :| LivesFor(ops, i, key) {
      RecordIff(ops, key, ops[i].now);
    }
  }

  lemma LiveAtMostRecorded(ops: seq<Op>, live: set<nat>)
    requires forall i: nat :: i in live <==> Lives(ops, i)
    ensures |live| <= |Run(ops).sent|
  {
    var keys := map i: nat | i in live :: ops[i].key;
    forall i: nat, j: nat | i in keys && j in keys && keys[i] == keys[j]
      ensures i == j
    {
      LiveKeysDiffer(ops, i, j);
    }
    forall i: nat | i in keys
      ensures keys[i] in Run(ops).sent
    {
      assert LivesFor(ops, i, keys[i]);
      RecordedIff(ops, keys[i]);
    }
    InjectionCard(keys, Run(ops).sent.Keys);
    assert keys.Keys == live;
  }

  ghost function HolderOf(ops: seq<Op>, key: string): (i: nat)
    requires exists i: nat :: LivesFor(ops, i, key)
    ensures LivesFor(ops, i, key)
  {
    var i: nat :| LivesFor(ops, i, key);
    i
  }

  lemma RecordedAtMostLive(ops: seq<Op>, live: set<nat>)
    requires forall i: nat :: i in live <==> Lives(ops, i)
    ensures |Run(ops).sent| <= |live|
  {
    var sent := Run(ops).sent;
    forall k | k in sent
      ensures exists i: nat :: LivesFor(ops, i, k)
    {
      RecordedIff(ops, k);
    }
    var holders := map k | k in sent :: HolderOf(ops, k);
    forall k, l | k in holders && l in holders && holders[k] == holders[l]
      ensures k == l
    {
      assert LivesFor(ops, holders[k], k) && LivesFor(ops, holders[l], l);
    }
    InjectionCard(holders, live);
    assert holders.Keys == sent.Keys;
  }

  /**
   * What an attempt comes to in any run: nothing if an attempt for its key still lives, nothing if fifty
   * attempts live, and otherwise it goes out.
   */
  lemma AttemptIff(ops: seq<Op>, key: string, now: int, live: set<nat>)
    requires forall i: nat :: i in live <==> Lives(ops, i)
    ensures var v := AttemptStep(Run(ops), key, now).1;
            && (v.Duplicate? <==> exists i: nat :: LivesFor(ops, i, key))
            && (v.Capped? <==> !v.Duplicate? && |live| >= 50)
  {
    RecordedIff(ops, key);
    LiveAtMostRecorded(ops, live);
    RecordedAtMostLive(ops, live);
  }

  // ---------------------------------------------------------------------------------------------
  // Warnings

  /** Operation `m` is a sweep that leaves fewer than fifty records. */
  ghost predicate Drains(ops: seq<Op>, m: nat) {
    m < |ops| && ops[m].Sweep? && |Run(ops[..m + 1]).sent| < GLOBAL_CAP
  }

  lemma DrainsOneMore(ops: seq<Op>, op: Op, m: nat)
    ensures m < |ops| ==> (Drains(ops + [op], m) <==> Drains(ops, m))
    ensures Drains(ops + [op], |ops|) <==> op.Sweep? && |Run(ops + [op]).sent| < GLOBAL_CAP
  {
    assert (ops + [op])[..|ops| + 1] == ops + [op];
    if m < |ops| {
      assert (ops + [op])[..m + 1] == ops[..m + 1];
    }
  }

  /**
   * The limiter counts as warned only after a warning since which no sweep left fewer than fifty records.
   * So a capped attempt without such a warning before it warns.
   */
  lemma {:induction false} WarnedBefore(ops: seq<Op>) returns (i: nat)
    requires Run(ops).capLogged
    ensures Warns(ops, i) && forall m | i < m < |ops| :: !Drains(ops, m)
  {
    var n := |ops| - 1;
    var before, op := ops[..n], ops[n];
    assert ops == before + [op];
    SendsOneMore(before, op, n);
    if Warns(ops, n) {
      i := n;
    } else {
      i := WarnedBefore(before);
      SendsOneMore(before, op, i);
      forall m | i < m < |ops|
        ensures !Drains(ops, m)
      {
        DrainsOneMore(before, op, m);
      }
    }
  }
}
