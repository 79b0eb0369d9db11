/**
 * Pending workflow approvals: per conversation and recipe the approval requests not yet decided,
 * dropped ten minutes after they were last announced. The table refines a plain log of operations.
 */
module PendingApprovals {
  import opened Prelude

  const TTL_MS: int := 10 * 60 * 1000

  datatype Identity = Identity(medium: string, workspace: Option<string>, channel: string, user: string)

  /** `[...].join('\0')`. */
  function JoinNul(parts: seq<string>): string {
    if parts == [] then ""
    else if |parts| == 1 then parts[0]
    else parts[0] + ['\0'] + JoinNul(parts[1..])
  }

  function KeyParts(i: Identity, recipe: string): seq<string> {
    [i.medium, i.workspace.GetOr(""), i.channel, i.user, recipe]
  }

  function KeyOf(i: Identity, recipe: string): string {
    JoinNul(KeyParts(i, recipe))
  }

  datatype Entry = Entry(id: string, at: int)

  type Table = map<string, seq<Entry>>

  function Filter(entries: seq<Entry>, keep: Entry -> bool): (kept: seq<Entry>)
    ensures forall e :: e in kept <==> e in entries && keep(e)
  {
    if entries == [] then []
    else
      var last := entries[|entries| - 1];
      assert entries == entries[..|entries| - 1] + [last];
      Filter(entries[..|entries| - 1], keep) + if keep(last) then [last] else []
  }

  /** Filter every list of the table and drop the keys whose list becomes empty. */
  function FilterAll(t: Table, keep: Entry -> bool): Table {
    map k | k in t && Filter(t[k], keep) != [] :: Filter(t[k], keep)
  }

  /** The table when the keys in `todo` have not been filtered yet. */
  ghost function FilteredBut(t: Table, keep: Entry -> bool, todo: set<string>): Table {
    map k | k in t && (k in todo || Filter(t[k], keep) != []) :: if k in todo then t[k] else Filter(t[k], keep)
  }

  lemma FilterOneMore(t: Table, keep: Entry -> bool, todo: set<string>, key: string)
    requires key in todo && todo <= t.Keys
    ensures var before, after := FilteredBut(t, keep, todo), FilteredBut(t, keep, todo - {key});
            && key in before && before[key] == t[key]
            && after == if Filter(t[key], keep) != [] then before[key := Filter(t[key], keep)] else before - {key}
  {
  }

  function Within(cutoff: int): Entry -> bool {
    (e: Entry) => e.at >= cutoff
  }

  function OtherThan(id: string): Entry -> bool {
    (e: Entry) => e.id != id
  }

  function Prune(t: Table, now: int): Table {
    FilterAll(t, Within(now - TTL_MS))
  }

  function ListAt(t: Table, key: string): seq<Entry> {
    if key in t then t[key] else []
  }

  /** Tracking and replacing read the clock twice, to prune and to stamp. */
  datatype Op =
    | Track(key: string, id: string, prunedAt: int, now: int)
    | List(key: string, prunedAt: int)
    | Replace(key: string, id: string, prunedAt: int, now: int)
    | Clear(key: string)
    | Forget(id: string)

  function Step(t: Table, op: Op): Table {
    match op
    case Track(key, id, prunedAt, now) =>
      var pruned := Prune(t, prunedAt);
      pruned[key := Filter(ListAt(pruned, key), OtherThan(id)) + [Entry(id, now)]]
    case List(key, prunedAt) => Prune(t, prunedAt)
    case Replace(key, id, prunedAt, now) => Prune(t, prunedAt)[key := [Entry(id, now)]]
    case Clear(key) => t - {key}
    case Forget(id) => FilterAll(t, OtherThan(id))
  }

  class WorkflowApprovalPendingApprovals {
    var approvalsByKey: map<string, seq<Entry>>

    constructor ()
      ensures approvalsByKey == map[]
    {
      approvalsByKey := map[];
    }

    method TrackApproval(identity: Identity, recipe: string, id: string, prunedAt: int, now: int)
      modifies this
      ensures approvalsByKey == Step(old(approvalsByKey), Track(KeyOf(identity, recipe), id, prunedAt, now))
    {
      PruneStale(prunedAt);
      var key := KeyOf(identity, recipe);
      var existing := if key in approvalsByKey then approvalsByKey[key] else [];
      var next := Filter(existing, OtherThan(id));
      next := next + [Entry(id, now)];
      approvalsByKey := approvalsByKey[key := next];
    }

    method ListApprovals(identity: Identity, recipe: string, now: int) returns (pending: seq<Entry>)
      modifies this
      ensures approvalsByKey == Step(old(approvalsByKey), List(KeyOf(identity, recipe), now))
      ensures pending == ListAt(approvalsByKey, KeyOf(identity, recipe))
    {
      PruneStale(now);
      var key := KeyOf(identity, recipe);
      pending := if key in approvalsByKey then approvalsByKey[key] else [];
    }

    method ReplaceApprovals(identity: Identity, recipe: string, id: string, prunedAt: int, now: int)
      modifies this
      ensures approvalsByKey == Step(old(approvalsByKey), Replace(KeyOf(identity, recipe), id, prunedAt, now))
    {
      PruneStale(prunedAt);
      approvalsByKey := approvalsByKey[KeyOf(identity, recipe) := [Entry(id, now)]];
    }

    method ClearApprovals(identity: Identity, recipe: string)
      modifies this
      ensures approvalsByKey == Step(old(approvalsByKey), Clear(KeyOf(identity, recipe)))
    {
      approvalsByKey := approvalsByKey - {KeyOf(identity, recipe)};
    }

    method ForgetApproval(id: string)
      modifies this
      ensures approvalsByKey == Step(old(approvalsByKey), Forget(id))
    {
      KeepOnly(OtherThan(id));
    }

    method PruneStale(now: int)
      modifies this
      ensures approvalsByKey == Prune(old(approvalsByKey), now)
    {
      KeepOnly(Within(now - TTL_MS));
    }

    /** The loop of `prune` and `forget` over the table's entries. */
    method KeepOnly(keep: Entry -> bool)
      modifies this
      ensures approvalsByKey == FilterAll(old(approvalsByKey), keep)
    {
      ghost var t := approvalsByKey;
      var todo := approvalsByKey.Keys;
      assert approvalsByKey == FilteredBut(t, keep, todo);
      while todo != {}
        invariant todo <= t.Keys && approvalsByKey == FilteredBut(t, keep, todo)
        decreases |todo|
      {
        var key :| key in todo;
        FilterOneMore(t, keep, todo, key);
        todo := todo - {key};
        var remaining := Filter(approvalsByKey[key], keep);
        if remaining != [] {
          approvalsByKey := approvalsByKey[key := remaining];
        } else {
          approvalsByKey := approvalsByKey - {key};
        }
      }
    }
  }

  // ---------------------------------------------------------------------------------------------
  // The log

  function Run(ops: seq<Op>): Table {
    if ops == [] then map[] else Step(Run(ops[..|ops| - 1]), ops[|ops| - 1])
  }

  /** When an approval was last announced for a key and not since cleared, replaced or forgotten. */
  function LastStamp(ops: seq<Op>, key: string, id: string): Option<int> {
    if ops == [] then None
    else
      var before := LastStamp(ops[..|ops| - 1], key, id);
      match ops[|ops| - 1]
      case Track(k, i, _, now) => if k == key && i == id then Some(now) else before
      case List(_, _) => before
      case Replace(k, i, _, now) => if k != key then before else if i == id then Some(now) else None
      case Clear(k) => if k == key then None else before
      case Forget(i) => if i == id then None else before
  }

  /** Clock readings never go back, and none is later than `clock`. */
  ghost predicate Monotone(ops: seq<Op>, clock: int) {
    ops != [] ==>
      var op := ops[|ops| - 1];
      if op.Clear? || op.Forget? then Monotone(ops[..|ops| - 1], clock)
      else op.prunedAt <= LastReading(op) <= clock && Monotone(ops[..|ops| - 1], op.prunedAt)
  }

  function LastReading(op: Op): int
    requires !op.Clear? && !op.Forget?
  {
    if op.List? then op.prunedAt else op.now
  }

  ghost predicate Tidy(entries: seq<Entry>, clock: int) {
    && (forall i, j | 0 <= i < j < |entries| :: entries[i].id != entries[j].id && entries[i].at <= entries[j].at)
    && (forall i | 0 <= i < |entries| :: entries[i].at <= clock)
  }

  /** One key's list against the log: nothing invented, nothing lost before its time, no duplicates, in order. */
  ghost predicate Agrees(entries: seq<Entry>, ops: seq<Op>, clock: int, key: string) {
    && Tidy(entries, clock)
    && (forall e | e in entries :: LastStamp(ops, key, e.id) == Some(e.at))
    && (forall id | LastStamp(ops, key, id).Some? && LastStamp(ops, key, id).value >= clock - TTL_MS ::
          Entry(id, LastStamp(ops, key, id).value) in entries)
  }

  ghost predicate KeyOk(t: Table, ops: seq<Op>, clock: int, key: string) {
    (key in t ==> t[key] != []) && Agrees(ListAt(t, key), ops, clock, key)
  }

  lemma TidyAppend(entries: seq<Entry>, e: Entry, clock: int)
    requires Tidy(entries, clock) && e.at <= clock
    requires forall x | x in entries :: x.id != e.id && x.at <= e.at
    ensures Tidy(entries + [e], clock)
  {
    assert forall i | 0 <= i < |entries| :: entries[i] in entries;
  }

  lemma {:induction false} FilterTidy(entries: seq<Entry>, keep: Entry -> bool, clock: int)
    requires Tidy(entries, clock)
    ensures Tidy(Filter(entries, keep), clock)
  {
    if entries != [] {
      var before, last := entries[..|entries| - 1], entries[|entries| - 1];
      FilterTidy(before, keep, clock);
      forall e | e in Filter(before, keep)
        ensures e.id != last.id && e.at <= last.at
      {
        var i :| 0 <= i < |before| && before[i] == e;
      }
      if keep(last) {
        TidyAppend(Filter(before, keep), last, clock);
      } else {
        assert Filter(before, keep) + [] == Filter(before, keep);
      }
    }
  }

  lemma FilterAllAt(t: Table, keep: Entry -> bool, key: string)
    ensures ListAt(FilterAll(t, keep), key) == Filter(ListAt(t, key), keep)
  {
  }

  lemma PruneOk(t: Table, ops: seq<Op>, clock: int, now: int, key: string)
    requires KeyOk(t, ops, clock, key) && clock <= now
    ensures KeyOk(Prune(t, now), ops, now, key)
    ensures forall e | e in ListAt(Prune(t, now), key) :: e.at >= now - TTL_MS
  {
    FilterAllAt(t, Within(now - TTL_MS), key);
    FilterTidy(ListAt(t, key), Within(now - TTL_MS), clock);
  }

  lemma TrackedList(entries: seq<Entry>, id: string, now: int)
    requires Tidy(entries, now)
    ensures Tidy(Filter(entries, OtherThan(id)) + [Entry(id, now)], now)
    ensures forall e :: e in Filter(entries, OtherThan(id)) + [Entry(id, now)]
                   <==> (e in entries && e.id != id) || e == Entry(id, now)
  {
    var others := Filter(entries, OtherThan(id));
    FilterTidy(entries, OtherThan(id), now);
    forall e | e in others
      ensures e.at <= now
    {
      var i :| 0 <= i < |others| && others[i] == e;
    }
    TidyAppend(others, Entry(id, now), now);
  }

  lemma StampAfter(before: seq<Op>, op: Op, key: string, id: string)
    requires op.Track? || op.Replace?
    ensures LastStamp(before + [op], key, id)
         == if key != op.key then LastStamp(before, key, id)
            else if id == op.id then Some(op.now)
            else if op.Track? then LastStamp(before, key, id)
            else None
  {
    assert (before + [op])[..|before|] == before;
  }

  lemma TrackAgrees(entries: seq<Entry>, before: seq<Op>, op: Op, clock: int)
    requires op.Track? && op.prunedAt <= op.now <= clock && Agrees(entries, before, op.prunedAt, op.key)
    ensures Agrees(Filter(entries, OtherThan(op.id)) + [Entry(op.id, op.now)], before + [op], clock, op.key)
  {
    TrackedList(entries, op.id, op.now);
    forall id
      ensures LastStamp(before + [op], op.key, id)
           == if id == op.id then Some(op.now) else LastStamp(before, op.key, id)
    {
      StampAfter(before, op, op.key, id);
    }
  }

  lemma ReplaceAgrees(before: seq<Op>, op: Op, clock: int)
    requires op.Replace? && op.now <= clock
    ensures Agrees([Entry(op.id, op.now)], before + [op], clock, op.key)
  {
    forall id
      ensures LastStamp(before + [op], op.key, id) == if id == op.id then Some(op.now) else None
    {
      StampAfter(before, op, op.key, id);
    }
  }

  lemma OtherKeyAgrees(entries: seq<Entry>, before: seq<Op>, op: Op, clock: int, key: string)
    requires (op.Track? || op.Replace?) && op.prunedAt <= op.now <= clock && key != op.key
    requires Agrees(entries, before, op.prunedAt, key)
    ensures Agrees(entries, before + [op], clock, key)
  {
    forall id
      ensures LastStamp(before + [op], key, id) == LastStamp(before, key, id)
    {
      StampAfter(before, op, key, id);
    }
  }

  lemma DropOk(t: Table, before: seq<Op>, op: Op, clock: int, key: string)
    requires (op.Clear? || op.Forget?) && KeyOk(t, before, clock, key)
    ensures KeyOk(Step(t, op), before + [op], clock, key)
  {
    assert (before + [op])[..|before|] == before;
    if op.Forget? {
      FilterAllAt(t, OtherThan(op.id), key);
      FilterTidy(ListAt(t, key), OtherThan(op.id), clock);
    }
  }

  lemma ListOk(t: Table, before: seq<Op>, op: Op, clock: int, key: string)
    requires op.List? && op.prunedAt <= clock && KeyOk(t, before, op.prunedAt, key)
    ensures KeyOk(t, before + [op], clock, key)
  {
    assert (before + [op])[..|before|] == before;
  }

  lemma {:induction false} RunOk(ops: seq<Op>, clock: int, key: string)
    requires Monotone(ops, clock)
    ensures KeyOk(Run(ops), ops, clock, key)
  {
    if ops != [] {
      var before, op := ops[..|ops| - 1], ops[|ops| - 1];
      var t := Run(before);
      assert ops == before + [op];
      if op.Clear? || op.Forget? {
        RunOk(before, clock, key);
        DropOk(t, before, op, clock, key);
      } else {
        RunOk(before, op.prunedAt, key);
        PruneOk(t, before, op.prunedAt, op.prunedAt, key);
        var entries := ListAt(Prune(t, op.prunedAt), key);
        if op.List? {
          ListOk(Prune(t, op.prunedAt), before, op, clock, key);
        } else if key != op.key {
          OtherKeyAgrees(entries, before, op, clock, key);
        } else if op.Track? {
          TrackAgrees(entries, before, op, clock);
        } else {
          ReplaceAgrees(before, op, clock);
        }
      }
    }
  }

  /**
   * Under a clock that never goes back, a listing holds exactly the approvals that the log says were
   * last announced within the TTL for that key and not since forgotten, cleared or replaced, each
   * once and in the order of their stamps.
   */
  lemma ListRefinesLog(ops: seq<Op>, key: string, now: int, id: string, at: int)
    requires Monotone(ops + [List(key, now)], now)
    ensures var pending := ListAt(Run(ops + [List(key, now)]), key);
            (&& (Entry(id, at) in pending <==> LastStamp(ops, key, id) == Some(at) && at >= now - TTL_MS)
             && (forall i, j | 0 <= i < j < |pending| ::
                   pending[i].id != pending[j].id && pending[i].at <= pending[j].at))
  {
    assert (ops + [List(key, now)])[..|ops|] == ops;
    RunOk(ops, now, key);
    PruneOk(Run(ops), ops, now, now, key);
  }

  /** No key is left with an empty list after any operation, whatever the clock does. */
  lemma {:induction false} NoEmptyLists(ops: seq<Op>)
    ensures forall key | key in Run(ops) :: Run(ops)[key] != []
  {
    if ops != [] {
      NoEmptyLists(ops[..|ops| - 1]);
    }
  }

  // ---------------------------------------------------------------------------------------------
  // Keys

  ghost predicate NulFree(s: string) {
    forall i | 0 <= i < |s| :: s[i] != '\0'
  }

  lemma {:induction false} JoinInjective(a: seq<string>, b: seq<string>)
    requires |a| == |b| && (forall s | s in a + b :: NulFree(s)) && JoinNul(a) == JoinNul(b)
    ensures a == b
  {
    if |a| == 1 {
    } else if |a| > 1 {
      var x, y := JoinNul(a), JoinNul(b);
      assert a[0] in a + b && b[0] in a + b;
      assert x[|a[0]|] == '\0' && y[|b[0]|] == '\0';
      assert forall i | 0 <= i < |a[0]| :: x[i] == a[0][i];
      assert forall i | 0 <= i < |b[0]| :: y[i] == b[0][i];
      assert |a[0]| == |b[0]|;
      assert a[0] == x[..|a[0]|] == b[0];
      assert JoinNul(a[1..]) == x[|a[0]| + 1..] == JoinNul(b[1..]);
      assert forall s | s in a[1..] + b[1..] :: s in a + b;
      JoinInjective(a[1..], b[1..]);
      assert a == [a[0]] + a[1..] && b == [b[0]] + b[1..];
    }
  }

  /** Keys without NULs tell conversations and recipes apart, but not a missing workspace from an empty one. */
  lemma KeysTellApart(i: Identity, recipe: string, j: Identity, other: string)
    requires forall s | s in KeyParts(i, recipe) + KeyParts(j, other) :: NulFree(s)
    ensures KeyOf(i, recipe) == KeyOf(j, other) <==>
              && i.medium == j.medium && i.workspace.GetOr("") == j.workspace.GetOr("")
              && i.channel == j.channel && i.user == j.user && recipe == other
  {
    if KeyOf(i, recipe) == KeyOf(j, other) {
      JoinInjective(KeyParts(i, recipe), KeyParts(j, other));
      var a, b := KeyParts(i, recipe), KeyParts(j, other);
      assert a[0] == b[0] && a[1] == b[1] && a[2] == b[2] && a[3] == b[3] && a[4] == b[4];
    }
  }
}
