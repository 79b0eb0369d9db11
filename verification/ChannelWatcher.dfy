/**
 * The channel watcher: a cache of the channels that belong to this host, kept by watch events and
 * by full relists. Events arrive some time after the changes that they report, and a relist waits for
 * the server, so either may be overtaken by the other.
 */
module ChannelWatcher {
  import opened Prelude

  /** An object of the cluster under its `namespace/name` key; `body` is its serialized spec. */
  datatype Channel = Channel(key: string, hostRef: string, body: string)

  /** `Other` stands for the event types the handler ignores. */
  datatype EventType = Added | Modified | Deleted | Other

  /** The parser drops objects without a host reference. */
  predicate Parses(c: Channel) {
    c.hostRef != ""
  }

  predicate Matches(hostRef: string, c: Channel) {
    Parses(c) && c.hostRef == hostRef
  }

  type Cache = map<string, Channel>

  /** What a watch event does to the cache, and whether it fires `onChange`. */
  function OnWatch(hostRef: string, cache: Cache, kind: EventType, c: Channel): (Cache, bool) {
    if !Parses(c) || kind.Other? then (cache, false)
    else if kind.Deleted? || !Matches(hostRef, c) then
      if c.key in cache then (cache - {c.key}, true) else (cache, false)
    else if c.key in cache && cache[c.key] == c then (cache, false)
    else (cache[c.key := c], true)
  }

  /** The cache after a relist that returns these objects, in this order. */
  function Listed(hostRef: string, items: seq<Channel>): Cache {
    if items == [] then map[]
    else
      var before, last := Listed(hostRef, items[..|items| - 1]), items[|items| - 1];
      if Matches(hostRef, last) then before[last.key := last] else before
  }

  class CommunicationChannelWatcher {
    const hostRef: string
    var channels: map<string, Channel>
    /** What the consumer was last told: by `onChange`, or as the result of a list call. */
    ghost var told: Cache

    constructor (hostRef: string)
      ensures this.hostRef == hostRef && channels == told == map[]
    {
      this.hostRef := hostRef;
      channels, told := map[], map[];
    }

    /** `fired` says whether `onChange` is called. */
    method HandleWatch(kind: EventType, c: Channel) returns (fired: bool)
      modifies this
      ensures fired == OnWatch(hostRef, old(channels), kind, c).1
      ensures channels == OnWatch(hostRef, old(channels), kind, c).0
      ensures told == if fired then channels else old(told)
    {
      fired := false;
      if !Parses(c) {
        return;
      }
      var matchesHost := c.hostRef == hostRef;
      if kind.Added? || kind.Modified? {
        if matchesHost {
          if c.key !in channels || channels[c.key] != c {
            channels := channels[c.key := c];
            fired := true;
          }
        } else if c.key in channels {
          channels := channels - {c.key};
          fired := true;
        }
      } else if kind.Deleted? {
        if c.key in channels {
          channels := channels - {c.key};
          fired := true;
        }
      }
      if fired {
        told := channels;
      }
    }

    /** `listChannels` once the server has answered: the cache is cleared and refilled. */
    method Refill(items: seq<Channel>)
      modifies this`channels
      ensures channels == Listed(hostRef, items)
    {
      channels := map[];
      for n := 0 to |items|
        invariant channels == Listed(hostRef, items[..n])
      {
        assert items[..n + 1][..n] == items[..n];
        var c := items[n];
        if Parses(c) && c.hostRef == hostRef {
          channels := channels[c.key := c];
        }
      }
      assert items[..|items|] == items;
    }

    /** A list call returns the channels to its caller; a failed one leaves everything alone. */
    method ListChannels(items: Option<seq<Channel>>)
      modifies this
      ensures channels == if items.Some? then Listed(hostRef, items.value) else old(channels)
      ensures told == if items.Some? then channels else old(told)
    {
      if items.Some? {
        Refill(items.value);
        told := channels;
      }
    }

    /** `resyncChannels` once the server has answered; `before` is the cache when it was called. */
    method ResyncChannels(before: Cache, items: Option<seq<Channel>>) returns (fired: bool)
      modifies this
      ensures channels == if items.Some? then Listed(hostRef, items.value) else old(channels)
      ensures fired <==> items.Some? && before != Listed(hostRef, items.value)
      ensures told == if fired then channels else old(told)
    {
      if items.None? {
        return false;
      }
      Refill(items.value);
      fired := before != channels;
      if fired {
        told := channels;
      }
    }
  }

  // ---------------------------------------------------------------------------------------------
  // The cache against the cluster

  type Cluster = map<string, Channel>

  ghost predicate WellKeyed(cluster: Cluster) {
    forall k | k in cluster :: cluster[k].key == k
  }

  /** What the cache should hold: the channels that name this host. */
  function Own(hostRef: string, cluster: Cluster): Cache {
    map k | k in cluster && Matches(hostRef, cluster[k]) :: cluster[k]
  }

  function Applied(cluster: Cluster, kind: EventType, c: Channel): Cluster {
    match kind
    case Deleted => cluster - {c.key}
    case Other => cluster
    case _ => cluster[c.key := c]
  }

  /** The items list the cluster, each object once, in any order. */
  ghost predicate Lists(items: seq<Channel>, cluster: Cluster) {
    && (forall c | c in items :: c.key in cluster && cluster[c.key] == c)
    && (forall k | k in cluster :: cluster[k] in items)
    && (forall i, j | 0 <= i < j < |items| :: items[i].key != items[j].key)
  }

  /**
   * An event that is delivered at once keeps a correct cache correct exactly when it announces no change,
   * or its object has a host reference or was not cached: an object that loses its reference is dropped by
   * the parser and stays cached.
   */
  lemma EventKeepsCacheIff(hostRef: string, cluster: Cluster, kind: EventType, c: Channel)
    requires WellKeyed(cluster)
    ensures WellKeyed(Applied(cluster, kind, c))
    ensures OnWatch(hostRef, Own(hostRef, cluster), kind, c).0 == Own(hostRef, Applied(cluster, kind, c))
       <==> kind.Other? || Parses(c) || c.key !in Own(hostRef, cluster)
  {
    var cache, after := Own(hostRef, cluster), Own(hostRef, Applied(cluster, kind, c));
    assert forall k | k != c.key :: k in cache <==> k in after;
    if !kind.Other? && !Parses(c) && c.key in cache {
      assert c.key !in after;
    }
  }

  /** `onChange` fires on a watch event exactly when the event changed the cache. */
  lemma FiresIffChanged(hostRef: string, cache: Cache, kind: EventType, c: Channel)
    ensures OnWatch(hostRef, cache, kind, c).1 <==> OnWatch(hostRef, cache, kind, c).0 != cache
  {
    if OnWatch(hostRef, cache, kind, c).1 && c.key in cache && !kind.Deleted? && Matches(hostRef, c) {
      assert cache[c.key := c][c.key] != cache[c.key];
    }
  }

  lemma {:induction false} ListedHas(hostRef: string, items: seq<Channel>, c: Channel)
    requires forall i, j | 0 <= i < j < |items| :: items[i].key != items[j].key
    requires c in items && Matches(hostRef, c)
    ensures c.key in Listed(hostRef, items) && Listed(hostRef, items)[c.key] == c
  {
    var n := |items| - 1;
    if c != items[n] {
      var i :| 0 <= i < |items| && items[i] == c;
      assert items[..n][i] == c;
      ListedHas(hostRef, items[..n], c);
    }
  }

  lemma {:induction false} ListedOnly(hostRef: string, items: seq<Channel>, key: string)
    requires key in Listed(hostRef, items)
    ensures Listed(hostRef, items)[key] in items && Listed(hostRef, items)[key].key == key
    ensures Matches(hostRef, Listed(hostRef, items)[key])
  {
    var n := |items| - 1;
    if !Matches(hostRef, items[n]) || items[n].key != key {
      ListedOnly(hostRef, items[..n], key);
    }
  }

  /** A relist that returns the cluster, in whatever order, makes the cache right. */
  lemma RelistIsOwn(hostRef: string, items: seq<Channel>, cluster: Cluster)
    requires WellKeyed(cluster) && Lists(items, cluster)
    ensures Listed(hostRef, items) == Own(hostRef, cluster)
  {
    var listed, own := Listed(hostRef, items), Own(hostRef, cluster);
    forall k | k in listed
      ensures k in own && listed[k] == own[k]
    {
      ListedOnly(hostRef, items, k);
    }
    forall k | k in own
      ensures k in listed
    {
      assert cluster[k] in items;
      ListedHas(hostRef, items, cluster[k]);
    }
  }

  // ---------------------------------------------------------------------------------------------
  // Runs

  /**
   * A change of the cluster; a watch event that tells what the cluster held after the first `moment`
   * steps; a relist whose snapshot was taken after the first `snapshot` steps. A resync was called after
   * the first `began` steps, with the cache `before`. Events may be late, repeated, out of order or
   * missing, and relists may overlap; a failed relist is no step.
   */
  datatype Op =
    | Change(kind: EventType, c: Channel)
    | Deliver(kind: EventType, c: Channel, moment: nat)
    | List(items: seq<Channel>, snapshot: nat)
    | Resync(items: seq<Channel>, snapshot: nat, before: Cache, began: nat)

  datatype World = World(cluster: Cluster, cache: Cache, told: Cache)

  const NOTHING := World(map[], map[], map[])

  /** Whether the step calls `onChange`. */
  predicate Fires(hostRef: string, w: World, op: Op) {
    match op
    case Deliver(kind, c, _) => OnWatch(hostRef, w.cache, kind, c).1
    case Resync(items, _, before, _) => before != Listed(hostRef, items)
    case _ => false
  }

  /** The consumer learns the cache from `onChange` and from the result of a list call. */
  predicate Tells(hostRef: string, w: World, op: Op) {
    Fires(hostRef, w, op) || op.List?
  }

  function CacheAfter(hostRef: string, w: World, op: Op): Cache {
    match op
    case Change(_, _) => w.cache
    case Deliver(kind, c, _) => OnWatch(hostRef, w.cache, kind, c).0
    case List(items, _) => Listed(hostRef, items)
    case Resync(items, _, _, _) => Listed(hostRef, items)
  }

  function Step(hostRef: string, w: World, op: Op): World {
    var cache := CacheAfter(hostRef, w, op);
    World(if op.Change? then Applied(w.cluster, op.kind, op.c) else w.cluster,
          cache,
          if Tells(hostRef, w, op) then cache else w.told)
  }

  /** A run from the empty cluster; what exists before the watcher starts are changes, too. */
  function Run(hostRef: string, ops: seq<Op>): World {
    if ops == [] then NOTHING else Step(hostRef, Run(hostRef, ops[..|ops| - 1]), ops[|ops| - 1])
  }

  predicate Relists(op: Op) {
    op.List? || op.Resync?
  }

  /** What the event says of its key is what the cluster holds. */
  predicate Reports(cluster: Cluster, kind: EventType, c: Channel) {
    match kind
    case Deleted => c.key !in cluster
    case Other => true
    case _ => c.key in cluster && cluster[c.key] == c
  }

  /** Events and relists tell the cluster of their moment, and resyncs remember the cache of their start. */
  ghost predicate Faithful(hostRef: string, ops: seq<Op>) {
    ops != [] ==>
      var n, op := |ops| - 1, ops[|ops| - 1];
      && Faithful(hostRef, ops[..n])
      && match op
         case Change(_, _) => true
         case Deliver(kind, c, moment) => moment <= n && Reports(Run(hostRef, ops[..moment]).cluster, kind, c)
         case List(items, snapshot) => snapshot <= n && Lists(items, Run(hostRef, ops[..snapshot]).cluster)
         case Resync(items, snapshot, before, began) =>
           && began <= snapshot <= n && Lists(items, Run(hostRef, ops[..snapshot]).cluster)
           && before == Run(hostRef, ops[..began]).cache
  }

  predicate Changes(op: Op, key: string) {
    op.Change? && !op.kind.Other? && op.c.key == key
  }

  /** The handler looks at the key: an event about it, with an object that the parser keeps. */
  predicate Shows(op: Op, key: string) {
    op.Deliver? && !op.kind.Other? && op.c.key == key && Parses(op.c)
  }

  /** The moment whose cluster the cache shows at a key: that of the last relist or kept event about the key. */
  function Seen(ops: seq<Op>, key: string): nat {
    if ops == [] then 0
    else
      var op := ops[|ops| - 1];
      if Relists(op) then op.snapshot
      else if Shows(op, key) then op.moment
      else Seen(ops[..|ops| - 1], key)
  }

  function Entry(m: map<string, Channel>, key: string): Option<Channel> {
    if key in m then Some(m[key]) else None
  }

  /** What the host should see of a key after the first `n` steps. */
  function View(hostRef: string, ops: seq<Op>, n: nat, key: string): Option<Channel>
    requires n <= |ops|
  {
    Entry(Own(hostRef, Run(hostRef, ops[..n]).cluster), key)
  }

  lemma {:induction false} RunWellKeyed(hostRef: string, ops: seq<Op>)
    ensures WellKeyed(Run(hostRef, ops).cluster)
  {
    if ops != [] {
      RunWellKeyed(hostRef, ops[..|ops| - 1]);
    }
  }

  /** A kept event puts into the cache, at its key, what the host should have seen at its moment. */
  lemma DeliveredView(hostRef: string, w: World, op: Op, key: string, cluster: Cluster)
    requires op.Deliver? && Reports(cluster, op.kind, op.c)
    ensures Entry(CacheAfter(hostRef, w, op), key)
         == if Shows(op, key) then Entry(Own(hostRef, cluster), key) else Entry(w.cache, key)
  {
  }

  /**
   * Key by key, the cache shows the cluster of one past moment, filtered by host: whatever was late,
   * missed, repeated, dropped by the parser or overtaken by a relist, nothing else is ever in it.
   */
  lemma {:induction false} CacheShowsSeen(hostRef: string, ops: seq<Op>, key: string)
    requires Faithful(hostRef, ops)
    ensures Seen(ops, key) <= |ops|
    ensures Entry(Run(hostRef, ops).cache, key) == View(hostRef, ops, Seen(ops, key), key)
  {
    if ops != [] {
      var n, op := |ops| - 1, ops[|ops| - 1];
      CacheShowsSeen(hostRef, ops[..n], key);
      var seen := Seen(ops[..n], key);
      assert seen <= n && ops[..n][..seen] == ops[..seen];
      if Relists(op) {
        RunWellKeyed(hostRef, ops[..op.snapshot]);
        RelistIsOwn(hostRef, op.items, Run(hostRef, ops[..op.snapshot]).cluster);
      } else if op.Deliver? {
        DeliveredView(hostRef, Run(hostRef, ops[..n]), op, key, Run(hostRef, ops[..op.moment]).cluster);
      }
    }
  }

  /** The cache is right about a key exactly when the host's view of it is what it was when last seen. */
  lemma RightIffViewUnchanged(hostRef: string, ops: seq<Op>)
    requires Faithful(hostRef, ops)
    ensures forall key :: Seen(ops, key) <= |ops|
    ensures Run(hostRef, ops).cache == Own(hostRef, Run(hostRef, ops).cluster)
       <==> forall key :: View(hostRef, ops, Seen(ops, key), key) == View(hostRef, ops, |ops|, key)
  {
    var w := Run(hostRef, ops);
    assert ops[..|ops|] == ops;
    forall key
      ensures Seen(ops, key) <= |ops|
      ensures Entry(w.cache, key) == View(hostRef, ops, Seen(ops, key), key)
    {
      CacheShowsSeen(hostRef, ops, key);
    }
    if forall key :: View(hostRef, ops, Seen(ops, key), key) == View(hostRef, ops, |ops|, key) {
      forall key
        ensures Entry(w.cache, key) == Entry(Own(hostRef, w.cluster), key)
      {
        assert View(hostRef, ops, Seen(ops, key), key) == View(hostRef, ops, |ops|, key);
      }
      SameEntries(w.cache, Own(hostRef, w.cluster));
    }
  }

  lemma SameEntries(a: Cache, b: Cache)
    requires forall key :: Entry(a, key) == Entry(b, key)
    ensures a == b
  {
    forall key
      ensures key in a <==> key in b
      ensures key in a && key in b ==> a[key] == b[key]
    {
      assert Entry(a, key) == Entry(b, key);
    }
  }

  lemma {:induction false} ViewStays(hostRef: string, ops: seq<Op>, from: nat, key: string)
    requires from <= |ops| && forall i | from <= i < |ops| :: !Changes(ops[i], key)
    ensures View(hostRef, ops, from, key) == View(hostRef, ops, |ops|, key)
  {
    assert ops[..|ops|] == ops;
    if from < |ops| {
      var before := ops[..|ops| - 1];
      ViewStays(hostRef, before, from, key);
      assert before[..from] == ops[..from] && before[..|before|] == before;
    }
  }

  /**
   * A key that did not change since the moment at which it was last seen is right, whatever happened to
   * other keys and whatever was missed before. So a relist heals any gap before its snapshot, until an
   * older event overtakes it.
   */
  lemma QuietKeyIsRight(hostRef: string, ops: seq<Op>, key: string)
    requires Faithful(hostRef, ops) && forall i | Seen(ops, key) <= i < |ops| :: !Changes(ops[i], key)
    ensures Entry(Run(hostRef, ops).cache, key) == Entry(Own(hostRef, Run(hostRef, ops).cluster), key)
  {
    CacheShowsSeen(hostRef, ops, key);
    ViewStays(hostRef, ops, Seen(ops, key), key);
    assert ops[..|ops|] == ops;
  }

  // ---------------------------------------------------------------------------------------------
  // When a resync fires

  /**
   * A resync compares the refilled cache with the cache of its start. So it fires exactly when it
   * changes the cache if and only if the refill differs from both or from neither: from the cache of
   * its start, and from the cache that it replaces.
   */
  lemma ResyncFiresIff(hostRef: string, w: World, op: Op)
    requires op.Resync?
    ensures (Fires(hostRef, w, op) <==> CacheAfter(hostRef, w, op) != w.cache)
       <==> (op.before == Listed(hostRef, op.items) <==> w.cache == Listed(hostRef, op.items))
  {
  }

  lemma {:induction false} CacheStays(hostRef: string, ops: seq<Op>, from: nat)
    requires from <= |ops|
    requires forall i | from <= i < |ops| :: Run(hostRef, ops[..i + 1]).cache == Run(hostRef, ops[..i]).cache
    ensures Run(hostRef, ops).cache == Run(hostRef, ops[..from]).cache
  {
    assert ops[..|ops|] == ops;
    if from < |ops| {
      var before := ops[..|ops| - 1];
      forall i | from <= i < |before|
        ensures Run(hostRef, before[..i + 1]).cache == Run(hostRef, before[..i]).cache
      {
        assert before[..i + 1] == ops[..i + 1] && before[..i] == ops[..i];
      }
      CacheStays(hostRef, before, from);
      assert before[..from] == ops[..from] && ops[..(|ops| - 1) + 1] == ops;
    }
  }

  /** If nothing altered the cache while it waited, a resync fires exactly when it changes the cache. */
  lemma UndisturbedResyncFiresIffChanged(hostRef: string, ops: seq<Op>, op: Op)
    requires op.Resync? && Faithful(hostRef, ops + [op])
    requires forall i | op.began <= i < |ops| :: Run(hostRef, ops[..i + 1]).cache == Run(hostRef, ops[..i]).cache
    ensures Fires(hostRef, Run(hostRef, ops), op) <==> Run(hostRef, ops + [op]).cache != Run(hostRef, ops).cache
  {
    assert (ops + [op])[..|ops|] == ops && (ops + [op])[..op.began] == ops[..op.began];
    CacheStays(hostRef, ops, op.began);
  }

  // ---------------------------------------------------------------------------------------------
  // What the consumer was told

  /** A resync that ends with the cache it began with, although the cache changed in between. */
  predicate PutsBack(hostRef: string, w: World, op: Op) {
    op.Resync? && op.before == Listed(hostRef, op.items) && w.cache != Listed(hostRef, op.items)
  }

  /** A step keeps the consumer up to date exactly when it is no resync that puts the cache back. */
  lemma ToldIffNotPutBack(hostRef: string, w: World, op: Op)
    requires w.told == w.cache
    ensures Step(hostRef, w, op).told == Step(hostRef, w, op).cache <==> !PutsBack(hostRef, w, op)
  {
    if op.Deliver? {
      FiresIffChanged(hostRef, w.cache, op.kind, op.c);
    }
  }

  /** What the cache was last put back to since the consumer was last told something. */
  function PutBackTo(hostRef: string, ops: seq<Op>): Option<Cache> {
    if ops == [] then None
    else
      var before, op := ops[..|ops| - 1], ops[|ops| - 1];
      var w := Run(hostRef, before);
      if Tells(hostRef, w, op) then None
      else if PutsBack(hostRef, w, op) then Some(Listed(hostRef, op.items))
      else PutBackTo(hostRef, before)
  }

  /** In every run the cache is what the consumer was told, or what a resync put it back to since then. */
  lemma {:induction false} CacheIsToldOrPutBack(hostRef: string, ops: seq<Op>)
    ensures Run(hostRef, ops).cache == PutBackTo(hostRef, ops).GetOr(Run(hostRef, ops).told)
  {
    if ops != [] {
      var before, op := ops[..|ops| - 1], ops[|ops| - 1];
      CacheIsToldOrPutBack(hostRef, before);
      if op.Deliver? {
        FiresIffChanged(hostRef, Run(hostRef, before).cache, op.kind, op.c);
      }
    }
  }

  /**
   * The consumer knows the cache exactly when no resync put it back since the consumer was last told, or
   * the last one that did put it back to what the consumer was told.
   */
  lemma ConsumerKnowsCacheIff(hostRef: string, ops: seq<Op>)
    ensures Run(hostRef, ops).told == Run(hostRef, ops).cache
       <==> (PutBackTo(hostRef, ops).Some? ==> PutBackTo(hostRef, ops).value == Run(hostRef, ops).told)
  {
    CacheIsToldOrPutBack(hostRef, ops);
  }

  // ---------------------------------------------------------------------------------------------
  // Runs in which something goes wrong

  lemma RunOneMore(hostRef: string, ops: seq<Op>, op: Op)
    ensures (ops + [op])[..|ops|] == ops
    ensures Run(hostRef, ops + [op]) == Step(hostRef, Run(hostRef, ops), op)
  {
    assert (ops + [op])[..|ops|] == ops;
  }

  /** A channel appears in the cluster, and its event is delivered. */
  function Appears(c: Channel): seq<Op> {
    [] + [Change(Added, c)] + [Deliver(Added, c, 1)]
  }

  lemma AppearsAndIsKnown(hostRef: string, c: Channel)
    requires Matches(hostRef, c)
    ensures |Appears(c)| == 2 && Faithful(hostRef, Appears(c))
    ensures Run(hostRef, Appears(c)) == World(map[c.key := c], map[c.key := c], map[c.key := c])
    ensures Run(hostRef, Appears(c)[..0]) == NOTHING && Run(hostRef, Appears(c)[..1]).cluster == map[c.key := c]
    ensures Own(hostRef, map[c.key := c]) == map[c.key := c]
  {
    var none: seq<Op> := [];
    RunOneMore(hostRef, none, Change(Added, c));
    RunOneMore(hostRef, none + [Change(Added, c)], Deliver(Added, c, 1));
    assert Appears(c)[..1] == none + [Change(Added, c)] && Appears(c)[..0] == none;
    assert Faithful(hostRef, none + [Change(Added, c)]);
  }

  /**
   * A channel that loses its host reference. The custom resource requires the reference to be a string
   * and nothing more, so the empty string is a legal value; the channel stays cached.
   */
  lemma LostReferenceStaysCached(hostRef: string, c: Channel)
    requires Matches(hostRef, c)
    ensures var blank := c.(hostRef := "");
            var ops := Appears(c) + [Change(Modified, blank)] + [Deliver(Modified, blank, 3)];
            var w := Run(hostRef, ops);
            Faithful(hostRef, ops) && w.cache == map[c.key := c] && Own(hostRef, w.cluster) == map[]
  {
    var blank := c.(hostRef := "");
    var changed := Appears(c) + [Change(Modified, blank)];
    AppearsAndIsKnown(hostRef, c);
    RunOneMore(hostRef, Appears(c), Change(Modified, blank));
    RunOneMore(hostRef, changed, Deliver(Modified, blank, 3));
    assert (changed + [Deliver(Modified, blank, 3)])[..3] == changed;
  }

  lemma OneMoreResync(hostRef: string, c: Channel, resync: Op)
    requires Matches(hostRef, c) && resync.Resync? && resync.before == map[] && resync.began == 0
    requires resync == Resync([], 0, map[], 0) || resync == Resync([c], 1, map[], 0)
    ensures Faithful(hostRef, Appears(c) + [resync])
    ensures Run(hostRef, Appears(c) + [resync]) == Step(hostRef, Run(hostRef, Appears(c)), resync)
  {
    AppearsAndIsKnown(hostRef, c);
    RunOneMore(hostRef, Appears(c), resync);
    var all := Appears(c) + [resync];
    assert all[..0] == Appears(c)[..0] && all[..1] == Appears(c)[..1];
  }

  /**
   * A channel added between the snapshot of a resync and its refill: the event puts it in the cache and
   * tells the consumer, the refill takes it out again, and nobody is told.
   */
  lemma EventDuringResyncIsLost(hostRef: string, c: Channel)
    requires Matches(hostRef, c)
    ensures var ops := Appears(c) + [Resync([], 0, map[], 0)];
            var w := Run(hostRef, ops);
            && Faithful(hostRef, ops)
            && w.cache == map[] && w.told == Own(hostRef, w.cluster) == map[c.key := c]
  {
    AppearsAndIsKnown(hostRef, c);
    OneMoreResync(hostRef, c, Resync([], 0, map[], 0));
  }

  /** A channel added while a resync waits, and listed by it: the refill changes nothing, and fires again. */
  lemma ResyncFiresForNothing(hostRef: string, c: Channel)
    requires Matches(hostRef, c)
    ensures var again := Resync([c], 1, map[], 0);
            && Faithful(hostRef, Appears(c) + [again])
            && Fires(hostRef, Run(hostRef, Appears(c)), again)
            && Run(hostRef, Appears(c) + [again]) == Run(hostRef, Appears(c))
  {
    AppearsAndIsKnown(hostRef, c);
    OneMoreResync(hostRef, c, Resync([c], 1, map[], 0));
    assert [c][..0] == [] && Listed(hostRef, [c]) == map[c.key := c];
  }

  /** A late event undoes a relist: the channel is deleted, the relist shows it, and then its old event arrives. */
  lemma LateEventUndoesRelist(hostRef: string, c: Channel)
    requires Matches(hostRef, c)
    ensures var none: seq<Op> := [];
            var ops := none + [Change(Added, c)] + [Change(Deleted, c)] + [List([], 2)] + [Deliver(Added, c, 1)];
            var w := Run(hostRef, ops);
            && Faithful(hostRef, ops)
            && Run(hostRef, ops[..3]).cache == map[] && w.cache == map[c.key := c] && w.cluster == map[]
  {
    var none: seq<Op> := [];
    var one := none + [Change(Added, c)];
    var two := one + [Change(Deleted, c)];
    var three := two + [List([], 2)];
    RunOneMore(hostRef, none, Change(Added, c));
    RunOneMore(hostRef, one, Change(Deleted, c));
    RunOneMore(hostRef, two, List([], 2));
    RunOneMore(hostRef, three, Deliver(Added, c, 1));
    var ops := three + [Deliver(Added, c, 1)];
    assert ops[..1] == one && three[..2] == two && Faithful(hostRef, one);
    assert map[c.key := c] - {c.key} == map[];
  }
}
