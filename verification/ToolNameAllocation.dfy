/**
 * When alias allocation succeeds, and which alias every name gets: both in terms of the set of
 * names and the hash alone.
 */
module ToolNameAllocation {
  import opened Prelude
  import opened ToolNames
  import opened ToolNameSpelling

  // ---------------------------------------------------------------------------------------------
  // Counting

  function Below(n: nat): (s: set<nat>)
    ensures |s| == n
    ensures forall i: nat :: i in s <==> i < n
  {
    if n == 0 then {} else Below(n - 1) + {n - 1}
  }

  // ---------------------------------------------------------------------------------------------
  // The loop invariant

  ghost predicate IsCandidate(d: Digest, w: string) {
    exists i: nat :: i <= LAST_CANDIDATE && w == Candidate(d, i)
  }

  ghost function IndexOf(d: Digest, w: string): (i: nat)
    requires IsCandidate(d, w)
    ensures i <= LAST_CANDIDATE && w == Candidate(d, i)
  {
    var i: nat :| i <= LAST_CANDIDATE && w == Candidate(d, i);
    i
  }

  /** The names that need an alias under digest `d`. */
  ghost function Colliding(hash: Hash, names: set<string>, d: Digest): set<string> {
    set n | n in names && !Compliant(n) && hash(n) == d
  }

  /** The canonical names that look like an alias of digest `d`. */
  ghost function Squatters(names: set<string>, d: Digest): set<string> {
    set n | n in names && IsCandidate(d, n)
  }

  ghost predicate Bijective(t: Tables) {
    && (forall n | n in t.outbound :: t.outbound[n] in t.inbound && t.inbound[t.outbound[n]] == n)
    && (forall w | w in t.inbound :: t.inbound[w] in t.outbound && t.outbound[t.inbound[w]] == w)
  }

  /** Compliant names keep their name; the others get a compliant candidate that is no canonical name. */
  ghost predicate GoodWire(hash: Hash, names: set<string>, n: string, w: string) {
    if Compliant(n) then w == n else IsCandidate(hash(n), w) && w !in names
  }

  ghost predicate HasAlias(hash: Hash, t: Tables, n: string) {
    n in t.outbound && !Compliant(n) && IsCandidate(hash(n), t.outbound[n])
  }

  ghost function AliasIndex(hash: Hash, t: Tables, n: string): nat
    requires HasAlias(hash, t, n)
  {
    IndexOf(hash(n), t.outbound[n])
  }

  ghost predicate PrefixTaken(occupied: set<string>, d: Digest, i: nat) {
    forall j: nat | j < i :: Candidate(d, j) in occupied
  }

  /** Every alias took the first free candidate of its digest. */
  ghost predicate FirstFree(hash: Hash, t: Tables, occupied: set<string>) {
    forall n | HasAlias(hash, t, n) :: PrefixTaken(occupied, hash(n), AliasIndex(hash, t, n))
  }

  /** Under one digest earlier names have smaller suffixes. */
  ghost predicate Ordered(hash: Hash, t: Tables) {
    forall m, n | HasAlias(hash, t, m) && HasAlias(hash, t, n) && hash(m) == hash(n) && Less(m, n) ::
      AliasIndex(hash, t, m) < AliasIndex(hash, t, n)
  }

  ghost predicate AllocOk(hash: Hash, names: seq<string>, k: nat, a: Alloc)
    requires k <= |names|
  {
    && a.tables.outbound.Keys == Names(names[..k])
    && Bijective(a.tables)
    && (forall n | n in a.tables.outbound :: GoodWire(hash, Names(names), n, a.tables.outbound[n]))
    && a.occupied == CompliantOf(names) + a.tables.inbound.Keys
    && FirstFree(hash, a.tables, a.occupied)
    && Ordered(hash, a.tables)
  }

  // ---------------------------------------------------------------------------------------------
  // The pigeonhole

  /** Who took an occupied candidate: the canonical name itself, or the name it is an alias of. */
  ghost function Owner(names: seq<string>, a: Alloc, w: string): string
    requires w in a.occupied && a.occupied == CompliantOf(names) + a.tables.inbound.Keys
  {
    if w in names then w else a.tables.inbound[w]
  }

  lemma OwnerIs(hash: Hash, names: seq<string>, k: nat, a: Alloc, d: Digest, i: nat)
    requires k <= |names| && AllocOk(hash, names, k, a) && Candidate(d, i) in a.occupied
    ensures var o := Owner(names, a, Candidate(d, i));
            if Candidate(d, i) in names then o == Candidate(d, i) && o in Squatters(Names(names), d)
            else o in Colliding(hash, Names(names[..k]), d) && a.tables.outbound[o] == Candidate(d, i)
  {
    var w := Candidate(d, i);
    if w in a.tables.inbound {
      var o := a.tables.inbound[w];
      assert GoodWire(hash, Names(names), o, w);
      assert o in Names(names[..k]);
      if !Compliant(o) {
        CandidateInjective(hash(o), IndexOf(hash(o), w), d, i);
      }
    }
    if w in names {
      CandidateCompliant(d, i);
    }
  }

  /** When candidates 0 .. f-1 are all occupied, distinct names took them. */
  lemma OccupiedAreOwned(hash: Hash, names: seq<string>, k: nat, a: Alloc, d: Digest, f: nat)
    requires k <= |names| && AllocOk(hash, names, k, a)
    requires forall i: nat | i < f :: Candidate(d, i) in a.occupied
    ensures f <= |Squatters(Names(names), d)| + |Colliding(hash, Names(names[..k]), d)|
  {
    var owners := map i: nat | i < f :: Owner(names, a, Candidate(d, i));
    var target := Squatters(Names(names), d) + Colliding(hash, Names(names[..k]), d);
    forall i: nat, j: nat | i < f && j < f && owners[i] == owners[j]
      ensures i == j
    {
      OwnerIs(hash, names, k, a, d, i);
      OwnerIs(hash, names, k, a, d, j);
      CandidateCompliant(d, i);
      CandidateCompliant(d, j);
      assert Candidate(d, i) == Candidate(d, j);
      CandidateInjective(d, i, d, j);
    }
    forall i: nat | i < f
      ensures owners[i] in target
    {
      OwnerIs(hash, names, k, a, d, i);
    }
    InjectionCard(owners, target);
    assert owners.Keys == Below(f);
  }

  // ---------------------------------------------------------------------------------------------
  // One allocation

  lemma {:induction false} ProbeFindsFirstFree(occupied: set<string>, d: Digest, i: nat, limit: nat)
    requires i <= limit
    ensures i <= Probe(occupied, d, i, limit) <= limit
    ensures forall j: nat | i <= j < Probe(occupied, d, i, limit) :: Candidate(d, j) in occupied
    ensures Probe(occupied, d, i, limit) < limit ==> Candidate(d, Probe(occupied, d, i, limit)) !in occupied
    decreases limit - i
  {
    if Candidate(d, i) in occupied && i < limit {
      ProbeFindsFirstFree(occupied, d, i + 1, limit);
    }
  }

  /** How many of a digest's candidates the set of names can claim. */
  ghost function Demand(hash: Hash, names: set<string>, d: Digest): nat {
    |Squatters(names, d)| + |Colliding(hash, names, d)|
  }

  lemma DemandBound(hash: Hash, names: set<string>, d: Digest)
    ensures Demand(hash, names, d) <= |names|
  {
    var s, c := Squatters(names, d), Colliding(hash, names, d);
    forall n | n in s
      ensures n !in c
    {
      CandidateCompliant(d, IndexOf(d, n));
    }
    SubsetCard(s + c, names);
  }

  lemma {:induction false} NamesCard(names: seq<string>)
    ensures |Names(names)| <= |names|
  {
    if names != [] {
      NamesCard(names[1..]);
      assert Names(names) == {names[0]} + Names(names[1..]) by {
        assert names == [names[0]] + names[1..];
      }
    }
  }

  /**
   * The suffix loop always ends on a free candidate, because names already allocated and
   * canonical names cannot occupy more candidates than the loop tries; and its index stays
   * below what the whole set of names can claim.
   */
  lemma ProbeIsFree(hash: Hash, names: seq<string>, k: nat, a: Alloc)
    requires k < |names| && StrictlySorted(names) && AllocOk(hash, names, k, a) && !Compliant(names[k])
    ensures var d := hash(names[k]); var i := Probe(a.occupied, d, 0, |names|);
            (&& Candidate(d, i) !in a.occupied
             && (forall j: nat | j < i :: Candidate(d, j) in a.occupied)
             && i < Demand(hash, Names(names), d))
  {
    var name, d := names[k], hash(names[k]);
    var i := Probe(a.occupied, d, 0, |names|);
    ProbeFindsFirstFree(a.occupied, d, 0, |names|);
    OccupiedAreOwned(hash, names, k, a, d, i);
    var all := Colliding(hash, Names(names), d);
    var done := Colliding(hash, Names(names[..k]), d);
    assert name in all;
    NewName(names, k);
    SubsetCard(done + {name}, all);
    DemandBound(hash, Names(names), d);
    NamesCard(names);
  }

  lemma BijectiveAfter(t: Tables, name: string, wire: string)
    requires Bijective(t) && name !in t.outbound && wire !in t.inbound
    ensures Bijective(Tables(t.outbound[name := wire], t.inbound[wire := name]))
  {
  }

  /** The wire name of the next canonical name is not in use, and is a good one. */
  lemma FreshWire(hash: Hash, names: seq<string>, k: nat, a: Alloc)
    requires k < |names| && StrictlySorted(names) && AllocOk(hash, names, k, a)
    requires Allocate(hash, a, names[k], |names|).Some?
    ensures var wire := Wire(hash, names[k], a.occupied, |names|);
            wire !in a.tables.inbound && GoodWire(hash, Names(names), names[k], wire)
  {
    var name := names[k];
    NewName(names, k);
    if Compliant(name) {
      forall w | w in a.tables.inbound
        ensures w != name
      {
        assert GoodWire(hash, Names(names), a.tables.inbound[w], w);
      }
    } else {
      NewAlias(hash, names, k, a);
    }
  }

  lemma AllocateKeepsOk(hash: Hash, names: seq<string>, k: nat, a: Alloc)
    requires k < |names| && StrictlySorted(names) && AllocOk(hash, names, k, a)
    requires Allocate(hash, a, names[k], |names|).Some?
    ensures AllocOk(hash, names, k + 1, Allocate(hash, a, names[k], |names|).value)
  {
    var name := names[k];
    var wire := Wire(hash, name, a.occupied, |names|);
    var b := Allocate(hash, a, name, |names|).value;
    NewName(names, k);
    FreshWire(hash, names, k, a);
    FirstFreeAfter(hash, names, k, a);
    OrderedAfter(hash, names, k, a);
    BijectiveAfter(a.tables, name, wire);
    assert b.tables.outbound.Keys == Names(names[..k + 1]) by {
      assert names[..k + 1] == names[..k] + [name];
    }
    assert b.tables.inbound.Keys == a.tables.inbound.Keys + {wire};
  }

  lemma NewName(names: seq<string>, k: nat)
    requires k < |names| && StrictlySorted(names)
    ensures names[k] !in Names(names[..k])
    ensures forall m | m in Names(names[..k]) :: Less(m, names[k])
  {
    LessTotal(names[k], names[k]);
    forall m | m in Names(names[..k])
      ensures Less(m, names[k])
    {
      var j :| 0 <= j < k && names[..k][j] == m;
    }
  }

  lemma NewAlias(hash: Hash, names: seq<string>, k: nat, a: Alloc)
    requires k < |names| && StrictlySorted(names) && AllocOk(hash, names, k, a) && !Compliant(names[k])
    requires Allocate(hash, a, names[k], |names|).Some?
    ensures var wire := Wire(hash, names[k], a.occupied, |names|);
            && GoodWire(hash, Names(names), names[k], wire)
            && IndexOf(hash(names[k]), wire) == Probe(a.occupied, hash(names[k]), 0, |names|)
  {
    var d := hash(names[k]);
    var i := Probe(a.occupied, d, 0, |names|);
    ProbeIsFree(hash, names, k, a);
    CandidateCompliant(d, i);
    var wire := Wire(hash, names[k], a.occupied, |names|);
    assert IsCandidate(d, wire);
    CandidateInjective(d, i, d, IndexOf(d, wire));
  }

  /** Older entries keep their alias and index; the new name's index is the probe's. */
  lemma AliasesAfter(hash: Hash, names: seq<string>, k: nat, a: Alloc, n: string)
    requires k < |names| && StrictlySorted(names) && AllocOk(hash, names, k, a)
    requires Allocate(hash, a, names[k], |names|).Some?
    requires HasAlias(hash, Allocate(hash, a, names[k], |names|).value.tables, n)
    ensures var i := AliasIndex(hash, Allocate(hash, a, names[k], |names|).value.tables, n);
            if n == names[k] then
              !Compliant(n) && i == Probe(a.occupied, hash(n), 0, |names|)
            else
              Less(n, names[k]) && HasAlias(hash, a.tables, n) && i == AliasIndex(hash, a.tables, n)
  {
    NewName(names, k);
    if n == names[k] {
      NewAlias(hash, names, k, a);
    }
  }

  lemma FirstFreeAfter(hash: Hash, names: seq<string>, k: nat, a: Alloc)
    requires k < |names| && StrictlySorted(names) && AllocOk(hash, names, k, a)
    requires Allocate(hash, a, names[k], |names|).Some?
    ensures var b := Allocate(hash, a, names[k], |names|).value; FirstFree(hash, b.tables, b.occupied)
  {
    var b := Allocate(hash, a, names[k], |names|).value;
    forall n | HasAlias(hash, b.tables, n)
      ensures PrefixTaken(b.occupied, hash(n), AliasIndex(hash, b.tables, n))
    {
      AliasesAfter(hash, names, k, a, n);
      if n == names[k] {
        ProbeIsFree(hash, names, k, a);
      } else {
        assert PrefixTaken(a.occupied, hash(n), AliasIndex(hash, a.tables, n));
      }
    }
  }

  /** A free candidate lies beyond every alias of its digest. */
  lemma FreeIsLarger(hash: Hash, t: Tables, occupied: set<string>, m: string, i: nat)
    requires FirstFree(hash, t, occupied) && HasAlias(hash, t, m) && t.outbound[m] in occupied
    requires Candidate(hash(m), i) !in occupied
    ensures AliasIndex(hash, t, m) < i
  {
    assert PrefixTaken(occupied, hash(m), AliasIndex(hash, t, m));
  }

  lemma OrderedAfter(hash: Hash, names: seq<string>, k: nat, a: Alloc)
    requires k < |names| && StrictlySorted(names) && AllocOk(hash, names, k, a)
    requires Allocate(hash, a, names[k], |names|).Some?
    ensures Ordered(hash, Allocate(hash, a, names[k], |names|).value.tables)
  {
    var b := Allocate(hash, a, names[k], |names|).value;
    forall m, n | HasAlias(hash, b.tables, m) && HasAlias(hash, b.tables, n) && hash(m) == hash(n) && Less(m, n)
      ensures AliasIndex(hash, b.tables, m) < AliasIndex(hash, b.tables, n)
    {
      AliasesAfter(hash, names, k, a, m);
      AliasesAfter(hash, names, k, a, n);
      LessTotal(m, n);
      if n == names[k] {
        LessTotal(n, n);
        ProbeIsFree(hash, names, k, a);
        assert a.tables.outbound[m] in a.tables.inbound;
        FreeIsLarger(hash, a.tables, a.occupied, m, AliasIndex(hash, b.tables, n));
      }
    }
  }
}
