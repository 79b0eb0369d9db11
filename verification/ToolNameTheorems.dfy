/** What the tool-name map promises its users. */
module ToolNameTheorems {
  import opened Prelude
  import opened ToolNames
  import opened ToolNameSpelling
  import opened ToolNameAllocation

  // ---------------------------------------------------------------------------------------------
  // When construction succeeds

  /** What holds at the start of the loop and survives every round of it holds after any number of rounds. */
  lemma {:induction false} RoundsKeep(hash: Hash, names: seq<string>, inv: (nat, Alloc) -> bool, k: nat)
    requires k <= |names| && Allocated(hash, names, k).Some?
    requires inv(0, Alloc(CompliantOf(names), Tables(map[], map[])))
    requires forall i: nat, a | inv(i, a) && i < |names| && Allocate(hash, a, names[i], |names|).Some? ::
               inv(i + 1, Allocate(hash, a, names[i], |names|).value)
    ensures inv(k, Allocated(hash, names, k).value)
    decreases k
  {
    if k > 0 {
      RoundsKeep(hash, names, inv, k - 1);
    }
  }

  ghost function LoopInvariant(hash: Hash, names: seq<string>): (nat, Alloc) -> bool {
    (i: nat, a: Alloc) => i <= |names| && AllocOk(hash, names, i, a)
  }

  lemma RoundKeepsOk(hash: Hash, names: seq<string>, i: nat, a: Alloc)
    requires StrictlySorted(names) && LoopInvariant(hash, names)(i, a) && i < |names|
    requires Allocate(hash, a, names[i], |names|).Some?
    ensures LoopInvariant(hash, names)(i + 1, Allocate(hash, a, names[i], |names|).value)
  {
    AllocateKeepsOk(hash, names, i, a);
  }

  lemma InvariantHolds(hash: Hash, names: seq<string>, k: nat)
    requires k <= |names| && StrictlySorted(names) && Allocated(hash, names, k).Some?
    ensures LoopInvariant(hash, names)(k, Allocated(hash, names, k).value)
  {
    var inv := LoopInvariant(hash, names);
    StartOk(hash, names);
    forall i: nat, a | inv(i, a) && i < |names| && Allocate(hash, a, names[i], |names|).Some?
      ensures inv(i + 1, Allocate(hash, a, names[i], |names|).value)
    {
      RoundKeepsOk(hash, names, i, a);
    }
    RoundsKeep(hash, names, inv, k);
  }

  lemma AllocatedOk(hash: Hash, names: seq<string>, k: nat)
    requires k <= |names| && StrictlySorted(names) && Allocated(hash, names, k).Some?
    ensures AllocOk(hash, names, k, Allocated(hash, names, k).value)
  {
    InvariantHolds(hash, names, k);
  }

  lemma AllocateWhenDemandFits(hash: Hash, names: seq<string>, k: nat, a: Alloc)
    requires k < |names| && StrictlySorted(names) && AllocOk(hash, names, k, a)
    requires Demand(hash, Names(names), hash(names[k])) <= CAPACITY
    ensures Allocate(hash, a, names[k], |names|).Some?
  {
    var name := names[k];
    if !Compliant(name) {
      ProbeIsFree(hash, names, k, a);
      CandidateCompliant(hash(name), Probe(a.occupied, hash(name), 0, |names|));
    }
  }

  lemma StartOk(hash: Hash, names: seq<string>)
    ensures AllocOk(hash, names, 0, Alloc(CompliantOf(names), Tables(map[], map[])))
  {
  }

  /** Every digest can spell enough names for its claimants. */
  ghost predicate DemandFits(hash: Hash, names: set<string>) {
    forall d: Digest :: Demand(hash, names, d) <= CAPACITY
  }

  lemma NextIsAllocated(hash: Hash, names: seq<string>, k: nat)
    requires k < |names| && StrictlySorted(names) && Allocated(hash, names, k).Some?
    requires DemandFits(hash, Names(names))
    ensures Allocated(hash, names, k + 1).Some?
  {
    AllocatedOk(hash, names, k);
    AllocateWhenDemandFits(hash, names, k, Allocated(hash, names, k).value);
  }

  lemma AllocatedWhenDemandFits(hash: Hash, names: seq<string>, k: nat)
    requires k <= |names| && StrictlySorted(names) && DemandFits(hash, Names(names))
    ensures Allocated(hash, names, k).Some?
  {
    var i := 0;
    while i < k
      invariant i <= k && Allocated(hash, names, i).Some?
    {
      NextIsAllocated(hash, names, i);
      i := i + 1;
    }
  }

  /** A claimant of a digest, colliding name or squatter, ends up holding one of its candidates. */
  lemma ClaimantHolds(hash: Hash, names: seq<string>, a: Alloc, d: Digest, n: string)
    requires AllocOk(hash, names, |names|, a)
    requires n in Squatters(Names(names), d) || n in Colliding(hash, Names(names), d)
    ensures n in a.tables.outbound && IsCandidate(d, a.tables.outbound[n])
    ensures !(n in Squatters(Names(names), d) && n in Colliding(hash, Names(names), d))
  {
    assert names[..|names|] == names;
    assert GoodWire(hash, Names(names), n, a.tables.outbound[n]);
    if n in Squatters(Names(names), d) {
      CandidateCompliant(d, IndexOf(d, n));
    }
  }

  /** Once every name has a wire name, the claimants of a digest hold distinct candidates of it. */
  lemma DemandFitsWhenAllocated(hash: Hash, names: seq<string>, d: Digest)
    requires StrictlySorted(names) && Allocated(hash, names, |names|).Some?
    ensures Demand(hash, Names(names), d) <= CAPACITY
  {
    AllocatedOk(hash, names, |names|);
    var a := Allocated(hash, names, |names|).value;
    var s, c := Squatters(Names(names), d), Colliding(hash, Names(names), d);
    forall n | n in s + c
      ensures n in a.tables.outbound && IsCandidate(d, a.tables.outbound[n]) && !(n in s && n in c)
    {
      ClaimantHolds(hash, names, a, d, n);
    }
    IndicesAreDistinct(a.tables, d, s + c);
    assert s !! c;
  }

  lemma IndicesAreDistinct(t: Tables, d: Digest, claimants: set<string>)
    requires Bijective(t)
    requires forall n | n in claimants :: n in t.outbound && IsCandidate(d, t.outbound[n])
    ensures |claimants| <= CAPACITY
  {
    var indices := map n | n in claimants :: IndexOf(d, t.outbound[n]);
    forall m, n | m in indices && n in indices && indices[m] == indices[n]
      ensures m == n
    {
      assert t.inbound[t.outbound[m]] == m && t.inbound[t.outbound[n]] == n;
    }
    InjectionCard(indices, Below(CAPACITY));
    assert indices.Keys == claimants;
  }

  /**
   * Construction succeeds exactly when, for every digest, the names that need an alias under it and
   * the canonical names shaped like one are together at most the 36^10 + 1 names it can spell.
   */
  lemma ConstructSucceedsIff(hash: Hash, names: seq<string>)
    ensures Construct(hash, names).Some? <==> DemandFits(hash, Names(names))
  {
    var sorted := Canonical(names);
    CanonicalSorted(names);
    if DemandFits(hash, Names(names)) {
      AllocatedWhenDemandFits(hash, sorted, |sorted|);
    }
    if Construct(hash, names).Some? {
      forall d: Digest
        ensures Demand(hash, Names(names), d) <= CAPACITY
      {
        DemandFitsWhenAllocated(hash, sorted, d);
      }
    }
  }

  /** Whatever the hash, collisions included, up to 36^10 + 1 distinct names never make it throw. */
  lemma NeverThrows(hash: Hash, names: seq<string>)
    requires |Names(names)| <= CAPACITY
    ensures Construct(hash, names).Some?
  {
    forall d: Digest
      ensures Demand(hash, Names(names), d) <= CAPACITY
    {
      DemandBound(hash, Names(names), d);
    }
    ConstructSucceedsIff(hash, names);
  }

  /** The first `n` names that hold a space: pairwise distinct, none compliant. */
  function Spaced(n: nat): seq<string> {
    if n == 0 then [] else Spaced(n - 1) + [" " + Base36(n - 1)]
  }

  ghost predicate IsSpaced(s: string, n: nat) {
    exists i: nat :: i < n && s == " " + Base36(i)
  }

  lemma {:induction false} SpacedNames(n: nat)
    ensures |Names(Spaced(n))| == n
    ensures forall s | s in Names(Spaced(n)) :: IsSpaced(s, n) && !Compliant(s)
  {
    if n > 0 {
      SpacedNames(n - 1);
      var last := " " + Base36(n - 1);
      assert last[0] == ' ' && IsSpaced(last, n);
      forall s | s in Names(Spaced(n - 1))
        ensures IsSpaced(s, n) && s != last
      {
        var i: nat :| i < n - 1 && s == " " + Base36(i);
        if s == last {
          assert s[1..] == Base36(i) && last[1..] == Base36(n - 1);
          Base36Injective(i, n - 1);
        }
      }
      assert Names(Spaced(n)) == Names(Spaced(n - 1)) + {last};
    }
  }

  /** The bound is sharp: for every larger size there are names and a hash on which it throws. */
  lemma CapacityIsSharp(n: nat, d: Digest)
    requires n > CAPACITY
    ensures |Names(Spaced(n))| == n && Construct(_ => d, Spaced(n)).None?
  {
    SpacedNames(n);
    var hash: Hash := _ => d;
    assert Colliding(hash, Names(Spaced(n)), d) == Names(Spaced(n));
    assert Demand(hash, Names(Spaced(n)), d) > CAPACITY;
    ConstructSucceedsIff(hash, Spaced(n));
  }

  // ---------------------------------------------------------------------------------------------
  // What the maps hold

  /** The maps built from `names` satisfy the loop invariant for all of them. */
  lemma ConstructOk(hash: Hash, names: seq<string>)
    requires Construct(hash, names).Some?
    ensures var t := Construct(hash, names).value; var sorted := Canonical(names);
            (&& StrictlySorted(sorted) && Names(sorted) == Names(names)
             && Allocated(hash, sorted, |sorted|).Some?
             && AllocOk(hash, sorted, |sorted|, Allocated(hash, sorted, |sorted|).value)
             && t == Allocated(hash, sorted, |sorted|).value.tables
             && t.outbound.Keys == Names(names))
  {
    var sorted := Canonical(names);
    CanonicalSorted(names);
    AllocatedOk(hash, sorted, |sorted|);
    assert sorted[..|sorted|] == sorted;
  }

  /**
   * Every name has a wire name that fits the pattern, compliant names keep theirs, distinct names
   * get distinct wire names, and an alias is never some other canonical name.
   */
  lemma WireNamesAreUnique(hash: Hash, names: seq<string>)
    requires Construct(hash, names).Some?
    ensures var t := Construct(hash, names).value;
            (&& t.outbound.Keys == Names(names) && t.inbound.Keys == t.outbound.Values
             && (forall n | n in t.outbound :: Compliant(t.outbound[n]) && (Compliant(n) ==> t.outbound[n] == n))
             && (forall m, n | m in t.outbound && n in t.outbound && t.outbound[m] == t.outbound[n] :: m == n)
             && (forall n | n in t.outbound && t.outbound[n] in Names(names) :: t.outbound[n] == n))
  {
    ConstructOk(hash, names);
    var t := Construct(hash, names).value;
    forall n | n in t.outbound
      ensures Compliant(t.outbound[n]) && (t.outbound[n] in Names(names) ==> t.outbound[n] == n)
    {
      assert GoodWire(hash, Names(names), n, t.outbound[n]);
      if !Compliant(n) {
        CandidateCompliant(hash(n), IndexOf(hash(n), t.outbound[n]));
      }
    }
    forall m, n | m in t.outbound && n in t.outbound && t.outbound[m] == t.outbound[n]
      ensures m == n
    {
      assert t.inbound[t.outbound[m]] == m && t.inbound[t.outbound[n]] == n;
    }
  }

  /** Order and repetition of the input do not matter: the maps are a function of the set of names. */
  lemma SetDeterminesMaps(hash: Hash, names: seq<string>, others: seq<string>)
    requires Names(names) == Names(others)
    ensures Construct(hash, names) == Construct(hash, others)
  {
    CanonicalSorted(names);
    CanonicalSorted(others);
    SortedUnique(Canonical(names), Canonical(others));
  }

  // ---------------------------------------------------------------------------------------------
  // Which alias a name gets

  ghost function FreeBelow(names: set<string>, d: Digest, i: nat): set<nat> {
    set j | j in Below(i) && Candidate(d, j) !in names
  }

  ghost function Smaller(names: set<string>, n: string): set<string> {
    set m | m in names && Less(m, n)
  }

  /** `i` is the position, among the candidates that are no canonical names, of `n` among its collisions. */
  ghost predicate IsRankOf(hash: Hash, names: set<string>, n: string, i: nat) {
    && Candidate(hash(n), i) !in names
    && |FreeBelow(names, hash(n), i)| == |Smaller(Colliding(hash, names, hash(n)), n)|
  }

  /** Smaller colliding names hold smaller free candidates. */
  lemma RivalsHoldFree(hash: Hash, names: seq<string>, a: Alloc, n: string)
    requires StrictlySorted(names) && AllocOk(hash, names, |names|, a) && HasAlias(hash, a.tables, n)
    ensures |Smaller(Colliding(hash, Names(names), hash(n)), n)|
         <= |FreeBelow(Names(names), hash(n), AliasIndex(hash, a.tables, n))|
  {
    var t, d := a.tables, hash(n);
    var rivals := Smaller(Colliding(hash, Names(names), d), n);
    assert names[..|names|] == names;
    forall m | m in rivals
      ensures HasAlias(hash, t, m) && AliasIndex(hash, t, m) in FreeBelow(Names(names), d, AliasIndex(hash, t, n))
    {
      assert GoodWire(hash, Names(names), m, t.outbound[m]);
    }
    var down := map m | m in rivals :: AliasIndex(hash, t, m);
    forall m, l | m in down && l in down && down[m] == down[l]
      ensures m == l
    {
      assert t.inbound[t.outbound[m]] == m && t.inbound[t.outbound[l]] == l;
    }
    assert down.Keys == rivals;
    InjectionCard(down, FreeBelow(Names(names), d, AliasIndex(hash, t, n)));
  }

  /** A free candidate below an alias is held by a smaller colliding name. */
  lemma FreeOwner(hash: Hash, names: seq<string>, a: Alloc, n: string, j: nat)
    requires StrictlySorted(names) && AllocOk(hash, names, |names|, a) && HasAlias(hash, a.tables, n)
    requires j in FreeBelow(Names(names), hash(n), AliasIndex(hash, a.tables, n))
    ensures Candidate(hash(n), j) in a.occupied
    ensures var o := Owner(names, a, Candidate(hash(n), j));
            o in Smaller(Colliding(hash, Names(names), hash(n)), n) && a.tables.outbound[o] == Candidate(hash(n), j)
  {
    var d := hash(n);
    assert names[..|names|] == names;
    assert PrefixTaken(a.occupied, d, AliasIndex(hash, a.tables, n));
    OwnerIs(hash, names, |names|, a, d, j);
    var o := Owner(names, a, Candidate(d, j));
    assert GoodWire(hash, Names(names), o, a.tables.outbound[o]);
    assert HasAlias(hash, a.tables, o);
    CandidateInjective(d, j, d, AliasIndex(hash, a.tables, o));
    LessTotal(o, n);
  }

  lemma FreeAreHeld(hash: Hash, names: seq<string>, a: Alloc, n: string)
    requires StrictlySorted(names) && AllocOk(hash, names, |names|, a) && HasAlias(hash, a.tables, n)
    ensures |FreeBelow(Names(names), hash(n), AliasIndex(hash, a.tables, n))|
         <= |Smaller(Colliding(hash, Names(names), hash(n)), n)|
  {
    var d := hash(n);
    var free := FreeBelow(Names(names), d, AliasIndex(hash, a.tables, n));
    var rivals := Smaller(Colliding(hash, Names(names), d), n);
    forall j | j in free
      ensures Candidate(d, j) in a.occupied && Owner(names, a, Candidate(d, j)) in rivals
    {
      FreeOwner(hash, names, a, n, j);
    }
    var up := map j | j in free :: Owner(names, a, Candidate(d, j));
    forall j, l | j in up && l in up && up[j] == up[l]
      ensures j == l
    {
      FreeOwner(hash, names, a, n, j);
      FreeOwner(hash, names, a, n, l);
      CandidateInjective(d, j, d, l);
    }
    assert up.Keys == free;
    InjectionCard(up, rivals);
  }

  lemma AliasIsRank(hash: Hash, names: seq<string>, n: string)
    requires Construct(hash, names).Some? && n in Names(names) && !Compliant(n)
    ensures HasAlias(hash, Construct(hash, names).value, n)
    ensures IsRankOf(hash, Names(names), n, AliasIndex(hash, Construct(hash, names).value, n))
  {
    ConstructOk(hash, names);
    var sorted := Canonical(names);
    var a := Allocated(hash, sorted, |sorted|).value;
    assert GoodWire(hash, Names(sorted), n, a.tables.outbound[n]);
    RivalsHoldFree(hash, sorted, a, n);
    FreeAreHeld(hash, sorted, a, n);
  }

  lemma RankIsUnique(hash: Hash, names: set<string>, n: string, i: nat, j: nat)
    requires IsRankOf(hash, names, n, i) && IsRankOf(hash, names, n, j)
    ensures i == j
  {
    if i != j {
      var (lo, hi) := if i < j then (i, j) else (j, i);
      SubsetCard(FreeBelow(names, hash(n), lo) + {lo}, FreeBelow(names, hash(n), hi));
    }
  }

  /**
   * Closed form of the whole allocation: a name keeps its spelling if it is compliant, and otherwise
   * travels as the r-th candidate of its digest that is no canonical name, where r counts the
   * smaller names with the same digest.
   */
  lemma WireNameClosedForm(hash: Hash, names: seq<string>, n: string, w: string)
    requires Construct(hash, names).Some? && n in Names(names)
    ensures Construct(hash, names).value.outbound.Keys == Names(names)
    ensures Construct(hash, names).value.outbound[n] == w
       <==> if Compliant(n) then w == n
            else exists i: nat :: IsRankOf(hash, Names(names), n, i) && w == Candidate(hash(n), i)
  {
    WireNamesAreUnique(hash, names);
    if !Compliant(n) {
      AliasIsRank(hash, names, n);
      var i := AliasIndex(hash, Construct(hash, names).value, n);
      forall j: nat | IsRankOf(hash, Names(names), n, j)
        ensures i == j
      {
        RankIsUnique(hash, Names(names), n, i, j);
      }
    }
  }

  /**
   * An alias is stable: two inventories that agree on a name's digest class, the names that need an
   * alias under that digest and the canonical names shaped like one, give it the same wire name.
   */
  lemma AliasIsStable(hash: Hash, names: seq<string>, others: seq<string>, n: string)
    requires Construct(hash, names).Some? && Construct(hash, others).Some?
    requires n in Names(names) && n in Names(others)
    requires Colliding(hash, Names(names), hash(n)) == Colliding(hash, Names(others), hash(n))
    requires forall i: nat :: Candidate(hash(n), i) in Names(names) <==> Candidate(hash(n), i) in Names(others)
    ensures n in Construct(hash, names).value.outbound && n in Construct(hash, others).value.outbound
    ensures Construct(hash, names).value.outbound[n] == Construct(hash, others).value.outbound[n]
  {
    var w := Construct(hash, names).value.outbound;
    WireNamesAreUnique(hash, names);
    WireNameClosedForm(hash, names, n, w[n]);
    WireNameClosedForm(hash, others, n, w[n]);
    if !Compliant(n) {
      var i: nat :| IsRankOf(hash, Names(names), n, i) && w[n] == Candidate(hash(n), i);
      assert FreeBelow(Names(names), hash(n), i) == FreeBelow(Names(others), hash(n), i);
      assert IsRankOf(hash, Names(others), n, i);
    }
  }

  // ---------------------------------------------------------------------------------------------
  // The round trip

  /** A name survives the trip out and back, and so does a provider's echo of the canonical name. */
  lemma RoundTrip(hash: Hash, names: seq<string>, n: string)
    requires Construct(hash, names).Some? && n in Names(names)
    ensures var t := Construct(hash, names).value;
            (&& ToWire(t, n).Some?
             && FromWire(t, ToWire(t, n).value) == Some(n)
             && FromWire(t, n) == Some(n))
  {
    ConstructOk(hash, names);
    WireNamesAreUnique(hash, names);
    var t := Construct(hash, names).value;
    if n in t.inbound {
      assert t.outbound[t.inbound[n]] == n;
    }
  }

  /**
   * What `fromWire` answers, exactly: a registered name for its wire name and for itself, and an
   * unregistered name, if it is safe and no alias, for itself. Nothing else is ever inferred.
   */
  lemma FromWireIff(hash: Hash, names: seq<string>, x: string, y: string)
    requires Construct(hash, names).Some?
    ensures var t := Construct(hash, names).value;
            (FromWire(t, x) == Some(y)
             <==> (|| (y in Names(names) && (x == y || ToWire(t, y) == Some(x)))
                   || (x == y && x !in Names(names) && x !in t.outbound.Values
                       && Compliant(x) && !(ALIAS_PREFIX <= x))))
  {
    ConstructOk(hash, names);
    WireNamesAreUnique(hash, names);
    var t := Construct(hash, names).value;
    if x in t.inbound {
      RoundTrip(hash, names, t.inbound[x]);
    }
    if x in Names(names) {
      RoundTrip(hash, names, x);
    }
    if y in Names(names) {
      RoundTrip(hash, names, y);
    }
  }

  /**
   * `fromWire` never leads astray: what it returns is a registered name or the very name it was
   * asked for, and asking again changes nothing. It is undefined exactly for unregistered names
   * that are unsafe or look like an alias.
   */
  lemma FromWireIsIdempotent(hash: Hash, names: seq<string>, x: string)
    requires Construct(hash, names).Some?
    ensures var t := Construct(hash, names).value;
            (&& (FromWire(t, x).Some? ==> FromWire(t, FromWire(t, x).value) == FromWire(t, x))
             && (FromWire(t, x).Some? ==> FromWire(t, x).value in Names(names) || FromWire(t, x).value == x)
             && (FromWire(t, x).None? <==>
                   && x !in Names(names) && x !in t.outbound.Values
                   && (!Compliant(x) || ALIAS_PREFIX <= x)))
  {
    ConstructOk(hash, names);
    WireNamesAreUnique(hash, names);
    var t := Construct(hash, names).value;
    if x in t.inbound {
      RoundTrip(hash, names, t.inbound[x]);
    } else if x in t.outbound {
      RoundTrip(hash, names, x);
    }
  }
}
