/**
 * Transport names for tools: compliant canonical names travel unchanged, the others under a
 * unique alias built from a digest and, on a clash, a base-36 suffix.
 */
module ToolNames {
  import opened Prelude

  predicate IsWireChar(c: char) {
    'A' <= c <= 'Z' || 'a' <= c <= 'z' || '0' <= c <= '9' || c == '_' || c == '-'
  }

  /** The pattern `[A-Za-z0-9_-]{1,64}`. */
  predicate Compliant(name: string) {
    1 <= |name| <= 64 && forall i | 0 <= i < |name| :: IsWireChar(name[i])
  }

  predicate IsHex(c: char) {
    '0' <= c <= '9' || 'a' <= c <= 'f'
  }

  /** The first forty hex digits of a name's hash. Which digits is up to the hash, an arbitrary function. */
  type Digest = s: string | |s| == 40 && forall i | 0 <= i < |s| :: IsHex(s[i])
    witness seq(40, _ => '0')

  type Hash = string -> Digest

  const ALIAS_PREFIX: string := "__codex_tool_"

  function Digit36(d: nat): char
    requires d < 36
  {
    if d < 10 then ('0' as int + d) as char else ('a' as int + (d - 10)) as char
  }

  /** `n.toString(36)`. */
  function Base36(n: nat): (s: string)
    ensures |s| >= 1
  {
    if n < 36 then [Digit36(n)] else Base36(n / 36) + [Digit36(n % 36)]
  }

  /** The i-th name tried for a digest: the bare alias, then `_0`, `_1`, ... */
  function Candidate(d: Digest, i: nat): string {
    ALIAS_PREFIX + d + if i == 0 then "" else "_" + Base36(i - 1)
  }

  datatype Tables = Tables(outbound: map<string, string>, inbound: map<string, string>)

  /** The allocation state of the constructor's loop. */
  datatype Alloc = Alloc(occupied: set<string>, tables: Tables)

  // ---------------------------------------------------------------------------------------------
  // Deduplication and sorting

  predicate Less(a: string, b: string) {
    b != [] && (a == [] || a[0] < b[0] || (a[0] == b[0] && Less(a[1..], b[1..])))
  }

  ghost predicate StrictlySorted(s: seq<string>) {
    forall i, j | 0 <= i < j < |s| :: Less(s[i], s[j])
  }

  function Insert(x: string, s: seq<string>): seq<string> {
    if s == [] then [x]
    else if x == s[0] then s
    else if Less(x, s[0]) then [x] + s
    else [s[0]] + Insert(x, s[1..])
  }

  /** `[...new Set(names)].sort()`. */
  function Canonical(names: seq<string>): seq<string> {
    if names == [] then [] else Insert(names[0], Canonical(names[1..]))
  }

  ghost function Names(names: seq<string>): set<string> {
    set n | n in names
  }

  // ---------------------------------------------------------------------------------------------
  // The constructor

  function CompliantOf(names: seq<string>): set<string> {
    set n | n in names && Compliant(n)
  }

  /** The suffix loop: the first free candidate, or the last one tried when all are occupied. */
  function Probe(occupied: set<string>, d: Digest, i: nat, limit: nat): nat
    decreases limit - i
  {
    if Candidate(d, i) in occupied && i < limit then Probe(occupied, d, i + 1, limit) else i
  }

  function Wire(hash: Hash, name: string, occupied: set<string>, limit: nat): string {
    if Compliant(name) then name else Candidate(hash(name), Probe(occupied, hash(name), 0, limit))
  }

  predicate Refused(name: string, wire: string, occupied: set<string>) {
    !Compliant(name) && (wire in occupied || !Compliant(wire))
  }

  /** One round of the constructor's loop; `None` is its error. */
  function Allocate(hash: Hash, a: Alloc, name: string, limit: nat): Option<Alloc> {
    var wire := Wire(hash, name, a.occupied, limit);
    if Refused(name, wire, a.occupied) then None
    else Some(Alloc(a.occupied + {wire}, Tables(a.tables.outbound[name := wire], a.tables.inbound[wire := name])))
  }

  /** The state after the first `k` of the sorted names, or `None` once one could not be allocated. */
  function Allocated(hash: Hash, names: seq<string>, k: nat): Option<Alloc>
    requires k <= |names|
  {
    if k == 0 then
      Some(Alloc(CompliantOf(names), Tables(map[], map[])))
    else
      var before := Allocated(hash, names, k - 1);
      if before.None? then None else Allocate(hash, before.value, names[k - 1], |names|)
  }

  /** The maps that the constructor builds; `None` is its error. */
  function Construct(hash: Hash, names: seq<string>): Option<Tables> {
    var sorted := Canonical(names);
    match Allocated(hash, sorted, |sorted|)
    case None => None
    case Some(a) => Some(a.tables)
  }

  method Build(hash: Hash, names: seq<string>) returns (r: Option<Tables>)
    ensures r == Construct(hash, names)
  {
    var sorted := Canonical(names);
    r := BuildSorted(hash, sorted);
  }

  method BuildSorted(hash: Hash, sorted: seq<string>) returns (r: Option<Tables>)
    ensures var a := Allocated(hash, sorted, |sorted|); r == if a.None? then None else Some(a.value.tables)
  {
    var occupied := CompliantOf(sorted);
    var outbound: map<string, string>, inbound: map<string, string> := map[], map[];
    for k := 0 to |sorted|
      invariant Allocated(hash, sorted, k) == Some(Alloc(occupied, Tables(outbound, inbound)))
    {
      var name := sorted[k];
      var wire := name;
      if !Compliant(name) {
        wire := FindFree(occupied, hash(name), |sorted|);
        if wire in occupied || !Compliant(wire) {
          RefusedForGood(hash, sorted, k + 1, |sorted|);
          return None;
        }
      }
      occupied := occupied + {wire};
      outbound := outbound[name := wire];
      inbound := inbound[wire := name];
    }
    return Some(Tables(outbound, inbound));
  }

  /** The suffix loop. */
  method FindFree(occupied: set<string>, d: Digest, limit: nat) returns (wire: string)
    ensures wire == Candidate(d, Probe(occupied, d, 0, limit))
  {
    var suffix := 0;
    wire := Candidate(d, 0);
    while wire in occupied && suffix < limit
      invariant 0 <= suffix <= limit && wire == Candidate(d, suffix)
      invariant Probe(occupied, d, 0, limit) == Probe(occupied, d, suffix, limit)
      decreases limit - suffix
    {
      suffix := suffix + 1;
      wire := Candidate(d, suffix);
    }
  }

  lemma {:induction false} RefusedForGood(hash: Hash, names: seq<string>, k: nat, n: nat)
    requires k <= n <= |names| && Allocated(hash, names, k) == None
    ensures Allocated(hash, names, n) == None
    decreases n
  {
    if k < n {
      RefusedForGood(hash, names, k, n - 1);
    }
  }

  // ---------------------------------------------------------------------------------------------
  // The lookups

  function ToWire(t: Tables, name: string): Option<string> {
    if name in t.outbound then Some(t.outbound[name]) else None
  }

  function FromWire(t: Tables, name: string): Option<string> {
    if name in t.inbound then Some(t.inbound[name])
    else if name in t.outbound then Some(name)
    else if Compliant(name) && !(ALIAS_PREFIX <= name) then Some(name)
    else None
  }
}
