/** How candidates are spelled: injective suffixes, their lengths, and the order of names. */
module ToolNameSpelling {
  import opened ToolNames

  function Pow36(k: nat): nat {
    if k == 0 then 1 else 36 * Pow36(k - 1)
  }

  /** Candidates 0 .. 36^10 fit the 64-character pattern; there are `CAPACITY` of them for one digest. */
  const LAST_CANDIDATE: nat := Pow36(10)
  const CAPACITY: nat := Pow36(10) + 1

  lemma {:induction false} Base36Injective(m: nat, n: nat)
    requires Base36(m) == Base36(n)
    ensures m == n
    decreases m
  {
    var s := Base36(m);
    if m < 36 && n < 36 {
      assert [Digit36(m)] == [Digit36(n)];
    } else if m >= 36 && n >= 36 {
      assert Base36(m / 36) == s[..|s| - 1] == Base36(n / 36);
      assert Digit36(m % 36) == s[|s| - 1] == Digit36(n % 36);
      Base36Injective(m / 36, n / 36);
    } else {
      assert false;
    }
  }

  /** The value of a base-36 digit: 0 to 9, then a to z. */
  function DigitValue(c: char): int {
    if '0' <= c <= '9' then c as int - '0' as int else c as int - 'a' as int + 10
  }

  function Value36(s: string): int {
    if s == "" then 0 else 36 * Value36(s[..|s| - 1]) + DigitValue(s[|s| - 1])
  }

  /** A suffix reads back, digit by digit, as its number, and has no leading zero. */
  lemma {:induction false} Base36Reads(n: nat)
    ensures Value36(Base36(n)) == n
    ensures forall i | 0 <= i < |Base36(n)| :: '0' <= Base36(n)[i] <= '9' || 'a' <= Base36(n)[i] <= 'z'
    ensures Base36(n)[0] == '0' ==> n == 0
    decreases n
  {
    var s := Base36(n);
    if n >= 36 {
      Base36Reads(n / 36);
      assert s[..|s| - 1] == Base36(n / 36) && s[|s| - 1] == Digit36(n % 36);
    } else {
      assert s[..0] == "" && s[0] == Digit36(n);
    }
  }

  lemma {:induction false} Base36Length(n: nat, k: nat)
    requires k >= 1
    ensures |Base36(n)| <= k <==> n < Pow36(k)
    ensures forall i | 0 <= i < |Base36(n)| :: IsWireChar(Base36(n)[i])
    decreases n
  {
    if n < 36 {
      Pow36AtLeast(k);
    } else if k == 1 {
      Base36Length(n / 36, 1);
      assert Pow36(1) == 36 * Pow36(0);
    } else {
      Base36Length(n / 36, k - 1);
      assert n / 36 < Pow36(k - 1) <==> n < 36 * Pow36(k - 1);
    }
  }

  lemma {:induction false} Pow36AtLeast(k: nat)
    requires k >= 1
    ensures Pow36(k) >= 36
  {
    if k > 1 {
      Pow36AtLeast(k - 1);
    } else {
      assert Pow36(0) == 1;
    }
  }

  /** A candidate fits the pattern exactly up to the suffix 36^10 - 1. */
  lemma CandidateCompliant(d: Digest, i: nat)
    ensures Compliant(Candidate(d, i)) <==> i <= LAST_CANDIDATE
    ensures ALIAS_PREFIX <= Candidate(d, i)
  {
    if i > 0 {
      Base36Length(i - 1, 10);
    }
  }

  /** A compliant name is one to sixty-four ASCII letters, digits, underscores and hyphens. */
  lemma CompliantIff(name: string)
    ensures Compliant(name)
       <==> (&& 1 <= |name| <= 64
             && forall i | 0 <= i < |name| :: var code := name[i] as int;
                  65 <= code <= 90 || 97 <= code <= 122 || 48 <= code <= 57 || code == 95 || code == 45)
  {
  }

  /** An alias is the prefix and the digest, with a numeral behind an underscore if it is not the first. */
  lemma AliasSpelling(d: Digest, i: nat)
    ensures |Candidate(d, i)| >= 53 && Candidate(d, i)[..53] == "__codex_tool_" + d
    ensures if i == 0 then |Candidate(d, i)| == 53
            else |Candidate(d, i)| > 54 && Candidate(d, i)[53] == '_' && Value36(Candidate(d, i)[54..]) == i - 1
  {
    if i > 0 {
      Base36Reads(i - 1);
      assert Candidate(d, i)[54..] == Base36(i - 1);
    }
  }

  lemma CandidateInjective(d: Digest, i: nat, e: Digest, j: nat)
    requires Candidate(d, i) == Candidate(e, j)
    ensures d == e && i == j
  {
    var c := Candidate(d, i);
    assert c[13..53] == d && c[13..53] == e;
    if i > 0 && j > 0 {
      assert c[54..] == Base36(i - 1) && c[54..] == Base36(j - 1);
      Base36Injective(i - 1, j - 1);
    }
  }

  // ---------------------------------------------------------------------------------------------
  // The order of names

  /** `a` comes before `b`: at their first difference it has the smaller character, or it ends there. */
  ghost predicate Precedes(a: string, b: string, k: nat) {
    && k <= |a| && k < |b| && a[..k] == b[..k] && (k == |a| || a[k] < b[k])
  }

  lemma HeadsAgree(a: string, b: string, k: nat)
    requires Precedes(a, b, k) && k > 0
    ensures a[0] == b[0]
  {
    assert a[..k][0] == b[..k][0];
  }

  /** Names are sorted lexicographically, ascending. */
  lemma {:induction false} LessIsLexicographic(a: string, b: string)
    ensures Less(a, b) <==> exists k: nat :: Precedes(a, b, k)
  {
    if a == [] && b != [] {
      assert Precedes(a, b, 0);
    } else if b != [] && a[0] < b[0] {
      assert Precedes(a, b, 0);
    } else if b != [] && a[0] == b[0] {
      LessIsLexicographic(a[1..], b[1..]);
      if k: nat :| Precedes(a[1..], b[1..], k) {
        assert a[..k + 1] == [a[0]] + a[1..][..k] && b[..k + 1] == [b[0]] + b[1..][..k];
        assert Precedes(a, b, k + 1);
      }
      if k: nat :| Precedes(a, b, k) {
        assert a[1..][..k - 1] == a[..k][1..] && b[1..][..k - 1] == b[..k][1..];
        assert Precedes(a[1..], b[1..], k - 1);
      }
    } else if b != [] {
      if k: nat :| Precedes(a, b, k) && k > 0 {
        HeadsAgree(a, b, k);
      }
    }
  }

  lemma {:induction false} LessTotal(a: string, b: string)
    ensures a == b || Less(a, b) || Less(b, a)
    ensures !(Less(a, b) && Less(b, a)) && !Less(a, a)
  {
    if a != [] && b != [] {
      if a[0] == b[0] {
        LessTotal(a[1..], b[1..]);
        assert a == [a[0]] + a[1..] && b == [b[0]] + b[1..];
      }
      LessTotal(a[1..], a[1..]);
    } else if a != [] {
      LessTotal(a[1..], a[1..]);
    }
  }

  lemma {:induction false} LessTransitive(a: string, b: string, c: string)
    requires Less(a, b) && Less(b, c)
    ensures Less(a, c)
  {
    if a != [] && a[0] == b[0] && b[0] == c[0] {
      LessTransitive(a[1..], b[1..], c[1..]);
    }
  }

  lemma {:induction false} InsertNames(x: string, s: seq<string>)
    ensures forall n :: n in Insert(x, s) <==> n in s || n == x
  {
    if s != [] {
      InsertNames(x, s[1..]);
      assert s == [s[0]] + s[1..];
    }
  }

  lemma SortedCons(x: string, s: seq<string>)
    requires StrictlySorted(s) && (s != [] ==> Less(x, s[0]))
    ensures StrictlySorted([x] + s)
  {
    forall j | 0 <= j < |s|
      ensures Less(x, s[j])
    {
      if j > 0 {
        LessTransitive(x, s[0], s[j]);
      }
    }
  }

  lemma {:induction false} InsertSorted(x: string, s: seq<string>)
    requires StrictlySorted(s)
    ensures StrictlySorted(Insert(x, s))
    ensures s != [] && Less(s[0], x) ==> Insert(x, s)[0] == s[0]
  {
    if s != [] {
      LessTotal(x, s[0]);
      if Less(x, s[0]) {
        SortedCons(x, s);
      } else if x != s[0] {
        InsertSorted(x, s[1..]);
        SortedCons(s[0], Insert(x, s[1..]));
      }
    }
  }

  lemma {:induction false} CanonicalSorted(names: seq<string>)
    ensures StrictlySorted(Canonical(names)) && Names(Canonical(names)) == Names(names)
  {
    if names != [] {
      CanonicalSorted(names[1..]);
      InsertSorted(names[0], Canonical(names[1..]));
      InsertNames(names[0], Canonical(names[1..]));
      assert names == [names[0]] + names[1..];
      forall n
        ensures n in Names(Canonical(names)) <==> n in Names(names)
      {
        assert n in Names(Canonical(names[1..])) <==> n in Names(names[1..]);
      }
    }
  }

  /** A set of names has only one strictly sorted listing. */
  lemma {:induction false} SortedUnique(a: seq<string>, b: seq<string>)
    requires StrictlySorted(a) && StrictlySorted(b) && Names(a) == Names(b)
    ensures a == b
  {
    assert a == [] <==> b == [] by {
      assert (a != [] ==> a[0] in Names(b)) && (b != [] ==> b[0] in Names(a));
    }
    if a != [] {
      assert a[0] in Names(b);
      var i :| 0 <= i < |b| && b[i] == a[0];
      assert b[0] in Names(a);
      var j :| 0 <= j < |a| && a[j] == b[0];
      LessTotal(a[0], b[0]);
      assert a[0] == b[0];
      forall n
        ensures n in Names(a[1..]) <==> n in Names(a) && n != a[0]
        ensures n in Names(b[1..]) <==> n in Names(b) && n != b[0]
      {
        TailNames(a, n);
        TailNames(b, n);
      }
      SortedUnique(a[1..], b[1..]);
      assert a == [a[0]] + a[1..] && b == [b[0]] + b[1..];
    }
  }

  lemma TailNames(s: seq<string>, n: string)
    requires s != [] && StrictlySorted(s)
    ensures n in s[1..] <==> n in s && n != s[0]
  {
    LessTotal(n, n);
    if n in s[1..] {
      var i :| 0 <= i < |s[1..]| && s[1..][i] == n;
      assert s[i + 1] == n && Less(s[0], s[i + 1]);
    }
    if n in s && n != s[0] {
      var i :| 0 <= i < |s| && s[i] == n;
      assert s[1..][i - 1] == n;
    }
  }
}
