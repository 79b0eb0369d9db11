/** Small shared types: the JavaScript `undefined`/value split, thrown errors, and clocks. */
module Prelude {
  datatype Option<+T> = None | Some(value: T) {
    function GetOr(fallback: T): T {
      if Some? then value else fallback
    }
  }

  datatype Result<+T, +E> = Ok(value: T) | Err(error: E)

  /** A clock reading in milliseconds; `performance.now()` readings are fractional. */
  type Millis = real

  /** An optional `number` argument that is meant to be an instant: absent, NaN or infinite, or finite. */
  datatype Stamp = Absent | NonFinite | At(ms: Millis)

  function Min(a: Millis, b: Millis): Millis {
    if a <= b then a else b
  }

  lemma SubsetCard<T>(a: set<T>, b: set<T>)
    requires a <= b
    ensures |a| <= |b|
  {
    assert b == a + (b - a);
  }

  /** An injective map into a set has at most as many keys as the set has members. */
  lemma {:induction false} InjectionCard<K, V>(m: map<K, V>, target: set<V>)
    requires forall k | k in m :: m[k] in target
    requires forall k, l | k in m && l in m && m[k] == m[l] :: k == l
    ensures |m| <= |target|
    decreases |m|
  {
    if m != map[] {
      var k :| k in m;
      var rest := m - {k};
      assert rest.Keys == m.Keys - {k};
      InjectionCard(rest, target - {m[k]});
    }
  }
}
