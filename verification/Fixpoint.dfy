/** "Retry until nothing changes": the reference both the deferral index of psync and the
    eager path of the semantic order are compared with. */
module Fixpoint {
  import opened Basics
  import opened Causality

  /** Each envelope of `order` is from the pool and has its predecessors in the base or
      earlier in `order`. */
  ghost predicate Derivation(ms: seq<ReplicaId>, pool: set<Envelope>, base: set<Key>, order: seq<Envelope>) {
    forall i :: 0 <= i < |order| ==> order[i] in pool && Parents(ms, order[i]) <= base + Keys(ms, order[..i])
  }

  /** Nothing in the pool is ready and missing. */
  ghost predicate Saturated(ms: seq<ReplicaId>, pool: set<Envelope>, done: set<Key>) {
    forall e :: e in pool && Parents(ms, e) <= done ==> KeyOf(ms, e) in done
  }

  /** Take any ready envelope whose key is not done; repeat until there is none. */
  ghost function Retry(ms: seq<ReplicaId>, pool: set<Envelope>, done: set<Key>): (r: set<Key>)
    ensures done <= r && Saturated(ms, pool, r)
    decreases pool
  {
    if exists e :: e in pool && KeyOf(ms, e) !in done && Parents(ms, e) <= done then
      var e :| e in pool && KeyOf(ms, e) !in done && Parents(ms, e) <= done;
      var r := Retry(ms, pool - {e}, done + {KeyOf(ms, e)});
      assert forall x :: x in pool ==> x == e || x in pool - {e};
      r
    else done
  }

  /** The result is below every saturated set, whatever was picked. */
  lemma {:induction false} RetryIsLeast(ms: seq<ReplicaId>, pool: set<Envelope>, done: set<Key>, bound: set<Key>)
    requires done <= bound && Saturated(ms, pool, bound)
    ensures Retry(ms, pool, done) <= bound
    decreases pool
  {
    if exists e :: e in pool && KeyOf(ms, e) !in done && Parents(ms, e) <= done {
      var e :| e in pool && KeyOf(ms, e) !in done && Parents(ms, e) <= done
        && Retry(ms, pool, done) == Retry(ms, pool - {e}, done + {KeyOf(ms, e)});
      RetryIsLeast(ms, pool - {e}, done + {KeyOf(ms, e)}, bound);
    }
  }

  lemma {:induction false} DerivationIsBelow(ms: seq<ReplicaId>, pool: set<Envelope>, base: set<Key>,
                                             order: seq<Envelope>, bound: set<Key>)
    requires Derivation(ms, pool, base, order) && base <= bound && Saturated(ms, pool, bound)
    ensures Keys(ms, order) <= bound
  {
    if order != [] {
      var n := |order| - 1;
      forall i | 0 <= i < n
        ensures order[..n][i] in pool && Parents(ms, order[..n][i]) <= base + Keys(ms, order[..n][..i])
      {
        assert order[..n][..i] == order[..i];
      }
      DerivationIsBelow(ms, pool, base, order[..n], bound);
      assert Parents(ms, order[n]) <= base + Keys(ms, order[..n]);
      assert order == order[..n] + [order[n]];
    }
  }

  /** Confluence: any derivation that ends saturated ends where retrying ends, so the
      outcome does not depend on the order in which envelopes were tried. */
  lemma DerivationIsRetry(ms: seq<ReplicaId>, pool: set<Envelope>, base: set<Key>, order: seq<Envelope>)
    requires Derivation(ms, pool, base, order)
    requires Saturated(ms, pool, base + Keys(ms, order))
    ensures base + Keys(ms, order) == Retry(ms, pool, base)
  {
    RetryIsLeast(ms, pool, base, base + Keys(ms, order));
    DerivationIsBelow(ms, pool, base, order, Retry(ms, pool, base));
  }
}
