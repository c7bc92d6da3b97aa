/** Eager execution of commutative operations on values: what an order of application
    must satisfy, and why the executed set does not depend on it (order/semorder.go). */
module Eager {
  import opened Basics
  import opened Causality
  import opened Fixpoint

  type Classifier = Bytes -> int

  /** A commutative operation, free to run as soon as its predecessors have. */
  predicate Class1(classOf: Classifier, e: Envelope) {
    classOf(e.payload) == 1
  }

  /** Each operation of `order` was new, and commutative ones found all their direct
      predecessors applied before them. */
  ghost predicate Disciplined(ms: seq<ReplicaId>, classOf: Classifier, order: seq<Envelope>) {
    && (forall i :: 0 <= i < |order| ==> KeyOf(ms, order[i]) !in Keys(ms, order[..i]))
    && (forall i :: 0 <= i < |order| && Class1(classOf, order[i]) ==> Parents(ms, order[i]) <= Keys(ms, order[..i]))
  }

  lemma DisciplinedExtend(ms: seq<ReplicaId>, classOf: Classifier, order: seq<Envelope>, e: Envelope)
    requires Disciplined(ms, classOf, order) && KeyOf(ms, e) !in Keys(ms, order)
    requires Class1(classOf, e) ==> Parents(ms, e) <= Keys(ms, order)
    ensures Disciplined(ms, classOf, order + [e])
  {
    var r := order + [e];
    assert forall i :: 0 <= i < |order| ==> r[i] == order[i] && r[..i] == order[..i];
    assert r[..|order|] == order;
  }

  /** No operation is applied twice. */
  lemma AppliedOnce(ms: seq<ReplicaId>, classOf: Classifier, order: seq<Envelope>, i: nat, j: nat)
    requires Disciplined(ms, classOf, order) && i < j < |order|
    ensures KeyOf(ms, order[i]) != KeyOf(ms, order[j])
  {
    assert order[..j][i] == order[i];
  }

  function Eagers(classOf: Classifier, order: seq<Envelope>): seq<Envelope> {
    if order == [] then []
    else
      var rest := Eagers(classOf, order[..|order| - 1]);
      if Class1(classOf, order[|order| - 1]) then rest + [order[|order| - 1]] else rest
  }

  /** The keys of the operations that had to wait for their wave. */
  ghost function StrictKeys(ms: seq<ReplicaId>, classOf: Classifier, order: seq<Envelope>): set<Key> {
    set e | e in order && !Class1(classOf, e) :: KeyOf(ms, e)
  }

  lemma DerivationExtend(ms: seq<ReplicaId>, pool: set<Envelope>, base: set<Key>, order: seq<Envelope>, e: Envelope)
    requires Derivation(ms, pool, base, order) && e in pool && Parents(ms, e) <= base + Keys(ms, order)
    ensures Derivation(ms, pool, base, order + [e])
  {
    var r := order + [e];
    assert forall i :: 0 <= i < |order| ==> r[i] == order[i] && r[..i] == order[..i];
    assert r[..|order|] == order;
  }

  lemma DisciplinedPrefix(ms: seq<ReplicaId>, classOf: Classifier, order: seq<Envelope>)
    requires Disciplined(ms, classOf, order) && order != []
    ensures Disciplined(ms, classOf, order[..|order| - 1])
  {
    var r := order[..|order| - 1];
    assert forall i :: 0 <= i < |r| ==> r[i] == order[i] && r[..i] == order[..i];
  }

  lemma {:induction false} EagersWithin(classOf: Classifier, order: seq<Envelope>)
    ensures forall e :: e in Eagers(classOf, order) ==> e in order
  {
    if order != [] {
      EagersWithin(classOf, order[..|order| - 1]);
      assert order == order[..|order| - 1] + [order[|order| - 1]];
    }
  }

  /** The operations of order, strict ones in the base and commutative ones in the pool. */
  ghost predicate Placed(ms: seq<ReplicaId>, classOf: Classifier, pool: set<Envelope>, base: set<Key>,
                         order: seq<Envelope>)
  {
    forall e :: e in order ==> if Class1(classOf, e) then e in pool else KeyOf(ms, e) in base
  }

  lemma {:induction false} EagersDerive(ms: seq<ReplicaId>, classOf: Classifier, pool: set<Envelope>, base: set<Key>,
                                        order: seq<Envelope>)
    requires Disciplined(ms, classOf, order) && Placed(ms, classOf, pool, base, order)
    ensures Derivation(ms, pool, base, Eagers(classOf, order))
    ensures Keys(ms, order) <= base + Keys(ms, Eagers(classOf, order))
  {
    if order != [] {
      var rest, e := order[..|order| - 1], order[|order| - 1];
      assert order == rest + [e] && e in order;
      DisciplinedPrefix(ms, classOf, order);
      EagersDerive(ms, classOf, pool, base, rest);
      KeysAppend(ms, rest, e);
      if Class1(classOf, e) {
        assert Parents(ms, e) <= Keys(ms, rest);
        DerivationExtend(ms, pool, base, Eagers(classOf, rest), e);
        KeysAppend(ms, Eagers(classOf, rest), e);
      }
    }
  }

  /** Whatever the order of application, once nothing more is ready the executed set is
      the retry fixpoint of the commutative operations over the strict ones executed. */
  lemma ExecutedIsRetry(ms: seq<ReplicaId>, classOf: Classifier, pool: set<Envelope>, order: seq<Envelope>)
    requires Disciplined(ms, classOf, order)
    requires forall e :: e in order && Class1(classOf, e) ==> e in pool
    requires Saturated(ms, pool, Keys(ms, order))
    ensures Keys(ms, order) == Retry(ms, pool, StrictKeys(ms, classOf, order))
  {
    var base, eagers := StrictKeys(ms, classOf, order), Eagers(classOf, order);
    EagersDerive(ms, classOf, pool, base, order);
    EagersWithin(classOf, order);
    assert base + Keys(ms, eagers) == Keys(ms, order);
    DerivationIsRetry(ms, pool, base, eagers);
  }

  /** Confluence: replicas that hold the same commutative operations and executed the same
      strict ones have executed the same operations. */
  lemma EagerConfluence(ms: seq<ReplicaId>, classOf: Classifier, pool: set<Envelope>, a: seq<Envelope>,
                        b: seq<Envelope>)
    requires Disciplined(ms, classOf, a) && Disciplined(ms, classOf, b)
    requires forall e :: e in a && Class1(classOf, e) ==> e in pool
    requires forall e :: e in b && Class1(classOf, e) ==> e in pool
    requires Saturated(ms, pool, Keys(ms, a)) && Saturated(ms, pool, Keys(ms, b))
    requires StrictKeys(ms, classOf, a) == StrictKeys(ms, classOf, b)
    ensures Keys(ms, a) == Keys(ms, b)
  {
    ExecutedIsRetry(ms, classOf, pool, a);
    ExecutedIsRetry(ms, classOf, pool, b);
  }

  /** The commutative operations appended behind a mark are a derivation from what was
      executed at the mark. */
  lemma TailDerives(ms: seq<ReplicaId>, classOf: Classifier, pool: set<Envelope>, order: seq<Envelope>, mark: nat)
    requires Disciplined(ms, classOf, order) && mark <= |order|
    requires forall e :: e in order[mark..] ==> Class1(classOf, e) && e in pool
    ensures Derivation(ms, pool, Keys(ms, order[..mark]), order[mark..])
    ensures Keys(ms, order) == Keys(ms, order[..mark]) + Keys(ms, order[mark..])
  {
    var base, tail := order[..mark], order[mark..];
    assert order == base + tail;
    forall i | 0 <= i < |tail| ensures tail[i] in pool && Parents(ms, tail[i]) <= Keys(ms, base) + Keys(ms, tail[..i]) {
      assert order[..mark + i] == base + tail[..i];
      assert tail[i] in tail && tail[i] == order[mark + i];
    }
  }
}
