/** The semantic order's view of what it has observed: messages bucketed by wave, the newest
    clock per sender, and the gates computed from them (order/semorder.go). */
module WaveBuckets {
  import opened Basics
  import opened Vectors
  import opened Causality
  import opened Eager
  import opened World

  type Buckets = map<nat, seq<Envelope>>

  /** The sender is a member and its slot lies inside the clock. */
  predicate Numbered(ms: seq<ReplicaId>, e: Envelope) {
    0 <= SlotOf(ms, e.sender) < |e.vc|
  }

  /** No clock entry beyond the member list is used: the source would read past the list. */
  ghost predicate InRange(ms: seq<ReplicaId>, e: Envelope) {
    forall i: nat :: i >= |ms| ==> At(e.vc, i) == 0
  }

  /** Every envelope is filed under its wave, with a sequence number; commutative ones, whose
      predecessors will be looked up, with a clock in range. */
  ghost predicate Filed(ms: seq<ReplicaId>, classOf: Classifier, m: Buckets) {
    forall w, e :: w in m && e in m[w] ==>
      Wave(e.vc) == w && Numbered(ms, e) && (Class1(classOf, e) ==> InRange(ms, e))
  }

  function Pool(m: Buckets, classOf: Classifier): set<Envelope> {
    set w, e | w in m && e in m[w] && Class1(classOf, e) :: e
  }

  ghost function PoolKeys(ms: seq<ReplicaId>, m: Buckets, classOf: Classifier): set<Key> {
    set e | e in Pool(m, classOf) :: KeyOf(ms, e)
  }

  ghost predicate Observed(m: Buckets, e: Envelope) {
    Wave(e.vc) in m && e in m[Wave(e.vc)]
  }

  lemma BucketObserved(ms: seq<ReplicaId>, classOf: Classifier, m: Buckets, w: nat, i: nat)
    requires Filed(ms, classOf, m) && w in m && i < |m[w]|
    ensures Observed(m, m[w][i]) && Wave(m[w][i].vc) == w
  {
    assert m[w][i] in m[w];
  }

  /** The keys of each bucket, kept beside it. */
  ghost predicate Seen(ms: seq<ReplicaId>, m: Buckets, seen: map<nat, set<Key>>) {
    seen.Keys == m.Keys && forall w :: w in seen ==> seen[w] == Keys(ms, m[w])
  }

  function Bucket(m: Buckets, w: nat): seq<Envelope> {
    if w in m then m[w] else []
  }

  function FiledAlso(m: Buckets, e: Envelope): Buckets {
    m[Wave(e.vc) := Bucket(m, Wave(e.vc)) + [e]]
  }

  lemma FiledAlsoKeeps(ms: seq<ReplicaId>, classOf: Classifier, m: Buckets, seen: map<nat, set<Key>>, e: Envelope)
    requires Filed(ms, classOf, m) && Seen(ms, m, seen) && Numbered(ms, e) && (Class1(classOf, e) ==> InRange(ms, e))
    ensures Filed(ms, classOf, FiledAlso(m, e))
    ensures Seen(ms, FiledAlso(m, e), seen[Wave(e.vc) := Keys(ms, Bucket(m, Wave(e.vc))) + {KeyOf(ms, e)}])
  {
    KeysAppend(ms, Bucket(m, Wave(e.vc)), e);
  }

  /** The newest clock per sender: a clock replaces one of the same length below it. */
  ghost function WithVector(latest: map<ReplicaId, Vector>, e: Envelope): map<ReplicaId, Vector> {
    var newer := e.sender !in latest || (|e.vc| == |latest[e.sender]| && Leq(latest[e.sender], e.vc));
    if newer then latest[e.sender := e.vc] else latest
  }

  /** Each newest clock is that of an observed message of its sender. */
  ghost predicate FromObserved(m: Buckets, latest: map<ReplicaId, Vector>) {
    forall r :: r in latest ==> exists e :: Observed(m, e) && e.sender == r && e.vc == latest[r]
  }

  lemma FiledAlsoObserves(m: Buckets, latest: map<ReplicaId, Vector>, applied: seq<Envelope>, e: Envelope)
    requires FromObserved(m, latest) && AllObserved(m, applied)
    ensures FromObserved(FiledAlso(m, e), latest) && AllObserved(FiledAlso(m, e), applied)
    ensures Observed(FiledAlso(m, e), e)
  {
    var m' := FiledAlso(m, e);
    assert forall x {:trigger Observed(m', x)} {:trigger Observed(m, x)} :: Observed(m, x) ==> Observed(m', x);
    forall r | r in latest ensures exists x :: Observed(m', x) && x.sender == r && x.vc == latest[r] {
      var x :| Observed(m, x) && x.sender == r && x.vc == latest[r];
      assert Observed(m', x);
    }
  }

  /** The clock kept for e's sender is e's own, or not below it. */
  ghost predicate NotAbove(latest: map<ReplicaId, Vector>, e: Envelope) {
    && e.sender in latest
    && (|e.vc| == |latest[e.sender]| && Leq(latest[e.sender], e.vc) ==> e.vc == latest[e.sender])
  }

  /** A clock is kept for every sender observed, and no observed one of its length is above it. */
  ghost predicate Newest(m: Buckets, latest: map<ReplicaId, Vector>) {
    forall e {:trigger Observed(m, e)} :: Observed(m, e) ==> NotAbove(latest, e)
  }

  lemma LeqBoth(a: Vector, b: Vector)
    requires |a| == |b| && Leq(a, b) && Leq(b, a)
    ensures a == b
  {
    forall i | 0 <= i < |a| ensures a[i] == b[i] { assert At(a, i) == a[i] && At(b, i) == b[i]; }
  }

  lemma NewestNext(m: Buckets, latest: map<ReplicaId, Vector>, e: Envelope)
    requires Newest(m, latest)
    ensures Newest(FiledAlso(m, e), WithVector(latest, e))
  {
    var m', now := FiledAlso(m, e), WithVector(latest, e);
    forall x | Observed(m', x) ensures NotAbove(now, x) {
      if x != e {
        assert Observed(m, x);
        if x.sender == e.sender && |x.vc| == |now[e.sender]| && Leq(now[e.sender], x.vc) {
          assert Leq(latest[x.sender], x.vc);
          LeqBoth(now[e.sender], x.vc);
        }
      }
    }
  }

  lemma NewestSame(m: Buckets, m': Buckets, latest: map<ReplicaId, Vector>)
    requires Newest(m, latest) && SameBuckets(m, m')
    ensures Newest(m', latest)
  {
    forall e | Observed(m', e) ensures NotAbove(latest, e) { assert Observed(m, e); }
  }

  ghost predicate AllObserved(m: Buckets, order: seq<Envelope>) {
    forall e {:trigger Observed(m, e)} :: e in order ==> Observed(m, e)
  }

  /** e is not a ready commutative operation still to be executed. */
  ghost predicate Handled(ms: seq<ReplicaId>, classOf: Classifier, executed: set<Key>, e: Envelope) {
    Class1(classOf, e) && Parents(ms, e) <= executed ==> KeyOf(ms, e) in executed
  }

  ghost predicate AllHandled(ms: seq<ReplicaId>, classOf: Classifier, executed: set<Key>, envs: seq<Envelope>) {
    forall e {:trigger Handled(ms, classOf, executed, e)} :: e in envs ==> Handled(ms, classOf, executed, e)
  }

  lemma AllHandledExtend(ms: seq<ReplicaId>, classOf: Classifier, executed: set<Key>, envs: seq<Envelope>, i: nat)
    requires i < |envs| && AllHandled(ms, classOf, executed, envs[..i]) && Handled(ms, classOf, executed, envs[i])
    ensures AllHandled(ms, classOf, executed, envs[..i + 1])
  {
    assert envs[..i + 1] == envs[..i] + [envs[i]];
  }

  /** The same messages per wave, in whatever order. */
  ghost predicate SameBuckets(m: Buckets, m': Buckets) {
    m.Keys == m'.Keys && forall w :: w in m ==> forall e :: e in m[w] <==> e in m'[w]
  }

  lemma Reordered(ms: seq<ReplicaId>, classOf: Classifier, m: Buckets, w: nat, sorted: seq<Envelope>,
                  seen: map<nat, set<Key>>)
    requires Filed(ms, classOf, m) && Seen(ms, m, seen) && w in m && IsSort(m[w], sorted)
    ensures Filed(ms, classOf, m[w := sorted]) && Seen(ms, m[w := sorted], seen) && SameBuckets(m, m[w := sorted])
  {
    SortElements(m[w], sorted);
  }

  lemma SortElements(input: seq<Envelope>, sorted: seq<Envelope>)
    requires IsSort(input, sorted)
    ensures forall e :: e in input <==> e in sorted
  {
    forall e ensures e in input <==> e in sorted {
      assert e in multiset(input) <==> e in multiset(sorted);
    }
  }

  lemma ReorderedObserves(m: Buckets, w: nat, sorted: seq<Envelope>, latest: map<ReplicaId, Vector>,
                          applied: seq<Envelope>)
    requires w in m && IsSort(m[w], sorted) && FromObserved(m, latest) && AllObserved(m, applied)
    ensures FromObserved(m[w := sorted], latest) && AllObserved(m[w := sorted], applied)
  {
    var m' := m[w := sorted];
    SortElements(m[w], sorted);
    assert forall x {:trigger Observed(m', x)} {:trigger Observed(m, x)} :: Observed(m, x) <==> Observed(m', x);
    forall r | r in latest ensures exists x :: Observed(m', x) && x.sender == r && x.vc == latest[r] {
      var x :| Observed(m, x) && x.sender == r && x.vc == latest[r];
      assert Observed(m', x);
    }
  }

  /** Applying more commutative operations leaves fewer of them to execute. */
  lemma PoolShrinks(ms: seq<ReplicaId>, m: Buckets, classOf: Classifier, before: seq<Envelope>, after: seq<Envelope>)
    requires before < after && Disciplined(ms, classOf, after) && after[|before|] in Pool(m, classOf)
    ensures PoolKeys(ms, m, classOf) - Keys(ms, after) < PoolKeys(ms, m, classOf) - Keys(ms, before)
  {
    var k := KeyOf(ms, after[|before|]);
    assert after[..|before|] == before;
    assert k in PoolKeys(ms, m, classOf) && k !in Keys(ms, before) && k in Keys(ms, after);
    assert forall e :: e in before ==> e in after;
  }

  /** Strict operations went out in wave order, none beyond w. */
  predicate WaveOrdered(classOf: Classifier, order: seq<Envelope>, w: nat) {
    && (forall i :: 0 <= i < |order| && !Class1(classOf, order[i]) ==> Wave(order[i].vc) <= w)
    && (forall i, j :: 0 <= i < j < |order| && !Class1(classOf, order[i]) && !Class1(classOf, order[j]) ==>
         Wave(order[i].vc) <= Wave(order[j].vc))
  }

  // ---- gates ----

  predicate StableLocal(ms: seq<ReplicaId>, latest: map<ReplicaId, Vector>, e: Envelope) {
    Numbered(ms, e) && forall r :: r in ms && r != e.sender ==>
      r in latest && At(latest[r], SlotOf(ms, e.sender)) >= SeqOf(ms, e)
  }

  predicate CompleteLocal(ms: seq<ReplicaId>, latest: map<ReplicaId, Vector>, m: Buckets, w: nat) {
    w in m && exists e :: e in m[w] && StableLocal(ms, latest, e)
  }

  predicate ContinuationLocal(ms: seq<ReplicaId>, latest: map<ReplicaId, Vector>, w: nat) {
    forall r :: r in ms ==> r in latest && Wave(latest[r]) > w
  }

  predicate HasStrict(m: Buckets, classOf: Classifier, w: nat) {
    w in m && exists e :: e in m[w] && !Class1(classOf, e)
  }

  /** The strict operations of a bucket still to be executed. */
  ghost function StrictOf(ms: seq<ReplicaId>, classOf: Classifier, envs: seq<Envelope>, done: set<Key>): seq<Envelope> {
    if envs == [] then []
    else
      var rest, e := StrictOf(ms, classOf, envs[..|envs| - 1], done), envs[|envs| - 1];
      if Class1(classOf, e) || KeyOf(ms, e) in done + Keys(ms, rest) then rest else rest + [e]
  }

  lemma StrictOfMore(ms: seq<ReplicaId>, classOf: Classifier, envs: seq<Envelope>, i: nat, before: seq<Envelope>)
    requires i < |envs|
    ensures
      var done := Keys(ms, before);
      var now := before + StrictOf(ms, classOf, envs[..i], done);
      before + StrictOf(ms, classOf, envs[..i + 1], done) ==
        if Class1(classOf, envs[i]) || KeyOf(ms, envs[i]) in Keys(ms, now) then now else now + [envs[i]]
  {
    var rest := StrictOf(ms, classOf, envs[..i], Keys(ms, before));
    assert envs[..i + 1][..i] == envs[..i];
    assert Keys(ms, before + rest) == Keys(ms, before) + Keys(ms, rest);
    Associative(before, rest, [envs[i]]);
  }

  lemma {:induction false} StrictOfElements(ms: seq<ReplicaId>, classOf: Classifier, envs: seq<Envelope>,
                                            done: set<Key>)
    ensures forall e :: e in StrictOf(ms, classOf, envs, done) ==> e in envs && !Class1(classOf, e)
    ensures forall e :: e in envs && !Class1(classOf, e) ==>
      KeyOf(ms, e) in done + Keys(ms, StrictOf(ms, classOf, envs, done))
  {
    if envs != [] {
      var n := |envs| - 1;
      StrictOfElements(ms, classOf, envs[..n], done);
      KeysAppend(ms, StrictOf(ms, classOf, envs[..n], done), envs[n]);
      assert envs == envs[..n] + [envs[n]];
    }
  }

  lemma {:induction false} StrictOfSorted(ms: seq<ReplicaId>, classOf: Classifier, envs: seq<Envelope>, done: set<Key>)
    requires SenderSorted(envs)
    ensures SenderSorted(StrictOf(ms, classOf, envs, done))
  {
    if envs != [] {
      var n := |envs| - 1;
      var rest := StrictOf(ms, classOf, envs[..n], done);
      StrictOfSorted(ms, classOf, envs[..n], done);
      StrictOfElements(ms, classOf, envs[..n], done);
      forall i | 0 <= i < |rest| ensures !Less(envs[n].sender, rest[i].sender) {
        assert rest[i] in envs[..n];
        var j :| 0 <= j < n && envs[j] == rest[i];
      }
    }
  }

  /** Every strict operation of wave w has been executed. */
  ghost predicate StrictDone(ms: seq<ReplicaId>, classOf: Classifier, m: Buckets, executed: set<Key>, w: nat) {
    w in m ==> forall e :: e in m[w] && !Class1(classOf, e) ==> KeyOf(ms, e) in executed
  }

  /** The gates do not depend on the order inside the buckets. */
  lemma SameGate(ms: seq<ReplicaId>, latest: map<ReplicaId, Vector>, m: Buckets, m': Buckets, w: nat)
    requires SameBuckets(m, m')
    ensures CompleteLocal(ms, latest, m, w) <==> CompleteLocal(ms, latest, m', w)
  {
  }

  lemma SameStrict(m: Buckets, m': Buckets, classOf: Classifier, w: nat)
    requires SameBuckets(m, m')
    ensures HasStrict(m, classOf, w) <==> HasStrict(m', classOf, w)
  {
  }
}
