/** The history of a semantic order: what it was handed, which strict operations came too
    late, and what each processed wave sent out (order/semorder.go). */
module SemTrace {
  import opened Basics
  import opened Vectors
  import opened Causality
  import opened Eager
  import opened World
  import opened WaveBuckets

  /** One processed wave: how many envelopes had been handed over, the bucket and the newest
      clocks at that moment, and the strict operations sent out from position `mark` on. */
  datatype Round = Round(
    wave: nat, seen: nat, bucket: seq<Envelope>, latest: map<ReplicaId, Vector>, mark: nat, strict: seq<Envelope>)

  datatype Trace = Trace(
    buckets: Buckets, applied: seq<Envelope>, wave: nat, input: seq<Envelope>, late: set<Envelope>, rounds: seq<Round>)

  function End(r: Round): nat {
    r.mark + |r.strict|
  }

  // ---- input ----

  ghost predicate SameMessage(ms: seq<ReplicaId>, x: Envelope, y: Envelope) {
    KeyOf(ms, x) == KeyOf(ms, y) && Wave(x.vc) == Wave(y.vc)
  }

  ghost predicate FiledAs(ms: seq<ReplicaId>, m: Buckets, e: Envelope) {
    exists x :: Observed(m, x) && SameMessage(ms, x, e)
  }

  /** The buckets hold what was handed over, once per key and wave. */
  ghost predicate InputOk(ms: seq<ReplicaId>, m: Buckets, input: seq<Envelope>) {
    && (forall e {:trigger Observed(m, e)} :: Observed(m, e) ==> e in input)
    && (forall e {:trigger FiledAs(ms, m, e)} :: e in input && Numbered(ms, e) ==> FiledAs(ms, m, e))
  }

  // ---- late operations ----

  /** e is an observed strict operation of a wave already passed. */
  ghost predicate Passed(classOf: Classifier, m: Buckets, wave: nat, e: Envelope) {
    Observed(m, e) && !Class1(classOf, e) && Wave(e.vc) < wave
  }

  ghost predicate LateOk(ms: seq<ReplicaId>, classOf: Classifier, t: Trace) {
    && (forall e {:trigger e in t.late} :: e in t.late ==> Passed(classOf, t.buckets, t.wave, e) && e !in t.applied)
    && (forall e {:trigger Passed(classOf, t.buckets, t.wave, e)} ::
          Passed(classOf, t.buckets, t.wave, e) && e !in t.late ==> KeyOf(ms, e) in Keys(ms, t.applied))
  }

  // ---- rounds ----

  ghost predicate FromInput(input: seq<Envelope>, latest: map<ReplicaId, Vector>) {
    forall r :: r in latest ==> exists e :: e in input && e.sender == r && e.vc == latest[r]
  }

  /** The bucket is that of the envelopes handed over so far. */
  ghost predicate BucketOk(ms: seq<ReplicaId>, input: seq<Envelope>, wave: nat, bucket: seq<Envelope>) {
    && (forall e :: e in bucket ==> e in input && Wave(e.vc) == wave)
    && (forall e :: e in input && Numbered(ms, e) && Wave(e.vc) == wave ==> KeyOf(ms, e) in Keys(ms, bucket))
  }

  /** Strict operations of the bucket, sorted by sender, went out at `mark`; none was left. */
  ghost predicate SentOk(ms: seq<ReplicaId>, classOf: Classifier, applied: seq<Envelope>, r: Round) {
    && End(r) <= |applied| && applied[r.mark..End(r)] == r.strict
    && SenderSorted(r.strict)
    && (forall e :: e in r.strict ==> e in r.bucket && !Class1(classOf, e))
    && (forall e :: e in r.bucket && !Class1(classOf, e) ==> KeyOf(ms, e) in Keys(ms, applied[..End(r)]))
  }

  ghost predicate RoundOk(ms: seq<ReplicaId>, classOf: Classifier, input: seq<Envelope>, applied: seq<Envelope>,
                          r: Round)
  {
    && r.seen <= |input|
    && BucketOk(ms, input[..r.seen], r.wave, r.bucket)
    && ContinuationLocal(ms, r.latest, r.wave) && FromInput(input[..r.seen], r.latest)
    && SentOk(ms, classOf, applied, r)
  }

  /** Position j was filled by the p-th round. */
  ghost predicate Fills(rounds: seq<Round>, p: nat, j: nat) {
    p < |rounds| && rounds[p].mark <= j < End(rounds[p])
  }

  ghost predicate FromRound(rounds: seq<Round>, j: nat) {
    exists p: nat :: Fills(rounds, p, j)
  }

  /** Rounds follow one another, and every strict operation applied belongs to one. */
  ghost predicate RoundsOk(ms: seq<ReplicaId>, classOf: Classifier, t: Trace) {
    && (forall p {:trigger RoundOk(ms, classOf, t.input, t.applied, t.rounds[p])} :: 0 <= p < |t.rounds| ==>
          RoundOk(ms, classOf, t.input, t.applied, t.rounds[p]))
    && (forall p, q :: 0 <= p < q < |t.rounds| ==> End(t.rounds[p]) <= t.rounds[q].mark)
    && (forall j: nat {:trigger FromRound(t.rounds, j)} :: j < |t.applied| && !Class1(classOf, t.applied[j]) ==>
          FromRound(t.rounds, j))
  }

  ghost predicate Traced(ms: seq<ReplicaId>, classOf: Classifier, t: Trace) {
    InputOk(ms, t.buckets, t.input) && LateOk(ms, classOf, t) && RoundsOk(ms, classOf, t)
  }

  // ---- the steps ----

  lemma RoundGrows(ms: seq<ReplicaId>, classOf: Classifier, input: seq<Envelope>, applied: seq<Envelope>, r: Round,
                   input': seq<Envelope>, applied': seq<Envelope>)
    requires RoundOk(ms, classOf, input, applied, r) && input <= input' && applied <= applied'
    ensures RoundOk(ms, classOf, input', applied', r)
  {
    assert input'[..r.seen] == input[..r.seen];
    assert applied'[..End(r)] == applied[..End(r)] && applied'[r.mark..End(r)] == applied[r.mark..End(r)];
  }

  lemma RoundsGrow(ms: seq<ReplicaId>, classOf: Classifier, t: Trace, t': Trace)
    requires RoundsOk(ms, classOf, t) && t'.rounds == t.rounds && t.input <= t'.input && t.applied <= t'.applied
    requires forall j :: |t.applied| <= j < |t'.applied| ==> Class1(classOf, t'.applied[j])
    ensures RoundsOk(ms, classOf, t')
  {
    forall p | 0 <= p < |t.rounds| ensures RoundOk(ms, classOf, t'.input, t'.applied, t'.rounds[p]) {
      RoundGrows(ms, classOf, t.input, t.applied, t.rounds[p], t'.input, t'.applied);
    }
    forall j: nat | j < |t'.applied| && !Class1(classOf, t'.applied[j]) ensures FromRound(t'.rounds, j) {
      assert t.applied[j] == t'.applied[j] && FromRound(t.rounds, j);
    }
  }

  /** An envelope is handed over: filed when new, and late when it is strict and its wave
      has been passed. */
  ghost function Observe(ms: seq<ReplicaId>, classOf: Classifier, t: Trace, e: Envelope): Trace {
    var isNew := Numbered(ms, e) && KeyOf(ms, e) !in Keys(ms, Bucket(t.buckets, Wave(e.vc)));
    t.(input := t.input + [e],
       buckets := if isNew then FiledAlso(t.buckets, e) else t.buckets,
       late := if isNew && !Class1(classOf, e) && Wave(e.vc) < t.wave then t.late + {e} else t.late)
  }

  lemma ObserveInput(ms: seq<ReplicaId>, classOf: Classifier, t: Trace, e: Envelope)
    requires Filed(ms, classOf, t.buckets) && InputOk(ms, t.buckets, t.input)
    ensures InputOk(ms, Observe(ms, classOf, t, e).buckets, t.input + [e])
  {
    var m, m' := t.buckets, Observe(ms, classOf, t, e).buckets;
    var bucket := Bucket(m, Wave(e.vc));
    assert forall x {:trigger Observed(m', x)} :: Observed(m', x) ==> Observed(m, x) || x == e;
    forall x | x in t.input + [e] && Numbered(ms, x) ensures FiledAs(ms, m', x) {
      if x in t.input {
        assert FiledAs(ms, m, x);
        var y :| Observed(m, y) && SameMessage(ms, y, x);
        assert Observed(m', y);
      } else if KeyOf(ms, e) in Keys(ms, bucket) {
        var y :| y in bucket && KeyOf(ms, y) == KeyOf(ms, e);
        assert Observed(m, y) && SameMessage(ms, y, e);
      } else {
        assert Observed(m', e) && SameMessage(ms, e, e);
      }
    }
  }

  lemma ObserveLate(ms: seq<ReplicaId>, classOf: Classifier, t: Trace, e: Envelope)
    requires LateOk(ms, classOf, t) && AllObserved(t.buckets, t.applied)
    ensures LateOk(ms, classOf, Observe(ms, classOf, t, e))
  {
    var t' := Observe(ms, classOf, t, e);
    var bucket := Bucket(t.buckets, Wave(e.vc));
    assert forall x {:trigger Observed(t'.buckets, x)} :: Observed(t.buckets, x) ==> Observed(t'.buckets, x);
    forall x | x in t'.late ensures Passed(classOf, t'.buckets, t'.wave, x) && x !in t'.applied {
      if x in t.late {
        assert Passed(classOf, t.buckets, t.wave, x);
      } else {
        assert x == e && e !in bucket && !Observed(t.buckets, e);
        assert Observed(t'.buckets, e);
      }
    }
    forall x | Passed(classOf, t'.buckets, t'.wave, x) && x !in t'.late ensures KeyOf(ms, x) in Keys(ms, t'.applied) {
      assert Passed(classOf, t.buckets, t.wave, x);
    }
  }

  lemma ObserveKeeps(ms: seq<ReplicaId>, classOf: Classifier, t: Trace, e: Envelope)
    requires Traced(ms, classOf, t) && Filed(ms, classOf, t.buckets) && AllObserved(t.buckets, t.applied)
    ensures Traced(ms, classOf, Observe(ms, classOf, t, e))
  {
    ObserveInput(ms, classOf, t, e);
    ObserveLate(ms, classOf, t, e);
    RoundsGrow(ms, classOf, t, Observe(ms, classOf, t, e));
  }

  /** Commutative operations go out. */
  lemma EagerKeeps(ms: seq<ReplicaId>, classOf: Classifier, t: Trace, t': Trace)
    requires Traced(ms, classOf, t) && t.applied <= t'.applied && t' == t.(applied := t'.applied)
    requires forall e :: e in t'.applied[|t.applied|..] ==> Class1(classOf, e)
    ensures Traced(ms, classOf, t')
  {
    var tail := t'.applied[|t.applied|..];
    assert t'.applied == t.applied + tail;
    KeysConcat(ms, t.applied, tail);
    forall j | |t.applied| <= j < |t'.applied| ensures Class1(classOf, t'.applied[j]) {
      assert t'.applied[j] == tail[j - |t.applied|];
    }
    RoundsGrow(ms, classOf, t, t');
    forall e | e in t.late ensures e !in t'.applied {
      assert Passed(classOf, t.buckets, t.wave, e);
    }
  }

  /** A bucket is sorted. */
  lemma SortKeeps(ms: seq<ReplicaId>, classOf: Classifier, t: Trace, m: Buckets)
    requires Traced(ms, classOf, t) && SameBuckets(t.buckets, m)
    ensures Traced(ms, classOf, t.(buckets := m))
  {
    assert forall x {:trigger Observed(m, x)} {:trigger Observed(t.buckets, x)} ::
      Observed(m, x) <==> Observed(t.buckets, x);
    forall e | e in t.input && Numbered(ms, e) ensures FiledAs(ms, m, e) {
      assert FiledAs(ms, t.buckets, e);
      var y :| Observed(t.buckets, y) && SameMessage(ms, y, e);
      assert Observed(m, y);
    }
    forall e | Passed(classOf, m, t.wave, e) && e !in t.late ensures KeyOf(ms, e) in Keys(ms, t.applied) {
      assert Passed(classOf, t.buckets, t.wave, e);
    }
    var t' := t.(buckets := m);
    forall e | e in t'.late ensures Passed(classOf, m, t.wave, e) {
      assert Passed(classOf, t.buckets, t.wave, e);
    }
    assert RoundsOk(ms, classOf, t') by { RoundsGrow(ms, classOf, t, t'); }
  }

  /** The strict operations of the current wave go out. */
  ghost function Send(ms: seq<ReplicaId>, classOf: Classifier, t: Trace, latest: map<ReplicaId, Vector>): Trace {
    var bucket := Bucket(t.buckets, t.wave);
    var strict := StrictOf(ms, classOf, bucket, Keys(ms, t.applied));
    t.(applied := t.applied + strict,
       rounds := t.rounds + [Round(t.wave, |t.input|, bucket, latest, |t.applied|, strict)])
  }

  lemma SendRound(ms: seq<ReplicaId>, classOf: Classifier, t: Trace, latest: map<ReplicaId, Vector>)
    requires Filed(ms, classOf, t.buckets) && InputOk(ms, t.buckets, t.input) && FromObserved(t.buckets, latest)
    requires ContinuationLocal(ms, latest, t.wave) && SenderSorted(Bucket(t.buckets, t.wave))
    ensures var t' := Send(ms, classOf, t, latest); RoundOk(ms, classOf, t.input, t'.applied, t'.rounds[|t.rounds|])
  {
    var bucket := Bucket(t.buckets, t.wave);
    var t' := Send(ms, classOf, t, latest);
    var r := t'.rounds[|t.rounds|];
    assert t.input[..|t.input|] == t.input;
    StrictOfSorted(ms, classOf, bucket, Keys(ms, t.applied));
    StrictOfElements(ms, classOf, bucket, Keys(ms, t.applied));
    KeysConcat(ms, t.applied, r.strict);
    assert t'.applied[..End(r)] == t'.applied && t'.applied[r.mark..End(r)] == r.strict;
    BucketIsInput(ms, classOf, t);
    forall q | q in latest ensures exists e :: e in t.input && e.sender == q && e.vc == latest[q] {
      var e :| Observed(t.buckets, e) && e.sender == q && e.vc == latest[q];
    }
  }

  lemma BucketIsInput(ms: seq<ReplicaId>, classOf: Classifier, t: Trace)
    requires Filed(ms, classOf, t.buckets) && InputOk(ms, t.buckets, t.input)
    ensures BucketOk(ms, t.input, t.wave, Bucket(t.buckets, t.wave))
  {
    var bucket := Bucket(t.buckets, t.wave);
    forall e | e in bucket ensures e in t.input && Wave(e.vc) == t.wave {
      assert Observed(t.buckets, e);
    }
    forall e | e in t.input && Numbered(ms, e) && Wave(e.vc) == t.wave ensures KeyOf(ms, e) in Keys(ms, bucket) {
      assert FiledAs(ms, t.buckets, e);
      var y :| Observed(t.buckets, y) && SameMessage(ms, y, e);
      assert y in bucket;
    }
  }

  lemma SendRounds(ms: seq<ReplicaId>, classOf: Classifier, t: Trace, latest: map<ReplicaId, Vector>)
    requires RoundsOk(ms, classOf, t)
    requires var t' := Send(ms, classOf, t, latest); RoundOk(ms, classOf, t.input, t'.applied, t'.rounds[|t.rounds|])
    ensures RoundsOk(ms, classOf, Send(ms, classOf, t, latest))
  {
    var t' := Send(ms, classOf, t, latest);
    var n := |t.rounds|;
    forall p | 0 <= p < |t'.rounds| ensures RoundOk(ms, classOf, t'.input, t'.applied, t'.rounds[p]) {
      if p < n {
        assert t'.rounds[p] == t.rounds[p];
        RoundGrows(ms, classOf, t.input, t.applied, t.rounds[p], t'.input, t'.applied);
      }
    }
    forall p, q | 0 <= p < q < |t'.rounds| ensures End(t'.rounds[p]) <= t'.rounds[q].mark {
      if q == n { assert RoundOk(ms, classOf, t.input, t.applied, t.rounds[p]); }
    }
    forall j: nat | j < |t'.applied| && !Class1(classOf, t'.applied[j]) ensures FromRound(t'.rounds, j) {
      if j < |t.applied| {
        assert t'.applied[j] == t.applied[j] && FromRound(t.rounds, j);
        var p: nat :| Fills(t.rounds, p, j);
        assert Fills(t'.rounds, p, j);
      } else {
        assert Fills(t'.rounds, n, j);
      }
    }
  }

  lemma SendKeeps(ms: seq<ReplicaId>, classOf: Classifier, t: Trace, latest: map<ReplicaId, Vector>)
    requires Traced(ms, classOf, t) && Filed(ms, classOf, t.buckets) && FromObserved(t.buckets, latest)
    requires ContinuationLocal(ms, latest, t.wave) && SenderSorted(Bucket(t.buckets, t.wave))
    ensures Traced(ms, classOf, Send(ms, classOf, t, latest))
  {
    var t' := Send(ms, classOf, t, latest);
    SendRound(ms, classOf, t, latest);
    SendRounds(ms, classOf, t, latest);
    var bucket := Bucket(t.buckets, t.wave);
    StrictOfElements(ms, classOf, bucket, Keys(ms, t.applied));
    KeysConcat(ms, t.applied, StrictOf(ms, classOf, bucket, Keys(ms, t.applied)));
    forall e | e in t.late ensures e !in t'.applied {
      assert Passed(classOf, t.buckets, t.wave, e);
    }
  }

  /** The order moves on over waves whose strict operations are all executed. */
  lemma MoveKeeps(ms: seq<ReplicaId>, classOf: Classifier, t: Trace, wave: nat)
    requires Traced(ms, classOf, t) && t.wave <= wave
    requires forall w :: t.wave <= w < wave ==> StrictDone(ms, classOf, t.buckets, Keys(ms, t.applied), w)
    ensures Traced(ms, classOf, t.(wave := wave))
  {
    var t' := t.(wave := wave);
    forall e | e in t'.late ensures Passed(classOf, t.buckets, wave, e) {
      assert Passed(classOf, t.buckets, t.wave, e);
    }
    forall e | Passed(classOf, t.buckets, wave, e) && e !in t.late ensures KeyOf(ms, e) in Keys(ms, t.applied) {
      if Wave(e.vc) < t.wave {
        assert Passed(classOf, t.buckets, t.wave, e);
      } else {
        assert StrictDone(ms, classOf, t.buckets, Keys(ms, t.applied), Wave(e.vc));
      }
    }
    RoundsGrow(ms, classOf, t, t');
  }

  // ---- what the trace says ----

  ghost predicate OneEach(ms: seq<ReplicaId>, input: seq<Envelope>) {
    forall x, y :: x in input && y in input && KeyOf(ms, x) == KeyOf(ms, y) ==> x == y
  }

  /** With at most one envelope per key, a strict operation of a wave already passed has been
      executed if and only if it did not come late: its wave was not passed yet when it was
      observed. */
  lemma ExecutedUnlessLate(ms: seq<ReplicaId>, classOf: Classifier, t: Trace, e: Envelope)
    requires Traced(ms, classOf, t) && AllObserved(t.buckets, t.applied) && OneEach(ms, t.input)
    requires Observed(t.buckets, e) && !Class1(classOf, e) && Wave(e.vc) < t.wave
    ensures KeyOf(ms, e) in Keys(ms, t.applied) <==> e !in t.late
  {
    assert Passed(classOf, t.buckets, t.wave, e);
    if KeyOf(ms, e) in Keys(ms, t.applied) {
      var x :| x in t.applied && KeyOf(ms, x) == KeyOf(ms, e);
      assert Observed(t.buckets, x);
    }
  }

  ghost predicate FirstOf(rounds: seq<Round>, p: nat) {
    p < |rounds| && forall q :: 0 <= q < p ==> rounds[q].wave != rounds[p].wave
  }

  /** The first round of a wave sends exactly the strict operations of its bucket. */
  lemma FirstSendsAll(ms: seq<ReplicaId>, classOf: Classifier, t: Trace, p: nat)
    requires Traced(ms, classOf, t) && AllObserved(t.buckets, t.applied) && OneEach(ms, t.input) && FirstOf(t.rounds, p)
    ensures forall e :: e in t.rounds[p].strict <==> e in t.rounds[p].bucket && !Class1(classOf, e)
  {
    var r := t.rounds[p];
    assert RoundOk(ms, classOf, t.input, t.applied, r);
    forall e | e in r.bucket && !Class1(classOf, e) ensures e in r.strict {
      var x :| x in t.applied[..End(r)] && KeyOf(ms, x) == KeyOf(ms, e);
      assert x in t.applied && Observed(t.buckets, x);
      assert e in t.input[..r.seen] && e in t.input;
      assert x == e;
      var j :| 0 <= j < End(r) && t.applied[j] == e;
      FirstFills(ms, classOf, t, p, j);
      assert r.strict[j - r.mark] == t.applied[r.mark..End(r)][j - r.mark];
    }
  }

  lemma FirstFills(ms: seq<ReplicaId>, classOf: Classifier, t: Trace, p: nat, j: nat)
    requires RoundsOk(ms, classOf, t) && FirstOf(t.rounds, p) && j < End(t.rounds[p]) && j < |t.applied|
    requires !Class1(classOf, t.applied[j]) && Wave(t.applied[j].vc) == t.rounds[p].wave
    ensures t.rounds[p].mark <= j
  {
    assert FromRound(t.rounds, j);
    var q: nat :| Fills(t.rounds, q, j);
    assert RoundOk(ms, classOf, t.input, t.applied, t.rounds[q]);
    var r := t.rounds[q];
    assert t.applied[j] == t.applied[r.mark..End(r)][j - r.mark] && t.applied[j] in r.strict;
  }
}
