/** Agreement of the semantic order over runs: the strict operations of a wave go out with
    the same contents and in the same sender order at every replica that processes the wave.
    A replica may skip a wave, and then the strict operations of it that arrive later are
    never applied there (order/semorder.go). */
module SemAgreement {
  import opened Basics
  import opened Vectors
  import opened Causality
  import opened Eager
  import opened World
  import opened Preservation
  import opened Guarantees
  import opened Delivery
  import opened Agreement
  import opened WaveBuckets
  import opened SemTrace
  import SemOrder

  /** The first n deliveries of replica i as of time t of a run. */
  datatype Feed = Feed(ms: seq<ReplicaId>, conv: ConversationId, ws: seq<World>, i: nat, t: nat, n: nat)

  ghost predicate IsFeed(f: Feed) {
    && Run(f.ms, f.conv, f.ws) && f.t < |f.ws| && f.i < |f.ms| && |f.ws[f.t].reps| == |f.ms|
    && f.n <= |f.ws[f.t].reps[f.i].delivered|
  }

  /** The input is what the replica delivered, and nothing was delivered before a predecessor. */
  ghost predicate Fed(f: Feed, input: seq<Envelope>) {
    IsFeed(f) && !Uncaused(f.ms, f.ws[f.t].reps[f.i]) && input == f.ws[f.t].reps[f.i].delivered[..f.n]
  }

  lemma FedIsCausal(f: Feed, input: seq<Envelope>, k: nat)
    requires Fed(f, input) && k <= f.n
    ensures Causal(f.ms, input[..k]) && forall e :: e in input ==> e in f.ws[f.t].net
  {
    assert input[..k] == f.ws[f.t].reps[f.i].delivered[..k];
    DeliveredPrefix(f.ms, f.conv, f.ws, f.t, f.i, k);
    RunInv(f.ms, f.conv, f.ws, f.t);
    assert ReplicaInv(f.ms, f.ws[f.t].net, f.i, f.ws[f.t].reps[f.i]);
    assert forall e :: e in input ==> e in f.ws[f.t].reps[f.i].delivered;
  }

  lemma FedOneEach(f: Feed, input: seq<Envelope>)
    requires Fed(f, input)
    ensures OneEach(f.ms, input)
  {
    FedIsCausal(f, input, f.n);
    RunInv(f.ms, f.conv, f.ws, f.t);
  }

  /** Where a later message of a sender stands in a causal history, all its earlier ones do. */
  lemma HistoryHas(ms: seq<ReplicaId>, w: World, h: seq<Envelope>, later: Envelope, e: Envelope)
    requires Inv(ms, w) && Causal(ms, h) && (forall x :: x in h ==> x in w.net) && later in h
    requires e in w.net && e.sender == later.sender && Wave(e.vc) < Wave(later.vc)
    ensures e in h
  {
    CausalIsClosed(ms, h);
    IndexValues(ms, h);
    if SeqOf(ms, e) > SeqOf(ms, later) {
      assert Covers(ms, e, KeyOf(ms, later));
      WaveMonotone(later.vc, e.vc);
    }
    Contiguous(ms, Index(ms, h), KeyOf(ms, later), SeqOf(ms, e));
    assert Index(ms, h)[KeyOf(ms, e)] == e;
  }

  // ---- the gates ----

  /** An envelope handed over is observed. */
  lemma FedIsObserved(f: Feed, o: SemOrder.SemOrder, e: Envelope)
    requires o.Valid() && o.Traced() && o.ms == f.ms && Fed(f, o.input) && e in o.input
    ensures Observed(o.messagesByWave, e) && Numbered(o.ms, e)
  {
    FedOneEach(f, o.input);
    FedIsCausal(f, o.input, f.n);
    RunInv(f.ms, f.conv, f.ws, f.t);
    assert Stamped(o.ms, e);
    assert FiledAs(o.ms, o.messagesByWave, e);
  }

  lemma KeptIsHeard(o: SemOrder.SemOrder, r: ReplicaId) returns (g: Envelope)
    requires o.Valid() && o.Traced() && r in o.latestVector
    ensures g in o.input && g.sender == r && g.vc == o.latestVector[r]
  {
    g :| Observed(o.messagesByWave, g) && g.sender == r && g.vc == o.latestVector[r];
  }

  /** Of two messages of one sender the later one's clock is above. */
  lemma LaterAbove(ms: seq<ReplicaId>, net: set<Envelope>, g: Envelope, e: Envelope)
    requires NetInv(ms, net) && g in net && e in net && g.sender == e.sender && SeqOf(ms, g) <= SeqOf(ms, e)
    ensures |g.vc| == |e.vc| && Leq(g.vc, e.vc)
  {
    assert Covers(ms, e, KeyOf(ms, g));
  }

  /** Over causal deliveries the clock kept for a sender is that of its latest message. */
  lemma KeptIsLatest(f: Feed, o: SemOrder.SemOrder, r: ReplicaId)
    requires o.Valid() && o.Traced() && o.ms == f.ms && Fed(f, o.input)
    ensures
      var nodes := Index(o.ms, o.input);
      var n := Latest(nodes, r);
      && (r in o.latestVector <==> n > 0)
      && (n > 0 ==> r in o.latestVector && o.latestVector[r] == nodes[Key(r, n)].vc && nodes[Key(r, n)] in o.input)
  {
    var nodes := Index(o.ms, o.input);
    var n := Latest(nodes, r);
    assert o.input[..f.n] == o.input;
    FedIsCausal(f, o.input, f.n);
    RunInv(f.ms, f.conv, f.ws, f.t);
    IndexValues(o.ms, o.input);
    if r in o.latestVector {
      var g := KeptIsHeard(o, r);
      InIndex(o.ms, o.input, g);
      assert Stamped(o.ms, g) && KeyOf(o.ms, g).num > 0;
      var e := nodes[Key(r, n)];
      FedIsObserved(f, o, e);
      LaterAbove(o.ms, f.ws[f.t].net, g, e);
    }
    if n > 0 { FedIsObserved(f, o, nodes[Key(r, n)]); }
  }

  lemma InIndex(ms: seq<ReplicaId>, h: seq<Envelope>, e: Envelope)
    requires Causal(ms, h) && e in h
    ensures KeyOf(ms, e) in Index(ms, h) && Index(ms, h)[KeyOf(ms, e)] == e
  {
    var i :| 0 <= i < |h| && h[i] == e;
    CausalLookup(ms, h, i);
  }

  /** What the local test of stability means over causal deliveries of a run: it is stability
      in the graph of the envelopes handed over, and it says that every other member has
      sent a message after e. */
  lemma StableInRun(f: Feed, o: SemOrder.SemOrder, e: Envelope)
    requires o.Valid() && o.Traced() && o.ms == f.ms && Fed(f, o.input) && e in o.input
    ensures StableLocal(o.ms, o.latestVector, e) <==> IsStable(o.ms, Index(o.ms, o.input), KeyOf(o.ms, e))
    ensures StableLocal(o.ms, o.latestVector, e) <==>
      forall r :: r in o.ms && r != e.sender ==> r in o.latestVector && HappensBefore(e.vc, o.latestVector[r])
  {
    assert o.input[..f.n] == o.input;
    FedIsCausal(f, o.input, f.n);
    InIndex(o.ms, o.input, e);
    FedIsObserved(f, o, e);
    forall r | r in o.ms && r != e.sender
      ensures AckedBy(o.ms, o.latestVector, e, r) <==> Acknowledges(o.ms, Index(o.ms, o.input), r, KeyOf(o.ms, e))
      ensures AckedBy(o.ms, o.latestVector, e, r) <==> r in o.latestVector && HappensBefore(e.vc, o.latestVector[r])
    {
      AckInRun(f, o, e, r);
    }
    StableByMember(o.ms, o.latestVector, Index(o.ms, o.input), e);
  }

  lemma StableByMember(ms: seq<ReplicaId>, latest: map<ReplicaId, Vector>, nodes: Nodes, e: Envelope)
    requires Numbered(ms, e) && KeyOf(ms, e) in nodes
    requires forall r :: r in ms && r != e.sender ==>
      && (AckedBy(ms, latest, e, r) <==> Acknowledges(ms, nodes, r, KeyOf(ms, e)))
      && (AckedBy(ms, latest, e, r) <==> r in latest && HappensBefore(e.vc, latest[r]))
    ensures StableLocal(ms, latest, e) <==> IsStable(ms, nodes, KeyOf(ms, e))
    ensures StableLocal(ms, latest, e) <==>
      forall r :: r in ms && r != e.sender ==> r in latest && HappensBefore(e.vc, latest[r])
  {
    assert StableLocal(ms, latest, e) <==> forall r :: r in ms && r != e.sender ==> AckedBy(ms, latest, e, r);
    assert forall j: nat :: j < |ms| ==> ms[j] in ms;
  }

  ghost predicate AckedBy(ms: seq<ReplicaId>, latest: map<ReplicaId, Vector>, e: Envelope, r: ReplicaId) {
    r in latest && SlotOf(ms, e.sender) >= 0 && At(latest[r], SlotOf(ms, e.sender)) >= SeqOf(ms, e)
  }

  lemma AckInRun(f: Feed, o: SemOrder.SemOrder, e: Envelope, r: ReplicaId)
    requires o.Valid() && o.Traced() && o.ms == f.ms && Fed(f, o.input) && e in o.input && r != e.sender
    ensures SlotOf(o.ms, e.sender) >= 0
    ensures AckedBy(o.ms, o.latestVector, e, r) <==> Acknowledges(o.ms, Index(o.ms, o.input), r, KeyOf(o.ms, e))
    ensures AckedBy(o.ms, o.latestVector, e, r) <==> r in o.latestVector && HappensBefore(e.vc, o.latestVector[r])
  {
    FedIsObserved(f, o, e);
    KeptIsLatest(f, o, r);
    FedIsCausal(f, o.input, f.n);
    var nodes := Index(o.ms, o.input);
    var n := Latest(nodes, r);
    if n > 0 {
      var g := nodes[Key(r, n)];
      CausalSender(o.ms, o.input, f, Key(r, n));
      VectorClockTheorem(f.ms, f.conv, f.ws, f.t, e, g);
    }
  }

  lemma CausalSender(ms: seq<ReplicaId>, h: seq<Envelope>, f: Feed, k: Key)
    requires ms == f.ms && Fed(f, h) && k in Index(ms, h)
    ensures Index(ms, h)[k] in f.ws[f.t].net && Index(ms, h)[k].sender == k.sender
  {
    assert h[..f.n] == h;
    FedIsCausal(f, h, f.n);
    CausalIsClosed(ms, h);
    IndexValues(ms, h);
  }

  /** So the local gate of a wave is open exactly when the wave is complete in that graph. */
  lemma CompleteInRun(f: Feed, o: SemOrder.SemOrder, w: nat)
    requires o.Valid() && o.Traced() && o.ms == f.ms && Fed(f, o.input)
    ensures CompleteLocal(o.ms, o.latestVector, o.messagesByWave, w) <==> WaveComplete(o.ms, Index(o.ms, o.input), w)
  {
    var nodes := Index(o.ms, o.input);
    assert o.input[..f.n] == o.input;
    FedIsCausal(f, o.input, f.n);
    IndexValues(o.ms, o.input);
    if CompleteLocal(o.ms, o.latestVector, o.messagesByWave, w) {
      var e :| e in o.messagesByWave[w] && StableLocal(o.ms, o.latestVector, e);
      assert Observed(o.messagesByWave, e);
      StableInRun(f, o, e);
      InIndex(o.ms, o.input, e);
    }
    if k :| k in nodes && Wave(nodes[k].vc) == w && IsStable(o.ms, nodes, k) {
      FedIsObserved(f, o, nodes[k]);
      CausalIsClosed(o.ms, o.input);
      StableInRun(f, o, nodes[k]);
    }
  }

  // ---- agreement ----

  /** When a wave was processed each member had been heard beyond it. */
  lemma HeardBeyond(f: Feed, o: SemOrder.SemOrder, r: Round, m: ReplicaId) returns (later: Envelope)
    requires o.ms == f.ms && Fed(f, o.input) && RoundOk(o.ms, o.classOf, o.input, o.applied, r) && m in f.ms
    ensures later in o.input[..r.seen] && later in f.ws[f.t].net && later.sender == m && Wave(later.vc) > r.wave
  {
    FedIsCausal(f, o.input, r.seen);
    assert m in r.latest;
    later :| later in o.input[..r.seen] && later.sender == m && later.vc == r.latest[m];
    assert later in o.input;
  }

  lemma RoundSeals(f: Feed, o: SemOrder.SemOrder, r: Round)
    requires o.ms == f.ms && Fed(f, o.input) && RoundOk(o.ms, o.classOf, o.input, o.applied, r)
    ensures Sealed(f.ms, f.ws[f.t].net, r.wave)
  {
    forall m | m in f.ms ensures SentBeyond(f.ws[f.t].net, m, r.wave) {
      var later := HeardBeyond(f, o, r, m);
    }
  }

  lemma SentInTime(f: Feed, o: SemOrder.SemOrder, r: Round, u: nat, e: Envelope)
    requires o.ms == f.ms && Fed(f, o.input) && RoundOk(o.ms, o.classOf, o.input, o.applied, r) && u < |f.ws|
    requires e in f.ws[u].net && Wave(e.vc) == r.wave
    ensures e in f.ws[f.t].net
  {
    if f.t <= u {
      RoundSeals(f, o, r);
      SealedForever(f.ms, f.conv, f.ws, f.t, u, r.wave);
    } else {
      RunGrows(f.ms, f.conv, f.ws, u, f.t);
    }
  }

  lemma HeardInTime(f: Feed, o: SemOrder.SemOrder, r: Round, e: Envelope)
    requires o.ms == f.ms && Fed(f, o.input) && RoundOk(o.ms, o.classOf, o.input, o.applied, r)
    requires e in f.ws[f.t].net && Wave(e.vc) == r.wave
    ensures e in o.input[..r.seen] && Numbered(f.ms, e)
  {
    RunInv(f.ms, f.conv, f.ws, f.t);
    FedIsCausal(f, o.input, r.seen);
    assert SlotOf(f.ms, e.sender) >= 0;
    var later := HeardBeyond(f, o, r, e.sender);
    assert forall x :: x in o.input[..r.seen] ==> x in o.input;
    HistoryHas(f.ms, f.ws[f.t], o.input[..r.seen], later, e);
  }

  lemma InBucket(ms: seq<ReplicaId>, net: set<Envelope>, heard: seq<Envelope>, r: Round, e: Envelope)
    requires UniqueKeys(ms, net) && (forall x :: x in heard ==> x in net) && BucketOk(ms, heard, r.wave, r.bucket)
    requires e in heard && Numbered(ms, e) && Wave(e.vc) == r.wave
    ensures e in r.bucket
  {
    assert KeyOf(ms, e) in Keys(ms, r.bucket);
    var x :| x in r.bucket && KeyOf(ms, x) == KeyOf(ms, e);
    assert x in heard;
  }

  /** A processed bucket holds exactly the messages of its wave that are sent at any time of
      the run: of a wave that a replica processes, nothing comes late. */
  lemma BucketIsWhole(f: Feed, o: SemOrder.SemOrder, r: Round, u: nat, e: Envelope)
    requires o.ms == f.ms && Fed(f, o.input) && RoundOk(o.ms, o.classOf, o.input, o.applied, r) && f.t <= u < |f.ws|
    ensures e in r.bucket <==> e in f.ws[u].net && Wave(e.vc) == r.wave
  {
    FedIsCausal(f, o.input, r.seen);
    assert forall x :: x in o.input[..r.seen] ==> x in o.input;
    RunGrows(f.ms, f.conv, f.ws, f.t, u);
    if e in f.ws[u].net && Wave(e.vc) == r.wave {
      SentInTime(f, o, r, u, e);
      HeardInTime(f, o, r, e);
      RunInv(f.ms, f.conv, f.ws, f.t);
      InBucket(f.ms, f.ws[f.t].net, o.input[..r.seen], r, e);
    }
  }

  ghost predicate OnePerSender(s: seq<Envelope>) {
    forall x, y :: x in s && y in s && x.sender == y.sender ==> x == y
  }

  /** The same operations with the same sequence of senders. */
  ghost predicate SameOrder(a: seq<Envelope>, b: seq<Envelope>) {
    && (forall e :: e in a <==> e in b)
    && |a| == |b| && (forall p :: 0 <= p < |a| ==> a[p].sender == b[p].sender)
  }

  lemma OneOrder(a: seq<Envelope>, b: seq<Envelope>)
    requires SameOrder(a, b) && OnePerSender(a)
    ensures a == b
  {
    forall p | 0 <= p < |a| ensures a[p] == b[p] {
      assert a[p] in a && b[p] in a;
    }
  }

  lemma StrictOnce(ms: seq<ReplicaId>, classOf: Classifier, applied: seq<Envelope>, r: Round)
    requires Disciplined(ms, classOf, applied) && End(r) <= |applied| && applied[r.mark..End(r)] == r.strict
    ensures NoDuplicates(r.strict)
  {
    forall x, y | 0 <= x < y < |r.strict| ensures r.strict[x] != r.strict[y] {
      assert r.strict[x] == applied[r.mark + x] && r.strict[y] == applied[r.mark + y];
      AppliedOnce(ms, classOf, applied, r.mark + x, r.mark + y);
    }
  }

  /** What the first round of a wave sends out: exactly the strict operations of that wave
      that are ever sent, once each, ordered by sender. */
  lemma FirstRoundIsWave(f: Feed, o: SemOrder.SemOrder, p: nat, u: nat)
    requires o.Valid() && o.Traced() && o.ms == f.ms && Fed(f, o.input) && FirstOf(o.rounds, p) && f.t <= u < |f.ws|
    ensures SenderSorted(o.rounds[p].strict) && NoDuplicates(o.rounds[p].strict)
    ensures forall e :: e in o.rounds[p].strict <==>
      e in f.ws[u].net && Wave(e.vc) == o.rounds[p].wave && !Class1(o.classOf, e)
  {
    var r := o.rounds[p];
    assert RoundOk(o.ms, o.classOf, o.input, o.applied, r);
    FedOneEach(f, o.input);
    FirstSendsAll(o.ms, o.classOf, o.Trace(), p);
    forall e ensures e in r.bucket <==> e in f.ws[u].net && Wave(e.vc) == r.wave {
      BucketIsWhole(f, o, r, u, e);
    }
    StrictOnce(o.ms, o.classOf, o.applied, r);
  }

  /** Two replicas that have both processed a wave, at whatever times, sent out the same
      strict operations for it with the same sequence of senders; and the same sequence of
      operations when no sender has two of them in the wave. */
  lemma StrictAgreement(f: Feed, a: SemOrder.SemOrder, p: nat, g: Feed, b: SemOrder.SemOrder, q: nat)
    requires a.Valid() && a.Traced() && a.ms == f.ms && Fed(f, a.input) && FirstOf(a.rounds, p)
    requires b.Valid() && b.Traced() && b.ms == g.ms && Fed(g, b.input) && FirstOf(b.rounds, q)
    requires f.ms == g.ms && f.conv == g.conv && f.ws == g.ws && a.classOf == b.classOf
    requires a.rounds[p].wave == b.rounds[q].wave
    ensures SameOrder(a.rounds[p].strict, b.rounds[q].strict)
    ensures OnePerSender(a.rounds[p].strict) ==> a.rounds[p].strict == b.rounds[q].strict
  {
    var last := if f.t <= g.t then g.t else f.t;
    FirstRoundIsWave(f, a, p, last);
    FirstRoundIsWave(g, b, q, last);
    SameSenders(a.rounds[p].strict, b.rounds[q].strict);
    if OnePerSender(a.rounds[p].strict) { OneOrder(a.rounds[p].strict, b.rounds[q].strict); }
  }

  /** An observed strict operation of a wave that has been passed is executed unless it came
      late, and a late one belongs to a wave that the replica never processed. */
  lemma LateMeansSkipped(f: Feed, o: SemOrder.SemOrder, e: Envelope)
    requires o.Valid() && o.Traced() && o.ms == f.ms && Fed(f, o.input)
    requires Passed(o.classOf, o.messagesByWave, o.currentWave, e)
    ensures KeyOf(o.ms, e) in o.executed <==> e !in o.late
    ensures e in o.late ==> forall p :: 0 <= p < |o.rounds| ==> o.rounds[p].wave != Wave(e.vc)
  {
    FedOneEach(f, o.input);
    ExecutedUnlessLate(o.ms, o.classOf, o.Trace(), e);
    FedIsCausal(f, o.input, f.n);
    if e in o.late {
      forall p | 0 <= p < |o.rounds| ensures o.rounds[p].wave != Wave(e.vc) {
        var r := o.rounds[p];
        assert RoundOk(o.ms, o.classOf, o.input, o.applied, r);
        BucketIsWhole(f, o, r, f.t, e);
        KeysPrefix(o.ms, o.applied, End(r));
      }
    }
  }

  /** An executed commutative operation has its direct predecessors executed. */
  lemma ExecutedParents(o: SemOrder.SemOrder, c: Envelope)
    requires o.Valid() && o.Traced() && OneEach(o.ms, o.input)
    requires Observed(o.messagesByWave, c) && Class1(o.classOf, c) && KeyOf(o.ms, c) in o.executed
    ensures Parents(o.ms, c) <= o.executed
  {
    var i :| 0 <= i < |o.applied| && KeyOf(o.ms, o.applied[i]) == KeyOf(o.ms, c);
    assert Observed(o.messagesByWave, o.applied[i]);
    KeysPrefix(o.ms, o.applied, i);
  }

  /** Observed commutative operations, each a direct predecessor of the next. */
  ghost predicate Chain(o: SemOrder.SemOrder, cs: seq<Envelope>)
    reads o
  {
    && (forall i :: 0 <= i < |cs| ==> Observed(o.messagesByWave, cs[i]) && Class1(o.classOf, cs[i]))
    && (forall i :: 0 < i < |cs| ==> KeyOf(o.ms, cs[i - 1]) in Parents(o.ms, cs[i]))
  }

  lemma {:induction false} ChainBlocked(o: SemOrder.SemOrder, k: Key, cs: seq<Envelope>, n: nat)
    requires o.Valid() && o.Traced() && OneEach(o.ms, o.input) && Chain(o, cs) && n < |cs|
    requires k in Parents(o.ms, cs[0]) && k !in o.executed
    ensures KeyOf(o.ms, cs[n]) !in o.executed
  {
    if n > 0 { ChainBlocked(o, k, cs, n - 1); }
    if KeyOf(o.ms, cs[n]) in o.executed { ExecutedParents(o, cs[n]); }
  }

  /** So no commutative operation that follows a late one through commutative operations is
      ever executed either. */
  lemma LateBlocks(f: Feed, o: SemOrder.SemOrder, e: Envelope, cs: seq<Envelope>)
    requires o.Valid() && o.Traced() && o.ms == f.ms && Fed(f, o.input) && e in o.late
    requires Chain(o, cs) && cs != [] && KeyOf(o.ms, e) in Parents(o.ms, cs[0])
    ensures KeyOf(o.ms, cs[|cs| - 1]) !in o.executed
  {
    FedOneEach(f, o.input);
    assert Passed(o.classOf, o.messagesByWave, o.currentWave, e);
    LateMeansSkipped(f, o, e);
    ChainBlocked(o, KeyOf(o.ms, e), cs, |cs| - 1);
  }

  lemma KeysPrefix(ms: seq<ReplicaId>, s: seq<Envelope>, n: nat)
    requires n <= |s|
    ensures Keys(ms, s[..n]) <= Keys(ms, s)
  {
    assert forall x :: x in s[..n] ==> x in s;
  }
}
