/** Total order: in every run all replicas emit the same waves with the same contents in
    the same sender order, and no message is left behind (order/total.go). */
module Agreement {
  import opened Basics
  import opened Vectors
  import opened Causality
  import opened World
  import opened Preservation
  import opened Guarantees

  // ---- sealed waves ----

  lemma SealedGrows(ms: seq<ReplicaId>, net: set<Envelope>, net': set<Envelope>, wave: nat)
    requires Sealed(ms, net, wave) && net <= net'
    ensures Sealed(ms, net', wave)
  {
    forall m | m in ms ensures SentBeyond(net', m, wave) {
      assert SentBeyond(net, m, wave);
    }
  }

  lemma SealedStep(ms: seq<ReplicaId>, conv: ConversationId, ws: seq<World>, t: nat, wave: nat)
    requires Run(ms, conv, ws) && t + 1 < |ws| && Sealed(ms, ws[t].net, wave)
    ensures Sealed(ms, ws[t + 1].net, wave)
    ensures forall e :: e in ws[t + 1].net && Wave(e.vc) <= wave ==> e in ws[t].net
  {
    RunInv(ms, conv, ws, t);
    NextGrows(ms, conv, ws, t);
    SealedGrows(ms, ws[t].net, ws[t + 1].net, wave);
    var step := TakeStep(ms, conv, ws, t);
    if step.Send? {
      SendBeyondSealed(ms, conv, ws[t], step.i, step.payload, wave);
    }
  }

  /** After a wave is sealed no replica ever sends into it or below it. */
  lemma {:induction false} SealedForever(ms: seq<ReplicaId>, conv: ConversationId, ws: seq<World>, t: nat, u: nat,
                                         wave: nat)
    requires Run(ms, conv, ws) && t <= u < |ws| && Sealed(ms, ws[t].net, wave)
    ensures forall e :: e in ws[u].net && Wave(e.vc) <= wave ==> e in ws[t].net
    decreases u - t
  {
    if t < u {
      SealedStep(ms, conv, ws, t, wave);
      SealedForever(ms, conv, ws, t + 1, u, wave);
    }
  }

  /** A replica that has moved past a wave at time t has emitted, exactly once and in
      sender order, every message of that wave that is ever sent, before or after t. */
  lemma NoStranding(ms: seq<ReplicaId>, conv: ConversationId, ws: seq<World>, t: nat, u: nat, i: nat, wave: nat)
    requires Run(ms, conv, ws) && t < |ws| && u < |ws| && i < |ms| && |ws[t].reps| == |ms|
    requires 1 <= wave < ws[t].reps[i].total.nextWave
    ensures ws[t].reps[i].total.nextWave == |ws[t].reps[i].total.batches| + 1
    ensures t <= u ==> IsWaveBatch(ws[u].net, wave, ws[t].reps[i].total.batches[wave - 1])
    ensures u < t ==> forall e :: e in ws[u].net && Wave(e.vc) == wave ==> e in ws[t].reps[i].total.batches[wave - 1]
  {
    RunInv(ms, conv, ws, t);
    assert ReplicaInv(ms, ws[t].net, i, ws[t].reps[i]);
    assert Sealed(ms, ws[t].net, wave) && IsWaveBatch(ws[t].net, wave, ws[t].reps[i].total.batches[wave - 1]);
    if t <= u {
      SealedForever(ms, conv, ws, t, u, wave);
      RunGrows(ms, conv, ws, t, u);
    } else {
      RunGrows(ms, conv, ws, u, t);
    }
  }

  /** Two replicas that drained a wave, at whatever times and with crashes in between,
      emitted the same messages for it. */
  lemma SameWaveContents(ms: seq<ReplicaId>, conv: ConversationId, ws: seq<World>, t: nat, i: nat, u: nat, j: nat,
                         wave: nat)
    requires Run(ms, conv, ws) && t < |ws| && u < |ws| && i < |ms| && j < |ms|
    requires |ws[t].reps| == |ms| == |ws[u].reps|
    requires 1 <= wave < ws[t].reps[i].total.nextWave && wave < ws[u].reps[j].total.nextWave
    ensures |ws[t].reps[i].total.batches| >= wave && |ws[u].reps[j].total.batches| >= wave
    ensures var a, b := ws[t].reps[i].total.batches[wave - 1], ws[u].reps[j].total.batches[wave - 1];
      SenderSorted(a) && SenderSorted(b) && NoDuplicates(a) && NoDuplicates(b)
      && (forall e :: e in a <==> e in b) && (forall e :: e in a ==> Wave(e.vc) == wave)
  {
    var last := if t <= u then u else t;
    NoStranding(ms, conv, ws, t, last, i, wave);
    NoStranding(ms, conv, ws, u, last, j, wave);
  }

  // ---- the emitted sequence ----

  function Emitted(batches: seq<seq<Envelope>>): seq<Envelope> {
    if batches == [] then [] else Emitted(batches[..|batches| - 1]) + batches[|batches| - 1]
  }

  /** (wave, sender) of each emitted message. */
  function Stamps(s: seq<Envelope>): seq<(nat, ReplicaId)> {
    seq(|s|, i requires 0 <= i < |s| => (Wave(s[i].vc), s[i].sender))
  }

  lemma {:induction false} EmittedPrefix(b: seq<seq<Envelope>>, n: nat)
    requires n <= |b|
    ensures Emitted(b[..n]) <= Emitted(b)
  {
    if n < |b| {
      var c := b[..|b| - 1];
      EmittedPrefix(c, n);
      assert c[..n] == b[..n];
    } else {
      assert b[..n] == b;
    }
  }

  /** Batch lists that agree in their stamps give emitted sequences that do. */
  lemma {:induction false} StampsOfEmitted(a: seq<seq<Envelope>>, b: seq<seq<Envelope>>)
    requires |a| == |b| && forall n :: 0 <= n < |a| ==> Stamps(a[n]) == Stamps(b[n])
    ensures Stamps(Emitted(a)) == Stamps(Emitted(b))
  {
    if a != [] {
      var n := |a| - 1;
      StampsOfEmitted(a[..n], b[..n]);
      assert Stamps(Emitted(a)) == Stamps(Emitted(a[..n])) + Stamps(a[n]);
      assert Stamps(Emitted(b)) == Stamps(Emitted(b[..n])) + Stamps(b[n]);
    }
  }

  // ---- sorting by sender determines the stamps ----

  lemma LastSender(a: seq<Envelope>, e: Envelope)
    requires SenderSorted(a) && e in a
    ensures !Less(a[|a| - 1].sender, e.sender)
  {
    LessTrichotomy(e.sender, e.sender);
  }

  /** b without x, the place of x taken by b's last element. */
  lemma DropOne(b: seq<Envelope>, x: Envelope) returns (c: seq<Envelope>)
    requires SenderSorted(b) && NoDuplicates(b) && x in b && x.sender == b[|b| - 1].sender
    ensures SenderSorted(c) && NoDuplicates(c) && |c| == |b| - 1
    ensures forall e :: e in c <==> e in b && e != x
    ensures forall n :: 0 <= n < |c| ==> c[n].sender == b[n].sender
  {
    var m := |b| - 1;
    var p :| 0 <= p <= m && b[p] == x;
    c := if p == m then b[..m] else b[..m][p := b[m]];
    forall e | e in b && e != x ensures e in c {
      var q :| 0 <= q <= m && b[q] == e;
      assert if q == m then c[p] == e else c[q] == e;
    }
  }

  /** Two sender-sorted arrangements of the same messages list the same senders. */
  lemma {:induction false} SameSenders(a: seq<Envelope>, b: seq<Envelope>)
    requires SenderSorted(a) && SenderSorted(b) && NoDuplicates(a) && NoDuplicates(b)
    requires forall e :: e in a <==> e in b
    ensures |a| == |b| && forall n :: 0 <= n < |a| ==> a[n].sender == b[n].sender
    decreases |a|
  {
    SameElementsSameLength(a, b);
    if a != [] {
      var m := |a| - 1;
      var x := a[m];
      assert x in b;
      assert b[|b| - 1] in a;
      LastSender(a, b[|b| - 1]);
      LastSender(b, x);
      LessTrichotomy(x.sender, b[|b| - 1].sender);
      var c := DropOne(b, x);
      NoDuplicatesInit(a);
      SameSenders(a[..m], c);
    }
  }

  lemma SameStamps(a: seq<Envelope>, b: seq<Envelope>, wave: nat)
    requires SenderSorted(a) && SenderSorted(b) && NoDuplicates(a) && NoDuplicates(b)
    requires (forall e :: e in a <==> e in b) && forall e :: e in a ==> Wave(e.vc) == wave
    ensures Stamps(a) == Stamps(b)
  {
    SameSenders(a, b);
    forall n | 0 <= n < |a| ensures Stamps(a)[n] == Stamps(b)[n] {
      assert a[n] in a && b[n] in b;
    }
  }

  /** Agreement: of the (wave, sender) sequences emitted by any two replicas at any two
      times of a run, one is a prefix of the other. */
  lemma TotalAgreement(ms: seq<ReplicaId>, conv: ConversationId, ws: seq<World>, t: nat, i: nat, u: nat, j: nat)
    requires Run(ms, conv, ws) && t < |ws| && u < |ws| && i < |ms| && j < |ms|
    requires |ws[t].reps| == |ms| == |ws[u].reps|
    requires ws[t].reps[i].total.nextWave <= ws[u].reps[j].total.nextWave
    ensures Stamps(Emitted(ws[t].reps[i].total.batches)) <= Stamps(Emitted(ws[u].reps[j].total.batches))
  {
    var a, b := ws[t].reps[i].total.batches, ws[u].reps[j].total.batches;
    RunInv(ms, conv, ws, t);
    RunInv(ms, conv, ws, u);
    assert ReplicaInv(ms, ws[t].net, i, ws[t].reps[i]) && ReplicaInv(ms, ws[u].net, j, ws[u].reps[j]);
    var c := b[..|a|];
    forall n | 0 <= n < |a| ensures Stamps(a[n]) == Stamps(c[n]) {
      SameWaveContents(ms, conv, ws, t, i, u, j, n + 1);
      SameStamps(a[n], c[n], n + 1);
    }
    StampsOfEmitted(a, c);
    EmittedPrefix(b, |a|);
  }

  // ---- when the sort is stable ----

  /** Messages of one sender come out in the order they went in. */
  ghost predicate KeepsOrder(input: seq<Envelope>, out: seq<Envelope>) {
    forall i, j :: 0 <= i < j < |out| && out[i].sender == out[j].sender ==> Precedes(input, out[i], out[j])
  }

  ghost predicate StableStep(ms: seq<ReplicaId>, conv: ConversationId, w: World, w': World) {
    exists step :: NextStep(ms, conv, w, step, w')
      && (step.Drain? ==> KeepsOrder(WaveList(w.reps[step.i].local.history, w.reps[step.i].total.nextWave), step.batch))
  }

  ghost predicate StableStepAt(ms: seq<ReplicaId>, conv: ConversationId, ws: seq<World>, t: nat) {
    t + 1 < |ws| && StableStep(ms, conv, ws[t], ws[t + 1])
  }

  ghost predicate StableRun(ms: seq<ReplicaId>, conv: ConversationId, ws: seq<World>) {
    && Run(ms, conv, ws)
    && forall t: nat {:trigger StableStepAt(ms, conv, ws, t)} :: t + 1 < |ws| ==> StableStepAt(ms, conv, ws, t)
  }

  ghost predicate NumberSorted(ms: seq<ReplicaId>, s: seq<Envelope>) {
    forall i, j :: 0 <= i < j < |s| && s[i].sender == s[j].sender ==> SeqOf(ms, s[i]) < SeqOf(ms, s[j])
  }

  lemma {:induction false} WaveListOrder(h: seq<Envelope>, w: nat, x: Envelope, y: Envelope)
    requires Precedes(WaveList(h, w), x, y)
    ensures Precedes(h, x, y)
  {
    var t, list := h[..|h| - 1], WaveList(h, w);
    var i, j :| 0 <= i < j < |list| && list[i] == x && list[j] == y;
    if j < |WaveList(t, w)| {
      assert WaveList(t, w)[i] == x && WaveList(t, w)[j] == y;
      WaveListOrder(t, w, x, y);
      var a, b :| 0 <= a < b < |t| && t[a] == x && t[b] == y;
      assert h[a] == x && h[b] == y;
    } else {
      WaveListElements(t, w);
      assert WaveList(t, w)[i] == x;
      var a :| 0 <= a < |t| && t[a] == x;
      assert h[a] == x && h[|h| - 1] == y;
    }
  }

  lemma StableBatch(ms: seq<ReplicaId>, h: seq<Envelope>, w: nat, batch: seq<Envelope>)
    requires Causal(ms, h) && KeepsOrder(WaveList(h, w), batch)
    ensures NumberSorted(ms, batch)
  {
    forall i, j | 0 <= i < j < |batch| && batch[i].sender == batch[j].sender
      ensures SeqOf(ms, batch[i]) < SeqOf(ms, batch[j])
    {
      WaveListOrder(h, w, batch[i], batch[j]);
      var a, b :| 0 <= a < b < |h| && h[a] == batch[i] && h[b] == batch[j];
      HistoryFifo(ms, h, a, b);
    }
  }

  ghost predicate AllNumberSorted(ms: seq<ReplicaId>, r: Replica) {
    forall n :: 0 <= n < |r.total.batches| ==> NumberSorted(ms, r.total.batches[n])
  }

  lemma DrainSorted(ms: seq<ReplicaId>, r: Replica, batch: seq<Envelope>, r': Replica)
    requires Causal(ms, r.local.history) && AllNumberSorted(ms, r)
    requires KeepsOrder(WaveList(r.local.history, r.total.nextWave), batch)
    requires r'.total.batches == r.total.batches + [batch]
    ensures AllNumberSorted(ms, r')
  {
    StableBatch(ms, r.local.history, r.total.nextWave, batch);
  }

  lemma StableStepSorted(ms: seq<ReplicaId>, conv: ConversationId, ws: seq<World>, t: nat, i: nat)
    requires StableRun(ms, conv, ws) && t + 1 < |ws| && i < |ms| && |ws[t].reps| == |ms|
    requires Causal(ms, ws[t].reps[i].local.history) && AllNumberSorted(ms, ws[t].reps[i])
    ensures |ws[t + 1].reps| == |ms| && AllNumberSorted(ms, ws[t + 1].reps[i])
  {
    var w, w', at := ws[t], ws[t + 1], StableStepAt(ms, conv, ws, t);
    var step :| NextStep(ms, conv, w, step, w')
      && (step.Drain? ==>
            KeepsOrder(WaveList(w.reps[step.i].local.history, w.reps[step.i].total.nextWave), step.batch));
    if step.Drain? && step.i == i {
      DrainSorted(ms, w.reps[i], step.batch, w'.reps[i]);
    } else {
      assert w'.reps[i].total.batches == w.reps[i].total.batches || w'.reps[i].total.batches == [];
    }
  }

  lemma {:induction false} StableBatches(ms: seq<ReplicaId>, conv: ConversationId, ws: seq<World>, t: nat, i: nat)
    requires StableRun(ms, conv, ws) && t < |ws| && i < |ms|
    ensures |ws[t].reps| == |ms| && AllNumberSorted(ms, ws[t].reps[i])
  {
    if t > 0 {
      StableBatches(ms, conv, ws, t - 1, i);
      RunInv(ms, conv, ws, t - 1);
      assert ReplicaInv(ms, ws[t - 1].net, i, ws[t - 1].reps[i]);
      StableStepSorted(ms, conv, ws, t - 1, i);
    }
  }

  ghost predicate Before(ms: seq<ReplicaId>, x: Envelope, y: Envelope) {
    Less(x.sender, y.sender) || (x.sender == y.sender && SeqOf(ms, x) < SeqOf(ms, y))
  }

  lemma LastIsLast(ms: seq<ReplicaId>, a: seq<Envelope>, e: Envelope)
    requires SenderSorted(a) && NumberSorted(ms, a) && e in a && e != a[|a| - 1]
    ensures Before(ms, e, a[|a| - 1]) && !Before(ms, a[|a| - 1], e)
  {
    LessTrichotomy(e.sender, a[|a| - 1].sender);
  }

  /** Sender and number order leave one arrangement only. */
  lemma {:induction false} SortedEqual(ms: seq<ReplicaId>, a: seq<Envelope>, b: seq<Envelope>)
    requires SenderSorted(a) && SenderSorted(b) && NumberSorted(ms, a) && NumberSorted(ms, b)
    requires NoDuplicates(a) && NoDuplicates(b) && |a| == |b| && forall e :: e in a <==> e in b
    ensures a == b
  {
    if a != [] {
      var m := |a| - 1;
      assert a[m] in b && b[m] in a;
      if a[m] != b[m] {
        LastIsLast(ms, a, b[m]);
        LastIsLast(ms, b, a[m]);
      }
      NoDuplicatesInit(a);
      NoDuplicatesInit(b);
      assert a[m] == b[m];
      forall e ensures e in a[..m] <==> e in b[..m] {
        assert e in a[..m] <==> e in a && e != a[m];
        assert e in b[..m] <==> e in b && e != b[m];
      }
      SortedEqual(ms, a[..m], b[..m]);
      assert a == a[..m] + [a[m]] && b == b[..m] + [b[m]];
    }
  }

  lemma {:induction false} SameBatches(a: seq<seq<Envelope>>, b: seq<seq<Envelope>>)
    requires |a| == |b| && forall n :: 0 <= n < |a| ==> a[n] == b[n]
    ensures Emitted(a) == Emitted(b)
  {
    assert a == b;
  }

  /** With a stable sort the message sequences themselves agree: of any two, one is a
      prefix of the other. */
  lemma StableTotalAgreement(ms: seq<ReplicaId>, conv: ConversationId, ws: seq<World>, t: nat, i: nat, u: nat, j: nat)
    requires StableRun(ms, conv, ws) && t < |ws| && u < |ws| && i < |ms| && j < |ms|
    requires |ws[t].reps| == |ms| == |ws[u].reps|
    requires ws[t].reps[i].total.nextWave <= ws[u].reps[j].total.nextWave
    ensures Emitted(ws[t].reps[i].total.batches) <= Emitted(ws[u].reps[j].total.batches)
  {
    var a, b := ws[t].reps[i].total.batches, ws[u].reps[j].total.batches;
    StableBatches(ms, conv, ws, t, i);
    StableBatches(ms, conv, ws, u, j);
    RunInv(ms, conv, ws, t);
    RunInv(ms, conv, ws, u);
    assert ReplicaInv(ms, ws[t].net, i, ws[t].reps[i]) && ReplicaInv(ms, ws[u].net, j, ws[u].reps[j]);
    var c := b[..|a|];
    forall n | 0 <= n < |a| ensures a[n] == c[n] {
      SameWaveContents(ms, conv, ws, t, i, u, j, n + 1);
      SameSenders(a[n], c[n]);
      SortedEqual(ms, a[n], c[n]);
    }
    SameBatches(a, c);
    EmittedPrefix(b, |a|);
  }

  /** Without stability a wave with two messages of one sender has two valid outcomes. */
  lemma UnstableSortIsOpen(x: Envelope, y: Envelope)
    requires x.sender == y.sender && x != y
    ensures IsSort([x, y], [x, y]) && IsSort([x, y], [y, x]) && [x, y] != [y, x]
  {
    LessTrichotomy(x.sender, y.sender);
    assert [x, y][0] == x && [y, x][0] == y;
  }

  // ---- causality and the emitted order ----

  /** If m2 has been emitted, every causal predecessor m1 has been emitted too, in the
      same wave or an earlier one. */
  lemma PredecessorEmitted(ms: seq<ReplicaId>, conv: ConversationId, ws: seq<World>, t: nat, i: nat, m1: Envelope,
                           m2: Envelope)
    requires Run(ms, conv, ws) && t < |ws| && i < |ms| && |ws[t].reps| == |ms|
    requires m1 in ws[t].net && m2 in ws[t].net && HappensBefore(m1.vc, m2.vc)
    requires 1 <= Wave(m2.vc) < ws[t].reps[i].total.nextWave
    ensures 1 <= Wave(m1.vc) <= Wave(m2.vc) <= |ws[t].reps[i].total.batches|
    ensures m2 in ws[t].reps[i].total.batches[Wave(m2.vc) - 1]
    ensures m1 in ws[t].reps[i].total.batches[Wave(m1.vc) - 1]
  {
    assert Wave(m1.vc) >= 1 by {
      RunInv(ms, conv, ws, t);
      assert Stamped(ms, m1);
    }
    WaveMonotone(m1.vc, m2.vc);
    NoStranding(ms, conv, ws, t, t, i, Wave(m2.vc));
    NoStranding(ms, conv, ws, t, t, i, Wave(m1.vc));
  }

  /** Waves never go down along s, and inside a wave senders do not. */
  ghost predicate StampSorted(s: seq<Envelope>) {
    forall p, q :: 0 <= p < q < |s| ==> InOrder(s[p], s[q])
  }

  predicate InOrder(x: Envelope, y: Envelope) {
    Wave(x.vc) < Wave(y.vc) || (Wave(x.vc) == Wave(y.vc) && !Less(y.sender, x.sender))
  }

  ghost predicate IsBatch(batch: seq<Envelope>, wave: nat) {
    SenderSorted(batch) && forall e :: e in batch ==> Wave(e.vc) == wave
  }

  lemma {:induction false} EmittedSorted(b: seq<seq<Envelope>>)
    requires forall n :: 0 <= n < |b| ==> IsBatch(b[n], n + 1)
    ensures StampSorted(Emitted(b)) && forall e :: e in Emitted(b) ==> Wave(e.vc) <= |b|
  {
    if b != [] {
      var n := |b| - 1;
      EmittedSorted(b[..n]);
      assert IsBatch(b[n], n + 1);
      assert forall q :: 0 <= q < |b[n]| ==> b[n][q] in b[n];
      assert forall p :: 0 <= p < |Emitted(b[..n])| ==> Emitted(b[..n])[p] in Emitted(b[..n]);
    }
  }

  lemma {:induction false} EmittedHas(b: seq<seq<Envelope>>, n: nat, e: Envelope)
    requires n < |b| && e in b[n]
    ensures e in Emitted(b)
  {
    if n < |b| - 1 { EmittedHas(b[..|b| - 1], n, e); }
  }

  lemma PrecedesByStamp(s: seq<Envelope>, x: Envelope, y: Envelope)
    requires StampSorted(s) && x in s && y in s && x.sender != y.sender
    ensures Precedes(s, x, y) <==> Wave(x.vc) < Wave(y.vc) || (Wave(x.vc) == Wave(y.vc) && Less(x.sender, y.sender))
  {
    LessTrichotomy(x.sender, y.sender);
    var p, q :| 0 <= p < |s| && 0 <= q < |s| && s[p] == x && s[q] == y;
    assert p < q ==> InOrder(s[p], s[q]);
    assert q < p ==> InOrder(s[q], s[p]);
  }

  lemma OutputSorted(ms: seq<ReplicaId>, conv: ConversationId, ws: seq<World>, t: nat, i: nat)
    requires Run(ms, conv, ws) && t < |ws| && i < |ms| && |ws[t].reps| == |ms|
    ensures StampSorted(Emitted(ws[t].reps[i].total.batches))
  {
    var b := ws[t].reps[i].total.batches;
    forall n | 0 <= n < |b| ensures IsBatch(b[n], n + 1) {
      RunInv(ms, conv, ws, t);
      assert ReplicaInv(ms, ws[t].net, i, ws[t].reps[i]);
      NoStranding(ms, conv, ws, t, t, i, n + 1);
    }
    EmittedSorted(b);
  }

  /** Where causality shows in the output: of two emitted messages by different senders, the
      causally earlier one is emitted first exactly when its wave is lower or its sender
      smaller. */
  lemma CausalOrderInOutput(ms: seq<ReplicaId>, conv: ConversationId, ws: seq<World>, t: nat, i: nat,
                            m1: Envelope, m2: Envelope)
    requires Run(ms, conv, ws) && t < |ws| && i < |ms| && |ws[t].reps| == |ms|
    requires m1 in ws[t].net && m2 in ws[t].net && HappensBefore(m1.vc, m2.vc) && m1.sender != m2.sender
    requires 1 <= Wave(m2.vc) < ws[t].reps[i].total.nextWave
    ensures
      Precedes(Emitted(ws[t].reps[i].total.batches), m1, m2) <==>
        Wave(m1.vc) < Wave(m2.vc) || Less(m1.sender, m2.sender)
  {
    var b := ws[t].reps[i].total.batches;
    PredecessorEmitted(ms, conv, ws, t, i, m1, m2);
    EmittedHas(b, Wave(m1.vc) - 1, m1);
    EmittedHas(b, Wave(m2.vc) - 1, m2);
    OutputSorted(ms, conv, ws, t, i);
    PrecedesByStamp(Emitted(b), m1, m2);
  }
}
