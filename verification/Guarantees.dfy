/** What the causal multicast layer guarantees in every run: vector clocks are exactly
    causality, stability is knowledge, identities survive crashes, waves have no gaps,
    and the delivered set is the retry fixpoint of what was received. */
module Guarantees {
  import opened Basics
  import opened Vectors
  import opened Causality
  import opened Protocol
  import opened World
  import opened Preservation
  import opened Fixpoint

  // ---- monotonicity over runs ----

  lemma NextLog(ms: seq<ReplicaId>, conv: ConversationId, w: World, step: Step, w': World, i: nat)
    requires NextStep(ms, conv, w, step, w') && i < |ms|
    ensures |w'.reps| == |ms| && w.reps[i].local.log <= w'.reps[i].local.log && w.net <= w'.net
  {
    match step
    case Send(j, payload) =>
    case Receive(j, e) =>
    case Observe(j) =>
    case Drain(j, batch) =>
    case Crash(j) =>
    case ReplayLog(j, redeliver) =>
    case Redeliver(j) =>
  }

  lemma NextGrows(ms: seq<ReplicaId>, conv: ConversationId, ws: seq<World>, t: nat)
    requires Run(ms, conv, ws) && t + 1 < |ws| && |ws[t].reps| == |ms|
    ensures ws[t].net <= ws[t + 1].net && |ws[t + 1].reps| == |ms|
    ensures forall i: nat :: i < |ms| ==> Keys(ms, ws[t].reps[i].local.log) <= Keys(ms, ws[t + 1].reps[i].local.log)
  {
    var step := TakeStep(ms, conv, ws, t);
    NextLog(ms, conv, ws[t], step, ws[t + 1], step.i);
    forall i: nat | i < |ms| ensures Keys(ms, ws[t].reps[i].local.log) <= Keys(ms, ws[t + 1].reps[i].local.log) {
      NextLog(ms, conv, ws[t], step, ws[t + 1], i);
      var a, b := ws[t].reps[i].local.log, ws[t + 1].reps[i].local.log;
      assert forall e :: e in a ==> e in b;
    }
  }

  /** Neither the network nor any log ever loses a message; a graph has at any time what it
      had before as soon as its log has been replayed. */
  lemma {:induction false} RunGrows(ms: seq<ReplicaId>, conv: ConversationId, ws: seq<World>, t: nat, u: nat)
    requires Run(ms, conv, ws) && t <= u < |ws|
    ensures |ws[t].reps| == |ms| == |ws[u].reps|
    ensures ws[t].net <= ws[u].net
    ensures forall i: nat :: i < |ms| ==> Keys(ms, ws[t].reps[i].local.log) <= Keys(ms, ws[u].reps[i].local.log)
    decreases u - t
  {
    RunInv(ms, conv, ws, t);
    RunInv(ms, conv, ws, u);
    if t < u {
      NextGrows(ms, conv, ws, t);
      RunGrows(ms, conv, ws, t + 1, u);
    }
  }

  lemma GraphGrows(ms: seq<ReplicaId>, conv: ConversationId, ws: seq<World>, t: nat, u: nat, i: nat)
    requires Run(ms, conv, ws) && t <= u < |ws| && i < |ms|
    ensures |ws[t].reps| == |ms| == |ws[u].reps|
    ensures ws[t].reps[i].local.nodes.Keys <= Durable(ms, ws[u].reps[i]).Keys
    ensures ws[u].reps[i].ready ==> ws[t].reps[i].local.nodes.Keys <= ws[u].reps[i].local.nodes.Keys
  {
    RunInv(ms, conv, ws, t);
    RunInv(ms, conv, ws, u);
    RunGrows(ms, conv, ws, t, u);
    DurableNodes(ms, ws[t], i);
    DurableNodes(ms, ws[u], i);
  }

  /** Across any number of crashes, no replica ever sends two different envelopes under
      one sequence number. */
  lemma IdentityIsUnique(ms: seq<ReplicaId>, conv: ConversationId, ws: seq<World>, t: nat, u: nat, e: Envelope,
                         g: Envelope)
    requires Run(ms, conv, ws) && t < |ws| && u < |ws| && e in ws[t].net && g in ws[u].net
    requires KeyOf(ms, e) == KeyOf(ms, g)
    ensures e == g
  {
    var last := if t <= u then u else t;
    RunGrows(ms, conv, ws, t, last);
    RunGrows(ms, conv, ws, u, last);
    RunInv(ms, conv, ws, last);
  }

  // ---- vector clocks are causality ----

  /** Whatever an envelope's clock covers stands before it in any causal history. */
  lemma CoveredEarlier(ms: seq<ReplicaId>, h: seq<Envelope>, j: nat, k: Key)
    requires Causal(ms, h) && j < |h| && Covers(ms, h[j], k) && k.num > 0 && k != KeyOf(ms, h[j])
    ensures exists i :: 0 <= i < j && KeyOf(ms, h[i]) == k
  {
    var e := h[j];
    var before := Index(ms, h[..j]);
    CausalPrefix(ms, h, j);
    CausalIsClosed(ms, h[..j]);
    var s := SlotOf(ms, k.sender);
    var p := Key(ms[s], Required(ms, e, s));
    assert p in Parents(ms, e);
    Contiguous(ms, before, p, k.num);
    IndexValues(ms, h[..j]);
    var i :| 0 <= i < j && h[..j][i] == before[k];
  }

  /** A log, repeats left out, is a causal history of the graph it stands for. */
  lemma LogHistory(ms: seq<ReplicaId>, log: seq<Envelope>) returns (h: seq<Envelope>)
    requires Grounded(ms, log) && UniqueKeys(ms, Elements(log))
    ensures Causal(ms, h) && Index(ms, h) == Index(ms, log)
  {
    h := [] + Replayed(ms, Index(ms, []), log);
    ReplayCausal(ms, [], log);
    ReplayReaches(ms, map[], log);
    ReplayValues(ms, map[], log);
    IndexValues(ms, log);
    KeysIndex(ms, log);
    forall k | k in Index(ms, h) ensures Index(ms, h)[k] == Index(ms, log)[k] {
      assert Index(ms, h)[k] in Elements(log) && Index(ms, log)[k] in Elements(log);
    }
  }

  lemma DurableHistory(ms: seq<ReplicaId>, w: World, i: nat) returns (h: seq<Envelope>)
    requires Inv(ms, w) && i < |ms|
    ensures Causal(ms, h) && Index(ms, h) == Durable(ms, w.reps[i])
  {
    assert ReplicaInv(ms, w.net, i, w.reps[i]);
    h := LogHistory(ms, w.reps[i].local.log);
  }

  /** Two different messages never cover each other. */
  lemma CoversAsymmetric(ms: seq<ReplicaId>, w: World, a: Envelope, b: Envelope)
    requires Inv(ms, w) && a in w.net && b in w.net && a != b
    requires Covers(ms, a, KeyOf(ms, b))
    ensures !Covers(ms, b, KeyOf(ms, a))
  {
    if Covers(ms, b, KeyOf(ms, a)) {
      var s := SlotOf(ms, a.sender);
      var h := DurableHistory(ms, w, s);
      assert ReplicaInv(ms, w.net, s, w.reps[s]);
      DurableNodes(ms, w, s);
      IndexValues(ms, h);
      var p :| 0 <= p < |h| && h[p] == Index(ms, h)[KeyOf(ms, a)];
      assert h[p] == a;
      CoveredEarlier(ms, h, p, KeyOf(ms, b));
      var q :| 0 <= q < p && KeyOf(ms, h[q]) == KeyOf(ms, b);
      CausalLookup(ms, h, q);
      CoveredEarlier(ms, h, q, KeyOf(ms, a));
      var r :| 0 <= r < q && KeyOf(ms, h[r]) == KeyOf(ms, a);
      CausalNoDuplicates(ms, h, r, p);
    }
  }

  /** m1 was in its sender's graph when m2 was sent, exactly when m1's clock happens
      before m2's, exactly when m2's clock reaches m1's number at m1's slot. */
  lemma VectorClockTheorem(ms: seq<ReplicaId>, conv: ConversationId, ws: seq<World>, t: nat, m1: Envelope, m2: Envelope)
    requires Run(ms, conv, ws) && t < |ws|
    requires m1 in ws[t].net && m2 in ws[t].net && m1 != m2
    ensures KeyOf(ms, m2) in ws[t].past && SlotOf(ms, m1.sender) >= 0
    ensures KeyOf(ms, m1) in ws[t].past[KeyOf(ms, m2)] <==> HappensBefore(m1.vc, m2.vc)
    ensures HappensBefore(m1.vc, m2.vc) <==> SeqOf(ms, m1) <= At(m2.vc, SlotOf(ms, m1.sender))
  {
    RunInv(ms, conv, ws, t);
    var k1, k2 := KeyOf(ms, m1), KeyOf(ms, m2);
    assert Covers(ms, m2, k1) <==> SeqOf(ms, m1) <= At(m2.vc, SlotOf(ms, m1.sender));
    if Covers(ms, m2, k1) {
      CoversAsymmetric(ms, ws[t], m2, m1);
      var s := SlotOf(ms, m2.sender);
      assert At(m2.vc, s) > At(m1.vc, s);
    }
  }

  /** Hence two different messages are concurrent exactly when neither was known to the
      other's sender. */
  lemma ConcurrencyTheorem(ms: seq<ReplicaId>, conv: ConversationId, ws: seq<World>, t: nat, m1: Envelope, m2: Envelope)
    requires Run(ms, conv, ws) && t < |ws|
    requires m1 in ws[t].net && m2 in ws[t].net && m1 != m2
    ensures KeyOf(ms, m1) in ws[t].past && KeyOf(ms, m2) in ws[t].past
    ensures Concurrent(m1.vc, m2.vc)
       <==> KeyOf(ms, m1) !in ws[t].past[KeyOf(ms, m2)] && KeyOf(ms, m2) !in ws[t].past[KeyOf(ms, m1)]
  {
    VectorClockTheorem(ms, conv, ws, t, m1, m2);
    VectorClockTheorem(ms, conv, ws, t, m2, m1);
    ClockTetrachotomy(m1.vc, m2.vc);
  }

  // ---- stability is knowledge ----

  /** What a member acknowledges, it has. */
  lemma AcknowledgedIsDurable(ms: seq<ReplicaId>, w: World, i: nat, j: nat, k: Key)
    requires Inv(ms, w) && i < |ms| && j < |ms| && k in w.reps[i].local.nodes
    requires ms[j] == k.sender || Acknowledges(ms, w.reps[i].local.nodes, ms[j], k)
    ensures k in Durable(ms, w.reps[j])
  {
    var mine, theirs := w.reps[i].local.nodes, Durable(ms, w.reps[j]);
    NodesClosed(ms, w, i);
    DurableNodes(ms, w, j);
    assert ReplicaInv(ms, w.net, i, w.reps[i]) && ReplicaInv(ms, w.net, j, w.reps[j]);
    assert KeyOf(ms, mine[k]) == k;
    if ms[j] != k.sender {
      var f := Key(ms[j], Latest(mine, ms[j]));
      assert KeyOf(ms, mine[f]) == f && f in theirs && KeyOf(ms, theirs[f]) == f;
      assert Stamped(ms, mine[k]);
      CoveredIsPresent(ms, theirs, f, SlotOf(ms, k.sender), k.num);
    }
  }

  /** Stability in terms of causality: k is stable exactly when every other member is known to
      have sent a message after it. */
  lemma StableExactly(ms: seq<ReplicaId>, conv: ConversationId, ws: seq<World>, t: nat, i: nat, k: Key)
    requires Run(ms, conv, ws) && t < |ws| && i < |ms| && |ws[t].reps| == |ms| && k in ws[t].reps[i].local.nodes
    ensures
      var nodes := ws[t].reps[i].local.nodes;
      IsStable(ms, nodes, k) <==> forall r :: r in ms && r != k.sender ==> Followed(nodes, k, r)
  {
    var nodes := ws[t].reps[i].local.nodes;
    forall r | r in ms && r != k.sender ensures Acknowledges(ms, nodes, r, k) <==> Followed(nodes, k, r) {
      AcknowledgesExactly(ms, conv, ws, t, i, k, r);
    }
    assert forall j: nat :: j < |ms| ==> ms[j] in ms;
  }

  /** So a wave is complete exactly when some message of it has, of every other member, a
      message after it. */
  lemma CompleteExactly(ms: seq<ReplicaId>, conv: ConversationId, ws: seq<World>, t: nat, i: nat, w: nat)
    requires Run(ms, conv, ws) && t < |ws| && i < |ms| && |ws[t].reps| == |ms|
    ensures
      var nodes := ws[t].reps[i].local.nodes;
      WaveComplete(ms, nodes, w) <==>
        exists k :: k in nodes && Wave(nodes[k].vc) == w
                    && forall r :: r in ms && r != k.sender ==> Followed(nodes, k, r)
  {
    var nodes := ws[t].reps[i].local.nodes;
    forall k | k in nodes
      ensures IsStable(ms, nodes, k) <==> forall r :: r in ms && r != k.sender ==> Followed(nodes, k, r)
    {
      StableExactly(ms, conv, ws, t, i, k);
    }
  }

  /** r has a message after k in the graph. */
  ghost predicate Followed(nodes: Nodes, k: Key, r: ReplicaId)
    requires k in nodes
  {
    exists g :: g in nodes && g.sender == r && HappensBefore(nodes[k].vc, nodes[g].vc)
  }

  lemma AcknowledgesExactly(ms: seq<ReplicaId>, conv: ConversationId, ws: seq<World>, t: nat, i: nat, k: Key,
                            r: ReplicaId)
    requires Run(ms, conv, ws) && t < |ws| && i < |ms| && |ws[t].reps| == |ms| && k in ws[t].reps[i].local.nodes
    requires r != k.sender
    ensures Acknowledges(ms, ws[t].reps[i].local.nodes, r, k) <==> Followed(ws[t].reps[i].local.nodes, k, r)
  {
    var nodes := ws[t].reps[i].local.nodes;
    var n := Latest(nodes, r);
    NodeFacts(ms, conv, ws, t, i, k);
    if n > 0 {
      NodeFacts(ms, conv, ws, t, i, Key(r, n));
      VectorClockTheorem(ms, conv, ws, t, nodes[k], nodes[Key(r, n)]);
    }
    if g :| g in nodes && g.sender == r && HappensBefore(nodes[k].vc, nodes[g].vc) {
      NodeFacts(ms, conv, ws, t, i, g);
      VectorClockTheorem(ms, conv, ws, t, nodes[k], nodes[g]);
      RunInv(ms, conv, ws, t);
      assert Covers(ms, nodes[Key(r, n)], g);
      assert Leq(nodes[g].vc, nodes[Key(r, n)].vc);
    }
  }

  lemma NodeFacts(ms: seq<ReplicaId>, conv: ConversationId, ws: seq<World>, t: nat, i: nat, k: Key)
    requires Run(ms, conv, ws) && t < |ws| && i < |ms| && |ws[t].reps| == |ms| && k in ws[t].reps[i].local.nodes
    ensures
      var e := ws[t].reps[i].local.nodes[k];
      e in ws[t].net && KeyOf(ms, e) == k && k.num > 0 && SlotOf(ms, k.sender) >= 0
  {
    RunInv(ms, conv, ws, t);
    assert ReplicaInv(ms, ws[t].net, i, ws[t].reps[i]);
    NodesClosed(ms, ws[t], i);
  }

  /** If any replica finds k stable, every member already has it: in its log, and in its
      graph unless it has restarted and not replayed its log yet. */
  lemma StableMeansKnown(ms: seq<ReplicaId>, conv: ConversationId, ws: seq<World>, t: nat, i: nat, j: nat, k: Key)
    requires Run(ms, conv, ws) && t < |ws| && i < |ms| && j < |ms|
    requires |ws[t].reps| == |ms| && IsStable(ms, ws[t].reps[i].local.nodes, k)
    ensures k in Durable(ms, ws[t].reps[j])
    ensures Durable(ms, ws[t].reps[j])[k] == ws[t].reps[i].local.nodes[k]
    ensures ws[t].reps[j].ready ==>
      k in ws[t].reps[j].local.nodes && ws[t].reps[j].local.nodes[k] == ws[t].reps[i].local.nodes[k]
  {
    RunInv(ms, conv, ws, t);
    AcknowledgedIsDurable(ms, ws[t], i, j, k);
    DurableNodes(ms, ws[t], j);
    NodesClosed(ms, ws[t], i);
    assert ReplicaInv(ms, ws[t].net, i, ws[t].reps[i]);
    assert KeyOf(ms, ws[t].reps[i].local.nodes[k]) == k == KeyOf(ms, Durable(ms, ws[t].reps[j])[k]);
  }

  /** A later graph of the same run acknowledges at least as much. */
  lemma AcknowledgesGrows(ms: seq<ReplicaId>, w: World, nodes: Nodes, nodes': Nodes, r: ReplicaId, k: Key)
    requires NetInv(ms, w.net) && Within(nodes, w.net) && Within(nodes', w.net)
    requires Closed(ms, nodes) && Closed(ms, nodes') && nodes.Keys <= nodes'.Keys
    requires Acknowledges(ms, nodes, r, k)
    ensures Acknowledges(ms, nodes', r, k)
  {
    var f, f' := Key(r, Latest(nodes, r)), Key(r, Latest(nodes', r));
    assert f in nodes' && f'.num >= f.num;
    assert f' in nodes';
    assert KeyOf(ms, nodes[f]) == f && KeyOf(ms, nodes'[f']) == f';
    assert Covers(ms, nodes'[f'], KeyOf(ms, nodes[f]));
    assert Leq(nodes[f].vc, nodes'[f'].vc);
    assert At(nodes[f].vc, SlotOf(ms, k.sender)) <= At(nodes'[f'].vc, SlotOf(ms, k.sender));
  }

  /** Once a replica finds a message stable it finds it stable ever after, as long as its
      graph holds what it held: at the latest when it has replayed its log. */
  lemma StableGrows(ms: seq<ReplicaId>, conv: ConversationId, ws: seq<World>, t: nat, u: nat, i: nat, k: Key)
    requires Run(ms, conv, ws) && t <= u < |ws| && i < |ms| && |ws[t].reps| == |ms| == |ws[u].reps|
    requires IsStable(ms, ws[t].reps[i].local.nodes, k)
    requires ws[t].reps[i].local.nodes.Keys <= ws[u].reps[i].local.nodes.Keys
    ensures IsStable(ms, ws[u].reps[i].local.nodes, k)
  {
    RunGrows(ms, conv, ws, t, u);
    RunInv(ms, conv, ws, t);
    RunInv(ms, conv, ws, u);
    NodesClosed(ms, ws[t], i);
    NodesClosed(ms, ws[u], i);
    assert ReplicaInv(ms, ws[t].net, i, ws[t].reps[i]) && ReplicaInv(ms, ws[u].net, i, ws[u].reps[i]);
    forall j: nat | j < |ms| && ms[j] != k.sender ensures Acknowledges(ms, ws[u].reps[i].local.nodes, ms[j], k) {
      AcknowledgesGrows(ms, ws[u], ws[t].reps[i].local.nodes, ws[u].reps[i].local.nodes, ms[j], k);
    }
  }

  lemma StableForever(ms: seq<ReplicaId>, conv: ConversationId, ws: seq<World>, t: nat, u: nat, i: nat, k: Key)
    requires Run(ms, conv, ws) && t <= u < |ws| && i < |ms| && |ws[t].reps| == |ms| == |ws[u].reps|
    requires IsStable(ms, ws[t].reps[i].local.nodes, k) && ws[u].reps[i].ready
    ensures IsStable(ms, ws[u].reps[i].local.nodes, k)
  {
    GraphGrows(ms, conv, ws, t, u, i);
    StableGrows(ms, conv, ws, t, u, i, k);
  }

  // ---- waves ----

  ghost predicate Monotone(ms: seq<ReplicaId>, h: seq<Envelope>) {
    TransitiveClocks(ms, Elements(h))
  }

  lemma ParentOfHighWave(ms: seq<ReplicaId>, e: Envelope) returns (k: Key)
    requires Distinct(ms) && Stamped(ms, e) && Fits(ms, e) && Wave(e.vc) > 1
    ensures k in Parents(ms, e) && Covers(ms, e, k) && k.num >= Wave(e.vc) - 1
  {
    var i: nat :| i < |e.vc| && At(e.vc, i) == Wave(e.vc);
    k := Key(ms[i], Required(ms, e, i));
    assert k in Parents(ms, e);
    assert SlotOf(ms, k.sender) == i;
  }

  lemma StepDown(ms: seq<ReplicaId>, h: seq<Envelope>, p: nat) returns (q: nat)
    requires Distinct(ms) && Causal(ms, h) && Monotone(ms, h) && p < |h| && Wave(h[p].vc) > 1
    ensures q < p && Covers(ms, h[p], KeyOf(ms, h[q])) && Leq(h[q].vc, h[p].vc)
    ensures Wave(h[p].vc) - 1 <= Wave(h[q].vc) <= Wave(h[p].vc)
  {
    CausalPrefix(ms, h, p);
    var k := ParentOfHighWave(ms, h[p]);
    CausalOrder(ms, h, p, k);
    q :| 0 <= q < p && KeyOf(ms, h[q]) == k;
    WaveMonotone(h[q].vc, h[p].vc);
  }

  /** Below a message of wave W there is, in its causal past, one of wave W - 1. */
  lemma {:induction false} WaveBelow(ms: seq<ReplicaId>, h: seq<Envelope>, p: nat) returns (q: nat)
    requires Distinct(ms) && Causal(ms, h) && Monotone(ms, h) && p < |h| && Wave(h[p].vc) > 1
    ensures q < p && Covers(ms, h[p], KeyOf(ms, h[q])) && Wave(h[q].vc) == Wave(h[p].vc) - 1
    ensures Leq(h[q].vc, h[p].vc)
    decreases p
  {
    q := StepDown(ms, h, p);
    if Wave(h[q].vc) == Wave(h[p].vc) {
      var m := q;
      q := WaveBelow(ms, h, m);
      assert Leq(h[m].vc, h[p].vc);
      forall j: nat ensures At(h[q].vc, j) <= At(h[p].vc, j) {
        assert At(h[q].vc, j) <= At(h[m].vc, j) <= At(h[p].vc, j);
      }
    }
  }

  lemma {:induction false} WaveEveryBelow(ms: seq<ReplicaId>, h: seq<Envelope>, p: nat, v: nat) returns (q: nat)
    requires Distinct(ms) && Causal(ms, h) && Monotone(ms, h) && p < |h| && 1 <= v < Wave(h[p].vc)
    ensures q < p && Covers(ms, h[p], KeyOf(ms, h[q])) && Wave(h[q].vc) == v
    decreases p
  {
    q := WaveBelow(ms, h, p);
    if Wave(h[q].vc) > v {
      var m := q;
      q := WaveEveryBelow(ms, h, m, v);
      var s := SlotOf(ms, h[q].sender);
      assert At(h[m].vc, s) <= At(h[p].vc, s);
    }
  }

  lemma HistorySent(ms: seq<ReplicaId>, w: World, i: nat, e: Envelope)
    requires Inv(ms, w) && i < |ms| && e in w.reps[i].local.history
    ensures e in w.net && KeyOf(ms, e) in w.reps[i].local.nodes && w.reps[i].local.nodes[KeyOf(ms, e)] == e
  {
    var h := w.reps[i].local.history;
    assert ReplicaInv(ms, w.net, i, w.reps[i]);
    var n :| 0 <= n < |h| && h[n] == e;
    CausalLookup(ms, h, n);
  }

  /** A message of wave W at a replica has a message of every lower wave in its causal
      past at that replica, so no wave below a present one is empty. */
  lemma WavesHaveNoGaps(ms: seq<ReplicaId>, conv: ConversationId, ws: seq<World>, t: nat, i: nat, p: nat, v: nat)
    requires Run(ms, conv, ws) && t < |ws| && i < |ms| && |ws[t].reps| == |ms|
    requires p < |ws[t].reps[i].local.history| && 1 <= v < Wave(ws[t].reps[i].local.history[p].vc)
    ensures var h := ws[t].reps[i].local.history;
      && WaveList(h, v) != []
      && exists q :: 0 <= q < p && Wave(h[q].vc) == v && HappensBefore(h[q].vc, h[p].vc)
  {
    var h := ws[t].reps[i].local.history;
    RunInv(ms, conv, ws, t);
    assert ReplicaInv(ms, ws[t].net, i, ws[t].reps[i]);
    forall e | e in h ensures e in ws[t].net {
      HistorySent(ms, ws[t], i, e);
    }
    var q := WaveEveryBelow(ms, h, p, v);
    WaveListElements(h, v);
    assert h[q] in WaveList(h, v);
    VectorClockTheorem(ms, conv, ws, t, h[q], h[p]);
  }

  // ---- convergence ----

  /** A deferred envelope that has all its predecessors and was never told. */
  ghost predicate Stranded(ms: seq<ReplicaId>, s: Local, k: Key) {
    k in s.pending && k !in s.nodes && Parents(ms, s.pending[k]) <= s.nodes.Keys
  }

  lemma GraphSaturated(ms: seq<ReplicaId>, w: World, i: nat)
    requires Inv(ms, w) && i < |ms|
    ensures Saturated(ms, w.reps[i].got, w.reps[i].local.nodes.Keys) <==>
      forall k :: !Stranded(ms, w.reps[i].local, k)
  {
    var r := w.reps[i];
    assert ReplicaInv(ms, w.net, i, r);
    assert forall e :: e in r.got && KeyOf(ms, e) in r.local.pending ==> r.local.pending[KeyOf(ms, e)] == e;
    if k :| Stranded(ms, r.local, k) {
      assert r.local.pending[k] in r.got && KeyOf(ms, r.local.pending[k]) == k;
    } else {
      forall e | e in r.got && Parents(ms, e) <= r.local.nodes.Keys ensures KeyOf(ms, e) in r.local.nodes.Keys {
        assert !Stranded(ms, r.local, KeyOf(ms, e));
      }
    }
  }

  lemma HistoryDerives(ms: seq<ReplicaId>, w: World, i: nat)
    requires Inv(ms, w) && i < |ms|
    ensures Derivation(ms, w.reps[i].got, {}, w.reps[i].local.history)
    ensures Keys(ms, w.reps[i].local.history) == w.reps[i].local.nodes.Keys
  {
    var r := w.reps[i];
    var h := r.local.history;
    assert ReplicaInv(ms, w.net, i, r);
    KeysIndex(ms, h);
    forall n | 0 <= n < |h| ensures h[n] in r.got && Parents(ms, h[n]) <= {} + Keys(ms, h[..n]) {
      CausalLookup(ms, h, n);
      CausalPrefix(ms, h, n);
      KeysIndex(ms, h[..n]);
    }
  }

  /** Whatever the arrival order and however often envelopes were repeated, a replica's
      graph is the retry fixpoint of the envelopes it received, sent or replayed, exactly
      when no deferred envelope was stranded by a replay. */
  lemma DeliveredIsRetry(ms: seq<ReplicaId>, conv: ConversationId, ws: seq<World>, t: nat, i: nat)
    requires Run(ms, conv, ws) && t < |ws| && i < |ms|
    ensures |ws[t].reps| == |ms|
    ensures ws[t].reps[i].local.nodes.Keys <= Retry(ms, ws[t].reps[i].got, {})
    ensures ws[t].reps[i].local.nodes.Keys == Retry(ms, ws[t].reps[i].got, {})
      <==> forall k :: !Stranded(ms, ws[t].reps[i].local, k)
  {
    RunInv(ms, conv, ws, t);
    var r := ws[t].reps[i];
    GraphSaturated(ms, ws[t], i);
    HistoryDerives(ms, ws[t], i);
    DerivationIsBelow(ms, r.got, {}, r.local.history, Retry(ms, r.got, {}));
    if forall k :: !Stranded(ms, r.local, k) {
      DerivationIsRetry(ms, r.got, {}, r.local.history);
      assert {} + Keys(ms, r.local.history) == r.local.nodes.Keys;
    }
  }

  /** Nothing is stranded as long as nothing is stuck. */
  lemma NothingStuck(ms: seq<ReplicaId>, conv: ConversationId, ws: seq<World>, t: nat, i: nat, k: Key)
    requires Run(ms, conv, ws) && t < |ws| && i < |ms| && |ws[t].reps| == |ms| && ws[t].reps[i].local.stuck == {}
    ensures !Stranded(ms, ws[t].reps[i].local, k)
  {
    RunInv(ms, conv, ws, t);
    var s := ws[t].reps[i].local;
    assert ReplicaInv(ms, ws[t].net, i, ws[t].reps[i]);
    if k in s.pending {
      assert s.pending[k] in ws[t].net;
      assert Waiting(ms, s.nodes, s.pending, s.stuck, k);
    }
  }

  /** A replay leaves something stuck exactly when a deferred envelope waits for a logged
      message: what a replica could check before it replays. */
  lemma ReplayStrands(ms: seq<ReplicaId>, w: World, i: nat, redeliver: bool, w': World)
    requires Inv(ms, w) && i < |ms| && ReplayAt(ms, w, i, redeliver, w') && w.reps[i].local.stuck == {}
    ensures var s := w.reps[i].local;
      w'.reps[i].local.stuck == {} <==>
        forall k, n :: k in s.pending && n in Parents(ms, s.pending[k]) && n !in s.nodes ==> n !in Keys(ms, s.log)
  {
    var s, s' := w.reps[i].local, w'.reps[i].local;
    assert ReplicaInv(ms, w.net, i, w.reps[i]);
    ReplayLocal(ms, w, i, redeliver, w');
    forall k | k in s.pending ensures Fits(ms, s.pending[k]) {
      assert s.pending[k] in w.net;
    }
    if k, n :| k in s.pending && n in Parents(ms, s.pending[k]) && n !in s.nodes && n in Keys(ms, s.log) {
      assert (k, n) in s'.stuck;
    }
  }

  /** Once the log has been replayed it holds exactly the graph. */
  lemma ReplayedKeys(ms: seq<ReplicaId>, conv: ConversationId, ws: seq<World>, t: nat, i: nat)
    requires Run(ms, conv, ws) && t < |ws| && i < |ms| && |ws[t].reps| == |ms| && ws[t].reps[i].ready
    ensures ws[t].reps[i].local.nodes.Keys == Keys(ms, ws[t].reps[i].local.log)
  {
    RunInv(ms, conv, ws, t);
    assert ReplicaInv(ms, ws[t].net, i, ws[t].reps[i]);
  }

  /** No deferred envelope outside the log has all its predecessors in the log: a replica
      could look that up before it replays. */
  ghost predicate NoneReady(ms: seq<ReplicaId>, s: Local) {
    forall k :: k in s.pending && k !in Keys(ms, s.log) ==> !(Parents(ms, s.pending[k]) <= Keys(ms, s.log))
  }

  lemma StrandedOver(ms: seq<ReplicaId>, s: Local, s': Local)
    requires s'.pending == s.pending && s'.nodes.Keys == Keys(ms, s.log)
    ensures NoneReady(ms, s) <==> forall k :: !Stranded(ms, s', k)
  {
    if k :| k in s.pending && k !in Keys(ms, s.log) && Parents(ms, s.pending[k]) <= Keys(ms, s.log) {
      assert Stranded(ms, s', k);
    }
  }

  /** Right after a replay the graph is the retry fixpoint of what the replica received, sent
      or replayed if and only if before it no deferred envelope was ready over the log. */
  lemma ReplayIsRetry(ms: seq<ReplicaId>, conv: ConversationId, ws: seq<World>, t: nat, i: nat, redeliver: bool)
    requires Run(ms, conv, ws) && t + 1 < |ws| && i < |ms| && |ws[t].reps| == |ms| == |ws[t + 1].reps|
    requires ReplayAt(ms, ws[t], i, redeliver, ws[t + 1])
    ensures ws[t + 1].reps[i].local.nodes.Keys == Retry(ms, ws[t + 1].reps[i].got, {}) <==>
      NoneReady(ms, ws[t].reps[i].local)
  {
    DeliveredIsRetry(ms, conv, ws, t + 1, i);
    ReplayedKeys(ms, conv, ws, t + 1, i);
    StrandedOver(ms, ws[t].reps[i].local, ws[t + 1].reps[i].local);
  }

  /** Replicas that received the same envelopes, at whatever times, hold the same graph,
      if nothing is stranded at either. */
  lemma SameReceivedSameGraph(ms: seq<ReplicaId>, conv: ConversationId, ws: seq<World>, t: nat, i: nat, u: nat, j: nat)
    requires Run(ms, conv, ws) && t < |ws| && u < |ws| && i < |ms| && j < |ms|
    requires |ws[t].reps| == |ms| == |ws[u].reps| && ws[t].reps[i].got == ws[u].reps[j].got
    requires forall k :: !Stranded(ms, ws[t].reps[i].local, k) && !Stranded(ms, ws[u].reps[j].local, k)
    ensures ws[t].reps[i].local.nodes == ws[u].reps[j].local.nodes
  {
    DeliveredIsRetry(ms, conv, ws, t, i);
    DeliveredIsRetry(ms, conv, ws, u, j);
    var a, b := ws[t].reps[i].local.nodes, ws[u].reps[j].local.nodes;
    forall k | k in a ensures a[k] == b[k] {
      NodeSent(ms, conv, ws, t, i, k);
      NodeSent(ms, conv, ws, u, j, k);
      IdentityIsUnique(ms, conv, ws, t, u, a[k], b[k]);
    }
  }

  lemma NodeSent(ms: seq<ReplicaId>, conv: ConversationId, ws: seq<World>, t: nat, i: nat, k: Key)
    requires Run(ms, conv, ws) && t < |ws| && i < |ms| && |ws[t].reps| == |ms| && k in ws[t].reps[i].local.nodes
    ensures ws[t].reps[i].local.nodes[k] in ws[t].net && KeyOf(ms, ws[t].reps[i].local.nodes[k]) == k
  {
    RunInv(ms, conv, ws, t);
    NodesClosed(ms, ws[t], i);
    assert ReplicaInv(ms, ws[t].net, i, ws[t].reps[i]);
  }
}
