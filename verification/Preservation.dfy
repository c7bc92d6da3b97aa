/** Every step of the system keeps the invariant. */
module Preservation {
  import opened Basics
  import opened Vectors
  import opened Causality
  import opened Protocol
  import opened World

  lemma InitInv(ms: seq<ReplicaId>, w: World)
    requires Distinct(ms) && Init(ms, w)
    ensures Inv(ms, w)
  {
  }

  // ---- send ----

  /** How a new message of member i relates to a message already sent. */
  lemma SendVersus(ms: seq<ReplicaId>, conv: ConversationId, w: World, i: nat, payload: Bytes, g: Envelope)
    requires Inv(ms, w) && i < |ms| && w.reps[i].ready && g in w.net
    ensures var nodes := w.reps[i].local.nodes; var e := Outgoing(ms, conv, nodes, i, payload);
      && KeyOf(ms, g) != KeyOf(ms, e)
      && !Covers(ms, g, KeyOf(ms, e))
      && (Covers(ms, e, KeyOf(ms, g)) <==> KeyOf(ms, g) in nodes)
      && (KeyOf(ms, g) in nodes ==> Leq(g.vc, e.vc))
      && (g.sender == ms[i] ==> Leq(g.vc, e.vc))
  {
    var nodes := w.reps[i].local.nodes;
    var e := Outgoing(ms, conv, nodes, i, payload);
    var k := KeyOf(ms, g);
    OutgoingKey(ms, conv, nodes, i, payload);
    DurableNodes(ms, w, i);
    ClockBound(ms, w, g, i);
    assert ReplicaInv(ms, w.net, i, w.reps[i]);
    var j := SlotOf(ms, g.sender);
    if k in nodes {
      assert nodes[k] == g;
      OutgoingCovers(ms, conv, nodes, i, payload, k);
    }
    if j != i && Covers(ms, e, k) {
      Contiguous(ms, nodes, Key(ms[j], Latest(nodes, ms[j])), k.num);
    }
  }

  /** A message no other covers, and that covers only what it dominates, joins safely. */
  lemma JoinNet(ms: seq<ReplicaId>, net: set<Envelope>, e: Envelope)
    requires NetInv(ms, net) && |e.vc| == |ms| && Stamped(ms, e)
    requires forall g :: g in net ==> KeyOf(ms, g) != KeyOf(ms, e) && !Covers(ms, g, KeyOf(ms, e))
    requires forall g :: g in net && Covers(ms, e, KeyOf(ms, g)) ==> Leq(g.vc, e.vc)
    ensures NetInv(ms, net + {e})
  {
  }

  lemma SendNet(ms: seq<ReplicaId>, conv: ConversationId, w: World, i: nat, payload: Bytes)
    requires Inv(ms, w) && i < |ms| && w.reps[i].ready
    ensures NetInv(ms, w.net + {Outgoing(ms, conv, w.reps[i].local.nodes, i, payload)})
  {
    var e := Outgoing(ms, conv, w.reps[i].local.nodes, i, payload);
    OutgoingKey(ms, conv, w.reps[i].local.nodes, i, payload);
    forall g | g in w.net
      ensures KeyOf(ms, g) != KeyOf(ms, e) && !Covers(ms, g, KeyOf(ms, e))
      ensures Covers(ms, e, KeyOf(ms, g)) ==> Leq(g.vc, e.vc)
    {
      SendVersus(ms, conv, w, i, payload, g);
    }
    JoinNet(ms, w.net, e);
  }

  lemma SendPastOfNew(ms: seq<ReplicaId>, conv: ConversationId, w: World, i: nat, payload: Bytes, k: Key)
    requires Inv(ms, w) && i < |ms| && w.reps[i].ready && k in w.reps[i].local.nodes
    ensures Covers(ms, Outgoing(ms, conv, w.reps[i].local.nodes, i, payload), k)
  {
    NodesClosed(ms, w, i);
    var g := w.reps[i].local.nodes[k];
    assert ReplicaInv(ms, w.net, i, w.reps[i]);
    SendVersus(ms, conv, w, i, payload, g);
  }

  lemma SendPast(ms: seq<ReplicaId>, conv: ConversationId, w: World, i: nat, payload: Bytes, w': World)
    requires Inv(ms, w) && i < |ms| && SendTo(ms, conv, w, i, payload, w')
    ensures PastInv(ms, w')
  {
    var nodes := w.reps[i].local.nodes;
    var e := Outgoing(ms, conv, nodes, i, payload);
    var key := KeyOf(ms, e);
    OutgoingAdmissible(ms, conv, nodes, i, payload);
    forall k | k in nodes ensures Covers(ms, e, k) {
      SendPastOfNew(ms, conv, w, i, payload, k);
    }
    forall g | g in w.net
      ensures KeyOf(ms, g) != key && !Covers(ms, g, key)
      ensures Covers(ms, e, KeyOf(ms, g)) <==> KeyOf(ms, g) in nodes
    {
      SendVersus(ms, conv, w, i, payload, g);
    }
    forall g | g in w'.net
      ensures KeyOf(ms, g) in w'.past
      ensures forall k :: k in w'.past[KeyOf(ms, g)] ==> Covers(ms, g, k)
      ensures forall h :: h in w'.net ==>
        (KeyOf(ms, h) in w'.past[KeyOf(ms, g)] <==> h != g && Covers(ms, g, KeyOf(ms, h)))
    {
      if g == e {
        assert w'.past[key] == nodes.Keys;
      } else {
        assert w'.past[KeyOf(ms, g)] == w.past[KeyOf(ms, g)];
      }
    }
  }

  /** A sealed wave gains no message. */
  lemma SendBeyondSealed(ms: seq<ReplicaId>, conv: ConversationId, w: World, i: nat, payload: Bytes, wave: nat)
    requires Inv(ms, w) && i < |ms| && w.reps[i].ready && Sealed(ms, w.net, wave)
    ensures Wave(Outgoing(ms, conv, w.reps[i].local.nodes, i, payload).vc) > wave
  {
    assert SentBeyond(w.net, ms[i], wave);
    var g :| g in w.net && g.sender == ms[i] && Wave(g.vc) > wave;
    SendVersus(ms, conv, w, i, payload, g);
    WaveMonotone(g.vc, Outgoing(ms, conv, w.reps[i].local.nodes, i, payload).vc);
  }

  lemma GrowBatches(ms: seq<ReplicaId>, net: set<Envelope>, e: Envelope, r: Replica)
    requires OrderingInv(ms, net, r)
    requires forall w :: Sealed(ms, net, w) ==> Wave(e.vc) > w
    ensures OrderingInv(ms, net + {e}, r)
  {
    forall w | 1 <= w < r.total.nextWave
      ensures Sealed(ms, net + {e}, w) && IsWaveBatch(net + {e}, w, r.total.batches[w - 1])
    {
      assert Sealed(ms, net, w) && IsWaveBatch(net, w, r.total.batches[w - 1]);
      forall m | m in ms ensures SentBeyond(net + {e}, m, w) {
        assert SentBeyond(net, m, w);
        var g :| g in net && g.sender == m && Wave(g.vc) > w;
        assert g in net + {e};
      }
    }
  }

  /** Another member's message leaves a replica's invariant in place. */
  lemma SendOthers(ms: seq<ReplicaId>, net: set<Envelope>, e: Envelope, j: nat, r: Replica)
    requires j < |ms| && ReplicaInv(ms, net, j, r) && e.sender != ms[j]
    requires forall w :: Sealed(ms, net, w) ==> Wave(e.vc) > w
    ensures ReplicaInv(ms, net + {e}, j, r)
  {
    GrowBatches(ms, net, e, r);
  }

  /** Growing the graph and the deliveries leaves the ordering state consistent. */
  lemma GrowNodes(ms: seq<ReplicaId>, net: set<Envelope>, r: Replica, r': Replica)
    requires OrderingInv(ms, net, r) && r'.total == r.total
    requires forall k :: k in r.local.nodes ==> k in r'.local.nodes && r'.local.nodes[k] == r.local.nodes[k]
    requires |r.delivered| <= |r'.delivered|
    requires AllNodes(ms, r'.local.nodes, r'.delivered) && AllNodes(ms, r'.local.nodes, r'.queue)
    ensures OrderingInv(ms, net, r')
  {
    forall s | s in r.total.latestWave ensures HasReached(r'.local.nodes, s, r.total.latestWave[s]) {
      assert HasReached(r.local.nodes, s, r.total.latestWave[s]);
      var k :| k in r.local.nodes && k.sender == s && Wave(r.local.nodes[k].vc) >= r.total.latestWave[s];
      assert k in r'.local.nodes;
    }
  }

  /** Deliveries already made stay nodes of a larger graph, and so do new ones. */
  lemma DeliverNodes(ms: seq<ReplicaId>, nodes: Nodes, nodes': Nodes, h: seq<Envelope>, news: seq<Envelope>)
    requires AllNodes(ms, nodes, h) && AllNodes(ms, nodes', news)
    requires forall k :: k in nodes ==> k in nodes' && nodes'[k] == nodes[k]
    ensures AllNodes(ms, nodes', h) && AllNodes(ms, nodes', h + news)
  {
  }

  lemma DeliverOrdering(ms: seq<ReplicaId>, net: set<Envelope>, r: Replica, local: Local, got: set<Envelope>,
                        news: seq<Envelope>)
    requires OrderingInv(ms, net, r) && AllNodes(ms, local.nodes, news)
    requires forall k :: k in r.local.nodes ==> k in local.nodes && local.nodes[k] == r.local.nodes[k]
    ensures OrderingInv(ms, net, Deliver(r, local, got, news))
  {
    DeliverNodes(ms, r.local.nodes, local.nodes, r.delivered, news);
    DeliverNodes(ms, r.local.nodes, local.nodes, r.queue, []);
    GrowNodes(ms, net, r, Deliver(r, local, got, news));
  }

  /** Nothing ever sent names the sender's next message as a predecessor. */
  lemma NextNotAwaited(ms: seq<ReplicaId>, conv: ConversationId, w: World, i: nat, payload: Bytes, f: Envelope)
    requires Inv(ms, w) && i < |ms| && w.reps[i].ready && f in w.net
    ensures KeyOf(ms, Outgoing(ms, conv, w.reps[i].local.nodes, i, payload)) !in Parents(ms, f)
  {
    OutgoingKey(ms, conv, w.reps[i].local.nodes, i, payload);
    DurableNodes(ms, w, i);
    ClockBound(ms, w, f, i);
  }

  lemma SendSettled(ms: seq<ReplicaId>, conv: ConversationId, w: World, i: nat, payload: Bytes)
    requires Inv(ms, w) && i < |ms| && w.reps[i].ready
    ensures var s := w.reps[i].local; var e := Outgoing(ms, conv, s.nodes, i, payload);
      Settled(ms, s.nodes[KeyOf(ms, e) := e], s.pending, s.stuck)
  {
    var s := w.reps[i].local;
    var e := Outgoing(ms, conv, s.nodes, i, payload);
    var nodes := s.nodes[KeyOf(ms, e) := e];
    assert ReplicaInv(ms, w.net, i, w.reps[i]);
    forall k | k in s.pending && Fits(ms, s.pending[k]) ensures Waiting(ms, nodes, s.pending, s.stuck, k) {
      NextNotAwaited(ms, conv, w, i, payload, s.pending[k]);
      assert Waiting(ms, s.nodes, s.pending, s.stuck, k);
      var n :| n in Parents(ms, s.pending[k]) && (n !in s.nodes || (k, n) in s.stuck);
      assert n !in nodes || (k, n) in s.stuck;
    }
  }

  lemma SendOwnLocal(ms: seq<ReplicaId>, conv: ConversationId, w: World, i: nat, payload: Bytes, w': World)
    requires Inv(ms, w) && i < |ms| && SendTo(ms, conv, w, i, payload, w')
    ensures LocalInv(ms, w'.reps[i].local)
  {
    var s := w.reps[i].local;
    assert ReplicaInv(ms, w.net, i, w.reps[i]);
    OutgoingAdmissible(ms, conv, s.nodes, i, payload);
    CausalExtend(ms, s.history, Outgoing(ms, conv, s.nodes, i, payload));
    SendSettled(ms, conv, w, i, payload);
  }

  lemma SendLog(ms: seq<ReplicaId>, conv: ConversationId, w: World, i: nat, payload: Bytes, w': World)
    requires Inv(ms, w) && i < |ms| && SendTo(ms, conv, w, i, payload, w')
    ensures LogInv(ms, w'.net, ms[i], w'.reps[i])
  {
    var r := w.reps[i];
    var e := Outgoing(ms, conv, r.local.nodes, i, payload);
    assert ReplicaInv(ms, w.net, i, r);
    OutgoingAdmissible(ms, conv, r.local.nodes, i, payload);
    GroundedExtend(ms, r.local.log, e);
    KeysAppend(ms, r.local.log, e);
  }

  lemma SendBeyondAll(ms: seq<ReplicaId>, conv: ConversationId, w: World, i: nat, payload: Bytes)
    requires Inv(ms, w) && i < |ms| && w.reps[i].ready
    ensures forall wave :: Sealed(ms, w.net, wave) ==>
      Wave(Outgoing(ms, conv, w.reps[i].local.nodes, i, payload).vc) > wave
  {
    forall wave | Sealed(ms, w.net, wave)
      ensures Wave(Outgoing(ms, conv, w.reps[i].local.nodes, i, payload).vc) > wave
    {
      SendBeyondSealed(ms, conv, w, i, payload, wave);
    }
  }

  /** A new message beyond every sealed wave leaves the sender's ordering state consistent. */
  lemma OwnOrdering(ms: seq<ReplicaId>, net: set<Envelope>, r: Replica, e: Envelope, local: Local)
    requires OrderingInv(ms, net, r) && KeyOf(ms, e) !in r.local.nodes
    requires local.nodes == r.local.nodes[KeyOf(ms, e) := e]
    requires forall w :: Sealed(ms, net, w) ==> Wave(e.vc) > w
    ensures OrderingInv(ms, net + {e}, Deliver(r, local, r.got + {e}, [e]))
  {
    GrowBatches(ms, net, e, r);
    DeliverOrdering(ms, net + {e}, r, local, r.got + {e}, [e]);
  }

  lemma SendOwnOrdering(ms: seq<ReplicaId>, conv: ConversationId, w: World, i: nat, payload: Bytes, w': World)
    requires Inv(ms, w) && i < |ms| && SendTo(ms, conv, w, i, payload, w')
    ensures OrderingInv(ms, w'.net, w'.reps[i])
  {
    var e := Outgoing(ms, conv, w.reps[i].local.nodes, i, payload);
    assert ReplicaInv(ms, w.net, i, w.reps[i]);
    OutgoingAdmissible(ms, conv, w.reps[i].local.nodes, i, payload);
    SendBeyondAll(ms, conv, w, i, payload);
    OwnOrdering(ms, w.net, w.reps[i], e, w'.reps[i].local);
  }

  lemma SendOwn(ms: seq<ReplicaId>, conv: ConversationId, w: World, i: nat, payload: Bytes, w': World)
    requires Inv(ms, w) && i < |ms| && SendTo(ms, conv, w, i, payload, w')
    ensures ReplicaInv(ms, w'.net, i, w'.reps[i])
  {
    SendOwnLocal(ms, conv, w, i, payload, w');
    SendLog(ms, conv, w, i, payload, w');
    SendOwnOrdering(ms, conv, w, i, payload, w');
    assert ReplicaInv(ms, w.net, i, w.reps[i]);
    OutgoingKey(ms, conv, w.reps[i].local.nodes, i, payload);
  }

  lemma SendInv(ms: seq<ReplicaId>, conv: ConversationId, w: World, i: nat, payload: Bytes, w': World)
    requires Inv(ms, w) && i < |ms| && SendTo(ms, conv, w, i, payload, w')
    ensures Inv(ms, w')
  {
    var e := Outgoing(ms, conv, w.reps[i].local.nodes, i, payload);
    SendNet(ms, conv, w, i, payload);
    SendPast(ms, conv, w, i, payload, w');
    SendBeyondAll(ms, conv, w, i, payload);
    forall j: nat | j < |ms| ensures ReplicaInv(ms, w'.net, j, w'.reps[j]) {
      if j == i {
        SendOwn(ms, conv, w, i, payload, w');
      } else {
        SendOthers(ms, w.net, e, j, w.reps[j]);
      }
    }
  }

  // ---- receive ----

  lemma ReceiveKeeps(ms: seq<ReplicaId>, s: Local, s': Local)
    requires Causal(ms, s'.history) && s.history <= s'.history
    requires s.nodes == Index(ms, s.history) && s'.nodes == Index(ms, s'.history)
    ensures forall k :: k in s.nodes ==> k in s'.nodes && s'.nodes[k] == s.nodes[k]
  {
    assert s'.history[..|s.history|] == s.history;
    CausalPrefix(ms, s'.history, |s.history|);
  }

  lemma ReceiveFiles(ms: seq<ReplicaId>, s: Local, s': Local, x: Envelope)
    requires Causal(ms, s'.history) && s.history <= s'.history && s'.nodes == Index(ms, s'.history)
    requires x in s'.history[|s.history|..]
    ensures KeyOf(ms, x) in s'.nodes && s'.nodes[KeyOf(ms, x)] == x
  {
    var i :| 0 <= i < |s'.history[|s.history|..]| && s'.history[|s.history|..][i] == x;
    CausalLookup(ms, s'.history, |s.history| + i);
  }

  /** Where a node of the grown graph comes from. */
  lemma ReceiveOrigin(ms: seq<ReplicaId>, e: Envelope, s: Local, s': Local, k: Key)
    requires s.nodes == Index(ms, s.history) && ReceiveStep(ms, e, s, s') && k in s'.nodes
    ensures s'.nodes[k] == e || k in s.nodes || (k in s.pending && s'.nodes[k] == s.pending[k])
  {
    var x := s'.nodes[k];
    IndexValues(ms, s'.history);
    assert KeyOf(ms, x) == k;
    if x !in s'.history[|s.history|..] {
      assert s'.history == s.history + s'.history[|s.history|..];
      IndexValues(ms, s.history);
    }
  }

  lemma ReceiveOrdering(ms: seq<ReplicaId>, w: World, i: nat, e: Envelope, w': World)
    requires Inv(ms, w) && i < |ms| && ReceiveAt(ms, w, i, e, w')
    ensures OrderingInv(ms, w.net, w'.reps[i])
  {
    var r, r' := w.reps[i], w'.reps[i];
    assert ReplicaInv(ms, w.net, i, r);
    ReceiveKeeps(ms, r.local, r'.local);
    var news := Gained(r.local.history, r'.local.history);
    forall x | x in news ensures KeyOf(ms, x) in r'.local.nodes && r'.local.nodes[KeyOf(ms, x)] == x {
      ReceiveFiles(ms, r.local, r'.local, x);
    }
    DeliverOrdering(ms, w.net, r, r'.local, r'.got, news);
  }

  /** The receive keeps every set of envelopes that holds the graph, the deferred
      envelopes and the arrival. */
  lemma ReceiveWithin(ms: seq<ReplicaId>, bound: set<Envelope>, e: Envelope, s: Local, s': Local)
    requires LocalInv(ms, s) && ReceiveStep(ms, e, s, s') && e in bound
    requires Within(s.nodes, bound) && Within(s.pending, bound)
    ensures Within(s'.nodes, bound) && Within(s'.pending, bound)
  {
    ReceiveKeeps(ms, s, s');
    forall k | k in s'.nodes ensures s'.nodes[k] in bound {
      ReceiveOrigin(ms, e, s, s', k);
    }
    forall k | k in s'.pending ensures s'.pending[k] in bound {
    }
  }

  lemma ReceiveGot(ms: seq<ReplicaId>, e: Envelope, s: Local, s': Local, x: Envelope)
    requires LocalInv(ms, s) && ReceiveStep(ms, e, s, s') && Acceptable(ms, e)
    requires x == e || KeyOf(ms, x) in s.nodes || KeyOf(ms, x) in s.pending
    ensures KeyOf(ms, x) in s'.nodes || KeyOf(ms, x) in s'.pending
  {
    ReceiveKeeps(ms, s, s');
  }

  lemma ReceiveSets(ms: seq<ReplicaId>, net: set<Envelope>, e: Envelope, r: Replica, r': Replica)
    requires LocalInv(ms, r.local) && ReceiveStep(ms, e, r.local, r'.local) && r'.got == r.got + {e} && e in net
    requires GotInv(ms, net, r) && FullClocks(ms, net)
    ensures GotInv(ms, net, r')
  {
    assert Within(r.local.nodes, r'.got) && Within(r.local.pending, r'.got);
    ReceiveWithin(ms, r'.got, e, r.local, r'.local);
    forall x | x in r'.got ensures KeyOf(ms, x) in r'.local.nodes || KeyOf(ms, x) in r'.local.pending {
      ReceiveGot(ms, e, r.local, r'.local, x);
    }
  }

  /** Appending what a causal history gains keeps a log grounded. */
  lemma {:induction false} GroundedGrows(ms: seq<ReplicaId>, log: seq<Envelope>, h: seq<Envelope>, news: seq<Envelope>)
    requires Grounded(ms, log) && Causal(ms, h + news) && Keys(ms, h) <= Keys(ms, log)
    ensures Grounded(ms, log + news)
  {
    if news == [] {
      assert log + news == log;
    } else {
      var n := |news| - 1;
      var first, e := news[..n], news[n];
      assert news == first + [e];
      Associative(h, first, [e]);
      assert (h + news)[..|h| + n] == h + first;
      CausalPrefix(ms, h + news, |h| + n);
      GroundedGrows(ms, log, h, first);
      KeysIndex(ms, h + first);
      KeysConcat(ms, h, first);
      KeysConcat(ms, log, first);
      GroundedExtend(ms, log + first, e);
      Associative(log, first, [e]);
    }
  }

  lemma ReceiveKeys(ms: seq<ReplicaId>, s: Local, s': Local)
    requires Causal(ms, s'.history) && s.history <= s'.history && s'.log == s.log + s'.history[|s.history|..]
    requires s.nodes == Index(ms, s.history) && s'.nodes == Index(ms, s'.history)
    requires Grounded(ms, s.log) && s.nodes.Keys <= Keys(ms, s.log)
    ensures Grounded(ms, s'.log) && s'.nodes.Keys <= Keys(ms, s'.log) && Keys(ms, s.log) <= Keys(ms, s'.log)
    ensures Keys(ms, s.log) <= s.nodes.Keys ==> Keys(ms, s'.log) <= s'.nodes.Keys
  {
    var news := s'.history[|s.history|..];
    assert s'.history == s.history + news;
    KeysIndex(ms, s.history);
    KeysIndex(ms, s'.history);
    KeysConcat(ms, s.history, news);
    KeysConcat(ms, s.log, news);
    GroundedGrows(ms, s.log, s.history, news);
  }

  lemma ReceiveLog(ms: seq<ReplicaId>, w: World, i: nat, e: Envelope, w': World)
    requires Inv(ms, w) && i < |ms| && ReceiveAt(ms, w, i, e, w')
    requires Within(w'.reps[i].local.nodes, w.net)
    ensures LogInv(ms, w.net, ms[i], w'.reps[i])
  {
    var s, s' := w.reps[i].local, w'.reps[i].local;
    assert ReplicaInv(ms, w.net, i, w.reps[i]);
    ReceiveKeys(ms, s, s');
    forall x | x in s'.log ensures x in w.net {
      if x in s'.history[|s.history|..] {
        ReceiveFiles(ms, s, s', x);
      } else {
        assert x in Elements(s.log);
      }
    }
  }

  lemma ReceiveReplica(ms: seq<ReplicaId>, w: World, i: nat, e: Envelope, w': World)
    requires Inv(ms, w) && i < |ms| && ReceiveAt(ms, w, i, e, w')
    ensures ReplicaInv(ms, w'.net, i, w'.reps[i])
  {
    var r, r' := w.reps[i], w'.reps[i];
    assert ReplicaInv(ms, w.net, i, r);
    ReceiveKeeps(ms, r.local, r'.local);
    ReceiveWithin(ms, w.net, e, r.local, r'.local);
    ReceiveSets(ms, w.net, e, r, r');
    ReceiveLog(ms, w, i, e, w');
    ReceiveOrdering(ms, w, i, e, w');
  }

  lemma ReceiveInv(ms: seq<ReplicaId>, w: World, i: nat, e: Envelope, w': World)
    requires Inv(ms, w) && i < |ms| && ReceiveAt(ms, w, i, e, w')
    ensures Inv(ms, w')
  {
    ReceiveReplica(ms, w, i, e, w');
    forall j: nat | j < |ms| ensures ReplicaInv(ms, w'.net, j, w'.reps[j]) {
      if j != i { assert ReplicaInv(ms, w.net, j, w.reps[j]); }
    }
  }

  // ---- the ordering layer ----

  lemma ObserveOrdering(ms: seq<ReplicaId>, net: set<Envelope>, r: Replica, r': Replica)
    requires OrderingInv(ms, net, r) && r.total.consumed < |r.delivered|
    requires r' == r.(total := r.total.(consumed := r.total.consumed + 1,
                                        latestWave := NoteWave(r.total.latestWave, r.delivered[r.total.consumed])))
    ensures OrderingInv(ms, net, r')
  {
    var e := r.delivered[r.total.consumed];
    assert e in r.delivered;
    assert HasReached(r.local.nodes, e.sender, Wave(e.vc)) by {
      assert KeyOf(ms, e) in r.local.nodes;
    }
  }

  lemma ObserveInv(ms: seq<ReplicaId>, w: World, i: nat, w': World)
    requires Inv(ms, w) && i < |ms| && ObserveAt(w, i, w')
    ensures Inv(ms, w')
  {
    assert ReplicaInv(ms, w.net, i, w.reps[i]);
    ObserveOrdering(ms, w.net, w.reps[i], w'.reps[i]);
    forall j: nat | j < |ms| ensures ReplicaInv(ms, w'.net, j, w'.reps[j]) {
      if j != i { assert ReplicaInv(ms, w.net, j, w.reps[j]); }
    }
  }

  /** Once member r is known to have passed wave `wave`, its messages of waves up to
      `wave` are all in the graph. */
  lemma NothingMissing(ms: seq<ReplicaId>, w: World, i: nat, wave: nat, e: Envelope)
    requires Inv(ms, w) && i < |ms| && e in w.net && Wave(e.vc) <= wave
    requires HasReached(w.reps[i].local.nodes, e.sender, wave + 1)
    ensures KeyOf(ms, e) in w.reps[i].local.nodes && w.reps[i].local.nodes[KeyOf(ms, e)] == e
  {
    var nodes := w.reps[i].local.nodes;
    NodesClosed(ms, w, i);
    assert ReplicaInv(ms, w.net, i, w.reps[i]);
    var k :| k in nodes && k.sender == e.sender && Wave(nodes[k].vc) >= wave + 1;
    var f := nodes[k];
    assert KeyOf(ms, f) == k;
    if SeqOf(ms, e) > k.num {
      assert Covers(ms, e, k);
      WaveMonotone(f.vc, e.vc);
    }
    Contiguous(ms, nodes, k, SeqOf(ms, e));
  }

  lemma DrainSeals(ms: seq<ReplicaId>, w: World, i: nat, m: ReplicaId)
    requires Inv(ms, w) && i < |ms| && m in ms
    requires Continuation(ms, w.reps[i].total.latestWave, w.reps[i].total.nextWave)
    ensures HasReached(w.reps[i].local.nodes, m, w.reps[i].total.nextWave + 1)
    ensures SentBeyond(w.net, m, w.reps[i].total.nextWave)
  {
    var r := w.reps[i];
    assert ReplicaInv(ms, w.net, i, r);
    assert HasReached(r.local.nodes, m, r.total.latestWave[m]);
    var k :| k in r.local.nodes && k.sender == m && Wave(r.local.nodes[k].vc) >= r.total.latestWave[m];
    NodesClosed(ms, w, i);
    assert r.local.nodes[k] in w.net;
  }

  lemma HistoryDistinct(ms: seq<ReplicaId>, h: seq<Envelope>)
    requires Causal(ms, h)
    ensures NoDuplicates(h)
  {
    forall i, j | 0 <= i < j < |h| ensures h[i] != h[j] {
      CausalNoDuplicates(ms, h, i, j);
    }
  }

  lemma DrainContents(ms: seq<ReplicaId>, w: World, i: nat, e: Envelope)
    requires Inv(ms, w) && i < |ms| && Wave(e.vc) == w.reps[i].total.nextWave
    requires Continuation(ms, w.reps[i].total.latestWave, w.reps[i].total.nextWave)
    ensures e in w.reps[i].local.history <==> e in w.net
  {
    var log := w.reps[i].local.history;
    assert ReplicaInv(ms, w.net, i, w.reps[i]);
    if e in w.net {
      DrainSeals(ms, w, i, e.sender);
      NothingMissing(ms, w, i, Wave(e.vc), e);
      IndexValues(ms, log);
    }
    if e in log {
      var n :| 0 <= n < |log| && log[n] == e;
      CausalLookup(ms, log, n);
    }
  }

  /** Draining a wave emits every message of that wave ever sent, once. */
  lemma DrainBatch(ms: seq<ReplicaId>, w: World, i: nat, batch: seq<Envelope>, w': World)
    requires Inv(ms, w) && i < |ms| && DrainAt(ms, w, i, batch, w')
    ensures Sealed(ms, w.net, w.reps[i].total.nextWave)
    ensures IsWaveBatch(w.net, w.reps[i].total.nextWave, batch)
  {
    var wave := w.reps[i].total.nextWave;
    var log := w.reps[i].local.history;
    forall m | m in ms ensures SentBeyond(w.net, m, wave) {
      DrainSeals(ms, w, i, m);
    }
    WaveListElements(log, wave);
    assert Causal(ms, log) by { assert ReplicaInv(ms, w.net, i, w.reps[i]); }
    HistoryDistinct(ms, log);
    NoDuplicatesPermutes(WaveList(log, wave), batch);
    forall e: Envelope | Wave(e.vc) == wave ensures e in log <==> e in w.net {
      DrainContents(ms, w, i, e);
    }
  }

  lemma DrainOrdering(ms: seq<ReplicaId>, net: set<Envelope>, r: Replica, batch: seq<Envelope>, r': Replica)
    requires OrderingInv(ms, net, r)
    requires Sealed(ms, net, r.total.nextWave) && IsWaveBatch(net, r.total.nextWave, batch)
    requires r' == r.(total := r.total.(nextWave := r.total.nextWave + 1, batches := r.total.batches + [batch]))
    ensures OrderingInv(ms, net, r')
  {
    forall v | 1 <= v < r'.total.nextWave
      ensures Sealed(ms, net, v) && IsWaveBatch(net, v, r'.total.batches[v - 1])
    {
      if v == r.total.nextWave {
        assert r'.total.batches[v - 1] == batch;
      } else {
        assert r'.total.batches[v - 1] == r.total.batches[v - 1];
      }
    }
  }

  lemma DrainInv(ms: seq<ReplicaId>, w: World, i: nat, batch: seq<Envelope>, w': World)
    requires Inv(ms, w) && i < |ms| && DrainAt(ms, w, i, batch, w')
    ensures Inv(ms, w')
  {
    DrainBatch(ms, w, i, batch, w');
    assert ReplicaInv(ms, w.net, i, w.reps[i]);
    DrainOrdering(ms, w.net, w.reps[i], batch, w'.reps[i]);
    forall j: nat | j < |ms| ensures ReplicaInv(ms, w'.net, j, w'.reps[j]) {
      if j != i { assert ReplicaInv(ms, w.net, j, w.reps[j]); }
    }
  }

  // ---- crash and replay ----

  lemma CrashInv(ms: seq<ReplicaId>, w: World, i: nat, w': World)
    requires Inv(ms, w) && i < |ms| && CrashAt(w, i, w')
    ensures Inv(ms, w')
  {
    assert ReplicaInv(ms, w.net, i, w.reps[i]);
    forall j: nat | j < |ms| ensures ReplicaInv(ms, w'.net, j, w'.reps[j]) {
      if j != i { assert ReplicaInv(ms, w.net, j, w.reps[j]); }
    }
  }

  /** After a replay the graph holds exactly what is logged, whatever was received before. */
  lemma ReplayLocal(ms: seq<ReplicaId>, w: World, i: nat, redeliver: bool, w': World)
    requires Inv(ms, w) && i < |ms| && ReplayAt(ms, w, i, redeliver, w')
    ensures var s, s' := w.reps[i].local, w'.reps[i].local;
      && LocalInv(ms, s')
      && s'.nodes.Keys == Keys(ms, s.log)
      && (forall k :: k in s.nodes ==> k in s'.nodes && s'.nodes[k] == s.nodes[k])
      && Within(s'.nodes, w.net)
  {
    var s := w.reps[i].local;
    assert ReplicaInv(ms, w.net, i, w.reps[i]);
    ReplayKeepsLocal(ms, s);
    ReplayReaches(ms, s.nodes, s.log);
    ReplayGrows(ms, s.nodes, s.log);
    ReplayValues(ms, s.nodes, s.log);
  }

  lemma {:induction false} ReplayValues(ms: seq<ReplicaId>, nodes: Nodes, log: seq<Envelope>)
    ensures forall k :: k in Replay(ms, nodes, log) ==>
      (k in nodes && Replay(ms, nodes, log)[k] == nodes[k])
      || (Replay(ms, nodes, log)[k] in log && KeyOf(ms, Replay(ms, nodes, log)[k]) == k)
  {
    if log != [] {
      ReplayValues(ms, nodes, log[..|log| - 1]);
      assert log == log[..|log| - 1] + [log[|log| - 1]];
    }
  }

  lemma ReplayedNodes(ms: seq<ReplicaId>, h: seq<Envelope>, log: seq<Envelope>)
    requires Causal(ms, h)
    ensures AllNodes(ms, Replay(ms, Index(ms, h), log), Replayed(ms, Index(ms, h), log))
  {
    var replayed := Replayed(ms, Index(ms, h), log);
    ReplayCausal(ms, h, log);
    forall e | e in replayed
      ensures KeyOf(ms, e) in Index(ms, h + replayed) && Index(ms, h + replayed)[KeyOf(ms, e)] == e
    {
      var n :| 0 <= n < |replayed| && replayed[n] == e;
      CausalLookup(ms, h + replayed, |h| + n);
    }
  }

  lemma ReplayOrdering(ms: seq<ReplicaId>, w: World, i: nat, redeliver: bool, w': World)
    requires Inv(ms, w) && i < |ms| && ReplayAt(ms, w, i, redeliver, w')
    ensures OrderingInv(ms, w.net, w'.reps[i])
  {
    var r, r' := w.reps[i], w'.reps[i];
    assert ReplicaInv(ms, w.net, i, r);
    ReplayGrows(ms, r.local.nodes, r.local.log);
    ReplayedNodes(ms, r.local.history, r.local.log);
    DeliverNodes(ms, r.local.nodes, r'.local.nodes, r.delivered, []);
    DeliverNodes(ms, r.local.nodes, r'.local.nodes, r.queue, Replayed(ms, r.local.nodes, r.local.log));
    GrowNodes(ms, w.net, r, r');
  }

  lemma ReplayGot(ms: seq<ReplicaId>, w: World, i: nat, redeliver: bool, w': World)
    requires Inv(ms, w) && i < |ms| && ReplayAt(ms, w, i, redeliver, w')
    ensures GotInv(ms, w.net, w'.reps[i])
  {
    var r, r' := w.reps[i], w'.reps[i];
    assert ReplicaInv(ms, w.net, i, r);
    ReplayLocal(ms, w, i, redeliver, w');
    ReplayValues(ms, r.local.nodes, r.local.log);
    assert forall e :: e in r.local.log ==> e in Elements(r.local.log) && KeyOf(ms, e) in Keys(ms, r.local.log);
  }

  lemma ReplayInv(ms: seq<ReplicaId>, w: World, i: nat, redeliver: bool, w': World)
    requires Inv(ms, w) && i < |ms| && ReplayAt(ms, w, i, redeliver, w')
    ensures Inv(ms, w')
  {
    assert ReplicaInv(ms, w.net, i, w.reps[i]);
    ReplayLocal(ms, w, i, redeliver, w');
    ReplayOrdering(ms, w, i, redeliver, w');
    ReplayGot(ms, w, i, redeliver, w');
    forall j: nat | j < |ms| ensures ReplicaInv(ms, w'.net, j, w'.reps[j]) {
      if j != i { assert ReplicaInv(ms, w.net, j, w.reps[j]); }
    }
  }

  lemma RedeliverInv(ms: seq<ReplicaId>, w: World, i: nat, w': World)
    requires Inv(ms, w) && i < |ms| && RedeliverAt(w, i, w')
    ensures Inv(ms, w')
  {
    var r := w.reps[i];
    assert ReplicaInv(ms, w.net, i, r);
    assert r.queue[0] in r.queue;
    GrowNodes(ms, w.net, r, w'.reps[i]);
    forall j: nat | j < |ms| ensures ReplicaInv(ms, w'.net, j, w'.reps[j]) {
      if j != i { assert ReplicaInv(ms, w.net, j, w.reps[j]); }
    }
  }

  lemma StepInv(ms: seq<ReplicaId>, conv: ConversationId, w: World, step: Step, w': World)
    requires Inv(ms, w) && NextStep(ms, conv, w, step, w')
    ensures Inv(ms, w')
  {
    match step
    case Send(i, payload) => SendInv(ms, conv, w, i, payload, w');
    case Receive(i, e) => ReceiveInv(ms, w, i, e, w');
    case Observe(i) => ObserveInv(ms, w, i, w');
    case Drain(i, batch) => DrainInv(ms, w, i, batch, w');
    case Crash(i) => CrashInv(ms, w, i, w');
    case ReplayLog(i, redeliver) => ReplayInv(ms, w, i, redeliver, w');
    case Redeliver(i) => RedeliverInv(ms, w, i, w');
  }

  lemma NextInv(ms: seq<ReplicaId>, conv: ConversationId, ws: seq<World>, t: nat)
    requires Run(ms, conv, ws) && t + 1 < |ws| && Inv(ms, ws[t])
    ensures Inv(ms, ws[t + 1])
  {
    var step := TakeStep(ms, conv, ws, t);
    StepInv(ms, conv, ws[t], step, ws[t + 1]);
  }

  /** The invariant holds in every state of every run. */
  lemma {:induction false} RunInv(ms: seq<ReplicaId>, conv: ConversationId, ws: seq<World>, t: nat)
    requires Run(ms, conv, ws) && t < |ws|
    ensures Inv(ms, ws[t])
  {
    if t == 0 {
      InitInv(ms, ws[0]);
    } else {
      RunInv(ms, conv, ws, t - 1);
      NextInv(ms, conv, ws, t - 1);
    }
  }
}
