/** The whole system as a step machine: one replica per member slot and a network that
    keeps every envelope ever sent, so that delivery may be late, reordered, repeated or
    never (psync/conversation.go, psync/stability.go, order/total.go). */
module World {
  import opened Basics
  import opened Vectors
  import opened Causality
  import opened Protocol

  /** State of the total order layer: deliveries consumed so far, the highest wave seen
      per sender, the next wave to emit, and the waves emitted, one batch each. */
  datatype Ordering = Ordering(
    consumed: nat, latestWave: map<ReplicaId, nat>, nextWave: nat, batches: seq<seq<Envelope>>)

  /** `got` collects the envelopes received, sent or replayed since the last restart.
      `queue` are the replayed envelopes that the replay goroutine has still to deliver.
      `ready` says that the log has been replayed. `jumped` holds the pairs of a new envelope
      and one inserted before it that was not delivered yet, still queued or withheld, when
      the new one was delivered. */
  datatype Replica = Replica(
    local: Local, got: set<Envelope>, delivered: seq<Envelope>, queue: seq<Envelope>,
    ready: bool, jumped: set<(Envelope, Envelope)>, total: Ordering)

  /** A new envelope was delivered before one of its predecessors. */
  ghost predicate Uncaused(ms: seq<ReplicaId>, r: Replica) {
    exists p :: p in r.jumped && KeyOf(ms, p.1) in Parents(ms, p.0)
  }

  /** The senders of which a new envelope was delivered before an older one. */
  function Overtaken(r: Replica): set<ReplicaId> {
    set p | p in r.jumped && p.0.sender == p.1.sender :: p.0.sender
  }

  /** `past` records, for each message, the keys its sender had when it sent it. */
  datatype World = World(reps: seq<Replica>, net: set<Envelope>, past: map<Key, set<Key>>)

  datatype Step =
    | Send(i: nat, payload: Bytes)
    | Receive(i: nat, e: Envelope)
    | Observe(i: nat)
    | Drain(i: nat, batch: seq<Envelope>)
    | Crash(i: nat)
    | ReplayLog(i: nat, redeliver: bool)
    | Redeliver(i: nat)

  const FreshOrdering := Ordering(0, map[], 1, [])

  /** Memory lost, the log kept. */
  function Restarted(log: seq<Envelope>): Replica {
    Replica(Local(map[], map[], {}, [], log), {}, [], [], log == [], {}, FreshOrdering)
  }

  // ---- queries of the graph ----

  /** Every other member's latest message acknowledges the node. */
  ghost predicate IsStable(ms: seq<ReplicaId>, nodes: Nodes, k: Key) {
    k in nodes && forall j: nat :: j < |ms| && ms[j] != k.sender ==> Acknowledges(ms, nodes, ms[j], k)
  }

  ghost predicate Acknowledges(ms: seq<ReplicaId>, nodes: Nodes, r: ReplicaId, k: Key) {
    var n := Latest(nodes, r);
    n > 0 && Covers(ms, nodes[Key(r, n)], k)
  }

  /** The clock of e includes message k. */
  predicate Covers(ms: seq<ReplicaId>, e: Envelope, k: Key) {
    SlotOf(ms, k.sender) >= 0 && k.num <= At(e.vc, SlotOf(ms, k.sender))
  }

  ghost predicate WaveComplete(ms: seq<ReplicaId>, nodes: Nodes, w: nat) {
    exists k :: k in nodes && Wave(nodes[k].vc) == w && IsStable(ms, nodes, k)
  }

  predicate Continuation(ms: seq<ReplicaId>, latestWave: map<ReplicaId, nat>, w: nat) {
    forall r :: r in ms ==> r in latestWave && latestWave[r] > w
  }

  function NoteWave(latestWave: map<ReplicaId, nat>, e: Envelope): map<ReplicaId, nat> {
    if e.sender !in latestWave || Wave(e.vc) > latestWave[e.sender] then latestWave[e.sender := Wave(e.vc)]
    else latestWave
  }

  predicate SenderSorted(s: seq<Envelope>) {
    forall i, j :: 0 <= i < j < |s| ==> !Less(s[j].sender, s[i].sender)
  }

  /** Sorted means: of any two messages the earlier one has the same sender, or one whose
      bytes come first. */
  lemma SortedByBytes(s: seq<Envelope>)
    ensures SenderSorted(s) <==>
      forall p, q :: 0 <= p < q < |s| ==>
        s[p].sender == s[q].sender || exists i: nat :: SmallerAt(s[p].sender, s[q].sender, i)
  {
    forall p, q | 0 <= p < q < |s|
      ensures !Less(s[q].sender, s[p].sender) <==>
        s[p].sender == s[q].sender || exists i: nat :: SmallerAt(s[p].sender, s[q].sender, i)
    {
      LessTrichotomy(s[p].sender, s[q].sender);
      LessTrichotomy(s[q].sender, s[p].sender);
      LessByFirstDifference(s[p].sender, s[q].sender);
    }
  }

  /** out is a rearrangement of input ordered by sender bytes; nothing is said about the
      relative order of one sender's messages. */
  predicate IsSort(input: seq<Envelope>, out: seq<Envelope>) {
    multiset(out) == multiset(input) && SenderSorted(out)
  }

  // ---- steps ----

  ghost predicate Init(ms: seq<ReplicaId>, w: World) {
    w == World(seq(|ms|, i => Restarted([])), {}, map[])
  }

  /** New envelopes enter the delivery channel at once, ahead of what is queued. */
  function Deliver(r: Replica, local: Local, got: set<Envelope>, news: seq<Envelope>): Replica {
    Replica(local, got, r.delivered + news, r.queue, r.ready, r.jumped + Jumps(r, news), r.total)
  }

  function Jumps(r: Replica, news: seq<Envelope>): set<(Envelope, Envelope)> {
    set x, y | x in news && y in r.local.history && y !in r.delivered :: (x, y)
  }

  /** The system after member i sends. */
  ghost function Sent(ms: seq<ReplicaId>, conv: ConversationId, w: World, i: nat, payload: Bytes): World
    requires |w.reps| == |ms| && i < |ms|
  {
    var r := w.reps[i];
    var e := Outgoing(ms, conv, r.local.nodes, i, payload);
    var k := KeyOf(ms, e);
    var local := Local(r.local.nodes[k := e], r.local.pending, r.local.stuck, r.local.history + [e], r.local.log + [e]);
    World(w.reps[i := Deliver(r, local, r.got + {e}, [e])], w.net + {e}, w.past[k := r.local.nodes.Keys])
  }

  /** A replica sends only once its log has been replayed. */
  ghost predicate SendTo(ms: seq<ReplicaId>, conv: ConversationId, w: World, i: nat, payload: Bytes, w': World)
    requires |w.reps| == |ms| && i < |ms|
  {
    w.reps[i].ready && w' == Sent(ms, conv, w, i, payload)
  }

  /** The system after member i receives e and its state becomes local. */
  function Received(w: World, i: nat, e: Envelope, local: Local): World
    requires i < |w.reps|
  {
    var r := w.reps[i];
    w.(reps := w.reps[i := Deliver(r, local, r.got + {e}, Gained(r.local.history, local.history))])
  }

  /** What a history has gained over an earlier one. */
  function Gained(h: seq<Envelope>, h': seq<Envelope>): seq<Envelope> {
    if |h| <= |h'| then h'[|h|..] else []
  }

  ghost predicate ReceiveAt(ms: seq<ReplicaId>, w: World, i: nat, e: Envelope, w': World)
    requires |w.reps| == |ms| && i < |ms|
  {
    && e in w.net
    && |w'.reps| == |ms|
    && ReceiveStep(ms, e, w.reps[i].local, w'.reps[i].local)
    && w' == Received(w, i, e, w'.reps[i].local)
  }

  ghost predicate ObserveAt(w: World, i: nat, w': World)
    requires i < |w.reps|
  {
    var r := w.reps[i];
    var t := r.total;
    && t.consumed < |r.delivered|
    && w' == w.(reps := w.reps[i := r.(total := t.(consumed := t.consumed + 1,
                                                   latestWave := NoteWave(t.latestWave, r.delivered[t.consumed])))])
  }

  ghost predicate DrainAt(ms: seq<ReplicaId>, w: World, i: nat, batch: seq<Envelope>, w': World)
    requires i < |w.reps|
  {
    var r := w.reps[i];
    var t := r.total;
    && WaveComplete(ms, r.local.nodes, t.nextWave)
    && Continuation(ms, t.latestWave, t.nextWave)
    && IsSort(WaveList(r.local.history, t.nextWave), batch)
    && w' == w.(reps := w.reps[i := r.(total := t.(nextWave := t.nextWave + 1, batches := t.batches + [batch]))])
  }

  ghost predicate CrashAt(w: World, i: nat, w': World)
    requires i < |w.reps|
  {
    w' == w.(reps := w.reps[i := Restarted(w.reps[i].local.log)])
  }

  /** The log is replayed over what has been received meanwhile; what it inserts is queued
      for delivery, or not delivered at all. */
  ghost predicate ReplayAt(ms: seq<ReplicaId>, w: World, i: nat, redeliver: bool, w': World)
    requires i < |w.reps|
  {
    var r := w.reps[i];
    var replayed := Replayed(ms, r.local.nodes, r.local.log);
    w' == w.(reps := w.reps[i := r.(local := AfterReplay(ms, r.local), got := r.got + Elements(r.local.log),
                                    queue := if redeliver then r.queue + replayed else r.queue, ready := true)])
  }

  ghost predicate RedeliverAt(w: World, i: nat, w': World)
    requires i < |w.reps|
  {
    var r := w.reps[i];
    r.queue != [] && w' == w.(reps := w.reps[i := r.(delivered := r.delivered + [r.queue[0]], queue := r.queue[1..])])
  }

  ghost predicate NextStep(ms: seq<ReplicaId>, conv: ConversationId, w: World, step: Step, w': World) {
    && |w.reps| == |ms|
    && step.i < |ms|
    && match step
       case Send(i, payload) => SendTo(ms, conv, w, i, payload, w')
       case Receive(i, e) => ReceiveAt(ms, w, i, e, w')
       case Observe(i) => ObserveAt(w, i, w')
       case Drain(i, batch) => DrainAt(ms, w, i, batch, w')
       case Crash(i) => CrashAt(w, i, w')
       case ReplayLog(i, redeliver) => ReplayAt(ms, w, i, redeliver, w')
       case Redeliver(i) => RedeliverAt(w, i, w')
  }

  ghost predicate Next(ms: seq<ReplicaId>, conv: ConversationId, w: World, w': World) {
    exists step :: NextStep(ms, conv, w, step, w')
  }

  /** The t-th step of a sequence of states. */
  ghost predicate StepAt(ms: seq<ReplicaId>, conv: ConversationId, ws: seq<World>, t: nat) {
    t + 1 < |ws| && Next(ms, conv, ws[t], ws[t + 1])
  }

  ghost predicate Run(ms: seq<ReplicaId>, conv: ConversationId, ws: seq<World>) {
    && Distinct(ms)
    && |ws| > 0
    && Init(ms, ws[0])
    && forall t: nat {:trigger StepAt(ms, conv, ws, t)} :: t + 1 < |ws| ==> StepAt(ms, conv, ws, t)
  }

  lemma TakeStep(ms: seq<ReplicaId>, conv: ConversationId, ws: seq<World>, t: nat) returns (step: Step)
    requires Run(ms, conv, ws) && t + 1 < |ws|
    ensures NextStep(ms, conv, ws[t], step, ws[t + 1])
  {
    var at := StepAt(ms, conv, ws, t);
    step :| NextStep(ms, conv, ws[t], step, ws[t + 1]);
  }

  // ---- invariants ----

  ghost predicate FullClocks(ms: seq<ReplicaId>, net: set<Envelope>) {
    forall e :: e in net ==> |e.vc| == |ms| && Stamped(ms, e)
  }

  ghost predicate UniqueKeys(ms: seq<ReplicaId>, net: set<Envelope>) {
    forall e, g :: e in net && g in net && KeyOf(ms, e) == KeyOf(ms, g) ==> e == g
  }

  /** Clocks are transitive: covering a message means covering its clock. */
  ghost predicate TransitiveClocks(ms: seq<ReplicaId>, net: set<Envelope>) {
    forall e, g :: e in net && g in net && Covers(ms, e, KeyOf(ms, g)) ==> Leq(g.vc, e.vc)
  }

  ghost predicate NetInv(ms: seq<ReplicaId>, net: set<Envelope>) {
    FullClocks(ms, net) && UniqueKeys(ms, net) && TransitiveClocks(ms, net)
  }

  /** The log holds sent envelopes only, each after its predecessors; everything member r
      ever sent, everything in its graph, and nothing more once it has been replayed. */
  ghost predicate LogInv(ms: seq<ReplicaId>, net: set<Envelope>, m: ReplicaId, r: Replica) {
    && Elements(r.local.log) <= net
    && Grounded(ms, r.local.log)
    && (forall e :: e in net && e.sender == m ==> KeyOf(ms, e) in Keys(ms, r.local.log))
    && r.local.nodes.Keys <= Keys(ms, r.local.log)
    && (r.ready ==> Keys(ms, r.local.log) <= r.local.nodes.Keys)
  }

  ghost predicate Within(s: Nodes, net: set<Envelope>) {
    forall k :: k in s ==> s[k] in net
  }

  ghost predicate GotInv(ms: seq<ReplicaId>, net: set<Envelope>, r: Replica) {
    && r.got <= net
    && (forall k :: k in r.local.nodes ==> r.local.nodes[k] in r.got)
    && (forall k :: k in r.local.pending ==> r.local.pending[k] in r.got)
    && (forall e :: e in r.got ==> KeyOf(ms, e) in r.local.nodes || KeyOf(ms, e) in r.local.pending)
  }

  ghost predicate HasReached(nodes: Nodes, r: ReplicaId, w: nat) {
    exists k :: k in nodes && k.sender == r && Wave(nodes[k].vc) >= w
  }

  /** Every member has sent something beyond wave w. */
  ghost predicate Sealed(ms: seq<ReplicaId>, net: set<Envelope>, w: nat) {
    forall r :: r in ms ==> SentBeyond(net, r, w)
  }

  ghost predicate SentBeyond(net: set<Envelope>, r: ReplicaId, w: nat) {
    exists e :: e in net && e.sender == r && Wave(e.vc) > w
  }

  /** batch holds each message of wave w exactly once, ordered by sender. */
  ghost predicate IsWaveBatch(net: set<Envelope>, w: nat, batch: seq<Envelope>) {
    && SenderSorted(batch)
    && NoDuplicates(batch)
    && forall e :: e in batch <==> e in net && Wave(e.vc) == w
  }

  ghost predicate AllNodes(ms: seq<ReplicaId>, nodes: Nodes, h: seq<Envelope>) {
    forall e :: e in h ==> KeyOf(ms, e) in nodes && nodes[KeyOf(ms, e)] == e
  }

  ghost predicate OrderingInv(ms: seq<ReplicaId>, net: set<Envelope>, r: Replica) {
    var t := r.total;
    && t.nextWave == |t.batches| + 1
    && t.consumed <= |r.delivered|
    && AllNodes(ms, r.local.nodes, r.delivered)
    && AllNodes(ms, r.local.nodes, r.queue)
    && (forall s :: s in t.latestWave ==> HasReached(r.local.nodes, s, t.latestWave[s]))
    && (forall w :: 1 <= w < t.nextWave ==> Sealed(ms, net, w) && IsWaveBatch(net, w, t.batches[w - 1]))
  }

  ghost predicate ReplicaInv(ms: seq<ReplicaId>, net: set<Envelope>, i: nat, r: Replica)
    requires i < |ms|
  {
    && LocalInv(ms, r.local)
    && Within(r.local.nodes, net)
    && Within(r.local.pending, net)
    && LogInv(ms, net, ms[i], r)
    && GotInv(ms, net, r)
    && OrderingInv(ms, net, r)
  }

  /** `past` agrees with the clocks. */
  ghost predicate PastInv(ms: seq<ReplicaId>, w: World) {
    forall e :: e in w.net ==>
      && KeyOf(ms, e) in w.past
      && (forall k :: k in w.past[KeyOf(ms, e)] ==> Covers(ms, e, k))
      && forall g :: g in w.net ==> (KeyOf(ms, g) in w.past[KeyOf(ms, e)] <==> g != e && Covers(ms, e, KeyOf(ms, g)))
  }

  ghost predicate Inv(ms: seq<ReplicaId>, w: World) {
    && Distinct(ms)
    && |w.reps| == |ms|
    && NetInv(ms, w.net)
    && PastInv(ms, w)
    && forall i: nat :: i < |ms| ==> ReplicaInv(ms, w.net, i, w.reps[i])
  }

  // ---- consequences of the invariant ----

  lemma NodesClosed(ms: seq<ReplicaId>, w: World, i: nat)
    requires Inv(ms, w) && i < |ms|
    ensures Closed(ms, w.reps[i].local.nodes)
  {
    CausalIsClosed(ms, w.reps[i].local.history);
  }

  /** The graph a replica's log stands for: what it has, or will have once replayed. */
  ghost function Durable(ms: seq<ReplicaId>, r: Replica): Nodes {
    Index(ms, r.local.log)
  }

  lemma DurableClosed(ms: seq<ReplicaId>, net: set<Envelope>, m: ReplicaId, r: Replica)
    requires LogInv(ms, net, m, r)
    ensures Closed(ms, Durable(ms, r)) && Within(Durable(ms, r), net) && Durable(ms, r).Keys == Keys(ms, r.local.log)
  {
    GroundedIsClosed(ms, r.local.log);
    IndexValues(ms, r.local.log);
    KeysIndex(ms, r.local.log);
    forall k | k in Durable(ms, r) ensures Durable(ms, r)[k] in net {
      assert Durable(ms, r)[k] in Elements(r.local.log);
    }
  }

  lemma DurableNodes(ms: seq<ReplicaId>, w: World, i: nat)
    requires Inv(ms, w) && i < |ms|
    ensures Closed(ms, Durable(ms, w.reps[i])) && Within(Durable(ms, w.reps[i]), w.net)
    ensures Durable(ms, w.reps[i]).Keys == Keys(ms, w.reps[i].local.log)
    ensures forall k :: k in w.reps[i].local.nodes ==>
      k in Durable(ms, w.reps[i]) && Durable(ms, w.reps[i])[k] == w.reps[i].local.nodes[k]
    ensures w.reps[i].ready ==> w.reps[i].local.nodes == Durable(ms, w.reps[i])
  {
    var nodes, d := w.reps[i].local.nodes, Durable(ms, w.reps[i]);
    assert ReplicaInv(ms, w.net, i, w.reps[i]);
    DurableClosed(ms, w.net, ms[i], w.reps[i]);
    NodesClosed(ms, w, i);
    forall k | k in nodes ensures d[k] == nodes[k] {
      assert KeyOf(ms, nodes[k]) == k == KeyOf(ms, d[k]);
    }
  }

  /** What a sender has of a message it covers: no clock entry runs ahead of the owner. */
  lemma ClockBound(ms: seq<ReplicaId>, w: World, f: Envelope, i: nat)
    requires Inv(ms, w) && f in w.net && i < |ms|
    ensures At(f.vc, i) <= Latest(Durable(ms, w.reps[i]), ms[i])
  {
    if At(f.vc, i) > 0 {
      var s := SlotOf(ms, f.sender);
      var owner := Durable(ms, w.reps[s]);
      DurableNodes(ms, w, s);
      DurableNodes(ms, w, i);
      assert ReplicaInv(ms, w.net, s, w.reps[s]) && ReplicaInv(ms, w.net, i, w.reps[i]);
      assert KeyOf(ms, owner[KeyOf(ms, f)]) == KeyOf(ms, f);
      assert owner[KeyOf(ms, f)] == f;
      CoveredIsPresent(ms, owner, KeyOf(ms, f), i, At(f.vc, i));
      var g := owner[Key(ms[i], At(f.vc, i))];
      assert KeyOf(ms, g) in Durable(ms, w.reps[i]);
    }
  }

  /** Two graphs agree wherever both have a key. */
  lemma SameNode(ms: seq<ReplicaId>, w: World, i: nat, j: nat, k: Key)
    requires Inv(ms, w) && i < |ms| && j < |ms|
    requires k in w.reps[i].local.nodes && k in w.reps[j].local.nodes
    ensures w.reps[i].local.nodes[k] == w.reps[j].local.nodes[k]
  {
    NodesClosed(ms, w, i);
    NodesClosed(ms, w, j);
    assert ReplicaInv(ms, w.net, i, w.reps[i]) && ReplicaInv(ms, w.net, j, w.reps[j]);
  }
}
