/** The window between a restart and the replay of the log: runs in which an envelope is
    stranded there or delivered out of order (psync/conversation.go), when a send in it would
    reuse a number, and why a send after it strands nothing. */
module Stranding {
  import opened Basics
  import opened Causality
  import opened Protocol
  import opened Deferral
  import opened World
  import opened Preservation
  import opened Fixpoint
  import opened Guarantees

  /** In every run the number a ready replica sends next is awaited by nobody, so sending
      leaves its deferral index as exact as it was. */
  lemma SendIsNotAwaited(ms: seq<ReplicaId>, conv: ConversationId, ws: seq<World>, t: nat, i: nat, payload: Bytes,
                         d: Deferred, byNeed: Needs, outstanding: set<Key>)
    requires Run(ms, conv, ws) && t < |ws| && i < |ms| && |ws[t].reps| == |ms| && ws[t].reps[i].ready
    requires Envelopes(d) == ws[t].reps[i].local.pending
    requires Indexed(ms, ws[t].reps[i].local.nodes, d, byNeed, outstanding, {}, ws[t].reps[i].local.stuck)
    ensures !Awaited(ms, d, KeyOf(ms, Outgoing(ms, conv, ws[t].reps[i].local.nodes, i, payload)))
  {
    var s := ws[t].reps[i].local;
    var n := KeyOf(ms, Outgoing(ms, conv, s.nodes, i, payload));
    RunInv(ms, conv, ws, t);
    assert ReplicaInv(ms, ws[t].net, i, ws[t].reps[i]);
    forall k | Awaits(d, k, n) && Fits(ms, d[k].env) ensures n in Parents(ms, d[k].env) {
      assert IsDeferred(ms, s.nodes, k, d[k], {}, s.stuck);
    }
    forall k | k in d ensures n !in Parents(ms, d[k].env) {
      assert Envelopes(d)[k] == d[k].env && s.pending[k] in ws[t].net;
      NextNotAwaited(ms, conv, ws[t], i, payload, d[k].env);
    }
  }

  /** If a closed graph has a message of r that another lacks, it has the next one of r. */
  lemma NextPresent(ms: seq<ReplicaId>, nodes: Nodes, more: Nodes, r: ReplicaId, k: Key)
    requires Closed(ms, nodes) && Closed(ms, more) && k in more && k.sender == r && k !in nodes
    ensures Key(r, Latest(nodes, r) + 1) in more
  {
    var n := Latest(nodes, r);
    assert k.num > 0 by { assert Stamped(ms, more[k]) && KeyOf(ms, more[k]) == k; }
    if k.num <= n { Contiguous(ms, nodes, Key(r, n), k.num); }
    Contiguous(ms, more, k, n + 1);
  }

  ghost predicate SentUnder(ms: seq<ReplicaId>, net: set<Envelope>, k: Key) {
    exists g :: g in net && KeyOf(ms, g) == k
  }

  lemma NextIsUsed(ms: seq<ReplicaId>, net: set<Envelope>, m: ReplicaId, nodes: Nodes, logged: Nodes)
    requires Closed(ms, nodes) && Closed(ms, logged) && Within(logged, net)
    requires forall e :: e in net && e.sender == m ==> KeyOf(ms, e) in logged
    ensures SentUnder(ms, net, Key(m, Latest(nodes, m) + 1)) <==>
      exists k :: k in logged && k.sender == m && k !in nodes
  {
    var next := Key(m, Latest(nodes, m) + 1);
    if k :| k in logged && k.sender == m && k !in nodes {
      NextPresent(ms, nodes, logged, m, k);
      assert logged[next] in net;
    } else {
      assert next !in nodes;
    }
  }

  /** Why a replica must not send before its log has been replayed: the send would use a
      number again exactly when the log holds an own message that the graph does not. */
  lemma SendRepeatsExactly(ms: seq<ReplicaId>, conv: ConversationId, w: World, i: nat, payload: Bytes)
    requires Inv(ms, w) && i < |ms|
    ensures
      var s := w.reps[i].local;
      SentUnder(ms, w.net, KeyOf(ms, Outgoing(ms, conv, s.nodes, i, payload)))
      <==> exists k :: k in Durable(ms, w.reps[i]) && k.sender == ms[i] && k !in s.nodes
  {
    OutgoingKey(ms, conv, w.reps[i].local.nodes, i, payload);
    OwnLogged(ms, w, i);
    NextIsUsed(ms, w.net, ms[i], w.reps[i].local.nodes, Durable(ms, w.reps[i]));
  }

  lemma OwnLogged(ms: seq<ReplicaId>, w: World, i: nat)
    requires Inv(ms, w) && i < |ms|
    ensures Closed(ms, w.reps[i].local.nodes) && Closed(ms, Durable(ms, w.reps[i]))
    ensures Within(Durable(ms, w.reps[i]), w.net)
    ensures forall e :: e in w.net && e.sender == ms[i] ==> KeyOf(ms, e) in Durable(ms, w.reps[i])
  {
    assert ReplicaInv(ms, w.net, i, w.reps[i]);
    NodesClosed(ms, w, i);
    DurableClosed(ms, w.net, ms[i], w.reps[i]);
  }

  // ---- a run that strands an envelope ----

  ghost function First(a: ReplicaId, b: ReplicaId, conv: ConversationId, p: Bytes): Envelope {
    Outgoing([a, b], conv, map[], 0, p)
  }

  ghost function Second(a: ReplicaId, b: ReplicaId, conv: ConversationId, p: Bytes): Envelope {
    Outgoing([a, b], conv, map[Key(a, 1) := First(a, b, conv, p)], 0, p)
  }

  /** a's first message needs nothing, its second needs the first. */
  lemma TwoMessages(a: ReplicaId, b: ReplicaId, conv: ConversationId, p: Bytes)
    requires a != b
    ensures var ms, a1, a2 := [a, b], First(a, b, conv, p), Second(a, b, conv, p);
      && Distinct(ms)
      && KeyOf(ms, a1) == Key(a, 1) && KeyOf(ms, a2) == Key(a, 2)
      && Parents(ms, a1) == {} && Parents(ms, a2) == {Key(a, 1)}
      && Fits(ms, a1) && Fits(ms, a2)
  {
    var ms, a1, a2 := [a, b], First(a, b, conv, p), Second(a, b, conv, p);
    var one := map[Key(a, 1) := a1];
    OutgoingKey(ms, conv, map[], 0, p);
    assert Latest(map[], a) == 0 && Latest(map[], b) == 0;
    OutgoingKey(ms, conv, one, 0, p);
    assert Key(a, 1) in one;
    assert Latest(one, a) == 1 && Latest(one, b) == 0;
    assert Required(ms, a1, 0) == 0 && Required(ms, a1, 1) == 0;
    assert Required(ms, a2, 0) == 1 && Required(ms, a2, 1) == 0;
  }

  /** What b holds when it has received the second message and not yet replayed the first. */
  ghost function Waits(a: ReplicaId, b: ReplicaId, conv: ConversationId, p: Bytes): Local {
    Local(map[], map[Key(a, 2) := Second(a, b, conv, p)], {}, [], [First(a, b, conv, p)])
  }

  lemma ReceiveFirst(a: ReplicaId, b: ReplicaId, conv: ConversationId, p: Bytes)
    requires a != b
    ensures var a1 := First(a, b, conv, p);
      ReceiveStep([a, b], a1, Restarted([]).local, Local(map[Key(a, 1) := a1], map[], {}, [a1], [a1]))
  {
    TwoMessages(a, b, conv, p);
    var a1 := First(a, b, conv, p);
    CausalExtend([a, b], [], a1);
    assert [] + [a1] == [a1] && [a1][0..] == [a1];
  }

  lemma ReceiveSecond(a: ReplicaId, b: ReplicaId, conv: ConversationId, p: Bytes)
    requires a != b
    ensures ReceiveStep([a, b], Second(a, b, conv, p), Restarted([First(a, b, conv, p)]).local, Waits(a, b, conv, p))
  {
    TwoMessages(a, b, conv, p);
    var s := Waits(a, b, conv, p);
    assert Key(a, 1) in Parents([a, b], s.pending[Key(a, 2)]) && Key(a, 1) !in s.nodes;
    assert Waiting([a, b], s.nodes, s.pending, s.stuck, Key(a, 2));
    var h: seq<Envelope> := [];
    assert h[0..] == [] && s.log + [] == s.log;
  }

  lemma ReplayStuck(a: ReplicaId, b: ReplicaId, conv: ConversationId, p: Bytes)
    requires a != b
    ensures var s := AfterReplay([a, b], Waits(a, b, conv, p));
      s.nodes == map[Key(a, 1) := First(a, b, conv, p)] && Stranded([a, b], s, Key(a, 2))
  {
    TwoMessages(a, b, conv, p);
    var a1 := First(a, b, conv, p);
    assert [a1][..0] == [];
    assert Replay([a, b], map[], []) == map[];
    assert Replay([a, b], map[], [a1]) == map[Key(a, 1) := a1];
  }

  ghost function Restart(a: ReplicaId, b: ReplicaId, conv: ConversationId, p: Bytes): seq<World> {
    var a1 := First(a, b, conv, p);
    var w0 := World([Restarted([]), Restarted([])], {}, map[]);
    var w1 := Sent([a, b], conv, w0, 0, p);
    var w2 := Received(w1, 1, a1, Local(map[Key(a, 1) := a1], map[], {}, [a1], [a1]));
    var w3 := w2.(reps := w2.reps[1 := Restarted([a1])]);
    [w0, w1, w2, w3]
  }

  /** The system after member 1 replays its log and queues what that inserts. */
  ghost function Replaying(ms: seq<ReplicaId>, w: World): World
    requires |w.reps| == 2
  {
    var r := w.reps[1];
    w.(reps := w.reps[1 := r.(local := AfterReplay(ms, r.local), got := r.got + Elements(r.local.log),
                              queue := r.queue + Replayed(ms, r.local.nodes, r.local.log), ready := true)])
  }

  /** a sends; b receives and crashes; a sends again; b, back but with its log not yet
      replayed, receives the second message and defers it; then b replays its log. */
  ghost function StrandingRun(a: ReplicaId, b: ReplicaId, conv: ConversationId, p: Bytes): seq<World> {
    var ws := Restart(a, b, conv, p);
    var w4 := Sent([a, b], conv, ws[3], 0, p);
    var w5 := Received(w4, 1, Second(a, b, conv, p), Waits(a, b, conv, p));
    ws + [w4, w5, Replaying([a, b], w5)]
  }

  lemma OneStep(ms: seq<ReplicaId>, conv: ConversationId, ws: seq<World>, t: nat, step: Step)
    requires t + 1 < |ws| && NextStep(ms, conv, ws[t], step, ws[t + 1])
    ensures StepAt(ms, conv, ws, t)
  {
  }

  /** The way both runs begin: a sends, b receives it and crashes. */
  lemma RestartStep(a: ReplicaId, b: ReplicaId, conv: ConversationId, p: Bytes, ws: seq<World>, t: nat)
    requires a != b && t < 3 && Restart(a, b, conv, p) <= ws
    ensures StepAt([a, b], conv, ws, t)
  {
    var vs := Restart(a, b, conv, p);
    assert ws[t] == vs[t] && ws[t + 1] == vs[t + 1];
    if t == 0 {
      OneStep([a, b], conv, ws, t, Send(0, p));
    } else if t == 1 {
      ReceiveFirst(a, b, conv, p);
      OneStep([a, b], conv, ws, t, Receive(1, First(a, b, conv, p)));
    } else {
      OneStep([a, b], conv, ws, t, Crash(1));
    }
  }

  lemma RestartBegins(a: ReplicaId, b: ReplicaId, conv: ConversationId, p: Bytes)
    requires a != b
    ensures Init([a, b], Restart(a, b, conv, p)[0])
    ensures var r := Restart(a, b, conv, p)[3];
      && |r.reps| == 2 && r.reps[0].ready && r.reps[0].local.nodes == map[Key(a, 1) := First(a, b, conv, p)]
      && r.reps[1] == Restarted([First(a, b, conv, p)]) && First(a, b, conv, p) in r.net
  {
    TwoMessages(a, b, conv, p);
    assert Restart(a, b, conv, p)[0].reps == seq(|[a, b]|, i => Restarted([]));
  }

  lemma StrandingStep(a: ReplicaId, b: ReplicaId, conv: ConversationId, p: Bytes, t: nat)
    requires a != b && t < 6
    ensures StepAt([a, b], conv, StrandingRun(a, b, conv, p), t)
  {
    var ws := StrandingRun(a, b, conv, p);
    if t < 3 {
      RestartStep(a, b, conv, p, ws, t);
    } else if t == 4 {
      StrandingReceive(a, b, conv, p);
    } else {
      RestartBegins(a, b, conv, p);
      OneStep([a, b], conv, ws, t, if t == 3 then Send(0, p) else ReplayLog(1, true));
    }
  }

  lemma StrandingReceive(a: ReplicaId, b: ReplicaId, conv: ConversationId, p: Bytes)
    requires a != b
    ensures StepAt([a, b], conv, StrandingRun(a, b, conv, p), 4)
  {
    RestartBegins(a, b, conv, p);
    ReceiveSecond(a, b, conv, p);
    OneStep([a, b], conv, StrandingRun(a, b, conv, p), 4, Receive(1, Second(a, b, conv, p)));
  }

  lemma StrandingIsRun(a: ReplicaId, b: ReplicaId, conv: ConversationId, p: Bytes)
    requires a != b
    ensures Run([a, b], conv, StrandingRun(a, b, conv, p))
    ensures StrandingRun(a, b, conv, p)[6].reps[1].local == AfterReplay([a, b], Waits(a, b, conv, p))
  {
    TwoMessages(a, b, conv, p);
    RestartBegins(a, b, conv, p);
    forall t: nat | t + 1 < 7 ensures StepAt([a, b], conv, StrandingRun(a, b, conv, p), t) {
      StrandingStep(a, b, conv, p, t);
    }
  }

  /** So there are runs in which a replica holds a deferred envelope with all its
      predecessors present, and its graph is not the retry fixpoint of what it received. */
  lemma ReplayCanStrand(a: ReplicaId, b: ReplicaId, conv: ConversationId, p: Bytes)
    requires a != b
    ensures var ms, ws := [a, b], StrandingRun(a, b, conv, p);
      && Run(ms, conv, ws)
      && Stranded(ms, ws[6].reps[1].local, Key(a, 2))
      && ws[6].reps[1].local.nodes.Keys != Retry(ms, ws[6].reps[1].got, {})
  {
    StrandingIsRun(a, b, conv, p);
    ReplayStuck(a, b, conv, p);
    DeliveredIsRetry([a, b], conv, StrandingRun(a, b, conv, p), 6, 1);
  }

  // ---- a run that delivers out of order ----

  /** What b holds after replaying the first message and receiving the second. */
  ghost function Both(a: ReplicaId, b: ReplicaId, conv: ConversationId, p: Bytes): Local {
    var a1, a2 := First(a, b, conv, p), Second(a, b, conv, p);
    Local(map[Key(a, 1) := a1, Key(a, 2) := a2], map[], {}, [a1, a2], [a1, a2])
  }

  /** a sends; b receives, crashes and replays its log; a sends again; b receives the second
      message while the first is still queued for delivery. */
  ghost function OvertakingRun(a: ReplicaId, b: ReplicaId, conv: ConversationId, p: Bytes): seq<World> {
    var ws := Restart(a, b, conv, p);
    var w4 := Replaying([a, b], ws[3]);
    var w5 := Sent([a, b], conv, w4, 0, p);
    ws + [w4, w5, Received(w5, 1, Second(a, b, conv, p), Both(a, b, conv, p))]
  }

  lemma ReplayFirst(a: ReplicaId, b: ReplicaId, conv: ConversationId, p: Bytes)
    requires a != b
    ensures var a1 := First(a, b, conv, p);
      && AfterReplay([a, b], Restarted([a1]).local) == Local(map[Key(a, 1) := a1], map[], {}, [a1], [a1])
      && Replayed([a, b], map[], [a1]) == [a1]
  {
    TwoMessages(a, b, conv, p);
    var a1 := First(a, b, conv, p);
    assert [a1][..0] == [];
    assert Replay([a, b], map[], []) == map[] && Replayed([a, b], map[], []) == [];
    assert Replayed([a, b], map[], [a1]) == [] + [a1];
  }

  lemma ReceiveBehind(a: ReplicaId, b: ReplicaId, conv: ConversationId, p: Bytes)
    requires a != b
    ensures var a1, a2 := First(a, b, conv, p), Second(a, b, conv, p);
      ReceiveStep([a, b], a2, Local(map[Key(a, 1) := a1], map[], {}, [a1], [a1]), Both(a, b, conv, p))
  {
    TwoMessages(a, b, conv, p);
    var a1, a2 := First(a, b, conv, p), Second(a, b, conv, p);
    CausalExtend([a, b], [], a1);
    assert [] + [a1] == [a1];
    CausalExtend([a, b], [a1], a2);
    assert [a1] + [a2] == [a1, a2] && [a1, a2][1..] == [a2];
  }

  lemma OvertakingStep(a: ReplicaId, b: ReplicaId, conv: ConversationId, p: Bytes, t: nat)
    requires a != b && t < 6
    ensures StepAt([a, b], conv, OvertakingRun(a, b, conv, p), t)
  {
    var ws := OvertakingRun(a, b, conv, p);
    TwoMessages(a, b, conv, p);
    RestartBegins(a, b, conv, p);
    if t < 3 {
      RestartStep(a, b, conv, p, ws, t);
    } else if t == 3 {
      OneStep([a, b], conv, ws, t, ReplayLog(1, true));
    } else if t == 4 {
      OneStep([a, b], conv, ws, t, Send(0, p));
    } else {
      ReplayFirst(a, b, conv, p);
      ReceiveBehind(a, b, conv, p);
      OneStep([a, b], conv, ws, t, Receive(1, Second(a, b, conv, p)));
    }
  }

  lemma OvertakingEnds(a: ReplicaId, b: ReplicaId, conv: ConversationId, p: Bytes)
    requires a != b
    ensures var w := OvertakingRun(a, b, conv, p)[6];
      && w.reps[1].delivered == [Second(a, b, conv, p)] && w.reps[1].queue == [First(a, b, conv, p)]
      && (Second(a, b, conv, p), First(a, b, conv, p)) in w.reps[1].jumped && First(a, b, conv, p) in w.net
  {
    var a1, a2 := First(a, b, conv, p), Second(a, b, conv, p);
    ReplayFirst(a, b, conv, p);
    assert [a1, a2][1..] == [a2];
  }

  /** So there are runs in which a sender's second message is delivered before its first. */
  lemma ReplayCanBeOvertaken(a: ReplicaId, b: ReplicaId, conv: ConversationId, p: Bytes)
    requires a != b
    ensures var ms, ws := [a, b], OvertakingRun(a, b, conv, p);
      && Run(ms, conv, ws)
      && ws[6].reps[1].delivered == [Second(a, b, conv, p)] && ws[6].reps[1].queue == [First(a, b, conv, p)]
      && a in Overtaken(ws[6].reps[1]) && Uncaused(ms, ws[6].reps[1]) && First(a, b, conv, p) in ws[6].net
  {
    TwoMessages(a, b, conv, p);
    RestartBegins(a, b, conv, p);
    OvertakingEnds(a, b, conv, p);
    forall t: nat | t + 1 < 7 ensures StepAt([a, b], conv, OvertakingRun(a, b, conv, p), t) {
      OvertakingStep(a, b, conv, p, t);
    }
  }
}
