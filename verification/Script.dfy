/** Runs of two members built step by step, without crashes: a run is known by what each of
    the two holds at its end. */
module Script {
  import opened Basics
  import opened Vectors
  import opened Causality
  import opened Protocol
  import opened World

  ghost function PlainLocal(ms: seq<ReplicaId>, h: seq<Envelope>): Local {
    Local(Index(ms, h), map[], {}, h, h)
  }

  /** The replica has inserted and delivered h, and its total order is at `total`. */
  ghost predicate Plain(ms: seq<ReplicaId>, r: Replica, h: seq<Envelope>, total: Ordering) {
    && r.local == PlainLocal(ms, h)
    && r.delivered == h && r.queue == [] && r.ready && r.jumped == {} && r.total == total
  }

  /** A run at whose end the members hold g and h, and the second one's total order is at
      `total`. */
  ghost predicate Held(ms: seq<ReplicaId>, conv: ConversationId, ws: seq<World>, g: seq<Envelope>, h: seq<Envelope>,
                       total: Ordering)
  {
    && Run(ms, conv, ws) && |ms| == 2 && Causal(ms, g) && Causal(ms, h)
    && var w := ws[|ws| - 1];
       && |w.reps| == 2 && Elements(g) <= w.net && Elements(h) <= w.net
       && Plain(ms, w.reps[0], g, FreshOrdering) && Plain(ms, w.reps[1], h, total)
  }

  lemma RunExtend(ms: seq<ReplicaId>, conv: ConversationId, ws: seq<World>, step: Step, w: World)
    requires Run(ms, conv, ws) && NextStep(ms, conv, ws[|ws| - 1], step, w)
    ensures Run(ms, conv, ws + [w])
  {
    var vs := ws + [w];
    forall t: nat | t + 1 < |vs| ensures StepAt(ms, conv, vs, t) {
      if t + 1 < |ws| {
        assert StepAt(ms, conv, ws, t);
      } else {
        assert NextStep(ms, conv, vs[t], step, vs[t + 1]);
      }
    }
  }

  lemma Begin(ms: seq<ReplicaId>, conv: ConversationId) returns (ws: seq<World>)
    requires Distinct(ms) && |ms| == 2
    ensures Held(ms, conv, ws, [], [], FreshOrdering)
  {
    ws := [World(seq(|ms|, i => Restarted([])), {}, map[])];
  }

  // ---- one step ----

  lemma SendPlain(ms: seq<ReplicaId>, conv: ConversationId, w: World, i: nat, h: seq<Envelope>, p: Bytes)
    requires Distinct(ms) && |ms| == |w.reps| == 2 && i < 2 && Causal(ms, h) && Plain(ms, w.reps[i], h, FreshOrdering)
    ensures
      var e, w' := Outgoing(ms, conv, Index(ms, h), i, p), Sent(ms, conv, w, i, p);
      && NextStep(ms, conv, w, Send(i, p), w') && Plain(ms, w'.reps[i], h + [e], FreshOrdering)
      && w'.reps[1 - i] == w.reps[1 - i] && w'.net == w.net + {e} && |w'.reps| == 2
      && Causal(ms, h + [e]) && Admissible(ms, Index(ms, h), e)
  {
    var e := Outgoing(ms, conv, Index(ms, h), i, p);
    OutgoingAdmissible(ms, conv, Index(ms, h), i, p);
    CausalExtend(ms, h, e);
    assert Jumps(w.reps[i], [e]) == {};
  }

  lemma ReceiveNext(ms: seq<ReplicaId>, h: seq<Envelope>, e: Envelope)
    requires Causal(ms, h) && Admissible(ms, Index(ms, h), e)
    ensures Causal(ms, h + [e]) && ReceiveStep(ms, e, PlainLocal(ms, h), PlainLocal(ms, h + [e]))
  {
    CausalExtend(ms, h, e);
    var s' := PlainLocal(ms, h + [e]);
    assert s'.history[|h|..] == [e] && KeyOf(ms, e) in s'.nodes;
  }

  lemma ReceivePlain(ms: seq<ReplicaId>, conv: ConversationId, ws: seq<World>, j: nat, h: seq<Envelope>, e: Envelope)
    requires Run(ms, conv, ws) && |ms| == |ws[|ws| - 1].reps| == 2 && j < 2
    requires Plain(ms, ws[|ws| - 1].reps[j], h, FreshOrdering) && e in ws[|ws| - 1].net
    requires Causal(ms, h) && Admissible(ms, Index(ms, h), e)
    ensures
      var w, w' := ws[|ws| - 1], Received(ws[|ws| - 1], j, e, PlainLocal(ms, h + [e]));
      && Run(ms, conv, ws + [w']) && Causal(ms, h + [e]) && Plain(ms, w'.reps[j], h + [e], FreshOrdering)
      && w'.reps[1 - j] == w.reps[1 - j] && w'.net == w.net && |w'.reps| == 2
  {
    var w, w' := ws[|ws| - 1], Received(ws[|ws| - 1], j, e, PlainLocal(ms, h + [e]));
    assert (h + [e])[|h|..] == [e];
    assert Jumps(w.reps[j], [e]) == {};
    ReceiveNext(ms, h, e);
    RunExtend(ms, conv, ws, Receive(j, e), w');
  }

  /** Member i sends. */
  lemma SendOne(ms: seq<ReplicaId>, conv: ConversationId, ws: seq<World>, g: seq<Envelope>, h: seq<Envelope>, i: nat,
                p: Bytes) returns (vs: seq<World>)
    requires Held(ms, conv, ws, g, h, FreshOrdering) && i < 2
    ensures
      var s := if i == 0 then g else h;
      var e := Outgoing(ms, conv, Index(ms, s), i, p);
      && Admissible(ms, Index(ms, s), e)
      && (i == 0 ==> Held(ms, conv, vs, g + [e], h, FreshOrdering))
      && (i == 1 ==> Held(ms, conv, vs, g, h + [e], FreshOrdering))
  {
    var w := ws[|ws| - 1];
    SendPlain(ms, conv, w, i, if i == 0 then g else h, p);
    RunExtend(ms, conv, ws, Send(i, p), Sent(ms, conv, w, i, p));
    vs := ws + [Sent(ms, conv, w, i, p)];
  }

  /** Member j receives an envelope of the other, having all its predecessors. */
  lemma HearOne(ms: seq<ReplicaId>, conv: ConversationId, ws: seq<World>, g: seq<Envelope>, h: seq<Envelope>, j: nat,
                e: Envelope) returns (vs: seq<World>)
    requires Held(ms, conv, ws, g, h, FreshOrdering) && j < 2 && e in (if j == 0 then h else g)
    requires Admissible(ms, Index(ms, if j == 0 then g else h), e)
    ensures j == 0 ==> Held(ms, conv, vs, g + [e], h, FreshOrdering)
    ensures j == 1 ==> Held(ms, conv, vs, g, h + [e], FreshOrdering)
  {
    var w, s := ws[|ws| - 1], if j == 0 then g else h;
    assert e in w.net by { assert e in Elements(g) || e in Elements(h); }
    ReceivePlain(ms, conv, ws, j, s, e);
    vs := ws + [Received(w, j, e, PlainLocal(ms, s + [e]))];
  }

  /** What one history admits, a larger one without it does too. */
  lemma AdmissibleLater(ms: seq<ReplicaId>, s: seq<Envelope>, t: seq<Envelope>, e: Envelope)
    requires Admissible(ms, Index(ms, s), e) && forall x :: x in s ==> x in t
    requires forall x :: x in t ==> KeyOf(ms, x) != KeyOf(ms, e)
    ensures Admissible(ms, Index(ms, t), e)
  {
    KeysIndex(ms, s);
    KeysIndex(ms, t);
  }

  // ---- clocks ----

  /** x and y are the highest numbers of the two members in h. */
  ghost predicate Front(ms: seq<ReplicaId>, h: seq<Envelope>, x: nat, y: nat)
    requires |ms| == 2
  {
    Latest(Index(ms, h), ms[0]) == x && Latest(Index(ms, h), ms[1]) == y
  }

  lemma LatestNext(nodes: Nodes, r: ReplicaId, e: Envelope, q: ReplicaId)
    ensures
      var nodes' := nodes[Key(r, Latest(nodes, r) + 1) := e];
      Latest(nodes', q) == if q == r then Latest(nodes, r) + 1 else Latest(nodes, q)
  {
    var k := Key(r, Latest(nodes, r) + 1);
    assert k in nodes[k := e];
  }

  function Said(ms: seq<ReplicaId>, conv: ConversationId, i: nat, x: nat, y: nat, p: Bytes): Envelope
    requires i < |ms|
  {
    Envelope(conv, ms[i], [x, y], p)
  }

  lemma StampOf(ms: seq<ReplicaId>, conv: ConversationId, h: seq<Envelope>, i: nat, p: Bytes, x: nat, y: nat)
    requires |ms| == 2 && i < 2 && Front(ms, h, x, y)
    ensures Outgoing(ms, conv, Index(ms, h), i, p) ==
      if i == 0 then Said(ms, conv, 0, x + 1, y, p) else Said(ms, conv, 1, x, y + 1, p)
  {
    ViewIs(ms, Index(ms, h), x, y);
    assert [x, y][0 := x + 1] == [x + 1, y] && [x, y][1 := y + 1] == [x, y + 1];
  }

  lemma ViewIs(ms: seq<ReplicaId>, nodes: Nodes, x: nat, y: nat)
    requires |ms| == 2 && Latest(nodes, ms[0]) == x && Latest(nodes, ms[1]) == y
    ensures View(ms, nodes) == [x, y]
  {
    assert At(View(ms, nodes), 0) == x && At(View(ms, nodes), 1) == y;
  }

  lemma FrontNext(ms: seq<ReplicaId>, conv: ConversationId, h: seq<Envelope>, i: nat, p: Bytes, x: nat, y: nat)
    requires Distinct(ms) && |ms| == 2 && i < 2 && Causal(ms, h) && Front(ms, h, x, y)
    ensures
      var e := Outgoing(ms, conv, Index(ms, h), i, p);
      if i == 0 then Front(ms, h + [e], x + 1, y) else Front(ms, h + [e], x, y + 1)
  {
    var e := Outgoing(ms, conv, Index(ms, h), i, p);
    OutgoingKey(ms, conv, Index(ms, h), i, p);
    OutgoingAdmissible(ms, conv, Index(ms, h), i, p);
    CausalExtend(ms, h, e);
    LatestNext(Index(ms, h), ms[i], e, ms[0]);
    LatestNext(Index(ms, h), ms[i], e, ms[1]);
  }

  // ---- a conversation heard by both ----

  /** Both members hold h, whose highest numbers are x and y. */
  ghost predicate Talked(ms: seq<ReplicaId>, conv: ConversationId, ws: seq<World>, h: seq<Envelope>, x: nat, y: nat) {
    Held(ms, conv, ws, h, h, FreshOrdering) && Front(ms, h, x, y)
  }

  /** Member i sends and the other member receives it. */
  lemma Say(ms: seq<ReplicaId>, conv: ConversationId, ws: seq<World>, h: seq<Envelope>, i: nat, p: Bytes)
    returns (vs: seq<World>)
    requires Held(ms, conv, ws, h, h, FreshOrdering) && i < 2
    ensures
      var s := h + [Outgoing(ms, conv, Index(ms, h), i, p)];
      Held(ms, conv, vs, s, s, FreshOrdering)
  {
    var e := Outgoing(ms, conv, Index(ms, h), i, p);
    var us := SendOne(ms, conv, ws, h, h, i, p);
    if i == 0 {
      vs := HearOne(ms, conv, us, h + [e], h, 1, e);
    } else {
      vs := HearOne(ms, conv, us, h, h + [e], 0, e);
    }
  }

  /** Member i's next message reaches both. */
  lemma SayNext(ms: seq<ReplicaId>, conv: ConversationId, ws: seq<World>, h: seq<Envelope>, i: nat, p: Bytes,
                x: nat, y: nat) returns (vs: seq<World>)
    requires Talked(ms, conv, ws, h, x, y) && i < 2
    ensures i == 0 ==> Talked(ms, conv, vs, h + [Said(ms, conv, 0, x + 1, y, p)], x + 1, y)
    ensures i == 1 ==> Talked(ms, conv, vs, h + [Said(ms, conv, 1, x, y + 1, p)], x, y + 1)
  {
    StampOf(ms, conv, h, i, p, x, y);
    FrontNext(ms, conv, h, i, p, x, y);
    vs := Say(ms, conv, ws, h, i, p);
  }

  lemma WaveOfTwo(x: nat, y: nat)
    ensures Wave([x, y]) == if x < y then y else x
  {
    assert At([x, y], 0) == x && At([x, y], 1) == y;
  }
}
