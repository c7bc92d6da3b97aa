/** A run in which a reply is emitted before the message it answers: bob sends, alice has it
    and replies, both messages are of wave 1, and alice's bytes are smaller
    (order/total.go). */
module Reply {
  import opened Basics
  import opened Vectors
  import opened Causality
  import opened World
  import opened Agreement
  import opened Script

  /** A run at whose end both members hold h and the second one's total order is at `total`. */
  ghost predicate Shared(ms: seq<ReplicaId>, conv: ConversationId, ws: seq<World>, h: seq<Envelope>, total: Ordering) {
    Held(ms, conv, ws, h, h, total)
  }

  /** Member 1's total order consumes its next delivery. */
  lemma Look(ms: seq<ReplicaId>, conv: ConversationId, ws: seq<World>, h: seq<Envelope>, total: Ordering)
    returns (vs: seq<World>)
    requires Shared(ms, conv, ws, h, total) && total.consumed < |h|
    ensures Shared(ms, conv, vs, h, total.(consumed := total.consumed + 1,
                                           latestWave := NoteWave(total.latestWave, h[total.consumed])))
  {
    var w := ws[|ws| - 1];
    var after := total.(consumed := total.consumed + 1, latestWave := NoteWave(total.latestWave, h[total.consumed]));
    var w1 := w.(reps := w.reps[1 := w.reps[1].(total := after)]);
    assert NextStep(ms, conv, w, Observe(1), w1);
    RunExtend(ms, conv, ws, Observe(1), w1);
    vs := ws + [w1];
  }

  ghost function Looked(h: seq<Envelope>, n: nat): Ordering
    requires n <= |h|
  {
    if n == 0 then FreshOrdering
    else Ordering(n, NoteWave(Looked(h, n - 1).latestWave, h[n - 1]), 1, [])
  }

  lemma {:induction false} LookAll(ms: seq<ReplicaId>, conv: ConversationId, ws: seq<World>, h: seq<Envelope>, n: nat)
    returns (vs: seq<World>)
    requires Shared(ms, conv, ws, h, FreshOrdering) && n <= |h|
    ensures Shared(ms, conv, vs, h, Looked(h, n))
  {
    if n == 0 {
      vs := ws;
    } else {
      var us := LookAll(ms, conv, ws, h, n - 1);
      vs := Look(ms, conv, us, h, Looked(h, n - 1));
    }
  }

  /** Member 1 emits wave 1. */
  lemma Emit(ms: seq<ReplicaId>, conv: ConversationId, ws: seq<World>, h: seq<Envelope>, total: Ordering,
             batch: seq<Envelope>)
    returns (vs: seq<World>)
    requires Shared(ms, conv, ws, h, total) && WaveComplete(ms, Index(ms, h), total.nextWave)
    requires Continuation(ms, total.latestWave, total.nextWave) && IsSort(WaveList(h, total.nextWave), batch)
    ensures Shared(ms, conv, vs, h, total.(nextWave := total.nextWave + 1, batches := total.batches + [batch]))
  {
    var w := ws[|ws| - 1];
    var after := total.(nextWave := total.nextWave + 1, batches := total.batches + [batch]);
    var w1 := w.(reps := w.reps[1 := w.reps[1].(total := after)]);
    assert NextStep(ms, conv, w, Drain(1, batch), w1);
    RunExtend(ms, conv, ws, Drain(1, batch), w1);
    vs := ws + [w1];
  }

  // ---- the run ----

  ghost function Talk(ms: seq<ReplicaId>, conv: ConversationId, p: Bytes): seq<Envelope>
    requires |ms| == 2
  {
    [Said(ms, conv, 1, 0, 1, p)] + [Said(ms, conv, 0, 1, 1, p)]
    + [Said(ms, conv, 0, 2, 1, p)] + [Said(ms, conv, 1, 2, 2, p)]
  }

  lemma Talking(ms: seq<ReplicaId>, conv: ConversationId, p: Bytes) returns (ws: seq<World>)
    requires Distinct(ms) && |ms| == 2
    ensures Talked(ms, conv, ws, Talk(ms, conv, p), 2, 2)
  {
    var b1, a1, a2 := Said(ms, conv, 1, 0, 1, p), Said(ms, conv, 0, 1, 1, p), Said(ms, conv, 0, 2, 1, p);
    ws := Begin(ms, conv);
    ws := SayNext(ms, conv, ws, [], 1, p, 0, 0);
    assert [] + [b1] == [b1];
    ws := SayNext(ms, conv, ws, [b1], 0, p, 0, 1);
    ws := SayNext(ms, conv, ws, [b1] + [a1], 0, p, 1, 1);
    ws := SayNext(ms, conv, ws, [b1] + [a1] + [a2], 1, p, 2, 1);
  }

  // ---- wave 1 is open, and sorts the reply first ----

  lemma Waves(ms: seq<ReplicaId>, conv: ConversationId, p: Bytes)
    requires Distinct(ms) && |ms| == 2
    ensures
      var h := Talk(ms, conv, p);
      && Wave(h[0].vc) == Wave(h[1].vc) == 1 && Wave(h[2].vc) == Wave(h[3].vc) == 2
      && WaveList(h, 1) == [h[0], h[1]]
  {
    var h := Talk(ms, conv, p);
    WaveOfTwo(0, 1); WaveOfTwo(1, 1); WaveOfTwo(2, 1); WaveOfTwo(2, 2);
    assert h[..3] == [h[0], h[1], h[2]] && h[..3][..2] == [h[0], h[1]];
    assert [h[0], h[1]][..1] == [h[0]] && [h[0]][..0] == [];
    assert WaveList([], 1) == [] && WaveList([h[0]], 1) == [h[0]] && WaveList([h[0], h[1]], 1) == [h[0], h[1]];
    assert WaveList(h[..3], 1) == [h[0], h[1]];
  }

  lemma NotedWaves(ms: seq<ReplicaId>, conv: ConversationId, p: Bytes)
    requires Distinct(ms) && |ms| == 2
    ensures Looked(Talk(ms, conv, p), 4) == Ordering(4, Looked(Talk(ms, conv, p), 4).latestWave, 1, [])
    ensures Continuation(ms, Looked(Talk(ms, conv, p), 4).latestWave, 1)
  {
    var h := Talk(ms, conv, p);
    Waves(ms, conv, p);
    var l3 := Looked(h, 3).latestWave;
    assert l3 == NoteWave(Looked(h, 2).latestWave, h[2]);
    assert Looked(h, 4).latestWave == NoteWave(l3, h[3]);
  }

  /** bob's first message is stable: alice's second covers it. */
  lemma FirstIsStable(ms: seq<ReplicaId>, conv: ConversationId, p: Bytes)
    requires Distinct(ms) && |ms| == 2 && Causal(ms, Talk(ms, conv, p)) && Front(ms, Talk(ms, conv, p), 2, 2)
    ensures WaveComplete(ms, Index(ms, Talk(ms, conv, p)), 1)
  {
    var h := Talk(ms, conv, p);
    Waves(ms, conv, p);
    CausalLookup(ms, h, 0);
    CausalLookup(ms, h, 2);
    assert KeyOf(ms, h[0]) == Key(ms[1], 1) && KeyOf(ms, h[2]) == Key(ms[0], 2);
    assert IsStable(ms, Index(ms, h), Key(ms[1], 1));
  }

  lemma ReplySortsFirst(ms: seq<ReplicaId>, conv: ConversationId, p: Bytes)
    requires Distinct(ms) && |ms| == 2 && Less(ms[0], ms[1])
    ensures var h := Talk(ms, conv, p); IsSort(WaveList(h, 1), [h[1], h[0]]) && HappensBefore(h[0].vc, h[1].vc)
  {
    var h := Talk(ms, conv, p);
    Waves(ms, conv, p);
    LessTrichotomy(ms[0], ms[1]);
    assert At([1, 1], 0) > At([0, 1], 0);
  }

  ghost function Replied(ms: seq<ReplicaId>, conv: ConversationId, p: Bytes): Ordering
    requires |ms| == 2
  {
    var h := Talk(ms, conv, p);
    Looked(h, 4).(nextWave := 2, batches := [[h[1], h[0]]])
  }

  lemma EmitReply(ms: seq<ReplicaId>, conv: ConversationId, p: Bytes) returns (ws: seq<World>)
    requires Distinct(ms) && |ms| == 2 && Less(ms[0], ms[1])
    ensures Shared(ms, conv, ws, Talk(ms, conv, p), Replied(ms, conv, p))
  {
    var h := Talk(ms, conv, p);
    ws := Talking(ms, conv, p);
    FirstIsStable(ms, conv, p);
    NotedWaves(ms, conv, p);
    ReplySortsFirst(ms, conv, p);
    ws := LookAll(ms, conv, ws, h, 4);
    ws := Emit(ms, conv, ws, h, Looked(h, 4), [h[1], h[0]]);
  }

  /** There is a run in which bob's message and alice's reply to it, which happens after it,
      are both emitted, and the reply comes first. */
  lemma ReplyEmittedFirst(alice: ReplicaId, bob: ReplicaId, conv: ConversationId, p: Bytes) returns (ws: seq<World>)
    requires Less(alice, bob)
    ensures Run([alice, bob], conv, ws)
    ensures
      var w, m1, m2 := ws[|ws| - 1], Envelope(conv, bob, [0, 1], p), Envelope(conv, alice, [1, 1], p);
      && |w.reps| == 2 && m1 in w.net && m2 in w.net && HappensBefore(m1.vc, m2.vc)
      && Emitted(w.reps[1].total.batches) == [m2, m1]
  {
    LessTrichotomy(alice, bob);
    ws := EmitReply([alice, bob], conv, p);
    ReplySortsFirst([alice, bob], conv, p);
    ReadOff([alice, bob], conv, ws, p);
  }

  lemma ReadOff(ms: seq<ReplicaId>, conv: ConversationId, ws: seq<World>, p: Bytes)
    requires |ms| == 2 && Shared(ms, conv, ws, Talk(ms, conv, p), Replied(ms, conv, p))
    ensures
      var w, h := ws[|ws| - 1], Talk(ms, conv, p);
      |w.reps| == 2 && h[0] in w.net && h[1] in w.net && Emitted(w.reps[1].total.batches) == [h[1], h[0]]
  {
    var h := Talk(ms, conv, p);
    assert h[0] in Elements(h) && h[1] in Elements(h);
    EmittedOne([h[1], h[0]]);
  }

  lemma EmittedOne(batch: seq<Envelope>)
    ensures Emitted([batch]) == batch
  {
    assert [batch][..0] == [] && [] + batch == batch;
  }
}
