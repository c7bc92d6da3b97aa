/** The semantic order leaves a wave behind once it has moved on: a run of two members in
    which a strict operation arrives late and is never applied (order/semorder.go). */
module SemSkip {
  import opened Basics
  import opened Vectors
  import opened Causality
  import opened Eager
  import opened WaveBuckets
  import opened SemTrace
  import opened Script
  import opened SemAgreement
  import World
  import SemOrder

  /** A key not handed over before is new to its wave. */
  lemma Unseen(o: SemOrder.SemOrder, e: Envelope)
    requires o.Valid() && o.Traced() && Numbered(o.ms, e)
    requires forall x :: x in o.input ==> KeyOf(o.ms, x) != KeyOf(o.ms, e)
    ensures o.IsNew(e)
  {
    assert forall x :: x in Bucket(o.messagesByWave, Wave(e.vc)) ==> Observed(o.messagesByWave, x);
  }

  /** An envelope handed over under a key of its own is observed. */
  lemma HandedOver(o: SemOrder.SemOrder, e: Envelope)
    requires o.Traced() && OneEach(o.ms, o.input) && e in o.input && Numbered(o.ms, e)
    ensures Observed(o.messagesByWave, e)
  {
    assert FiledAs(o.ms, o.messagesByWave, e);
  }

  /** While a member has not been heard from, the order stays at its wave. */
  method Hear(o: SemOrder.SemOrder, e: Envelope, silent: ReplicaId)
    requires o.Valid() && o.Traced() && Numbered(o.ms, e) && InRange(o.ms, e)
    requires forall x :: x in o.input ==> KeyOf(o.ms, x) != KeyOf(o.ms, e)
    requires silent in o.ms && silent !in o.latestVector && e.sender != silent
    modifies o
    ensures o.Valid() && o.Traced() && o.currentWave == old(o.currentWave) && o.input == old(o.input) + [e]
    ensures o.latestVector == WithVector(old(o.latestVector), e)
  {
    Unseen(o, e);
    o.Pump(e);
  }

  lemma NewKey(ms: seq<ReplicaId>, es: seq<Envelope>, i: nat)
    requires i < |es| && forall j :: 0 <= j < |es| ==> SlotOf(ms, es[j].sender) >= 0 && KeyOf(ms, es[j]).num == j + 1
    ensures forall x :: x in es[..i] ==> KeyOf(ms, x) != KeyOf(ms, es[i])
    ensures es[..i + 1] == es[..i] + [es[i]]
  {
  }

  function NewestOf(sender: ReplicaId, es: seq<Envelope>): map<ReplicaId, Vector> {
    if es == [] then map[] else map[sender := es[|es| - 1].vc]
  }

  lemma Newest(sender: ReplicaId, es: seq<Envelope>, i: nat)
    requires i < |es| && es[i].sender == sender
    requires i > 0 ==> |es[i - 1].vc| == |es[i].vc| && Leq(es[i - 1].vc, es[i].vc)
    ensures WithVector(NewestOf(sender, es[..i]), es[i]) == NewestOf(sender, es[..i + 1])
  {
  }

  /** The same for several messages of one sender with rising clocks. */
  method HearAll(o: SemOrder.SemOrder, sender: ReplicaId, es: seq<Envelope>, silent: ReplicaId)
    requires o.Valid() && o.Traced() && o.input == [] && o.latestVector == map[]
    requires silent in o.ms && sender != silent
    requires forall i :: 0 <= i < |es| ==>
      Numbered(o.ms, es[i]) && InRange(o.ms, es[i]) && es[i].sender == sender && KeyOf(o.ms, es[i]).num == i + 1
    requires forall i :: 0 < i < |es| ==> |es[i - 1].vc| == |es[i].vc| && Leq(es[i - 1].vc, es[i].vc)
    modifies o
    ensures o.Valid() && o.Traced() && o.currentWave == old(o.currentWave) && o.input == es
    ensures o.latestVector == NewestOf(sender, es)
  {
    assert es[..|es|] == es;
    for i := 0 to |es|
      invariant o.Valid() && o.Traced() && o.currentWave == old(o.currentWave) && o.input == es[..i]
      invariant o.latestVector == NewestOf(sender, es[..i])
    {
      NewKey(o.ms, es, i);
      Newest(sender, es, i);
      Hear(o, es[i], silent);
    }
  }

  /** A stable message of wave 1, every member heard beyond it, and one strict operation,
      of a later wave. */
  ghost predicate Opening(ms: seq<ReplicaId>, classOf: Classifier, latest: map<ReplicaId, Vector>, input: seq<Envelope>,
                          first: Envelope, strict: Envelope)
  {
    && first in input && Wave(first.vc) == 1 && StableLocal(ms, latest, first) && ContinuationLocal(ms, latest, 1)
    && strict in input && Numbered(ms, strict) && Wave(strict.vc) > 1 && !Class1(classOf, strict)
    && forall x :: x in input && !Class1(classOf, x) ==> x == strict
  }

  /** Then the order moves to the wave of that operation. */
  lemma MovesTo(o: SemOrder.SemOrder, first: Envelope, strict: Envelope)
    requires o.Valid() && o.Traced() && o.Stuck() && OneEach(o.ms, o.input)
    requires o.currentWave == 1 || HasStrict(o.messagesByWave, o.classOf, o.currentWave)
    requires Opening(o.ms, o.classOf, o.latestVector, o.input, first, strict)
    ensures o.currentWave == Wave(strict.vc)
  {
    HandedOver(o, first);
    HandedOver(o, strict);
    Opens(o, first);
    OnlyStrict(o, strict);
    assert HasStrict(o.messagesByWave, o.classOf, Wave(strict.vc));
  }

  lemma Opens(o: SemOrder.SemOrder, e: Envelope)
    requires Observed(o.messagesByWave, e) && StableLocal(o.ms, o.latestVector, e)
    requires ContinuationLocal(o.ms, o.latestVector, Wave(e.vc))
    ensures o.currentWave == Wave(e.vc) ==> o.Open()
  {
  }

  lemma OnlyStrict(o: SemOrder.SemOrder, e: Envelope)
    requires o.Valid() && o.Traced() && Observed(o.messagesByWave, e) && !Class1(o.classOf, e)
    requires forall x :: x in o.input && !Class1(o.classOf, x) ==> x == e
    ensures forall w :: HasStrict(o.messagesByWave, o.classOf, w) <==> w == Wave(e.vc)
  {
    forall w | HasStrict(o.messagesByWave, o.classOf, w) ensures w == Wave(e.vc) {
      var x :| x in o.messagesByWave[w] && !Class1(o.classOf, x);
      assert Observed(o.messagesByWave, x);
    }
  }

  /** A strict operation that arrives after its wave has been passed is filed and not
      executed. */
  method HearLate(o: SemOrder.SemOrder, e: Envelope)
    requires o.Valid() && o.Traced() && Numbered(o.ms, e) && !Class1(o.classOf, e) && Wave(e.vc) < o.currentWave
    requires OneEach(o.ms, o.input + [e]) && e !in o.input
    modifies o
    ensures o.Valid() && o.Traced() && old(o.currentWave) <= o.currentWave && o.input == old(o.input) + [e]
    ensures e in o.late && Observed(o.messagesByWave, e) && KeyOf(o.ms, e) !in o.executed
    ensures o.latestVector == WithVector(old(o.latestVector), e)
    ensures o.currentWave != old(o.currentWave) ==>
      CompleteLocal(o.ms, o.latestVector, o.messagesByWave, old(o.currentWave))
  {
    Unseen(o, e);
    ghost var t := Observe(o.ms, o.classOf, o.Trace(), e);
    o.Pump(e);
    SameGate(o.ms, o.latestVector, t.buckets, o.messagesByWave, t.wave);
    StaysOut(o, e);
  }

  lemma NotComplete(o: SemOrder.SemOrder, w: nat)
    requires o.Valid() && o.Traced()
    requires forall x :: x in o.input && Wave(x.vc) == w ==> !StableLocal(o.ms, o.latestVector, x)
    ensures !CompleteLocal(o.ms, o.latestVector, o.messagesByWave, w)
  {
    if w in o.messagesByWave {
      forall x | x in o.messagesByWave[w] ensures !StableLocal(o.ms, o.latestVector, x) {
        assert Observed(o.messagesByWave, x);
      }
    }
  }

  lemma StaysOut(o: SemOrder.SemOrder, e: Envelope)
    requires o.Valid() && o.Traced() && OneEach(o.ms, o.input) && e in o.late
    ensures Observed(o.messagesByWave, e) && KeyOf(o.ms, e) !in o.executed
  {
    assert Passed(o.classOf, o.messagesByWave, o.currentWave, e);
    ExecutedUnlessLate(o.ms, o.classOf, o.Trace(), e);
  }

  method HearNew(o: SemOrder.SemOrder, e: Envelope)
    requires o.Valid() && o.Traced() && Numbered(o.ms, e) && InRange(o.ms, e)
    requires OneEach(o.ms, o.input + [e]) && e !in o.input
    modifies o
    ensures o.Valid() && o.Traced() && o.Stuck() && o.input == old(o.input) + [e]
    ensures o.currentWave == old(o.currentWave) || HasStrict(o.messagesByWave, o.classOf, o.currentWave)
    ensures o.latestVector == WithVector(old(o.latestVector), e)
  {
    Unseen(o, e);
    o.Pump(e);
  }

  // ---- the run ----

  function MsgOf(conv: ConversationId, sender: ReplicaId, x: nat, y: nat, payload: Bytes): Envelope {
    Envelope(conv, sender, [x, y], payload)
  }

  function FromA(conv: ConversationId, a: ReplicaId, p: Bytes, q: Bytes): seq<Envelope> {
    [MsgOf(conv, a, 1, 0, p), MsgOf(conv, a, 2, 0, p), MsgOf(conv, a, 3, 0, q)]
  }

  lemma MsgFacts(a: ReplicaId, b: ReplicaId, conv: ConversationId, sender: ReplicaId, x: nat, y: nat, payload: Bytes)
    requires a != b && sender in [a, b]
    ensures
      var e := MsgOf(conv, sender, x, y, payload);
      && Numbered([a, b], e) && InRange([a, b], e) && At(e.vc, 0) == x && At(e.vc, 1) == y && e.sender == sender
      && KeyOf([a, b], e) == Key(sender, if sender == a then x else y) && Wave(e.vc) == if x < y then y else x
  {
    var v := [x, y];
    assert At(v, 0) == x && At(v, 1) == y;
  }

  lemma FromAFacts(a: ReplicaId, b: ReplicaId, conv: ConversationId, p: Bytes, q: Bytes)
    requires a != b
    ensures
      var es := FromA(conv, a, p, q);
      forall i :: 0 <= i < |es| ==>
        Numbered([a, b], es[i]) && InRange([a, b], es[i]) && es[i].sender == a && KeyOf([a, b], es[i]).num == i + 1
  {
    MsgFacts(a, b, conv, a, 1, 0, p);
    MsgFacts(a, b, conv, a, 2, 0, p);
    MsgFacts(a, b, conv, a, 3, 0, q);
  }

  lemma FromARises(conv: ConversationId, a: ReplicaId, p: Bytes, q: Bytes)
    ensures
      var es := FromA(conv, a, p, q);
      forall i :: 0 < i < |es| ==> |es[i - 1].vc| == |es[i].vc| && Leq(es[i - 1].vc, es[i].vc)
  {
    assert Leq([1, 0], [2, 0]) && Leq([2, 0], [3, 0]);
  }

  lemma GateFacts(a: ReplicaId, b: ReplicaId, conv: ConversationId, p: Bytes, q: Bytes)
    requires a != b
    ensures
      var ms, a1, a3, b1 := [a, b], MsgOf(conv, a, 1, 0, p), MsgOf(conv, a, 3, 0, q), MsgOf(conv, b, 2, 1, p);
      StableLocal(ms, map[a := a3.vc, b := b1.vc], a1) && ContinuationLocal(ms, map[a := a3.vc, b := b1.vc], 1)
  {
    MsgFacts(a, b, conv, a, 1, 0, p);
    MsgFacts(a, b, conv, a, 3, 0, q);
    MsgFacts(a, b, conv, b, 2, 1, p);
  }

  /** What b's first message finds: wave 1 is stable, every member is beyond it, and the
      only strict operation is a's third. */
  lemma OpeningFacts(a: ReplicaId, b: ReplicaId, conv: ConversationId, classOf: Classifier, p: Bytes, q: Bytes)
    requires a != b && classOf(p) == 1 && classOf(q) != 1
    ensures
      var ms, es, b1 := [a, b], FromA(conv, a, p, q), MsgOf(conv, b, 2, 1, p);
      && Opening(ms, classOf, WithVector(NewestOf(a, es), b1), es + [b1], es[0], es[2]) && Wave(es[2].vc) == 3
      && Numbered(ms, b1) && InRange(ms, b1)
  {
    GateFacts(a, b, conv, p, q);
    MsgFacts(a, b, conv, a, 1, 0, p);
    MsgFacts(a, b, conv, a, 3, 0, q);
    MsgFacts(a, b, conv, b, 2, 1, p);
  }

  lemma OneEachExtend(ms: seq<ReplicaId>, input: seq<Envelope>, e: Envelope)
    requires OneEach(ms, input) && forall x :: x in input ==> KeyOf(ms, x) != KeyOf(ms, e)
    ensures OneEach(ms, input + [e]) && e !in input
  {
  }

  lemma OneEachOfAll(a: ReplicaId, b: ReplicaId, conv: ConversationId, p: Bytes, q: Bytes)
    requires a != b
    ensures
      var ms, es, b1, b2 := [a, b], FromA(conv, a, p, q), MsgOf(conv, b, 2, 1, p), MsgOf(conv, b, 2, 2, q);
      && OneEach(ms, es + [b1]) && b1 !in es && OneEach(ms, es + [b1] + [b2]) && b2 !in es + [b1]
  {
    var ms, es := [a, b], FromA(conv, a, p, q);
    FromAFacts(a, b, conv, p, q);
    assert forall x :: x in es ==> KeyOf(ms, x).sender == a;
    MsgFacts(a, b, conv, b, 2, 1, p);
    MsgFacts(a, b, conv, b, 2, 2, q);
    OneEachExtend(ms, es, MsgOf(conv, b, 2, 1, p));
    OneEachExtend(ms, es + [MsgOf(conv, b, 2, 1, p)], MsgOf(conv, b, 2, 2, q));
  }

  /** a's messages come first, the last of them strict, and the order waits at wave 1. */
  method HearA(a: ReplicaId, b: ReplicaId, conv: ConversationId, classOf: Classifier, p: Bytes, q: Bytes)
    returns (o: SemOrder.SemOrder)
    requires a != b
    ensures fresh(o) && o.Valid() && o.Traced() && o.ms == [a, b] && o.classOf == classOf && o.currentWave == 1
    ensures o.input == FromA(conv, a, p, q) && o.latestVector == NewestOf(a, o.input)
  {
    o := new SemOrder.SemOrder([a, b], classOf);
    FromAFacts(a, b, conv, p, q);
    FromARises(conv, a, p, q);
    assert [a, b][1] == b;
    HearAll(o, a, FromA(conv, a, p, q), b);
  }

  /** b's first message opens wave 1, and the order moves to wave 3, the only one with a
      strict operation. */
  method HearB(o: SemOrder.SemOrder, a: ReplicaId, b: ReplicaId, conv: ConversationId, p: Bytes, q: Bytes)
    requires a != b && o.classOf(p) == 1 && o.classOf(q) != 1 && o.ms == [a, b]
    requires o.Valid() && o.Traced() && o.currentWave == 1
    requires o.input == FromA(conv, a, p, q) && o.latestVector == NewestOf(a, o.input)
    modifies o
    ensures o.Valid() && o.Traced() && o.currentWave == 3 && o.input == old(o.input) + [MsgOf(conv, b, 2, 1, p)]
    ensures o.latestVector == WithVector(NewestOf(a, old(o.input)), MsgOf(conv, b, 2, 1, p))
  {
    var es := FromA(conv, a, p, q);
    OneEachOfAll(a, b, conv, p, q);
    OpeningFacts(a, b, conv, o.classOf, p, q);
    HearNew(o, MsgOf(conv, b, 2, 1, p));
    MovesTo(o, es[0], es[2]);
  }

  ghost function Heard(a: ReplicaId, b: ReplicaId, conv: ConversationId, p: Bytes, q: Bytes): seq<Envelope> {
    FromA(conv, a, p, q) + [MsgOf(conv, b, 2, 1, p)] + [MsgOf(conv, b, 2, 2, q)]
  }

  /** At the end only a's third message is of wave 3, and b has not acknowledged it. */
  lemma ThirdUnstable(a: ReplicaId, b: ReplicaId, conv: ConversationId, p: Bytes, q: Bytes, x: Envelope)
    requires a != b && x in Heard(a, b, conv, p, q) && Wave(x.vc) == 3
    ensures
      var latest := WithVector(NewestOf(a, FromA(conv, a, p, q)), MsgOf(conv, b, 2, 1, p));
      !StableLocal([a, b], WithVector(latest, MsgOf(conv, b, 2, 2, q)), x)
  {
    MsgFacts(a, b, conv, a, 1, 0, p);
    MsgFacts(a, b, conv, a, 2, 0, p);
    MsgFacts(a, b, conv, a, 3, 0, q);
    MsgFacts(a, b, conv, b, 2, 1, p);
    MsgFacts(a, b, conv, b, 2, 2, q);
    assert x == MsgOf(conv, a, 3, 0, q) && [a, b][1] == b;
    assert Leq([2, 1], [2, 2]);
  }

  // ---- the run that delivers this ----

  /** Both hold a's first two messages. */
  lemma Begun(a: ReplicaId, b: ReplicaId, conv: ConversationId, p: Bytes) returns (ws: seq<World.World>)
    requires a != b
    ensures Talked([a, b], conv, ws, [MsgOf(conv, a, 1, 0, p), MsgOf(conv, a, 2, 0, p)], 2, 0)
  {
    var ms := [a, b];
    ws := Begin(ms, conv);
    ws := SayNext(ms, conv, ws, [], 0, p, 0, 0);
    ws := SayNext(ms, conv, ws, [] + [MsgOf(conv, a, 1, 0, p)], 0, p, 1, 0);
    assert [] + [MsgOf(conv, a, 1, 0, p)] + [MsgOf(conv, a, 2, 0, p)]
        == [MsgOf(conv, a, 1, 0, p), MsgOf(conv, a, 2, 0, p)];
  }

  /** b, whose highest numbers are x and y, sends its next message and a receives it. */
  lemma FromB(ms: seq<ReplicaId>, conv: ConversationId, ws: seq<World.World>, g: seq<Envelope>, h: seq<Envelope>,
              x: nat, y: nat, p: Bytes) returns (vs: seq<World.World>)
    requires Held(ms, conv, ws, g, h, World.FreshOrdering) && Front(ms, h, x, y) && forall e :: e in h ==> e in g
    requires forall e :: e in g ==> KeyOf(ms, e) != KeyOf(ms, Said(ms, conv, 1, x, y + 1, p))
    ensures
      var m := Said(ms, conv, 1, x, y + 1, p);
      Held(ms, conv, vs, g + [m], h + [m], World.FreshOrdering) && Front(ms, h + [m], x, y + 1)
  {
    var m := Said(ms, conv, 1, x, y + 1, p);
    StampOf(ms, conv, h, 1, p, x, y);
    FrontNext(ms, conv, h, 1, p, x, y);
    var us := SendOne(ms, conv, ws, g, h, 1, p);
    AdmissibleLater(ms, h, g, m);
    vs := HearOne(ms, conv, us, g, h + [m], 0, m);
  }

  lemma SkipRun(a: ReplicaId, b: ReplicaId, conv: ConversationId, p: Bytes, q: Bytes)
    returns (ws: seq<World.World>, h: seq<Envelope>)
    requires a != b
    ensures Held([a, b], conv, ws, Heard(a, b, conv, p, q), h, World.FreshOrdering)
  {
    var ms, es := [a, b], FromA(conv, a, p, q);
    h := [MsgOf(conv, a, 1, 0, p), MsgOf(conv, a, 2, 0, p)];
    ws := Begun(a, b, conv, p);
    StampOf(ms, conv, h, 0, q, 2, 0);
    ws := SendOne(ms, conv, ws, h, h, 0, q);
    assert h + [MsgOf(conv, a, 3, 0, q)] == es;
    NewKeys(a, b, conv, p, q);
    ws := FromB(ms, conv, ws, es, h, 2, 0, p);
    ws := FromB(ms, conv, ws, es + [MsgOf(conv, b, 2, 1, p)], h + [MsgOf(conv, b, 2, 1, p)], 2, 1, q);
    h := h + [MsgOf(conv, b, 2, 1, p)] + [MsgOf(conv, b, 2, 2, q)];
  }

  lemma NewKeys(a: ReplicaId, b: ReplicaId, conv: ConversationId, p: Bytes, q: Bytes)
    requires a != b
    ensures
      var ms, es, b1, b2 := [a, b], FromA(conv, a, p, q), MsgOf(conv, b, 2, 1, p), MsgOf(conv, b, 2, 2, q);
      && (forall e :: e in es ==> KeyOf(ms, e) != KeyOf(ms, b1))
      && (forall e :: e in es + [b1] ==> KeyOf(ms, e) != KeyOf(ms, b2))
  {
    FromAFacts(a, b, conv, p, q);
    MsgFacts(a, b, conv, b, 2, 1, p);
    MsgFacts(a, b, conv, b, 2, 2, q);
  }

  lemma SkipIsFed(a: ReplicaId, b: ReplicaId, conv: ConversationId, p: Bytes, q: Bytes) returns (f: Feed)
    requires a != b
    ensures f.ms == [a, b] && Fed(f, Heard(a, b, conv, p, q))
  {
    var ws, h := SkipRun(a, b, conv, p, q);
    f := Feed([a, b], conv, ws, 0, |ws| - 1, 5);
  }

  /** A run of the system in which b's strict operation of wave 2, sent without knowing a's
      third message, is delivered at a after the order there has moved to wave 3: it is
      filed, never executed, and the order stays at wave 3. */
  method SkippedWave(a: ReplicaId, b: ReplicaId, conv: ConversationId, classOf: Classifier, p: Bytes, q: Bytes)
    returns (o: SemOrder.SemOrder, ghost f: Feed)
    requires a != b && classOf(p) == 1 && classOf(q) != 1
    ensures o.Valid() && o.Traced() && o.ms == f.ms == [a, b] && o.classOf == classOf && Fed(f, o.input)
    ensures
      var e := MsgOf(conv, b, 2, 2, q);
      && e in o.input && Wave(e.vc) == 2 && !Class1(classOf, e) && Observed(o.messagesByWave, e)
      && o.currentWave == 3 && e in o.late && Key(b, 2) !in o.executed
  {
    o := HearA(a, b, conv, classOf, p, q);
    HearB(o, a, b, conv, p, q);
    OneEachOfAll(a, b, conv, p, q);
    MsgFacts(a, b, conv, b, 2, 2, q);
    HearLate(o, MsgOf(conv, b, 2, 2, q));
    StaysAtThree(o, a, b, conv, p, q);
    f := SkipIsFed(a, b, conv, p, q);
  }

  lemma StaysAtThree(o: SemOrder.SemOrder, a: ReplicaId, b: ReplicaId, conv: ConversationId, p: Bytes, q: Bytes)
    requires a != b && o.Valid() && o.Traced() && o.ms == [a, b] && o.input == Heard(a, b, conv, p, q)
    requires
      var latest := WithVector(NewestOf(a, FromA(conv, a, p, q)), MsgOf(conv, b, 2, 1, p));
      o.latestVector == WithVector(latest, MsgOf(conv, b, 2, 2, q))
    ensures !CompleteLocal(o.ms, o.latestVector, o.messagesByWave, 3)
    ensures MsgOf(conv, b, 2, 2, q) in o.input
  {
    forall x | x in o.input && Wave(x.vc) == 3 ensures !StableLocal(o.ms, o.latestVector, x) {
      ThirdUnstable(a, b, conv, p, q, x);
    }
    NotComplete(o, 3);
    assert o.input[4] == MsgOf(conv, b, 2, 2, q);
  }
}
