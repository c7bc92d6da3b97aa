/** The replicated key-value store as an object, and its guarantees over whole runs of
    the system (examples/kvstore/kvstore.go). */
module Store {
  import opened Basics
  import opened Vectors
  import opened Causality
  import opened World
  import opened Guarantees
  import opened Lww
  import opened Tombstones
  import Delivery

  predicate AllAcks(cmds: seq<Command>) {
    forall c :: c in cmds ==> c.op.Ack?
  }

  lemma {:induction false} AcksWriteNothing(data: Data, es: seq<Event>)
    requires forall e :: e in es ==> !Mutates(e)
    ensures DoAll(data, es) == data
  {
    if es != [] {
      assert es[|es| - 1] in es;
      AcksWriteNothing(data, es[..|es| - 1]);
    }
  }

  class Store {
    var data: Data
    var peerWaveSeen: map<ReplicaId, nat>
    var maxOff: nat

    constructor ()
      ensures Abs() == Kv(map[], map[]) && maxOff == 0
    {
      data, peerWaveSeen, maxOff := map[], map[], 0;
    }

    function Abs(): Kv
      reads this
    {
      Kv(data, peerWaveSeen)
    }

    method OnlyAcks(cmds: seq<Command>) returns (all: bool)
      ensures all <==> AllAcks(cmds)
    {
      for i := 0 to |cmds|
        invariant AllAcks(cmds[..i])
      {
        if !cmds[i].op.Ack? { return false; }
        assert cmds[..i + 1] == cmds[..i] + [cmds[i]];
      }
      assert cmds[..|cmds|] == cmds;
      return true;
    }

    /** One write; the incoming entry replaces the current one when it wins, or when both
        come from the same sender in the same wave. */
    method Write(key: Bytes, inc: Entry) returns (applied: bool)
      modifies this`data
      ensures data == Put(old(data), key, inc)
      ensures applied <==>
        || key !in old(data)
        || inc.wave > old(data)[key].wave
        || (inc.wave == old(data)[key].wave && inc.originRep == old(data)[key].originRep)
        || (inc.wave == old(data)[key].wave && exists i: nat :: SmallerAt(old(data)[key].originRep, inc.originRep, i))
      ensures data == if applied then old(data)[key := inc] else old(data)
    {
      if key in data { LessByFirstDifference(data[key].originRep, inc.originRep); }
      var same := key in data && SameOrigin(inc, data[key]);
      applied := key !in data || same || Wins(inc, data[key]);
      if applied { data := data[key := inc]; }
    }

    method ApplyBatch(m: Message, cmds: seq<Command>)
      requires m.batch == Some(cmds)
      modifies this`data
      ensures data == DoAll(old(data), EventsOf(m))
    {
      var origin := Rep16(m.sender);
      for i := 0 to |cmds|
        invariant data == DoAll(old(data), EventsOf(m)[..i])
      {
        assert EventsOf(m)[..i + 1][..i] == EventsOf(m)[..i];
        var c := cmds[i];
        match c.op
        case Set => var _ := Write(c.key, Entry(c.value, m.wave, origin, false));
        case Delete => var _ := Write(c.key, Entry([], m.wave, origin, true));
        case Ack =>
        case Unknown =>
      }
      assert EventsOf(m)[..|cmds|] == EventsOf(m);
    }

    method Apply(m: Message, offset: nat)
      modifies this
      ensures Abs() == ApplyTo(old(Abs()), m)
      ensures maxOff == if AllAcks(Commands(m)) || offset <= old(maxOff) then old(maxOff) else offset
    {
      if m.batch.None? { return; }
      var cmds := m.batch.value;
      if |cmds| == 0 { return; }
      var prev := if m.sender in peerWaveSeen then peerWaveSeen[m.sender] else 0;
      if m.wave > prev { peerWaveSeen := peerWaveSeen[m.sender := m.wave]; }
      var acks := OnlyAcks(cmds);
      if acks {
        AcksWriteNothing(data, EventsOf(m));
        return;
      }
      ApplyBatch(m, cmds);
      if offset > maxOff { maxOff := offset; }
    }

    /** The lowest wave seen of the members; None when one of them is silent. */
    method FindSafeWave(members: seq<ReplicaId>) returns (w: Option<nat>)
      ensures w == SafeWave(peerWaveSeen, members)
    {
      w := None;
      for i := 0 to |members|
        invariant w == SafeWave(peerWaveSeen, members[..i])
        invariant i > 0 ==> w.Some?
      {
        SafeWaveNext(peerWaveSeen, members, i);
        var r := members[i];
        if r !in peerWaveSeen || peerWaveSeen[r] == 0 {
          SilentMember(peerWaveSeen, members, i);
          return None;
        }
        if w.None? || peerWaveSeen[r] < w.value { w := Some(peerWaveSeen[r]); }
      }
      assert members[..|members|] == members;
    }

    method GcTombstones(members: seq<ReplicaId>)
      modifies this`data
      ensures Abs() == Sweep(old(Abs()), members)
      ensures forall k :: k in data <==>
        var w := SafeWave(peerWaveSeen, members);
        k in old(data) && !(w.Some? && old(data)[k].deleted && old(data)[k].wave < w.value)
      ensures forall k :: k in data ==> data[k] == old(data)[k]
    {
      var w := FindSafeWave(members);
      if w.None? { return; }
      var todo := data.Keys;
      while todo != {}
        invariant todo <= data.Keys <= old(data).Keys
        invariant forall k :: k in data ==> data[k] == old(data)[k]
        invariant forall k :: k in old(data) && k !in todo ==> (k in data <==> k in Kept(old(data), w.value))
        decreases todo
      {
        var k :| k in todo;
        todo := todo - {k};
        if data[k].deleted && data[k].wave < w.value { data := data - {k}; }
      }
      assert data == Kept(old(data), w.value);
    }

    method Get(key: Bytes) returns (value: Option<Bytes>)
      ensures value == Visible(data, key)
    {
      if key !in data { return None; }
      if data[key].deleted { return None; }
      return Some(data[key].value);
    }
  }

  // ---- stores fed by the system ----

  /** The message an application is handed for an envelope. */
  function MessageOf(ms: seq<ReplicaId>, parse: Bytes -> Option<seq<Command>>, e: Envelope): Message {
    Message(e.sender, SeqOf(ms, e), Wave(e.vc), parse(e.payload))
  }

  function Messages(ms: seq<ReplicaId>, parse: Bytes -> Option<seq<Command>>, log: seq<Envelope>): seq<Message> {
    seq(|log|, i requires 0 <= i < |log| => MessageOf(ms, parse, log[i]))
  }

  ghost predicate NumbersRise(ms: seq<ReplicaId>, s: seq<Envelope>) {
    forall i, j :: 0 <= i < j < |s| && s[i].sender == s[j].sender ==> SeqOf(ms, s[i]) < SeqOf(ms, s[j])
  }

  ghost predicate Ids16(ms: seq<ReplicaId>) {
    forall r :: r in ms ==> |r| == 16
  }

  lemma SameMessages(ms: seq<ReplicaId>, parse: Bytes -> Option<seq<Command>>, a: seq<Envelope>, b: seq<Envelope>,
                     m: Message)
    requires (forall e :: e in a ==> e in b) && m in Messages(ms, parse, a)
    ensures m in Messages(ms, parse, b)
  {
    var i :| 0 <= i < |a| && Messages(ms, parse, a)[i] == m;
    assert a[i] in a;
    var j :| 0 <= j < |b| && b[j] == a[i];
    assert Messages(ms, parse, b)[j] == m;
  }

  lemma Origins(ms: seq<ReplicaId>, parse: Bytes -> Option<seq<Command>>, s: seq<Envelope>)
    requires Ids16(ms) && forall e :: e in s ==> e.sender in ms
    ensures DistinctOrigins(Messages(ms, parse, s))
  {
    forall m | m in Messages(ms, parse, s) ensures Rep16(m.sender) == m.sender {
      var i :| 0 <= i < |s| && Messages(ms, parse, s)[i] == m;
      assert s[i] in s;
    }
  }

  /** Stores that were handed the same envelopes, each sender's in order, hold the same
      entries, tombstones included. */
  lemma SameDeliveriesSameData(ms: seq<ReplicaId>, parse: Bytes -> Option<seq<Command>>, a: seq<Envelope>,
                               b: seq<Envelope>)
    requires Ids16(ms) && NumbersRise(ms, a) && NumbersRise(ms, b) && forall e :: e in a ==> e.sender in ms
    requires forall e :: e in a <==> e in b
    ensures DataAfter(Messages(ms, parse, a)) == DataAfter(Messages(ms, parse, b))
  {
    Origins(ms, parse, a);
    forall m ensures m in Messages(ms, parse, a) <==> m in Messages(ms, parse, b) {
      if m in Messages(ms, parse, a) { SameMessages(ms, parse, a, b, m); }
      if m in Messages(ms, parse, b) { SameMessages(ms, parse, b, a, m); }
    }
    Convergence(Messages(ms, parse, a), Messages(ms, parse, b));
  }

  lemma CausalRises(ms: seq<ReplicaId>, h: seq<Envelope>)
    requires Causal(ms, h)
    ensures NumbersRise(ms, h) && forall e :: e in h ==> e.sender in ms
  {
    forall i, j | 0 <= i < j < |h| && h[i].sender == h[j].sender ensures SeqOf(ms, h[i]) < SeqOf(ms, h[j]) {
      HistoryFifo(ms, h, i, j);
    }
    forall e | e in h ensures e.sender in ms {
      var i :| 0 <= i < |h| && h[i] == e;
      CausalPrefix(ms, h, i);
    }
  }

  /** Equal graphs give equal stores although the two may have inserted concurrent envelopes
      in different orders. */
  lemma GraphDeterminesData(ms: seq<ReplicaId>, parse: Bytes -> Option<seq<Command>>, a: seq<Envelope>,
                            b: seq<Envelope>)
    requires Ids16(ms) && Causal(ms, a) && Causal(ms, b) && Index(ms, a) == Index(ms, b)
    ensures DataAfter(Messages(ms, parse, a)) == DataAfter(Messages(ms, parse, b))
  {
    CausalRises(ms, a);
    CausalRises(ms, b);
    SameIndexSameElements(ms, a, b);
    SameDeliveriesSameData(ms, parse, a, b);
  }

  lemma SameIndexSameElements(ms: seq<ReplicaId>, a: seq<Envelope>, b: seq<Envelope>)
    requires Causal(ms, a) && Causal(ms, b) && Index(ms, a) == Index(ms, b)
    ensures forall e :: e in a <==> e in b
  {
    IndexValues(ms, a);
    IndexValues(ms, b);
    forall e ensures e in a <==> e in b {
      if i :| 0 <= i < |a| && a[i] == e { CausalLookup(ms, a, i); }
      if j :| 0 <= j < |b| && b[j] == e { CausalLookup(ms, b, j); }
    }
  }

  /** A sender's waves never go down with its numbers. */
  lemma WavesNeverFall(ms: seq<ReplicaId>, net: set<Envelope>, x: Envelope, y: Envelope)
    requires NetInv(ms, net) && x in net && y in net && x.sender == y.sender && SeqOf(ms, x) <= SeqOf(ms, y)
    ensures Wave(x.vc) <= Wave(y.vc)
  {
    assert Covers(ms, y, KeyOf(ms, x));
    WaveMonotone(x.vc, y.vc);
  }

  // ---- what the system delivers ----

  lemma InOrderRises(ms: seq<ReplicaId>, net: set<Envelope>, d: seq<Envelope>)
    requires NetInv(ms, net) && NoDuplicates(d) && (forall e :: e in d ==> e in net)
    requires forall m :: m in ms ==> Delivery.FromFirst(ms, d, m)
    ensures NumbersRise(ms, d) && forall e :: e in d ==> e.sender in ms
  {
    forall e | e in d ensures e.sender in ms { assert Stamped(ms, e); }
    forall i, j | 0 <= i < j < |d| && d[i].sender == d[j].sender ensures SeqOf(ms, d[i]) < SeqOf(ms, d[j]) {
      assert d[i] in d && d[j] in d && d[i] != d[j];
      assert Delivery.FromFirst(ms, d, d[i].sender);
      if SeqOf(ms, d[j]) < SeqOf(ms, d[i]) { NotYet(ms, net, d, i, j); }
    }
  }

  lemma NotYet(ms: seq<ReplicaId>, net: set<Envelope>, d: seq<Envelope>, i: nat, j: nat)
    requires NetInv(ms, net) && NoDuplicates(d) && (forall e :: e in d ==> e in net) && i < j < |d|
    ensures KeyOf(ms, d[j]) !in Keys(ms, d[..i])
  {
    forall q | 0 <= q < i ensures KeyOf(ms, d[..i][q]) != KeyOf(ms, d[j]) {
      assert d[q] in d && d[j] in d && d[q] != d[j];
    }
  }

  lemma DeliveredRise(ms: seq<ReplicaId>, conv: ConversationId, ws: seq<World>, t: nat, i: nat)
    requires Run(ms, conv, ws) && t < |ws| && i < |ms| && |ws[t].reps| == |ms| && Overtaken(ws[t].reps[i]) == {}
    ensures NetInv(ms, ws[t].net) && NumbersRise(ms, ws[t].reps[i].delivered)
    ensures forall e :: e in ws[t].reps[i].delivered ==> e in ws[t].net && e.sender in ms
  {
    Delivery.DeliveredSent(ms, conv, ws, t, i);
    Delivery.DeliveredCausally(ms, conv, ws, t, i);
    forall m | m in ms ensures Delivery.FromFirst(ms, ws[t].reps[i].delivered, m) {
      Delivery.SenderInOrder(ms, conv, ws, t, i, m);
    }
    InOrderRises(ms, ws[t].net, ws[t].reps[i].delivered);
  }

  /** A store fed by these deliveries, collecting whenever it likes over a member list that
      leaves no member out. */
  ghost predicate Feeds(ms: seq<ReplicaId>, parse: Bytes -> Option<seq<Command>>, h: seq<Envelope>, acts: seq<Action>) {
    && Deliveries(acts) == Messages(ms, parse, h)
    && forall a, r :: a in acts && a.Collect? && r in ms ==> r in a.members
  }

  lemma FeedIsSound(ms: seq<ReplicaId>, parse: Bytes -> Option<seq<Command>>, net: set<Envelope>, d: seq<Envelope>,
                    acts: seq<Action>)
    requires NetInv(ms, net) && NumbersRise(ms, d) && forall e :: e in d ==> e in net && e.sender in ms
    requires Feeds(ms, parse, d, acts)
    ensures WavesRise(acts) && Consulted(acts)
  {
    forall i, j | 0 <= i < j < |d| && d[i].sender == d[j].sender ensures Wave(d[i].vc) <= Wave(d[j].vc) {
      assert d[i] in d && d[j] in d;
      WavesNeverFall(ms, net, d[i], d[j]);
    }
    DeliveriesRise(acts);
    forall i, j | 0 <= i < j < |acts| && acts[i].Collect? && acts[j].Deliver?
      ensures acts[j].msg.sender in acts[i].members
    {
      DeliveredAt(acts, j);
      var k :| 0 <= k < |d| && Messages(ms, parse, d)[k] == acts[j].msg;
      assert d[k] in d && acts[i] in acts;
    }
  }

  lemma RisePrefix(ms: seq<ReplicaId>, d: seq<Envelope>, n: nat)
    requires NumbersRise(ms, d) && n <= |d|
    ensures NumbersRise(ms, d[..n]) && forall e :: e in d[..n] ==> e in d
  {
  }

  /** In every run, at a replica at which no sender was overtaken, collecting tombstones at
      any points leaves every read as it would be without any collection. */
  lemma CollectionInRun(ms: seq<ReplicaId>, conv: ConversationId, parse: Bytes -> Option<seq<Command>>, ws: seq<World>,
                        t: nat, i: nat, n: nat, acts: seq<Action>, k: Bytes)
    requires Run(ms, conv, ws) && t < |ws| && i < |ms| && |ws[t].reps| == |ms|
    requires Overtaken(ws[t].reps[i]) == {} && n <= |ws[t].reps[i].delivered|
    requires Feeds(ms, parse, ws[t].reps[i].delivered[..n], acts)
    ensures Visible(PerformAll(Kv(map[], map[]), acts).data, k)
         == Visible(DataAfter(Messages(ms, parse, ws[t].reps[i].delivered[..n])), k)
  {
    DeliveredRise(ms, conv, ws, t, i);
    RisePrefix(ms, ws[t].reps[i].delivered, n);
    FeedIsSound(ms, parse, ws[t].net, ws[t].reps[i].delivered[..n], acts);
    CollectionIsInvisible(acts, k);
    ApplyAllIsData(acts);
  }

  /** Replicas at which no sender was overtaken, and which have applied the same envelopes in
      whatever order, answer every Get alike, whenever each of them collected tombstones. */
  lemma ReadsAgree(ms: seq<ReplicaId>, conv: ConversationId, parse: Bytes -> Option<seq<Command>>, ws: seq<World>,
                   t: nat, i: nat, n: nat, acts: seq<Action>, u: nat, j: nat, o: nat, bcts: seq<Action>, k: Bytes)
    requires Run(ms, conv, ws) && t < |ws| && u < |ws| && i < |ms| && j < |ms| && Ids16(ms)
    requires |ws[t].reps| == |ms| == |ws[u].reps| && Overtaken(ws[t].reps[i]) == {} == Overtaken(ws[u].reps[j])
    requires n <= |ws[t].reps[i].delivered| && o <= |ws[u].reps[j].delivered|
    requires forall e :: e in ws[t].reps[i].delivered[..n] <==> e in ws[u].reps[j].delivered[..o]
    requires Feeds(ms, parse, ws[t].reps[i].delivered[..n], acts)
    requires Feeds(ms, parse, ws[u].reps[j].delivered[..o], bcts)
    ensures Visible(PerformAll(Kv(map[], map[]), acts).data, k) == Visible(PerformAll(Kv(map[], map[]), bcts).data, k)
  {
    DeliveredRise(ms, conv, ws, t, i);
    DeliveredRise(ms, conv, ws, u, j);
    RisePrefix(ms, ws[t].reps[i].delivered, n);
    RisePrefix(ms, ws[u].reps[j].delivered, o);
    CollectionInRun(ms, conv, parse, ws, t, i, n, acts, k);
    CollectionInRun(ms, conv, parse, ws, u, j, o, bcts, k);
    SameDeliveriesSameData(ms, parse, ws[t].reps[i].delivered[..n], ws[u].reps[j].delivered[..o]);
  }

  /** In particular when they received the same envelopes, duplicated or deferred, with none
      stranded, and have applied all of their graphs. */
  lemma SameReceivedSameReads(ms: seq<ReplicaId>, conv: ConversationId, parse: Bytes -> Option<seq<Command>>,
                              ws: seq<World>, t: nat, i: nat, acts: seq<Action>, u: nat, j: nat, bcts: seq<Action>,
                              k: Bytes)
    requires Run(ms, conv, ws) && t < |ws| && u < |ws| && i < |ms| && j < |ms| && Ids16(ms)
    requires |ws[t].reps| == |ms| == |ws[u].reps| && ws[t].reps[i].got == ws[u].reps[j].got
    requires forall q :: !Stranded(ms, ws[t].reps[i].local, q) && !Stranded(ms, ws[u].reps[j].local, q)
    requires Overtaken(ws[t].reps[i]) == {} == Overtaken(ws[u].reps[j])
    requires forall e :: e in ws[t].reps[i].local.history ==> e in ws[t].reps[i].delivered
    requires forall e :: e in ws[u].reps[j].local.history ==> e in ws[u].reps[j].delivered
    requires Feeds(ms, parse, ws[t].reps[i].delivered, acts) && Feeds(ms, parse, ws[u].reps[j].delivered, bcts)
    ensures Visible(PerformAll(Kv(map[], map[]), acts).data, k) == Visible(PerformAll(Kv(map[], map[]), bcts).data, k)
  {
    var a, b := ws[t].reps[i], ws[u].reps[j];
    Delivery.DeliveredSent(ms, conv, ws, t, i);
    Delivery.DeliveredSent(ms, conv, ws, u, j);
    Delivery.HistoryOnce(ms, conv, ws, t, i);
    Delivery.HistoryOnce(ms, conv, ws, u, j);
    SameReceivedSameGraph(ms, conv, ws, t, i, u, j);
    SameIndexSameElements(ms, a.local.history, b.local.history);
    assert a.delivered == a.delivered[..|a.delivered|] && b.delivered == b.delivered[..|b.delivered|];
    ReadsAgree(ms, conv, parse, ws, t, i, |a.delivered|, acts, u, j, |b.delivered|, bcts, k);
  }

  /** What a Get answers in a run, at a replica at which no sender was overtaken and whatever
      it collected: the value of the maximal write to the key if that is a Set, nothing if it
      is a Delete or there is none. */
  lemma ReadInRun(ms: seq<ReplicaId>, conv: ConversationId, parse: Bytes -> Option<seq<Command>>, ws: seq<World>,
                  t: nat, i: nat, n: nat, acts: seq<Action>, k: Bytes)
    requires Run(ms, conv, ws) && t < |ws| && i < |ms| && |ws[t].reps| == |ms| && Ids16(ms)
    requires Overtaken(ws[t].reps[i]) == {} && n <= |ws[t].reps[i].delivered|
    requires Feeds(ms, parse, ws[t].reps[i].delivered[..n], acts)
    ensures
      var msgs := Messages(ms, parse, ws[t].reps[i].delivered[..n]);
      forall v :: Visible(PerformAll(Kv(map[], map[]), acts).data, k) == Some(v) <==>
        exists m, j: nat :: TopWrite(msgs, k, m, j) && m.batch.value[j] == Command(Set, k, v)
  {
    DeliveredRise(ms, conv, ws, t, i);
    RisePrefix(ms, ws[t].reps[i].delivered, n);
    CollectionInRun(ms, conv, parse, ws, t, i, n, acts, k);
    Origins(ms, parse, ws[t].reps[i].delivered[..n]);
    ReadIsMaximalWrite(Messages(ms, parse, ws[t].reps[i].delivered[..n]), k);
  }
}
