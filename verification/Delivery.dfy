/** In what order a replica's deliveries reach the layer above. New envelopes are delivered
    by the conversation itself, replayed ones by a goroutine beside it, so after a restart
    the two may interleave (psync/conversation.go). */
module Delivery {
  import opened Basics
  import opened Causality
  import opened Protocol
  import opened World
  import opened Preservation

  // ---- order in sequences ----

  lemma PrecedesAt(s: seq<Envelope>, p: nat, y: Envelope)
    requires NoDuplicates(s) && p < |s|
    ensures Precedes(s, y, s[p]) <==> y in s[..p]
  {
    if Precedes(s, y, s[p]) {
      var i, j :| 0 <= i < j < |s| && s[i] == y && s[j] == s[p];
      assert s[..p][i] == y;
    }
  }

  /** What stands before an element does not change as the sequence grows. */
  lemma PrecedesOld(s: seq<Envelope>, t: seq<Envelope>, y: Envelope, x: Envelope)
    requires NoDuplicates(s + t) && x in s
    ensures Precedes(s + t, y, x) <==> Precedes(s, y, x)
  {
    var p :| 0 <= p < |s| && s[p] == x;
    OnceInside(s, t);
    assert (s + t)[p] == x && (s + t)[..p] == s[..p];
    PrecedesAt(s + t, p, y);
    PrecedesAt(s, p, y);
  }

  /** Before a new element stand all the old ones and the new ones before it. */
  lemma PrecedesNew(s: seq<Envelope>, t: seq<Envelope>, y: Envelope, q: nat)
    requires NoDuplicates(s + t) && q < |t|
    ensures Precedes(s + t, y, t[q]) <==> y in s || y in t[..q]
  {
    assert (s + t)[|s| + q] == t[q] && (s + t)[..|s| + q] == s + t[..q];
    PrecedesAt(s + t, |s| + q, y);
  }

  lemma OnceInside(s: seq<Envelope>, t: seq<Envelope>)
    requires NoDuplicates(s + t)
    ensures NoDuplicates(s) && NoDuplicates(t) && forall x :: x in s ==> x !in t
  {
    assert forall i :: 0 <= i < |s| ==> (s + t)[i] == s[i];
    assert forall i :: 0 <= i < |t| ==> (s + t)[|s| + i] == t[i];
  }

  lemma OnceJoined(s: seq<Envelope>, t: seq<Envelope>)
    requires NoDuplicates(s) && NoDuplicates(t) && forall x :: x in s ==> x !in t
    ensures NoDuplicates(s + t)
  {
    forall i, j | 0 <= i < j < |s + t| ensures (s + t)[i] != (s + t)[j] {
      assert i < |s| ==> s[i] in s;
      assert |s| <= j ==> t[j - |s|] in t;
    }
  }

  // ---- the invariant ----

  /** x was delivered, and y, which the graph has before it, was not delivered before it. */
  ghost predicate Jumped(h: seq<Envelope>, d: seq<Envelope>, x: Envelope, y: Envelope) {
    x in d && Precedes(h, y, x) && !Precedes(d, y, x)
  }

  ghost predicate JumpsOk(h: seq<Envelope>, d: seq<Envelope>, jumped: set<(Envelope, Envelope)>) {
    forall x, y :: (x, y) in jumped <==> Jumped(h, d, x, y)
  }

  /** Each envelope of the graph is delivered or queued at most once. */
  ghost predicate OnceOk(h: seq<Envelope>, d: seq<Envelope>, q: seq<Envelope>) {
    && NoDuplicates(h) && NoDuplicates(d) && NoDuplicates(q)
    && (forall e :: e in d ==> e in h && e !in q)
    && (forall e :: e in q ==> e in h)
  }

  /** The queue is in graph order, and only queued envelopes separate it from what has been
      delivered. */
  ghost predicate QueueOk(h: seq<Envelope>, d: seq<Envelope>, q: seq<Envelope>) {
    forall j: nat, y :: j < |q| && Precedes(h, y, q[j]) ==> y in d || y in q[..j]
  }

  /** Every envelope of the graph is delivered or queued: none is withheld. */
  ghost predicate AllOut(h: seq<Envelope>, d: seq<Envelope>, q: seq<Envelope>) {
    forall e :: e in h ==> e in d || e in q
  }

  ghost predicate DeliveryInv(r: Replica) {
    && OnceOk(r.local.history, r.delivered, r.queue)
    && QueueOk(r.local.history, r.delivered, r.queue)
    && JumpsOk(r.local.history, r.delivered, r.jumped)
    && (!r.ready ==> AllOut(r.local.history, r.delivered, r.queue))
  }

  // ---- a new delivery ----

  lemma DeliverJumps(h: seq<Envelope>, d: seq<Envelope>, news: seq<Envelope>, x: Envelope, y: Envelope)
    requires NoDuplicates(h + news) && NoDuplicates(d) && forall e :: e in d ==> e in h
    ensures Jumped(h + news, d + news, x, y) <==> Jumped(h, d, x, y) || (x in news && y in h && y !in d)
  {
    OnceInside(h, news);
    OnceJoined(d, news);
    if x in d {
      PrecedesOld(h, news, y, x);
      PrecedesOld(d, news, y, x);
    } else if x in news {
      var q :| 0 <= q < |news| && news[q] == x;
      PrecedesNew(h, news, y, q);
      PrecedesNew(d, news, y, q);
      assert y in news[..q] ==> y in news;
    }
  }

  lemma GrowQueue(h: seq<Envelope>, d: seq<Envelope>, q: seq<Envelope>, news: seq<Envelope>, m: seq<Envelope>)
    requires OnceOk(h, d, q) && QueueOk(h, d, q) && NoDuplicates(h + news)
    ensures QueueOk(h + news, d + m, q)
  {
    forall j: nat, y | j < |q| && Precedes(h + news, y, q[j]) ensures y in d + m || y in q[..j] {
      PrecedesOld(h, news, y, q[j]);
    }
  }

  lemma DeliverKeeps(r: Replica, local: Local, got: set<Envelope>, news: seq<Envelope>)
    requires DeliveryInv(r) && local.history == r.local.history + news && NoDuplicates(local.history)
    ensures DeliveryInv(Deliver(r, local, got, news))
  {
    var h, d := r.local.history, r.delivered;
    OnceInside(h, news);
    OnceJoined(d, news);
    GrowQueue(h, d, r.queue, news, news);
    forall x, y ensures (x, y) in r.jumped + Jumps(r, news) <==> Jumped(h + news, d + news, x, y) {
      DeliverJumps(h, d, news, x, y);
    }
  }

  // ---- a replay ----

  lemma ReplayQueue(h: seq<Envelope>, d: seq<Envelope>, q: seq<Envelope>, news: seq<Envelope>)
    requires OnceOk(h, d, q) && QueueOk(h, d, q) && AllOut(h, d, q) && NoDuplicates(h + news)
    ensures OnceOk(h + news, d, q + news) && QueueOk(h + news, d, q + news) && AllOut(h + news, d, q + news)
  {
    OnceInside(h, news);
    OnceJoined(q, news);
    forall j: nat, y | j < |q + news| && Precedes(h + news, y, (q + news)[j]) ensures y in d || y in (q + news)[..j] {
      if j < |q| {
        PrecedesOld(h, news, y, q[j]);
        assert (q + news)[..j] == q[..j];
      } else {
        PrecedesNew(h, news, y, j - |q|);
        assert (q + news)[..j] == q + news[..j - |q|];
      }
    }
  }

  lemma ReplayJumps(h: seq<Envelope>, d: seq<Envelope>, news: seq<Envelope>, jumped: set<(Envelope, Envelope)>)
    requires JumpsOk(h, d, jumped) && NoDuplicates(h + news) && forall e :: e in d ==> e in h
    ensures JumpsOk(h + news, d, jumped)
  {
    forall x, y ensures Jumped(h + news, d, x, y) <==> Jumped(h, d, x, y) {
      if x in d { PrecedesOld(h, news, y, x); }
    }
  }

  /** What a replay inserts is queued or withheld; the second replay inserts nothing. */
  lemma QueueKeeps(r: Replica, r': Replica, news: seq<Envelope>, redeliver: bool)
    requires DeliveryInv(r) && r'.local.history == r.local.history + news && NoDuplicates(r'.local.history)
    requires r'.delivered == r.delivered && r'.queue == (if redeliver then r.queue + news else r.queue)
    requires r'.jumped == r.jumped && r'.ready && (r.ready ==> news == [])
    ensures DeliveryInv(r')
  {
    var h, d, q := r.local.history, r.delivered, r.queue;
    assert h + [] == h && q + [] == q && d + [] == d;
    ReplayJumps(h, d, news, r.jumped);
    if redeliver && !r.ready {
      ReplayQueue(h, d, q, news);
    } else {
      GrowQueue(h, d, q, news, []);
    }
  }

  lemma {:induction false} NothingReplayed(ms: seq<ReplicaId>, nodes: Nodes, log: seq<Envelope>)
    requires Keys(ms, log) <= nodes.Keys
    ensures Replay(ms, nodes, log) == nodes && Replayed(ms, nodes, log) == []
  {
    if log != [] {
      var n := |log| - 1;
      assert log == log[..n] + [log[n]];
      KeysAppend(ms, log[..n], log[n]);
      NothingReplayed(ms, nodes, log[..n]);
    }
  }

  lemma ReplayKeeps(ms: seq<ReplicaId>, w: World, i: nat, redeliver: bool, w': World)
    requires i < |w.reps| && ReplayAt(ms, w, i, redeliver, w') && DeliveryInv(w.reps[i])
    requires Causal(ms, w.reps[i].local.history) && w.reps[i].local.nodes == Index(ms, w.reps[i].local.history)
    requires w.reps[i].ready ==> Keys(ms, w.reps[i].local.log) <= w.reps[i].local.nodes.Keys
    ensures DeliveryInv(w'.reps[i])
  {
    var r := w.reps[i];
    ReplayCausal(ms, r.local.history, r.local.log);
    HistoryDistinct(ms, r.local.history + Replayed(ms, r.local.nodes, r.local.log));
    if r.ready { NothingReplayed(ms, r.local.nodes, r.local.log); }
    QueueKeeps(r, w'.reps[i], Replayed(ms, r.local.nodes, r.local.log), redeliver);
  }

  // ---- a delivery from the queue ----

  lemma NextJumps(h: seq<Envelope>, d: seq<Envelope>, q: seq<Envelope>, jumped: set<(Envelope, Envelope)>)
    requires OnceOk(h, d, q) && QueueOk(h, d, q) && JumpsOk(h, d, jumped) && q != []
    ensures JumpsOk(h, d + [q[0]], jumped)
  {
    OnceJoined(d, [q[0]]);
    forall x, y ensures Jumped(h, d + [q[0]], x, y) <==> Jumped(h, d, x, y) {
      if x in d {
        PrecedesOld(d, [q[0]], y, x);
      } else if x == q[0] {
        PrecedesNew(d, [q[0]], y, 0);
      }
    }
  }

  lemma RedeliverKeeps(w: World, i: nat, w': World)
    requires i < |w.reps| && RedeliverAt(w, i, w') && DeliveryInv(w.reps[i])
    ensures DeliveryInv(w'.reps[i])
  {
    var h, d, q := w.reps[i].local.history, w.reps[i].delivered, w.reps[i].queue;
    NextJumps(h, d, q, w.reps[i].jumped);
    NextQueue(h, d, q);
    assert forall e :: e in q <==> e == q[0] || e in q[1..];
  }

  lemma NextQueue(h: seq<Envelope>, d: seq<Envelope>, q: seq<Envelope>)
    requires OnceOk(h, d, q) && QueueOk(h, d, q) && q != []
    ensures OnceOk(h, d + [q[0]], q[1..]) && QueueOk(h, d + [q[0]], q[1..])
  {
    assert q == [q[0]] + q[1..];
    OnceInside([q[0]], q[1..]);
    OnceJoined(d, [q[0]]);
    forall j: nat, y | j < |q[1..]| && Precedes(h, y, q[1..][j]) ensures y in d + [q[0]] || y in q[1..][..j] {
      assert q[1..][j] == q[j + 1] && q[..j + 1] == [q[0]] + q[1..][..j];
    }
  }

  // ---- runs ----

  lemma SendKeeps(ms: seq<ReplicaId>, conv: ConversationId, w: World, i: nat, payload: Bytes, w': World)
    requires |w.reps| == |ms| && i < |ms| && SendTo(ms, conv, w, i, payload, w')
    requires NoDuplicates(w'.reps[i].local.history) && DeliveryInv(w.reps[i])
    ensures DeliveryInv(w'.reps[i])
  {
    var r := w.reps[i];
    var e := Outgoing(ms, conv, r.local.nodes, i, payload);
    DeliverKeeps(r, w'.reps[i].local, r.got + {e}, [e]);
  }

  lemma ReceiveKeepsOrder(ms: seq<ReplicaId>, w: World, i: nat, e: Envelope, w': World)
    requires |w.reps| == |ms| && i < |ms| && ReceiveAt(ms, w, i, e, w')
    requires NoDuplicates(w'.reps[i].local.history) && DeliveryInv(w.reps[i])
    ensures DeliveryInv(w'.reps[i])
  {
    var r, local := w.reps[i], w'.reps[i].local;
    var news := Gained(r.local.history, local.history);
    assert local.history == r.local.history + news;
    DeliverKeeps(r, local, r.got + {e}, news);
  }

  ghost predicate Replayable(ms: seq<ReplicaId>, r: Replica) {
    && Causal(ms, r.local.history) && r.local.nodes == Index(ms, r.local.history)
    && (r.ready ==> Keys(ms, r.local.log) <= r.local.nodes.Keys)
  }

  lemma StepKeeps(ms: seq<ReplicaId>, conv: ConversationId, w: World, step: Step, w': World)
    requires NextStep(ms, conv, w, step, w') && DeliveryInv(w.reps[step.i]) && Replayable(ms, w.reps[step.i])
    requires |w'.reps| == |ms| && NoDuplicates(w'.reps[step.i].local.history)
    ensures DeliveryInv(w'.reps[step.i])
  {
    match step
    case Send(i, payload) => SendKeeps(ms, conv, w, i, payload, w');
    case Receive(i, e) => ReceiveKeepsOrder(ms, w, i, e, w');
    case Observe(i) =>
    case Drain(i, batch) =>
    case Crash(i) =>
    case ReplayLog(i, redeliver) => ReplayKeeps(ms, w, i, redeliver, w');
    case Redeliver(i) => RedeliverKeeps(w, i, w');
  }

  lemma OthersKeep(ms: seq<ReplicaId>, conv: ConversationId, w: World, step: Step, w': World, i: nat)
    requires NextStep(ms, conv, w, step, w') && i < |ms|
    ensures |w'.reps| == |ms| && (i != step.i ==> w'.reps[i] == w.reps[i])
  {
  }

  lemma AllKeep(ms: seq<ReplicaId>, conv: ConversationId, w: World, step: Step, w': World, i: nat)
    requires NextStep(ms, conv, w, step, w') && i < |ms| && DeliveryInv(w.reps[i]) && Replayable(ms, w.reps[i])
    requires |w'.reps| == |ms| && NoDuplicates(w'.reps[i].local.history)
    ensures DeliveryInv(w'.reps[i])
  {
    if step.i == i {
      StepKeeps(ms, conv, w, step, w');
    } else {
      OthersKeep(ms, conv, w, step, w', i);
    }
  }

  lemma NextKeeps(ms: seq<ReplicaId>, conv: ConversationId, ws: seq<World>, t: nat, i: nat)
    requires Run(ms, conv, ws) && t + 1 < |ws| && i < |ms| && |ws[t].reps| == |ms| && DeliveryInv(ws[t].reps[i])
    ensures |ws[t + 1].reps| == |ms| && DeliveryInv(ws[t + 1].reps[i])
  {
    HistoryOnce(ms, conv, ws, t, i);
    HistoryOnce(ms, conv, ws, t + 1, i);
    var step := TakeStep(ms, conv, ws, t);
    AllKeep(ms, conv, ws[t], step, ws[t + 1], i);
  }

  lemma HistoryOnce(ms: seq<ReplicaId>, conv: ConversationId, ws: seq<World>, t: nat, i: nat)
    requires Run(ms, conv, ws) && t < |ws| && i < |ms|
    ensures |ws[t].reps| == |ms| && NoDuplicates(ws[t].reps[i].local.history) && Replayable(ms, ws[t].reps[i])
  {
    RunInv(ms, conv, ws, t);
    assert ReplicaInv(ms, ws[t].net, i, ws[t].reps[i]);
    HistoryDistinct(ms, ws[t].reps[i].local.history);
  }

  lemma {:induction false} DeliveryRunInv(ms: seq<ReplicaId>, conv: ConversationId, ws: seq<World>, t: nat, i: nat)
    requires Run(ms, conv, ws) && t < |ws| && i < |ms|
    ensures |ws[t].reps| == |ms| && DeliveryInv(ws[t].reps[i])
  {
    if t > 0 {
      DeliveryRunInv(ms, conv, ws, t - 1, i);
      NextKeeps(ms, conv, ws, t - 1, i);
    }
  }

  // ---- what the order of delivery is ----

  /** In every run a pair is in `jumped` if and only if its first envelope was delivered and
      the second, which the graph has before it, was not delivered before it. */
  lemma JumpedExactly(ms: seq<ReplicaId>, conv: ConversationId, ws: seq<World>, t: nat, i: nat, x: Envelope,
                      y: Envelope)
    requires Run(ms, conv, ws) && t < |ws| && i < |ms| && |ws[t].reps| == |ms|
    ensures (x, y) in ws[t].reps[i].jumped <==> Jumped(ws[t].reps[i].local.history, ws[t].reps[i].delivered, x, y)
  {
    DeliveryRunInv(ms, conv, ws, t, i);
  }

  lemma ParentBefore(ms: seq<ReplicaId>, h: seq<Envelope>, x: Envelope, k: Key) returns (y: Envelope)
    requires Causal(ms, h) && x in h && k in Parents(ms, x)
    ensures y in h && KeyOf(ms, y) == k && Precedes(h, y, x)
  {
    var j :| 0 <= j < |h| && h[j] == x;
    CausalOrder(ms, h, j, k);
    var i :| 0 <= i < j && KeyOf(ms, h[i]) == k;
    y := h[i];
  }

  /** If y's key stands before position p of d, then y does. */
  lemma KeyStandsBefore(ms: seq<ReplicaId>, h: seq<Envelope>, d: seq<Envelope>, p: nat, y: Envelope)
    requires Causal(ms, h) && (forall e :: e in d ==> e in h) && y in h && p < |d|
    requires KeyOf(ms, y) in Keys(ms, d[..p])
    ensures Precedes(d, y, d[p])
  {
    var q :| 0 <= q < p && KeyOf(ms, d[..p][q]) == KeyOf(ms, y);
    KeyOnce(ms, h, d[q], y);
  }

  lemma CausalSubset(ms: seq<ReplicaId>, h: seq<Envelope>, d: seq<Envelope>)
    requires Causal(ms, h) && NoDuplicates(d) && (forall e :: e in d ==> e in h)
    requires forall p: nat, k :: p < |d| && k in Parents(ms, d[p]) ==> k in Keys(ms, d[..p])
    ensures Causal(ms, d)
  {
    forall p | 0 <= p < |d|
      ensures Stamped(ms, d[p]) && Fits(ms, d[p]) && KeyOf(ms, d[p]) !in Keys(ms, d[..p])
    {
      assert d[p] in d;
      var j :| 0 <= j < |h| && h[j] == d[p];
      CausalPrefix(ms, h, j);
      if KeyOf(ms, d[p]) in Keys(ms, d[..p]) { KeyStandsBefore(ms, h, d, p, d[p]); }
      PrecedesAt(d, p, d[p]);
    }
    GroundedOnce(ms, d);
  }

  /** A selection of a history is causal exactly when none of its elements stands before a
      predecessor or lacks one. */
  lemma CausalIff(ms: seq<ReplicaId>, h: seq<Envelope>, d: seq<Envelope>)
    requires Causal(ms, h) && NoDuplicates(d) && forall e :: e in d ==> e in h
    ensures Causal(ms, d) <==> !exists x, y :: Jumped(h, d, x, y) && KeyOf(ms, y) in Parents(ms, x)
  {
    if Causal(ms, d) {
      CausalIsGrounded(ms, d);
      forall x, y | x in d && Precedes(h, y, x) && KeyOf(ms, y) in Parents(ms, x) ensures Precedes(d, y, x) {
        var p :| 0 <= p < |d| && d[p] == x;
        KeyStandsBefore(ms, h, d, p, y);
      }
    }
    if !exists x, y :: Jumped(h, d, x, y) && KeyOf(ms, y) in Parents(ms, x) {
      forall p: nat, k | p < |d| && k in Parents(ms, d[p]) ensures k in Keys(ms, d[..p]) {
        var y := ParentBefore(ms, h, d[p], k);
        assert !Jumped(h, d, d[p], y);
        PrecedesAt(d, p, y);
      }
      CausalSubset(ms, h, d);
    }
  }

  /** In every run the deliveries are free of repeats, and they are a linear extension of the
      causal order if and only if since the last restart no new envelope was delivered
      while one of its predecessors was queued or withheld. */
  lemma DeliveredCausally(ms: seq<ReplicaId>, conv: ConversationId, ws: seq<World>, t: nat, i: nat)
    requires Run(ms, conv, ws) && t < |ws| && i < |ms| && |ws[t].reps| == |ms|
    ensures NoDuplicates(ws[t].reps[i].delivered)
    ensures Causal(ms, ws[t].reps[i].delivered) <==> !Uncaused(ms, ws[t].reps[i])
  {
    var r := ws[t].reps[i];
    DeliveryRunInv(ms, conv, ws, t, i);
    HistoryOnce(ms, conv, ws, t, i);
    CausalIff(ms, r.local.history, r.delivered);
    if x, y :| Jumped(r.local.history, r.delivered, x, y) && KeyOf(ms, y) in Parents(ms, x) {
      assert (x, y) in r.jumped;
    } else {
      forall p | p in r.jumped ensures KeyOf(ms, p.1) !in Parents(ms, p.0) {
        assert Jumped(r.local.history, r.delivered, p.0, p.1);
      }
    }
  }

  /** Then any first n deliveries are a history too. */
  lemma DeliveredPrefix(ms: seq<ReplicaId>, conv: ConversationId, ws: seq<World>, t: nat, i: nat, n: nat)
    requires Run(ms, conv, ws) && t < |ws| && i < |ms| && |ws[t].reps| == |ms|
    requires !Uncaused(ms, ws[t].reps[i]) && n <= |ws[t].reps[i].delivered|
    ensures Causal(ms, ws[t].reps[i].delivered[..n])
  {
    DeliveredCausally(ms, conv, ws, t, i);
    CausalPrefix(ms, ws[t].reps[i].delivered, n);
  }

  /** Each delivery of m comes after all its lower numbers. */
  ghost predicate FromFirst(ms: seq<ReplicaId>, d: seq<Envelope>, m: ReplicaId) {
    forall p: nat, n: nat :: p < |d| && d[p].sender == m && 1 <= n < SeqOf(ms, d[p]) ==> Key(m, n) in Keys(ms, d[..p])
  }

  lemma LowerBefore(ms: seq<ReplicaId>, h: seq<Envelope>, x: Envelope, n: nat) returns (y: Envelope)
    requires Causal(ms, h) && x in h && 1 <= n < SeqOf(ms, x)
    ensures y in h && KeyOf(ms, y) == Key(x.sender, n) && Precedes(h, y, x)
  {
    var j :| 0 <= j < |h| && h[j] == x;
    CausalLookup(ms, h, j);
    CausalIsClosed(ms, h);
    IndexValues(ms, h);
    Contiguous(ms, Index(ms, h), KeyOf(ms, x), n);
    y := Index(ms, h)[Key(x.sender, n)];
    var i :| 0 <= i < |h| && h[i] == y;
    if j < i { HistoryFifo(ms, h, j, i); }
  }

  lemma SenderIff(ms: seq<ReplicaId>, h: seq<Envelope>, d: seq<Envelope>, m: ReplicaId)
    requires Causal(ms, h) && NoDuplicates(d) && forall e :: e in d ==> e in h
    ensures FromFirst(ms, d, m) <==> !exists x, y :: Jumped(h, d, x, y) && x.sender == m && y.sender == m
  {
    if FromFirst(ms, d, m) {
      forall x, y | x in d && Precedes(h, y, x) && x.sender == m && y.sender == m ensures Precedes(d, y, x) {
        var i, j :| 0 <= i < j < |h| && h[i] == y && h[j] == x;
        HistoryFifo(ms, h, i, j);
        CausalPrefix(ms, h, i);
        var p :| 0 <= p < |d| && d[p] == x;
        KeyStandsBefore(ms, h, d, p, y);
      }
    }
    if !exists x, y :: Jumped(h, d, x, y) && x.sender == m && y.sender == m {
      forall p: nat, n: nat | p < |d| && d[p].sender == m && 1 <= n < SeqOf(ms, d[p])
        ensures Key(m, n) in Keys(ms, d[..p])
      {
        var y := LowerBefore(ms, h, d[p], n);
        assert !Jumped(h, d, d[p], y);
        PrecedesAt(d, p, y);
      }
    }
  }

  /** In every run a sender's deliveries are its messages 1, 2, 3 and so on if and only if
      since the last restart no new envelope of it was delivered while an older one of it was
      queued or withheld. */
  lemma SenderInOrder(ms: seq<ReplicaId>, conv: ConversationId, ws: seq<World>, t: nat, i: nat, m: ReplicaId)
    requires Run(ms, conv, ws) && t < |ws| && i < |ms| && |ws[t].reps| == |ms|
    ensures FromFirst(ms, ws[t].reps[i].delivered, m) <==> m !in Overtaken(ws[t].reps[i])
  {
    var r := ws[t].reps[i];
    DeliveryRunInv(ms, conv, ws, t, i);
    HistoryOnce(ms, conv, ws, t, i);
    SenderIff(ms, r.local.history, r.delivered, m);
    if x, y :| Jumped(r.local.history, r.delivered, x, y) && x.sender == m && y.sender == m {
      assert (x, y) in r.jumped;
    } else {
      forall p | p in r.jumped ensures !(p.0.sender == m && p.1.sender == m) {
        assert Jumped(r.local.history, r.delivered, p.0, p.1);
      }
    }
  }

  /** What has been delivered was sent, and stands in the graph. */
  lemma DeliveredSent(ms: seq<ReplicaId>, conv: ConversationId, ws: seq<World>, t: nat, i: nat)
    requires Run(ms, conv, ws) && t < |ws| && i < |ms| && |ws[t].reps| == |ms|
    ensures NetInv(ms, ws[t].net) && Causal(ms, ws[t].reps[i].local.history)
    ensures forall e :: e in ws[t].reps[i].delivered ==> e in ws[t].reps[i].local.history
    ensures forall e :: e in ws[t].reps[i].local.history ==> e in ws[t].net
  {
    RunInv(ms, conv, ws, t);
    DeliveryRunInv(ms, conv, ws, t, i);
    var r := ws[t].reps[i];
    assert ReplicaInv(ms, ws[t].net, i, r);
    forall e | e in r.local.history ensures e in ws[t].net {
      var j :| 0 <= j < |r.local.history| && r.local.history[j] == e;
      CausalLookup(ms, r.local.history, j);
    }
  }

  // ---- graph order ----

  lemma NextPlace(h: seq<Envelope>, a: seq<Envelope>, j: nat)
    requires NoDuplicates(h) && a <= h && j < |h| && h[j] !in a && forall i :: 0 <= i < j ==> h[i] in a
    ensures j == |a|
  {
    assert forall i :: 0 <= i < |a| ==> h[i] == a[i];
    assert |a| < |h| ==> h[|a|] !in a;
  }

  /** A selection that takes up everything before each of its elements is a prefix. */
  lemma {:induction false} PrefixByOrder(h: seq<Envelope>, c: seq<Envelope>, n: nat)
    requires NoDuplicates(h) && NoDuplicates(c) && n <= |c| && forall e :: e in c ==> e in h
    requires forall p: nat, y :: p < |c| && Precedes(h, y, c[p]) ==> y in c[..p]
    ensures c[..n] <= h
  {
    if n > 0 {
      PrefixByOrder(h, c, n - 1);
      assert c[n - 1] in c;
      var j :| 0 <= j < |h| && h[j] == c[n - 1];
      forall i | 0 <= i < j ensures h[i] in c[..n - 1] { assert Precedes(h, h[i], c[n - 1]); }
      NextPlace(h, c[..n - 1], j);
      assert c[..n] == c[..n - 1] + [c[n - 1]];
    }
  }

  lemma NoJumps(h: seq<Envelope>, d: seq<Envelope>, jumped: set<(Envelope, Envelope)>)
    requires JumpsOk(h, d, jumped)
    ensures jumped == {} <==> !exists x, y :: Jumped(h, d, x, y)
  {
    if p :| p in jumped {
      assert Jumped(h, d, p.0, p.1);
    } else {
      assert forall x, y :: (x, y) !in jumped;
    }
  }

  lemma InOrderIff(h: seq<Envelope>, d: seq<Envelope>, q: seq<Envelope>)
    requires OnceOk(h, d, q) && QueueOk(h, d, q)
    ensures d + q == h <==> AllOut(h, d, q) && !exists x, y :: Jumped(h, d, x, y)
  {
    OnceJoined(d, q);
    if d + q == h {
      forall x, y | x in d && Precedes(h, y, x) ensures Precedes(d, y, x) { PrecedesOld(d, q, y, x); }
    }
    if AllOut(h, d, q) && !exists x, y :: Jumped(h, d, x, y) {
      forall p: nat, y | p < |d + q| && Precedes(h, y, (d + q)[p]) ensures y in (d + q)[..p] {
        if p < |d| {
          assert !Jumped(h, d, d[p], y);
          PrecedesAt(d, p, y);
          assert (d + q)[..p] == d[..p];
        } else {
          assert (d + q)[..p] == d + q[..p - |d|];
        }
      }
      PrefixByOrder(h, d + q, |d + q|);
      assert (d + q)[..|d + q|] == d + q;
      SameElementsSameLength(h, d + q);
    }
  }

  /** In every run the deliveries, with what is queued behind them, are the graph's own
      insertion order if and only if since the last restart no new envelope was delivered
      while an older one was queued, and no replayed one is withheld. */
  lemma DeliveredInOrder(ms: seq<ReplicaId>, conv: ConversationId, ws: seq<World>, t: nat, i: nat)
    requires Run(ms, conv, ws) && t < |ws| && i < |ms| && |ws[t].reps| == |ms|
    ensures
      var r := ws[t].reps[i];
      r.delivered + r.queue == r.local.history <==> r.jumped == {} && AllOut(r.local.history, r.delivered, r.queue)
  {
    var r := ws[t].reps[i];
    DeliveryRunInv(ms, conv, ws, t, i);
    InOrderIff(r.local.history, r.delivered, r.queue);
    NoJumps(r.local.history, r.delivered, r.jumped);
  }
}
