/** The context graph on values: message identity, immediate causal predecessors,
    admissible insertions, and what every causally closed graph satisfies
    (psync/graph.go, psync/membership.go). */
module Causality {
  import opened Basics
  import opened Vectors

  type Nodes = map<Key, Envelope>

  ghost predicate Distinct(ms: seq<ReplicaId>) {
    forall i, j :: 0 <= i < |ms| && 0 <= j < |ms| && ms[i] == ms[j] ==> i == j
  }

  /** The slot of replica r in the member list, or -1. */
  function SlotOf(ms: seq<ReplicaId>, r: ReplicaId): (s: int)
    ensures -1 <= s < |ms|
    ensures s >= 0 ==> ms[s] == r
    ensures s < 0 ==> r !in ms
  {
    if ms == [] then -1
    else if ms[|ms| - 1] == r then |ms| - 1
    else SlotOf(ms[..|ms| - 1], r)
  }

  /** The sender's own sequence number; 0 when the sender is unknown or its slot is
      beyond the clock, which is how a malformed clock shows. */
  function SeqOf(ms: seq<ReplicaId>, e: Envelope): nat {
    var s := SlotOf(ms, e.sender);
    if s >= 0 then At(e.vc, s) else 0
  }

  function KeyOf(ms: seq<ReplicaId>, e: Envelope): Key {
    Key(e.sender, SeqOf(ms, e))
  }

  /** Known sender with a positive own entry. */
  predicate Stamped(ms: seq<ReplicaId>, e: Envelope) {
    SeqOf(ms, e) > 0
  }

  /** The clock is no longer than the member list. */
  predicate Fits(ms: seq<ReplicaId>, e: Envelope) {
    |e.vc| <= |ms|
  }

  /** The sequence number e needs from slot i; 0 for none. */
  function Required(ms: seq<ReplicaId>, e: Envelope, i: nat): nat {
    if i == SlotOf(ms, e.sender) then (if SeqOf(ms, e) > 0 then SeqOf(ms, e) - 1 else 0)
    else At(e.vc, i)
  }

  /** The immediate causal predecessors of e. */
  function Parents(ms: seq<ReplicaId>, e: Envelope): set<Key> {
    set i: nat | i < |ms| && Required(ms, e, i) > 0 :: Key(ms[i], Required(ms, e, i))
  }

  predicate Admissible(ms: seq<ReplicaId>, nodes: Nodes, e: Envelope) {
    && Stamped(ms, e)
    && Fits(ms, e)
    && KeyOf(ms, e) !in nodes
    && Parents(ms, e) <= nodes.Keys
  }

  /** The predecessor that slot i of the clock names, if any, is in the set. */
  predicate NamedIn(ms: seq<ReplicaId>, e: Envelope, present: set<Key>, i: nat)
    requires i < |ms|
  {
    Required(ms, e, i) > 0 ==> Key(ms[i], Required(ms, e, i)) in present
  }

  lemma ParentsNamed(ms: seq<ReplicaId>, e: Envelope, present: set<Key>)
    ensures Parents(ms, e) <= present <==> forall i: nat :: i < |ms| ==> NamedIn(ms, e, present, i)
  {
    if Parents(ms, e) <= present {
      forall i: nat | i < |ms| ensures NamedIn(ms, e, present, i) {
        assert Required(ms, e, i) > 0 ==> Key(ms[i], Required(ms, e, i)) in Parents(ms, e);
      }
    }
    if forall i: nat :: i < |ms| ==> NamedIn(ms, e, present, i) {
      forall k | k in Parents(ms, e) ensures k in present {
        var i: nat :| i < |ms| && Required(ms, e, i) > 0 && k == Key(ms[i], Required(ms, e, i));
        assert NamedIn(ms, e, present, i);
      }
    }
  }

  /** What it means that the predecessors of a numbered envelope are all in a set: the
      sender's previous message is, and the message named by every other entry. */
  lemma ParentsWithin(ms: seq<ReplicaId>, e: Envelope, present: set<Key>)
    requires 0 <= SlotOf(ms, e.sender) < |e.vc|
    ensures Parents(ms, e) <= present <==>
      var s := SlotOf(ms, e.sender);
      && (e.vc[s] > 1 ==> Key(e.sender, e.vc[s] - 1) in present)
      && (forall i :: 0 <= i < |ms| && i < |e.vc| && i != s && e.vc[i] > 0 ==> Key(ms[i], e.vc[i]) in present)
  {
    ParentsNamed(ms, e, present);
    var s := SlotOf(ms, e.sender);
    var own := e.vc[s] > 1 ==> Key(e.sender, e.vc[s] - 1) in present;
    assert NamedIn(ms, e, present, s) <==> own;
    if Parents(ms, e) <= present {
      forall i | 0 <= i < |ms| && i < |e.vc| && i != s && e.vc[i] > 0 ensures Key(ms[i], e.vc[i]) in present {
        assert NamedIn(ms, e, present, i);
      }
    } else if own {
      var i: nat :| i < |ms| && !NamedIn(ms, e, present, i);
      assert i != s && e.vc[i] > 0 && Key(ms[i], e.vc[i]) !in present;
    }
  }

  /** In terms of the clock itself: the sender is a member with a positive entry of its
      own, the clock is no longer than the member list, the number is new, and the graph
      has the sender's previous message and the message named by every other entry. */
  lemma AdmissibleExactly(ms: seq<ReplicaId>, nodes: Nodes, e: Envelope)
    ensures Admissible(ms, nodes, e) <==>
      var s := SlotOf(ms, e.sender);
      && 0 <= s < |e.vc| <= |ms| && e.vc[s] > 0
      && Key(e.sender, e.vc[s]) !in nodes
      && (e.vc[s] > 1 ==> Key(e.sender, e.vc[s] - 1) in nodes)
      && (forall i :: 0 <= i < |e.vc| && i != s && e.vc[i] > 0 ==> Key(ms[i], e.vc[i]) in nodes)
  {
    if 0 <= SlotOf(ms, e.sender) < |e.vc| { ParentsWithin(ms, e, nodes.Keys); }
  }

  /** Every node is filed under its own key and has all its predecessors. */
  ghost predicate Closed(ms: seq<ReplicaId>, nodes: Nodes) {
    forall k :: k in nodes ==>
      && Stamped(ms, nodes[k]) && Fits(ms, nodes[k])
      && KeyOf(ms, nodes[k]) == k
      && Parents(ms, nodes[k]) <= nodes.Keys
  }

  /** The graph holding exactly the envelopes of a history. */
  function Index(ms: seq<ReplicaId>, h: seq<Envelope>): Nodes {
    if h == [] then map[]
    else Index(ms, h[..|h| - 1])[KeyOf(ms, h[|h| - 1]) := h[|h| - 1]]
  }

  /** Each envelope was admissible when it was inserted: the history is free of
      duplicates and lists every envelope after its causal predecessors. */
  predicate Causal(ms: seq<ReplicaId>, h: seq<Envelope>) {
    h == [] || (Causal(ms, h[..|h| - 1]) && Admissible(ms, Index(ms, h[..|h| - 1]), h[|h| - 1]))
  }

  ghost function Keys(ms: seq<ReplicaId>, h: seq<Envelope>): set<Key> {
    set e | e in h :: KeyOf(ms, e)
  }

  /** A log entry may repeat an earlier one, but has all its predecessors before it. */
  ghost predicate Grounded(ms: seq<ReplicaId>, log: seq<Envelope>) {
    forall i :: 0 <= i < |log| ==>
      Stamped(ms, log[i]) && Fits(ms, log[i]) && Parents(ms, log[i]) <= Keys(ms, log[..i])
  }

  /** The messages of wave w in insertion order. */
  function WaveList(h: seq<Envelope>, w: nat): seq<Envelope> {
    if h == [] then []
    else
      var rest := WaveList(h[..|h| - 1], w);
      if Wave(h[|h| - 1].vc) == w then rest + [h[|h| - 1]] else rest
  }

  lemma {:induction false} WaveListElements(h: seq<Envelope>, w: nat)
    ensures forall e :: e in WaveList(h, w) <==> e in h && Wave(e.vc) == w
    ensures NoDuplicates(h) ==> NoDuplicates(WaveList(h, w))
  {
    if h != [] {
      var t, last := h[..|h| - 1], h[|h| - 1];
      WaveListElements(t, w);
      assert h == t + [last];
      if NoDuplicates(h) { assert last !in t; }
    }
  }

  /** Inserting a log entry by entry, skipping what cannot be inserted. */
  function Replay(ms: seq<ReplicaId>, nodes: Nodes, log: seq<Envelope>): Nodes {
    if log == [] then nodes
    else
      var before := Replay(ms, nodes, log[..|log| - 1]);
      var e := log[|log| - 1];
      if Admissible(ms, before, e) then before[KeyOf(ms, e) := e] else before
  }

  /** The entries a replay inserts, in log order. */
  function Replayed(ms: seq<ReplicaId>, nodes: Nodes, log: seq<Envelope>): seq<Envelope> {
    if log == [] then []
    else
      var rest := Replayed(ms, nodes, log[..|log| - 1]);
      if Admissible(ms, Replay(ms, nodes, log[..|log| - 1]), log[|log| - 1]) then rest + [log[|log| - 1]] else rest
  }

  // ---- histories ----

  lemma {:induction false} CausalIsClosed(ms: seq<ReplicaId>, h: seq<Envelope>)
    requires Causal(ms, h)
    ensures Closed(ms, Index(ms, h))
  {
    if h != [] { CausalIsClosed(ms, h[..|h| - 1]); }
  }

  lemma {:induction false} IndexValues(ms: seq<ReplicaId>, h: seq<Envelope>)
    ensures forall k :: k in Index(ms, h) ==> Index(ms, h)[k] in h && KeyOf(ms, Index(ms, h)[k]) == k
    ensures forall e :: e in h ==> KeyOf(ms, e) in Index(ms, h)
  {
    if h != [] {
      IndexValues(ms, h[..|h| - 1]);
      assert h == h[..|h| - 1] + [h[|h| - 1]];
    }
  }

  lemma {:induction false} CausalPrefix(ms: seq<ReplicaId>, h: seq<Envelope>, i: nat)
    requires Causal(ms, h) && i <= |h|
    ensures Causal(ms, h[..i])
    ensures i < |h| ==> Admissible(ms, Index(ms, h[..i]), h[i])
    ensures forall k :: k in Index(ms, h[..i]) ==> k in Index(ms, h) && Index(ms, h)[k] == Index(ms, h[..i])[k]
  {
    if i < |h| {
      var t := h[..|h| - 1];
      CausalPrefix(ms, t, i);
      assert t[..i] == h[..i];
    } else {
      assert h[..i] == h;
    }
  }

  lemma CausalExtend(ms: seq<ReplicaId>, h: seq<Envelope>, e: Envelope)
    requires Causal(ms, h) && Admissible(ms, Index(ms, h), e)
    ensures Causal(ms, h + [e])
    ensures Index(ms, h + [e]) == Index(ms, h)[KeyOf(ms, e) := e]
  {
    assert (h + [e])[..|h|] == h;
  }

  /** In a causal history every envelope is what the graph holds under its key. */
  lemma {:induction false} CausalLookup(ms: seq<ReplicaId>, h: seq<Envelope>, i: nat)
    requires Causal(ms, h) && i < |h|
    ensures KeyOf(ms, h[i]) in Index(ms, h) && Index(ms, h)[KeyOf(ms, h[i])] == h[i]
  {
    CausalPrefix(ms, h, i + 1);
    assert h[..i + 1][..i] == h[..i];
  }

  /** A predecessor stands strictly earlier in the history: the delivery order is a
      linear extension of the causal order, without duplicates. */
  lemma CausalOrder(ms: seq<ReplicaId>, h: seq<Envelope>, j: nat, p: Key)
    requires Causal(ms, h) && j < |h| && p in Parents(ms, h[j])
    ensures exists i :: 0 <= i < j && KeyOf(ms, h[i]) == p
  {
    CausalPrefix(ms, h, j);
    IndexValues(ms, h[..j]);
    var e := Index(ms, h[..j])[p];
    var i :| 0 <= i < j && h[..j][i] == e;
    assert KeyOf(ms, h[i]) == p;
  }

  lemma CausalNoDuplicates(ms: seq<ReplicaId>, h: seq<Envelope>, i: nat, j: nat)
    requires Causal(ms, h) && i < j < |h|
    ensures KeyOf(ms, h[i]) != KeyOf(ms, h[j])
  {
    CausalPrefix(ms, h, j);
    IndexValues(ms, h[..j]);
    assert h[i] in h[..j] by { assert h[..j][i] == h[i]; }
  }

  /** Replaying an untrimmed log rebuilds exactly the graph that wrote it, with every
      entry inserted. */
  lemma {:induction false} ReplayRebuilds(ms: seq<ReplicaId>, log: seq<Envelope>)
    requires Causal(ms, log)
    ensures Replay(ms, map[], log) == Index(ms, log)
    ensures Replayed(ms, map[], log) == log
  {
    if log != [] {
      var n := |log| - 1;
      ReplayRebuilds(ms, log[..n]);
      assert log == log[..n] + [log[n]];
    }
  }

  /** Replaying any grounded log over any graph adds exactly the logged keys. */
  lemma {:induction false} ReplayReaches(ms: seq<ReplicaId>, nodes: Nodes, log: seq<Envelope>)
    requires Grounded(ms, log)
    ensures Replay(ms, nodes, log).Keys == nodes.Keys + Keys(ms, log)
  {
    if log != [] {
      var n := |log| - 1;
      GroundedPrefix(ms, log, n);
      ReplayReaches(ms, nodes, log[..n]);
      assert log == log[..n] + [log[n]];
      KeysAppend(ms, log[..n], log[n]);
    }
  }

  lemma {:induction false} ReplayGrows(ms: seq<ReplicaId>, nodes: Nodes, log: seq<Envelope>)
    ensures forall k :: k in nodes ==> k in Replay(ms, nodes, log) && Replay(ms, nodes, log)[k] == nodes[k]
  {
    if log != [] { ReplayGrows(ms, nodes, log[..|log| - 1]); }
  }

  lemma GroundedPrefix(ms: seq<ReplicaId>, log: seq<Envelope>, n: nat)
    requires Grounded(ms, log) && n <= |log|
    ensures Grounded(ms, log[..n])
  {
    assert forall i :: 0 <= i < n ==> log[..n][i] == log[i] && log[..n][..i] == log[..i];
  }

  lemma KeysAppend(ms: seq<ReplicaId>, h: seq<Envelope>, e: Envelope)
    ensures Keys(ms, h + [e]) == Keys(ms, h) + {KeyOf(ms, e)}
  {
    assert e in h + [e];
    assert forall x :: x in h ==> x in h + [e];
  }

  lemma KeysConcat(ms: seq<ReplicaId>, a: seq<Envelope>, b: seq<Envelope>)
    ensures Keys(ms, a + b) == Keys(ms, a) + Keys(ms, b)
  {
  }

  lemma GroundedExtend(ms: seq<ReplicaId>, log: seq<Envelope>, e: Envelope)
    requires Grounded(ms, log) && Stamped(ms, e) && Fits(ms, e) && Parents(ms, e) <= Keys(ms, log)
    ensures Grounded(ms, log + [e])
  {
    var r := log + [e];
    assert forall i :: 0 <= i < |log| ==> r[i] == log[i] && r[..i] == log[..i];
    assert r[..|log|] == log;
  }

  lemma KeysIndex(ms: seq<ReplicaId>, h: seq<Envelope>)
    ensures Index(ms, h).Keys == Keys(ms, h)
  {
    IndexValues(ms, h);
  }

  lemma GroundedIsClosed(ms: seq<ReplicaId>, log: seq<Envelope>)
    requires Grounded(ms, log)
    ensures Closed(ms, Index(ms, log))
  {
    IndexValues(ms, log);
    KeysIndex(ms, log);
    forall k | k in Index(ms, log)
      ensures Stamped(ms, Index(ms, log)[k]) && Fits(ms, Index(ms, log)[k])
      ensures Parents(ms, Index(ms, log)[k]) <= Keys(ms, log)
    {
      var i :| 0 <= i < |log| && log[i] == Index(ms, log)[k];
      assert forall x :: x in log[..i] ==> x in log;
    }
  }

  lemma CausalIsGrounded(ms: seq<ReplicaId>, h: seq<Envelope>)
    requires Causal(ms, h)
    ensures Grounded(ms, h)
  {
    forall i | 0 <= i < |h| ensures Stamped(ms, h[i]) && Fits(ms, h[i]) && Parents(ms, h[i]) <= Keys(ms, h[..i]) {
      CausalPrefix(ms, h, i);
      KeysIndex(ms, h[..i]);
    }
  }

  /** Without repeats, having all predecessors earlier makes a sequence a history. */
  lemma {:induction false} GroundedOnce(ms: seq<ReplicaId>, h: seq<Envelope>)
    requires Grounded(ms, h) && forall i :: 0 <= i < |h| ==> KeyOf(ms, h[i]) !in Keys(ms, h[..i])
    ensures Causal(ms, h)
  {
    if h != [] {
      var n := |h| - 1;
      assert forall i :: 0 <= i < n ==> h[..n][i] == h[i] && h[..n][..i] == h[..i];
      GroundedPrefix(ms, h, n);
      GroundedOnce(ms, h[..n]);
      KeysIndex(ms, h[..n]);
    }
  }

  lemma KeyOnce(ms: seq<ReplicaId>, h: seq<Envelope>, x: Envelope, y: Envelope)
    requires Causal(ms, h) && x in h && y in h && KeyOf(ms, x) == KeyOf(ms, y)
    ensures x == y
  {
    var i :| 0 <= i < |h| && h[i] == x;
    var j :| 0 <= j < |h| && h[j] == y;
    CausalLookup(ms, h, i);
    CausalLookup(ms, h, j);
  }

  /** What a replay inserts extends the graph's history, whatever the log. */
  lemma {:induction false} ReplayCausal(ms: seq<ReplicaId>, h: seq<Envelope>, log: seq<Envelope>)
    requires Causal(ms, h)
    ensures Causal(ms, h + Replayed(ms, Index(ms, h), log))
    ensures Index(ms, h + Replayed(ms, Index(ms, h), log)) == Replay(ms, Index(ms, h), log)
    ensures forall e :: e in Replayed(ms, Index(ms, h), log) ==> e in log
  {
    if log == [] {
      assert h + [] == h;
    } else {
      var n := |log| - 1;
      var nodes := Index(ms, h);
      ReplayCausal(ms, h, log[..n]);
      if Admissible(ms, Replay(ms, nodes, log[..n]), log[n]) {
        CausalExtend(ms, h + Replayed(ms, nodes, log[..n]), log[n]);
        Associative(h, Replayed(ms, nodes, log[..n]), [log[n]]);
      }
    }
  }

  // ---- closed graphs ----

  /** Sequence numbers of one sender have no gap. */
  lemma {:induction false} Contiguous(ms: seq<ReplicaId>, nodes: Nodes, k: Key, q: nat)
    requires Closed(ms, nodes) && k in nodes && 1 <= q <= k.num
    ensures Key(k.sender, q) in nodes
    decreases k.num - q
  {
    if q < k.num {
      Contiguous(ms, nodes, k, q + 1);
      var next := Key(k.sender, q + 1);
      var s := SlotOf(ms, k.sender);
      assert KeyOf(ms, nodes[next]) == next;
      assert Required(ms, nodes[next], s) == q;
      assert Key(ms[s], q) in Parents(ms, nodes[next]);
    }
  }

  /** A causal history lists each sender's messages in sequence order. */
  lemma HistoryFifo(ms: seq<ReplicaId>, h: seq<Envelope>, i: nat, j: nat)
    requires Causal(ms, h) && i < j < |h| && h[i].sender == h[j].sender
    ensures SeqOf(ms, h[i]) < SeqOf(ms, h[j])
  {
    CausalPrefix(ms, h, j);
    CausalLookup(ms, h[..j], i) by { assert h[..j][i] == h[i]; }
    CausalIsClosed(ms, h[..j]);
    if SeqOf(ms, h[j]) <= SeqOf(ms, h[i]) {
      Contiguous(ms, Index(ms, h[..j]), KeyOf(ms, h[i]), SeqOf(ms, h[j]));
    }
  }

  /** Whatever a node's clock covers is in the graph. */
  lemma CoveredIsPresent(ms: seq<ReplicaId>, nodes: Nodes, k: Key, i: nat, q: nat)
    requires Closed(ms, nodes) && k in nodes && i < |ms| && 1 <= q <= At(nodes[k].vc, i)
    ensures Key(ms[i], q) in nodes
  {
    var e := nodes[k];
    if i == SlotOf(ms, e.sender) {
      assert KeyOf(ms, e) == k;
      Contiguous(ms, nodes, k, q);
    } else {
      var p := Key(ms[i], Required(ms, e, i));
      assert p in Parents(ms, e);
      Contiguous(ms, nodes, p, q);
    }
  }

  /** The highest sequence number of r in the graph, 0 for none. */
  ghost function Latest(nodes: Nodes, r: ReplicaId): (n: nat)
    ensures forall k :: k in nodes && k.sender == r ==> k.num <= n
    ensures n > 0 ==> Key(r, n) in nodes
  {
    var nums := set k | k in nodes && k.sender == r :: k.num;
    var n := Largest(nums);
    assert forall k :: k in nodes && k.sender == r ==> k.num in nums;
    n
  }

  /** The per-slot highest sequence numbers: what a replica has seen. */
  ghost function View(ms: seq<ReplicaId>, nodes: Nodes): (v: Vector)
    ensures |v| == |ms|
    ensures forall i: nat :: i < |ms| ==> At(v, i) == Latest(nodes, ms[i])
  {
    seq(|ms|, i requires 0 <= i < |ms| => Latest(nodes, ms[i]))
  }

  /** No node of a closed graph is ahead of the view. */
  lemma ViewCovers(ms: seq<ReplicaId>, nodes: Nodes, k: Key)
    requires Closed(ms, nodes) && k in nodes
    ensures Leq(nodes[k].vc, View(ms, nodes))
  {
    forall i: nat ensures At(nodes[k].vc, i) <= At(View(ms, nodes), i) {
      if i < |ms| && At(nodes[k].vc, i) > 0 {
        CoveredIsPresent(ms, nodes, k, i, At(nodes[k].vc, i));
      }
    }
  }
}
