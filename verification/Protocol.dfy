/** One replica's protocol steps as relations on values: what a receive, a send and a
    replay may do to the graph, the deferred envelopes and the log
    (psync/conversation.go). */
module Protocol {
  import opened Basics
  import opened Vectors
  import opened Causality

  /** The context graph with its insertion order, the deferred envelopes by key, and the
      durable log. `stuck` holds the pairs of a deferred envelope and a predecessor it
      still waits for although a replay has inserted it. */
  datatype Local = Local(
    nodes: Nodes, pending: Nodes, stuck: set<(Key, Key)>, history: seq<Envelope>, log: seq<Envelope>)

  /** Envelopes the graph either inserts or defers; all others are dropped. */
  predicate Acceptable(ms: seq<ReplicaId>, e: Envelope) {
    Stamped(ms, e) && (Fits(ms, e) || SeqOf(ms, e) > 1)
  }

  /** Each fitting deferred envelope waits for a predecessor: one that is absent, or one
      that it was not told of. */
  ghost predicate Settled(ms: seq<ReplicaId>, nodes: Nodes, pending: Nodes, stuck: set<(Key, Key)>) {
    forall k :: k in pending ==>
      && KeyOf(ms, pending[k]) == k
      && Acceptable(ms, pending[k])
      && (Fits(ms, pending[k]) ==> Waiting(ms, nodes, pending, stuck, k))
  }

  ghost predicate Waiting(ms: seq<ReplicaId>, nodes: Nodes, pending: Nodes, stuck: set<(Key, Key)>, k: Key)
    requires k in pending
  {
    exists n :: n in Parents(ms, pending[k]) && (n !in nodes || (k, n) in stuck)
  }

  ghost predicate LocalInv(ms: seq<ReplicaId>, s: Local) {
    && Causal(ms, s.history)
    && s.nodes == Index(ms, s.history)
    && Settled(ms, s.nodes, s.pending, s.stuck)
    && (forall p :: p in s.stuck ==> p.0 in s.pending && p.1 in s.nodes)
  }

  /** The effect of one arriving envelope, wake-ups included. The order in which woken
      envelopes are inserted is left open, as the source leaves it to map iteration. */
  ghost predicate ReceiveStep(ms: seq<ReplicaId>, e: Envelope, s: Local, s': Local) {
    && LocalInv(ms, s')
    && s.history <= s'.history
    && s'.log == s.log + s'.history[|s.history|..]
    && s'.stuck == s.stuck
    && (forall x :: x in s'.history[|s.history|..] ==>
          x == e || (KeyOf(ms, x) in s.pending && s.pending[KeyOf(ms, x)] == x))
    && (forall k :: k in s'.pending ==> s'.pending[k] == e || (k in s.pending && s'.pending[k] == s.pending[k]))
    && (forall k :: k in s.pending ==> k in s'.nodes || (k in s'.pending && s'.pending[k] == s.pending[k]))
    && (Acceptable(ms, e) ==> KeyOf(ms, e) in s'.nodes || KeyOf(ms, e) in s'.pending)
    && (!Acceptable(ms, e) ==> s' == s)
  }

  /** The pairs a replay leaves stuck: it inserts without waking. */
  ghost function NewlyStuck(ms: seq<ReplicaId>, nodes: Nodes, pending: Nodes, nodes': Nodes): set<(Key, Key)> {
    set k, n | k in pending && Fits(ms, pending[k]) && n in Parents(ms, pending[k]) && n !in nodes && n in nodes' ::
      (k, n)
  }

  /** Replaying the log over whatever the graph holds. */
  ghost function AfterReplay(ms: seq<ReplicaId>, s: Local): Local {
    var nodes := Replay(ms, s.nodes, s.log);
    Local(nodes, s.pending, s.stuck + NewlyStuck(ms, s.nodes, s.pending, nodes),
          s.history + Replayed(ms, s.nodes, s.log), s.log)
  }

  lemma ReplaySettles(ms: seq<ReplicaId>, s: Local, k: Key)
    requires LocalInv(ms, s) && k in s.pending && Fits(ms, s.pending[k])
    ensures Waiting(ms, AfterReplay(ms, s).nodes, s.pending, AfterReplay(ms, s).stuck, k)
  {
    var s' := AfterReplay(ms, s);
    assert Waiting(ms, s.nodes, s.pending, s.stuck, k);
    var n :| n in Parents(ms, s.pending[k]) && (n !in s.nodes || (k, n) in s.stuck);
    assert n !in s'.nodes || (k, n) in s'.stuck;
  }

  lemma ReplayKeepsLocal(ms: seq<ReplicaId>, s: Local)
    requires LocalInv(ms, s)
    ensures LocalInv(ms, AfterReplay(ms, s))
  {
    ReplayCausal(ms, s.history, s.log);
    ReplayGrows(ms, s.nodes, s.log);
    forall k | k in s.pending && Fits(ms, s.pending[k])
      ensures Waiting(ms, AfterReplay(ms, s).nodes, s.pending, AfterReplay(ms, s).stuck, k)
    {
      ReplaySettles(ms, s, k);
    }
  }

  /** The envelope a replica at slot i stamps for its next message. */
  ghost function Outgoing(ms: seq<ReplicaId>, conv: ConversationId, nodes: Nodes, i: nat, payload: Bytes): Envelope
    requires i < |ms|
  {
    Envelope(conv, ms[i], Increment(View(ms, nodes), i), payload)
  }

  lemma OutgoingKey(ms: seq<ReplicaId>, conv: ConversationId, nodes: Nodes, i: nat, payload: Bytes)
    requires Distinct(ms) && i < |ms|
    ensures var e := Outgoing(ms, conv, nodes, i, payload);
      && |e.vc| == |ms|
      && SlotOf(ms, e.sender) == i
      && KeyOf(ms, e) == Key(ms[i], Latest(nodes, ms[i]) + 1)
      && forall j: nat :: j < |ms| ==> Required(ms, e, j) == Latest(nodes, ms[j])
  {
  }

  /** An own message is never rejected by the graph and takes the next number. */
  lemma OutgoingAdmissible(ms: seq<ReplicaId>, conv: ConversationId, nodes: Nodes, i: nat, payload: Bytes)
    requires Distinct(ms) && i < |ms|
    ensures Admissible(ms, nodes, Outgoing(ms, conv, nodes, i, payload))
  {
    var e := Outgoing(ms, conv, nodes, i, payload);
    OutgoingKey(ms, conv, nodes, i, payload);
    forall p | p in Parents(ms, e) ensures p in nodes {
      var j: nat :| j < |ms| && Required(ms, e, j) > 0 && p == Key(ms[j], Required(ms, e, j));
    }
  }

  /** An own message's clock includes everything its sender has. */
  lemma OutgoingCovers(ms: seq<ReplicaId>, conv: ConversationId, nodes: Nodes, i: nat, payload: Bytes, k: Key)
    requires i < |ms| && Closed(ms, nodes) && k in nodes
    ensures Leq(nodes[k].vc, Outgoing(ms, conv, nodes, i, payload).vc)
  {
    var e := Outgoing(ms, conv, nodes, i, payload);
    ViewCovers(ms, nodes, k);
    assert forall j: nat :: At(nodes[k].vc, j) <= At(View(ms, nodes), j) <= At(e.vc, j);
  }
}
