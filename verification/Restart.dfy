/** Catching up after a restart: a peer answers with its leaves, the restarter asks for
    each leaf, and deferral asks for the ancestors (psync/restart.go). */
module Restart {
  import opened Basics
  import opened Causality
  import opened Graph
  import opened Deferral
  import opened Protocol
  import opened World
  import opened Preservation
  import opened Guarantees

  /** The responder's answer: the envelope of every leaf of its graph. */
  method HandleRestartMessage(g: Graph) returns (leaves: seq<Envelope>)
    requires g.Valid()
    ensures forall e :: e in leaves <==> exists k :: IsLeaf(g.members, g.Envs(), k) && g.Envs()[k] == e
  {
    var keys := g.Leaves();
    leaves := [];
    while |leaves| < |keys|
      invariant |leaves| <= |keys|
      invariant forall i :: 0 <= i < |leaves| ==> keys[i] in g.Envs() && leaves[i] == g.Envs()[keys[i]]
      invariant forall k :: k in keys <==> IsLeaf(g.members, g.Envs(), k)
    {
      var k := keys[|leaves|];
      assert k in keys;
      assert IsNode(g.members, g.Envs(), k, g.nodes[k]);
      leaves := leaves + [g.nodes[k].env];
    }
    forall e | e in leaves ensures exists k :: IsLeaf(g.members, g.Envs(), k) && g.Envs()[k] == e {
      var i :| 0 <= i < |leaves| && leaves[i] == e;
      assert keys[i] in keys;
    }
    forall k | IsLeaf(g.members, g.Envs(), k) ensures g.Envs()[k] in leaves {
      var i :| 0 <= i < |keys| && keys[i] == k;
      assert leaves[i] == g.Envs()[k];
    }
  }

  /** The keys of the leaves whose number can be read off their clock, in order. */
  function LeafKeys(members: seq<ReplicaId>, leaves: seq<Envelope>): seq<Key> {
    if leaves == [] then []
    else
      var e := leaves[|leaves| - 1];
      LeafKeys(members, leaves[..|leaves| - 1])
      + (if 0 <= SlotOf(members, e.sender) < |e.vc| then [KeyOf(members, e)] else [])
  }

  /** One lost-message request per leaf whose number can be read off its clock. */
  method RequestLeaves(members: seq<ReplicaId>, leaves: seq<Envelope>) returns (requests: seq<Key>)
    ensures requests == LeafKeys(members, leaves)
  {
    requests := [];
    for i := 0 to |leaves|
      invariant requests == LeafKeys(members, leaves[..i])
    {
      assert leaves[..i + 1][..i] == leaves[..i];
      var slot := SlotOf(members, leaves[i].sender);
      if 0 <= slot < |leaves[i].vc| {
        requests := requests + [Key(leaves[i].sender, leaves[i].vc[slot])];
      }
    }
    assert leaves[..|leaves|] == leaves;
  }

  /** Exactly the readable leaves are asked for. */
  lemma {:induction false} LeafKeysExactly(members: seq<ReplicaId>, leaves: seq<Envelope>)
    ensures forall k :: k in LeafKeys(members, leaves) <==>
      exists e :: e in leaves && 0 <= SlotOf(members, e.sender) < |e.vc| && KeyOf(members, e) == k
    ensures |LeafKeys(members, leaves)| <= |leaves|
  {
    if leaves != [] {
      LeafKeysExactly(members, leaves[..|leaves| - 1]);
      assert leaves == leaves[..|leaves| - 1] + [leaves[|leaves| - 1]];
    }
  }

  /** In a graph built by insertion, any set of keys that has the leaves and is closed
      under predecessors has everything: the leaves stand for the whole graph. */
  lemma {:induction false} LeavesReach(ms: seq<ReplicaId>, h: seq<Envelope>, s: set<Key>, p: nat)
    requires Causal(ms, h) && p < |h|
    requires forall k :: IsLeaf(ms, Index(ms, h), k) ==> k in s
    requires forall k :: k in s && k in Index(ms, h) ==> Parents(ms, Index(ms, h)[k]) <= s
    ensures KeyOf(ms, h[p]) in s
    decreases |h| - p
  {
    var k := KeyOf(ms, h[p]);
    CausalLookup(ms, h, p);
    if !IsLeaf(ms, Index(ms, h), k) {
      var q := ChildAfter(ms, h, p);
      LeavesReach(ms, h, s, q);
      CausalLookup(ms, h, q);
    }
  }

  lemma ChildAfter(ms: seq<ReplicaId>, h: seq<Envelope>, p: nat) returns (q: nat)
    requires Causal(ms, h) && p < |h| && KeyOf(ms, h[p]) in Index(ms, h) && !IsLeaf(ms, Index(ms, h), KeyOf(ms, h[p]))
    ensures p < q < |h| && KeyOf(ms, h[p]) in Parents(ms, h[q])
  {
    var k := KeyOf(ms, h[p]);
    IndexValues(ms, h);
    var x :| x in Index(ms, h) && k in Parents(ms, Index(ms, h)[x]);
    q :| 0 <= q < |h| && h[q] == Index(ms, h)[x];
    CausalOrder(ms, h, q, k);
    var i :| 0 <= i < q && KeyOf(ms, h[i]) == k;
    if i < p { CausalNoDuplicates(ms, h, i, p); }
    if p < i { CausalNoDuplicates(ms, h, p, i); }
  }

  lemma LeavesSuffice(ms: seq<ReplicaId>, h: seq<Envelope>, s: set<Key>)
    requires Causal(ms, h)
    requires forall k :: IsLeaf(ms, Index(ms, h), k) ==> k in s
    requires forall k :: k in s && k in Index(ms, h) ==> Parents(ms, Index(ms, h)[k]) <= s
    ensures Index(ms, h).Keys <= s
  {
    IndexValues(ms, h);
    forall k | k in Index(ms, h) ensures k in s {
      var p :| 0 <= p < |h| && h[p] == Index(ms, h)[k];
      LeavesReach(ms, h, s, p);
    }
  }

  /** A deferred envelope that is not stranded has an outstanding request for something it
      lacks. */
  lemma DeferredAsks(ms: seq<ReplicaId>, s: Local, d: Deferred, byNeed: Needs, outstanding: set<Key>, k: Key)
    returns (n: Key)
    requires Indexed(ms, s.nodes, d, byNeed, outstanding, {}, s.stuck) && Envelopes(d) == s.pending
    requires k in d && k !in s.nodes && Fits(ms, d[k].env) && !Stranded(ms, s, k)
    ensures n in outstanding && n in Lacking(ms, s.nodes, d[k].env)
  {
    assert IsDeferred(ms, s.nodes, k, d[k], {}, s.stuck);
    assert s.pending[k] == d[k].env;
    n :| n in Parents(ms, d[k].env) && n !in s.nodes.Keys;
    assert n in Lacking(ms, s.nodes, d[k].env);
    assert Awaits(d, k, n);
    assert Listed(byNeed, n, k);
  }

  /** A leaf the restarter has received is in its graph once it waits for nothing the
      responder has. */
  lemma LeafArrives(ms: seq<ReplicaId>, w: World, i: nat, j: nat, d: Deferred, byNeed: Needs, outstanding: set<Key>,
                    k: Key)
    requires Inv(ms, w) && i < |ms| && j < |ms|
    requires Envelopes(d) == w.reps[j].local.pending
    requires Indexed(ms, w.reps[j].local.nodes, d, byNeed, outstanding, {}, w.reps[j].local.stuck)
    requires outstanding !! w.reps[i].local.nodes.Keys && !Stranded(ms, w.reps[j].local, k)
    requires k in w.reps[i].local.nodes && (k in w.reps[j].local.nodes || k in d)
    ensures k in w.reps[j].local.nodes
  {
    var mine, theirs := w.reps[i].local.nodes, w.reps[j].local.nodes;
    if k !in theirs {
      NodesClosed(ms, w, i);
      assert ReplicaInv(ms, w.net, i, w.reps[i]) && ReplicaInv(ms, w.net, j, w.reps[j]);
      assert IsDeferred(ms, theirs, k, d[k], {}, w.reps[j].local.stuck);
      assert Envelopes(d)[k] == d[k].env == mine[k];
      var n := DeferredAsks(ms, w.reps[j].local, d, byNeed, outstanding, k);
      assert false;
    }
  }

  /** When every leaf of the responder has been received, nothing is stranded, and no
      outstanding request names a message the responder has, the restarter's graph contains
      the responder's. */
  lemma RestartCatchesUp(ms: seq<ReplicaId>, conv: ConversationId, ws: seq<World>, t: nat, i: nat, j: nat,
                         d: Deferred, byNeed: Needs, outstanding: set<Key>)
    requires Run(ms, conv, ws) && t < |ws| && i < |ms| && j < |ms| && |ws[t].reps| == |ms|
    requires Envelopes(d) == ws[t].reps[j].local.pending
    requires Indexed(ms, ws[t].reps[j].local.nodes, d, byNeed, outstanding, {}, ws[t].reps[j].local.stuck)
    requires forall k :: IsLeaf(ms, ws[t].reps[i].local.nodes, k) ==> k in ws[t].reps[j].local.nodes || k in d
    requires outstanding !! ws[t].reps[i].local.nodes.Keys
    requires forall k :: !Stranded(ms, ws[t].reps[j].local, k)
    ensures ws[t].reps[i].local.nodes.Keys <= ws[t].reps[j].local.nodes.Keys
  {
    var w := ws[t];
    var mine, theirs := w.reps[i].local.nodes, w.reps[j].local.nodes;
    RunInv(ms, conv, ws, t);
    assert ReplicaInv(ms, w.net, i, w.reps[i]);
    forall k | IsLeaf(ms, mine, k) ensures k in theirs {
      LeafArrives(ms, w, i, j, d, byNeed, outstanding, k);
    }
    forall k | k in theirs && k in mine ensures Parents(ms, mine[k]) <= theirs.Keys {
      SameNode(ms, w, i, j, k);
      NodesClosed(ms, w, j);
    }
    LeavesSuffice(ms, w.reps[i].local.history, theirs.Keys);
  }
}
