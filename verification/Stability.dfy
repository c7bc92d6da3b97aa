/** The stability and wave-completion queries (psync/stability.go). They index clocks
    without padding: where a clock is too short the source panics, and here there is no
    answer. */
module Stability {
  import opened Basics
  import opened Vectors
  import opened Causality
  import World
  import opened Graph

  ghost predicate Full(ms: seq<ReplicaId>, envs: Nodes) {
    forall k :: k in envs ==> |envs[k].vc| == |ms|
  }

  /** The clock of the highest-numbered message of the member at a slot. */
  method LatestVectorAtSlot(g: Graph, slot: nat) returns (v: Option<Vector>)
    requires g.Linked() && slot < |g.members|
    ensures var n := Latest(g.Envs(), g.members[slot]);
      v == if n == 0 then None else Some(g.Envs()[Key(g.members[slot], n)].vc)
  {
    var n := g.LatestSeq(g.members[slot]);
    if n == 0 { return None; }
    var k := Key(g.members[slot], n);
    assert IsNode(g.members, g.Envs(), k, g.nodes[k]);
    return Some(g.nodes[k].env.vc);
  }

  /** The latest clock of the member at a slot does not reach the slot of k's sender. */
  ghost predicate Short(ms: seq<ReplicaId>, envs: Nodes, k: Key, slot: nat)
    requires slot < |ms|
  {
    var n := Latest(envs, ms[slot]);
    ms[slot] != k.sender && n > 0 && |envs[Key(ms[slot], n)].vc| <= SlotOf(ms, k.sender)
  }

  ghost predicate AckedBelow(ms: seq<ReplicaId>, envs: Nodes, k: Key, slot: nat)
    requires slot <= |ms|
  {
    forall j: nat :: j < slot && ms[j] != k.sender ==> World.Acknowledges(ms, envs, ms[j], k)
  }

  /** The question whether k is stable reads past the end of a clock: the members before
      acknowledge k, and then comes a clock that is too short. */
  ghost predicate Panics(ms: seq<ReplicaId>, envs: Nodes, k: Key) {
    k in envs && exists slot: nat :: slot < |ms| && Short(ms, envs, k, slot) && AckedBelow(ms, envs, k, slot)
  }

  lemma FullNeverPanics(ms: seq<ReplicaId>, h: seq<Envelope>, k: Key)
    requires Causal(ms, h) && Full(ms, Index(ms, h))
    ensures !Panics(ms, Index(ms, h), k)
  {
    if k in Index(ms, h) {
      CausalIsClosed(ms, h);
      assert Stamped(ms, Index(ms, h)[k]);
    }
  }

  /** What "the latest message of a member acknowledges k" comes down to. */
  lemma AcknowledgesByEntry(ms: seq<ReplicaId>, h: seq<Envelope>, slot: nat, k: Key)
    requires Causal(ms, h) && slot < |ms| && k in Index(ms, h)
    ensures SlotOf(ms, k.sender) >= 0 && k.num > 0
    ensures var envs := Index(ms, h); var n := Latest(envs, ms[slot]);
      World.Acknowledges(ms, envs, ms[slot], k) <==>
        n > 0 && At(envs[Key(ms[slot], n)].vc, SlotOf(ms, k.sender)) >= k.num
  {
    CausalIsClosed(ms, h);
    assert Stamped(ms, Index(ms, h)[k]);
  }

  /** Whether k is stable; no answer exactly when a clock on the way is too short. */
  method IsStable(g: Graph, k: Key) returns (r: Option<bool>)
    requires g.Linked()
    ensures r == if Panics(g.members, g.Envs(), k) then None else Some(World.IsStable(g.members, g.Envs(), k))
  {
    if k !in g.nodes { return Some(false); }
    var node := g.nodes[k];
    assert IsNode(g.members, g.Envs(), k, node);
    var slot := 0;
    while slot < |g.members|
      invariant 0 <= slot <= |g.members|
      invariant AckedBelow(g.members, g.Envs(), k, slot)
      invariant forall p: nat :: p < slot ==> !Short(g.members, g.Envs(), k, p)
    {
      AcknowledgesByEntry(g.members, g.history, slot, k);
      if slot != node.senderSlot {
        var latest := LatestVectorAtSlot(g, slot);
        if latest.None? { return Some(false); }
        if node.senderSlot >= |latest.value| { return None; }
        if latest.value[node.senderSlot] < node.senderSeq { return Some(false); }
      }
      slot := slot + 1;
    }
    return Some(true);
  }

  /** A node of wave w is listed among the messages of wave w. */
  lemma ListedInWave(ms: seq<ReplicaId>, h: seq<Envelope>, k: Key) returns (i: nat)
    requires k in Index(ms, h)
    ensures var list := WaveList(h, Wave(Index(ms, h)[k].vc)); i < |list| && KeyOf(ms, list[i]) == k
  {
    var e := Index(ms, h)[k];
    IndexValues(ms, h);
    WaveListElements(h, Wave(e.vc));
    i :| 0 <= i < |WaveList(h, Wave(e.vc))| && WaveList(h, Wave(e.vc))[i] == e;
  }

  lemma SomeStable(ms: seq<ReplicaId>, h: seq<Envelope>, w: nat, i: nat)
    requires Causal(ms, h) && i < |WaveList(h, w)|
    requires World.IsStable(ms, Index(ms, h), KeyOf(ms, WaveList(h, w)[i]))
    ensures World.WaveComplete(ms, Index(ms, h), w)
  {
    WaveListNode(ms, h, w, i);
  }

  lemma NoneStable(ms: seq<ReplicaId>, h: seq<Envelope>, list: seq<Envelope>, w: nat)
    requires list == WaveList(h, w) && FoundUnstable(ms, Index(ms, h), list, |list|)
    ensures !World.WaveComplete(ms, Index(ms, h), w)
  {
    forall k | k in Index(ms, h) && Wave(Index(ms, h)[k].vc) == w ensures !World.IsStable(ms, Index(ms, h), k) {
      var i := ListedInWave(ms, h, k);
    }
  }

  /** The first n messages of a list were found unstable. */
  ghost predicate FoundUnstable(ms: seq<ReplicaId>, envs: Nodes, list: seq<Envelope>, n: nat)
    requires n <= |list|
  {
    forall j :: 0 <= j < n ==>
      !Panics(ms, envs, KeyOf(ms, list[j])) && !World.IsStable(ms, envs, KeyOf(ms, list[j]))
  }

  ghost predicate WavePanics(ms: seq<ReplicaId>, envs: Nodes, list: seq<Envelope>) {
    exists i: nat :: i < |list| && Panics(ms, envs, KeyOf(ms, list[i])) && FoundUnstable(ms, envs, list, i)
  }

  /** The search through a list ends at a stable message, a short clock or the end. */
  ghost predicate Stops(ms: seq<ReplicaId>, envs: Nodes, list: seq<Envelope>, i: nat, r: Option<bool>) {
    && i <= |list| && FoundUnstable(ms, envs, list, i)
    && (r == Some(false) <==> i == |list|)
    && (i < |list| ==>
          var k := KeyOf(ms, list[i]);
          r == if Panics(ms, envs, k) then None else Some(World.IsStable(ms, envs, k)))
  }

  lemma StopsOnce(ms: seq<ReplicaId>, envs: Nodes, list: seq<Envelope>, i: nat, r: Option<bool>)
    requires Stops(ms, envs, list, i, r)
    ensures r.None? <==> WavePanics(ms, envs, list)
  {
    if WavePanics(ms, envs, list) {
      var p: nat :| p < |list| && Panics(ms, envs, KeyOf(ms, list[p])) && FoundUnstable(ms, envs, list, p);
      assert p < i || p == i || i < p;
    }
  }

  lemma StopsRight(ms: seq<ReplicaId>, h: seq<Envelope>, w: nat, i: nat, r: Option<bool>)
    requires Causal(ms, h) && Stops(ms, Index(ms, h), WaveList(h, w), i, r)
    ensures r.Some? ==> (r.value <==> World.WaveComplete(ms, Index(ms, h), w))
  {
    if r == Some(true) { SomeStable(ms, h, w, i); }
    if r == Some(false) { NoneStable(ms, h, WaveList(h, w), w); }
  }

  /** A wave is complete when some message in it is stable; no answer exactly when a message
      before the first stable one gives none. */
  method WaveComplete(g: Graph, w: nat) returns (r: Option<bool>)
    requires g.Valid()
    ensures r.None? <==> WavePanics(g.members, g.Envs(), WaveList(g.history, w))
    ensures r.Some? ==> (r.value <==> World.WaveComplete(g.members, g.Envs(), w))
    ensures r.Some? ==>
      (r.value <==> exists k :: k in g.Envs() && Wave(g.Envs()[k].vc) == w && World.IsStable(g.members, g.Envs(), k))
  {
    var envs := g.MessagesInWave(w);
    ghost var n;
    r, n := FirstStable(g, envs);
    StopsOnce(g.members, g.Envs(), envs, n, r);
    StopsRight(g.members, g.history, w, n, r);
  }

  method FirstStable(g: Graph, envs: seq<Envelope>) returns (r: Option<bool>, ghost n: nat)
    requires g.Linked()
    ensures Stops(g.members, g.Envs(), envs, n, r)
  {
    for i := 0 to |envs|
      invariant FoundUnstable(g.members, g.Envs(), envs, i)
    {
      r := IsStable(g, KeyOf(g.members, envs[i]));
      if r != Some(false) { return r, i; }
    }
    return Some(false), |envs|;
  }

  lemma FullWaveNeverPanics(ms: seq<ReplicaId>, h: seq<Envelope>, w: nat)
    requires Causal(ms, h) && Full(ms, Index(ms, h))
    ensures !WavePanics(ms, Index(ms, h), WaveList(h, w))
  {
    forall k ensures !Panics(ms, Index(ms, h), k) { FullNeverPanics(ms, h, k); }
  }
}
