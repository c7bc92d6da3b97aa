/** The total order layer as an object over one replica's graph (order/total.go). The
    output channel is a list; the library sort is any rearrangement by sender bytes. */
module Total {
  import opened Basics
  import opened Vectors
  import opened Causality
  import World
  import Graph
  import Stability
  import Agreement

  /** x put before the first element with a larger sender. */
  function InsertAt(s: seq<Envelope>, x: Envelope, p: nat): seq<Envelope>
    requires p <= |s|
  {
    s[..p] + [x] + s[p..]
  }

  lemma InsertedSorted(s: seq<Envelope>, x: Envelope, p: nat)
    requires World.SenderSorted(s) && p <= |s|
    requires forall i :: 0 <= i < p ==> !Less(x.sender, s[i].sender)
    requires p < |s| ==> Less(x.sender, s[p].sender)
    ensures World.SenderSorted(InsertAt(s, x, p))
  {
    var r := InsertAt(s, x, p);
    forall j | p <= j < |s| ensures !Less(s[j].sender, x.sender) {
      LessTrichotomy(x.sender, s[p].sender);
      if Less(s[j].sender, x.sender) { LessTransitive(s[j].sender, x.sender, s[p].sender); }
    }
    assert forall i :: 0 <= i < p ==> r[i] == s[i];
    assert forall i :: p < i < |r| ==> r[i] == s[i - 1];
    assert r[p] == x;
  }

  lemma InsertedElements(s: seq<Envelope>, x: Envelope, p: nat)
    requires p <= |s|
    ensures multiset(InsertAt(s, x, p)) == multiset(s) + multiset{x}
  {
    assert s == s[..p] + s[p..];
  }

  /** The messages rearranged so that the senders' bytes never go down. */
  method SortBySender(input: seq<Envelope>) returns (out: seq<Envelope>)
    ensures World.IsSort(input, out)
    ensures multiset(out) == multiset(input)
    ensures forall p, q :: 0 <= p < q < |out| ==>
      out[p].sender == out[q].sender || exists i: nat :: SmallerAt(out[p].sender, out[q].sender, i)
  {
    out := [];
    var i := 0;
    while i < |input|
      invariant 0 <= i <= |input|
      invariant World.IsSort(input[..i], out)
    {
      var p := 0;
      while p < |out| && !Less(input[i].sender, out[p].sender)
        invariant 0 <= p <= |out|
        invariant forall j :: 0 <= j < p ==> !Less(input[i].sender, out[j].sender)
      {
        p := p + 1;
      }
      InsertedSorted(out, input[i], p);
      InsertedElements(out, input[i], p);
      assert input[..i + 1] == input[..i] + [input[i]];
      out := InsertAt(out, input[i], p);
      i := i + 1;
    }
    assert input[..i] == input;
    World.SortedByBytes(out);
  }

  /** The highest wave of a history; no wave above it has a message. */
  ghost function TopWave(h: seq<Envelope>): (w: nat)
    ensures forall e :: e in h ==> Wave(e.vc) <= w
  {
    if h == [] then 0
    else
      var rest, last := TopWave(h[..|h| - 1]), h[|h| - 1];
      assert forall e :: e in h ==> e == last || e in h[..|h| - 1];
      if Wave(last.vc) > rest then Wave(last.vc) else rest
  }

  /** latestWave holds, for each sender among the observed envelopes, its highest wave. */
  ghost predicate HighestWaves(latestWave: map<ReplicaId, nat>, observed: seq<Envelope>) {
    && (forall e :: e in observed ==> e.sender in latestWave && Wave(e.vc) <= latestWave[e.sender])
    && (forall r :: r in latestWave ==> exists e :: e in observed && e.sender == r && Wave(e.vc) == latestWave[r])
  }

  lemma HighestExtend(latestWave: map<ReplicaId, nat>, observed: seq<Envelope>, env: Envelope)
    requires HighestWaves(latestWave, observed)
    ensures HighestWaves(World.NoteWave(latestWave, env), observed + [env])
  {
    var now, all := World.NoteWave(latestWave, env), observed + [env];
    forall r | r in now ensures exists e :: e in all && e.sender == r && Wave(e.vc) == now[r] {
      if r in latestWave && now[r] == latestWave[r] {
        var e :| e in observed && e.sender == r && Wave(e.vc) == latestWave[r];
        assert e in all;
      } else {
        assert all[|observed|] == env;
      }
    }
  }

  /** Wave w was open and went out as a sort of its messages. */
  ghost predicate Drained(ms: seq<ReplicaId>, h: seq<Envelope>, latestWave: map<ReplicaId, nat>,
                          batches: seq<seq<Envelope>>, w: nat)
  {
    && World.WaveComplete(ms, Index(ms, h), w)
    && World.Continuation(ms, latestWave, w)
    && 1 <= w <= |batches|
    && World.IsSort(WaveList(h, w), batches[w - 1])
  }

  ghost predicate DrainedFrom(ms: seq<ReplicaId>, h: seq<Envelope>, latestWave: map<ReplicaId, nat>,
                              batches: seq<seq<Envelope>>, lo: nat, hi: nat)
  {
    forall w :: lo <= w < hi ==> Drained(ms, h, latestWave, batches, w)
  }

  lemma DrainedOneMore(ms: seq<ReplicaId>, h: seq<Envelope>, latestWave: map<ReplicaId, nat>,
                       b: seq<seq<Envelope>>, b': seq<seq<Envelope>>, lo: nat, hi: nat)
    requires DrainedFrom(ms, h, latestWave, b, lo, hi) && Drained(ms, h, latestWave, b', hi)
    requires |b| <= |b'| && forall n :: 0 <= n < |b| ==> b'[n] == b[n]
    ensures DrainedFrom(ms, h, latestWave, b', lo, hi + 1)
  {
    forall w | lo <= w < hi + 1 ensures Drained(ms, h, latestWave, b', w) {
      if w < hi { assert Drained(ms, h, latestWave, b, w); }
    }
  }

  class Total {
    const graph: Graph.Graph
    var latestWave: map<ReplicaId, nat>
    var nextWave: nat
    var applied: seq<Envelope>
    ghost var batches: seq<seq<Envelope>>
    /** The envelopes delivered so far. */
    ghost var observed: seq<Envelope>

    ghost predicate Valid()
      reads this, graph
    {
      && graph.Valid()
      && Stability.Full(graph.members, graph.Envs())
      && nextWave == |batches| + 1
      && applied == Agreement.Emitted(batches)
      && HighestWaves(latestWave, observed)
    }

    constructor (graph: Graph.Graph)
      requires graph.Valid() && Stability.Full(graph.members, graph.Envs())
      ensures Valid() && this.graph == graph && latestWave == map[] && nextWave == 1 && applied == [] && observed == []
    {
      this.graph := graph;
      latestWave, nextWave, applied := map[], 1, [];
      batches, observed := [], [];
    }

    /** Keeps the highest wave seen from each sender. */
    method NoteObservedWave(env: Envelope)
      requires Valid()
      modifies this`latestWave, this`observed
      ensures Valid() && observed == old(observed) + [env] && latestWave == World.NoteWave(old(latestWave), env)
    {
      HighestExtend(latestWave, observed, env);
      observed := observed + [env];
      var w := WaveOf(env.vc);
      if env.sender !in latestWave || w > latestWave[env.sender] {
        latestWave := latestWave[env.sender := w];
      }
    }

    method ContinuationProperty(wave: nat) returns (r: bool)
      ensures r <==> World.Continuation(graph.members, latestWave, wave)
      ensures r <==> forall m :: m in graph.members ==> m in latestWave && latestWave[m] > wave
    {
      var slot := 0;
      while slot < |graph.members|
        invariant 0 <= slot <= |graph.members|
        invariant forall m :: m in graph.members[..slot] ==> m in latestWave && latestWave[m] > wave
      {
        var m := graph.members[slot];
        assert m in graph.members;
        if m !in latestWave || latestWave[m] <= wave { return false; }
        slot := slot + 1;
      }
      assert graph.members[..slot] == graph.members;
      return true;
    }

    method IsOpen() returns (open: bool)
      requires Valid()
      ensures open <==>
        World.WaveComplete(graph.members, graph.Envs(), nextWave)
        && World.Continuation(graph.members, latestWave, nextWave)
    {
      var complete := Stability.WaveComplete(graph, nextWave);
      Stability.FullWaveNeverPanics(graph.members, graph.history, nextWave);
      if !complete.value { return false; }
      open := ContinuationProperty(nextWave);
    }

    /** Emits the next wave, sorted by sender. */
    method Emit()
      requires Valid()
      modifies this`applied, this`nextWave, this`batches
      ensures Valid() && nextWave == old(nextWave) + 1 && |batches| == |old(batches)| + 1 && old(batches) <= batches
      ensures World.IsSort(WaveList(graph.history, old(nextWave)), batches[|old(batches)|])
    {
      var envs := graph.MessagesInWave(nextWave);
      var sorted := SortBySender(envs);
      applied := applied + sorted;
      nextWave := nextWave + 1;
      batches := batches + [sorted];
    }

    /** Emits the next wave if it is open. */
    method TryEmit() returns (open: bool)
      requires Valid()
      modifies this`applied, this`nextWave, this`batches
      ensures Valid()
      ensures open <==>
        World.WaveComplete(graph.members, graph.Envs(), old(nextWave))
        && World.Continuation(graph.members, latestWave, old(nextWave))
      ensures !open ==> nextWave == old(nextWave) && batches == old(batches)
      ensures open ==>
        nextWave == old(nextWave) + 1 && old(batches) <= batches && old(nextWave) <= TopWave(graph.history)
      ensures open ==> Drained(graph.members, graph.history, latestWave, batches, old(nextWave))
    {
      open := IsOpen();
      if open {
        OpenWaveIsLow(graph.members, graph.history, nextWave);
        Emit();
      }
    }

    /** Emits every consecutively open wave, each sorted by sender, and stops at the first
        wave that is not open. */
    method DrainCompleteWaves()
      requires Valid()
      modifies this`applied, this`nextWave, this`batches
      ensures Valid() && old(batches) <= batches
      ensures !(World.WaveComplete(graph.members, graph.Envs(), nextWave)
                && World.Continuation(graph.members, latestWave, nextWave))
      ensures DrainedFrom(graph.members, graph.history, latestWave, batches, old(nextWave), nextWave)
    {
      var open := true;
      while open
        invariant Valid() && old(batches) <= batches
        invariant DrainedFrom(graph.members, graph.history, latestWave, batches, old(nextWave), nextWave)
        invariant !open ==>
          !(World.WaveComplete(graph.members, graph.Envs(), nextWave)
            && World.Continuation(graph.members, latestWave, nextWave))
        decreases open, TopWave(graph.history) + 1 - nextWave
      {
        ghost var before, wave := batches, nextWave;
        open := TryEmit();
        if open {
          DrainedOneMore(graph.members, graph.history, latestWave, before, batches, old(nextWave), wave);
        }
      }
    }
  }

  lemma OpenWaveIsLow(ms: seq<ReplicaId>, h: seq<Envelope>, w: nat)
    requires World.WaveComplete(ms, Index(ms, h), w)
    ensures w <= TopWave(h)
  {
    IndexValues(ms, h);
  }
}
