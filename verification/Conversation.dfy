/** One replica's conversation: sending, receiving with deferral and wake-up, and replay
    (psync/conversation.go). Network sends are collected in lists; log appends succeed. */
module Conversation {
  import opened Basics
  import opened Vectors
  import opened Causality
  import opened Protocol
  import opened Graph
  import opened Deferral

  class Conversation {
    const convId: ConversationId
    const selfSlot: nat
    const graph: Graph
    var mask: set<ReplicaId>
    var deferred: Deferred
    var deferredByNeed: Needs
    var outstanding: set<Key>
    var log: seq<Envelope>
    var delivered: seq<Envelope>
    var requests: seq<(Key, ReplicaId)>
    var broadcasts: seq<Envelope>
    /** Waiting pairs whose need a replay has inserted without waking. */
    ghost var stuck: set<(Key, Key)>

    ghost predicate Valid()
      reads this, graph
    {
      && graph.Valid()
      && selfSlot < |graph.members|
      && AllFiled(graph.members, convId, deferred)
    }

    ghost predicate Consistent(stale: set<(Key, Key)>)
      reads this, graph
    {
      Indexed(graph.members, graph.Envs(), deferred, deferredByNeed, outstanding, stale, stuck)
    }

    constructor (convId: ConversationId, members: seq<ReplicaId>, selfSlot: nat, mask: set<ReplicaId>,
                 log: seq<Envelope>)
      requires Distinct(members) && selfSlot < |members|
      ensures Valid() && Consistent({}) && fresh(graph)
      ensures graph.members == members && graph.history == [] && this.log == log && delivered == [] && deferred == map[]
      ensures stuck == {}
    {
      this.convId, this.selfSlot, this.mask := convId, selfSlot, mask;
      graph := new Graph(members);
      deferred, deferredByNeed, outstanding := map[], map[], {};
      this.log, delivered, requests, broadcasts := log, [], [], [];
      stuck := {};
    }

    /** Envelopes that pass the checks before the graph is consulted. */
    predicate Admitted(env: Envelope)
      reads this`mask
    {
      env.conv == convId && env.sender !in mask
    }

    /** Enters envKey under each missing key and asks the relayer for those not asked for. */
    method RecordNeeds(envKey: Key, missing: seq<Key>, from: ReplicaId) returns (waiting: set<Key>)
      modifies this`deferredByNeed, this`outstanding, this`requests
      ensures waiting == Elements(missing)
      ensures deferredByNeed == AddNeeds(old(deferredByNeed), waiting, envKey)
      ensures outstanding == old(outstanding) + waiting
      ensures requests == old(requests) + Asked(old(outstanding), missing, from)
    {
      waiting := {};
      AddNeedsNone(deferredByNeed, envKey);
      var i := 0;
      while i < |missing|
        invariant 0 <= i <= |missing|
        invariant waiting == Elements(missing[..i])
        invariant deferredByNeed == AddNeeds(old(deferredByNeed), waiting, envKey)
        invariant outstanding == old(outstanding) + waiting
        invariant requests == old(requests) + Asked(old(outstanding), missing[..i], from)
      {
        var n := missing[i];
        NextAsked(old(outstanding), missing, from, i);
        AddNeedsOne(old(deferredByNeed), waiting, n, envKey);
        waiting := waiting + {n};
        deferredByNeed := deferredByNeed[n := WaitersOf(deferredByNeed, n) + {envKey}];
        if n !in outstanding {
          outstanding := outstanding + {n};
          requests := requests + [(n, from)];
        }
        i := i + 1;
      }
      assert missing[..i] == missing;
    }

    method DeferEnvelope(env: Envelope, missing: seq<Key>, from: ReplicaId, ghost stale: set<(Key, Key)>)
      requires Valid() && Consistent(stale) && env.conv == convId
      requires Lacks(graph.members, graph.Envs(), env) && missing == WaitList(graph.members, graph.Envs(), env)
      modifies this`deferred, this`deferredByNeed, this`outstanding, this`requests
      ensures Valid() && Consistent(stale)
      ensures KeyOf(graph.members, env) in old(deferred) ==> deferred == old(deferred) && requests == old(requests)
      ensures KeyOf(graph.members, env) !in old(deferred) ==>
        && deferred == old(deferred)[KeyOf(graph.members, env) := Pending(env, from, Elements(missing))]
        && requests == old(requests) + Asked(old(outstanding), missing, from)
      ensures Handled(graph.members, mask, env, from, graph.Envs(), old(deferred), [], graph.Envs(), deferred)
    {
      var envKey := KeyOf(graph.members, env);
      if envKey in deferred {
        DeferIsHandled(graph.members, mask, env, from, graph.Envs(), deferred, deferred);
        return;
      }
      var waiting := RecordNeeds(envKey, missing, from);
      deferred := deferred[envKey := Pending(env, from, waiting)];
      WaitListIsLacking(graph.members, graph.Envs(), env);
      AfterDefer(graph.members, graph.Envs(), old(deferred), old(deferredByNeed), old(outstanding), stale, stuck, env,
                 from);
      DeferIsHandled(graph.members, mask, env, from, graph.Envs(), old(deferred), deferred);
    }
  
    /** Handles one envelope: drops it, inserts and delivers it together with everything
        it sets free, or defers it. */
    method HandleEnvelope(env: Envelope, from: ReplicaId, ghost stale: set<(Key, Key)>)
      returns (ghost news: seq<Envelope>)
      requires Valid() && Consistent(stale)
      modifies this`deferred, this`deferredByNeed, this`outstanding, this`log, this`delivered, this`requests, graph
      ensures Valid() && Consistent(stale)
      ensures log == old(log) + news && delivered == old(delivered) + news && graph.history == old(graph.history) + news
      ensures if Admitted(env) && Acceptable(graph.members, env)
        then Handled(graph.members, mask, env, from, old(graph.Envs()), old(deferred), news, graph.Envs(), deferred)
        else deferred == old(deferred) && news == []
      decreases Fitting(graph.members, deferred), if Fits(graph.members, env) then 4 else 0, 1
    {
      news := [];
      if env.conv != convId { return; }
      var slot := SlotOf(graph.members, env.sender);
      if slot < 0 { return; }
      if env.sender in mask { return; }
      if slot >= |env.vc| { return; }
      if graph.Has(Key(env.sender, env.vc[slot])) {
        PresentIsHandled(graph.members, mask, env, from, graph.Envs(), deferred);
        return;
      }
      news := InsertOrDefer(env, from, stale);
    }

    method InsertOrDefer(env: Envelope, from: ReplicaId, ghost stale: set<(Key, Key)>)
      returns (ghost news: seq<Envelope>)
      requires Valid() && Consistent(stale) && Admitted(env) && SlotOf(graph.members, env.sender) >= 0
      requires KeyOf(graph.members, env) !in graph.nodes
      modifies this`deferred, this`deferredByNeed, this`outstanding, this`log, this`delivered, this`requests, graph
      ensures Valid() && Consistent(stale)
      ensures log == old(log) + news && delivered == old(delivered) + news && graph.history == old(graph.history) + news
      ensures if Acceptable(graph.members, env)
        then Handled(graph.members, mask, env, from, old(graph.Envs()), old(deferred), news, graph.Envs(), deferred)
        else deferred == old(deferred) && news == []
      decreases Fitting(graph.members, deferred), if Fits(graph.members, env) then 4 else 0, 0
    {
      news := [];
      ghost var h := graph.history;
      var result := graph.Insert(env);
      if result.MissingParents? {
        DeferEnvelope(env, result.missing, from, stale);
      } else if result.Inserted? {
        news := Deliver(env, from, stale, h);
      }
    }

    /** Logs and delivers an envelope just inserted, then wakes what waited for it. */
    method Deliver(env: Envelope, from: ReplicaId, ghost stale: set<(Key, Key)>, ghost h: seq<Envelope>)
      returns (ghost news: seq<Envelope>)
      requires Valid() && graph.history == h + [env] && KeyOf(graph.members, env) !in Index(graph.members, h)
      requires Indexed(graph.members, Index(graph.members, h), deferred, deferredByNeed, outstanding, stale, stuck)
      modifies this`deferred, this`deferredByNeed, this`outstanding, this`log, this`delivered, this`requests, graph
      ensures Valid() && Consistent(stale)
      ensures log == old(log) + news && delivered == old(delivered) + news && graph.history == h + news
      ensures
        Handled(graph.members, mask, env, from, Index(graph.members, h), old(deferred), news, graph.Envs(), deferred)
      decreases Fitting(graph.members, deferred), 3, 1
    {
      log := log + [env];
      delivered := delivered + [env];
      CausalSnoc(graph.members, h, env);
      AfterInsert(graph.members, Index(graph.members, h), env, deferred, deferredByNeed, outstanding, stale, stuck);
      ghost var woken := ProcessNewlyAvailable(KeyOf(graph.members, env), stale);
      news := [env] + woken;
      Associative(old(log), [env], woken);
      Associative(old(delivered), [env], woken);
      Associative(h, [env], woken);
      DeliverDone(graph.members, mask, env, from, h, old(deferred), woken, deferred);
    }

    /** Wakes the envelopes that waited for pkey, in no particular order. */
    method ProcessNewlyAvailable(pkey: Key, ghost stale: set<(Key, Key)>) returns (ghost news: seq<Envelope>)
      requires Valid() && pkey in graph.Envs() && forall k :: (k, pkey) !in stale
      requires Indexed(graph.members, graph.Envs(), deferred, deferredByNeed - {pkey}, outstanding - {pkey},
                       stale + Pairs(WaitersOf(deferredByNeed, pkey), pkey), stuck)
      modifies this`deferred, this`deferredByNeed, this`outstanding, this`log, this`delivered, this`requests, graph
      ensures Valid() && Consistent(stale)
      ensures log == old(log) + news && delivered == old(delivered) + news && graph.history == old(graph.history) + news
      ensures Evolves(graph.members, mask, {}, old(deferred), news, graph.Envs(), deferred)
      ensures Fitting(graph.members, deferred) <= old(Fitting(graph.members, deferred))
      decreases Fitting(graph.members, deferred), 3, 0
    {
      assert stale + Pairs({}, pkey) == stale;
      outstanding := outstanding - {pkey};
      if pkey !in deferredByNeed {
        assert deferredByNeed - {pkey} == deferredByNeed;
        return [];
      }
      var dependents := deferredByNeed[pkey];
      deferredByNeed := deferredByNeed - {pkey};
      news := WakeAll(dependents, pkey, stale);
    }

    method WakeAll(dependents: set<Key>, pkey: Key, ghost stale: set<(Key, Key)>) returns (ghost news: seq<Envelope>)
      requires Valid() && Consistent(stale + Pairs(dependents, pkey)) && forall k :: (k, pkey) !in stale
      modifies this`deferred, this`deferredByNeed, this`outstanding, this`log, this`delivered, this`requests, graph
      ensures Valid() && Consistent(stale)
      ensures log == old(log) + news && delivered == old(delivered) + news && graph.history == old(graph.history) + news
      ensures Evolves(graph.members, mask, {}, old(deferred), news, graph.Envs(), deferred)
      ensures Fitting(graph.members, deferred) <= old(Fitting(graph.members, deferred))
      decreases Fitting(graph.members, deferred), 2
    {
      news := [];
      var todo := dependents;
      assert stale + Pairs({}, pkey) == stale;
      while todo != {}
        invariant Valid() && Consistent(stale + Pairs(todo, pkey))
        invariant log == old(log) + news && delivered == old(delivered) + news
        invariant graph.history == old(graph.history) + news
        invariant Evolves(graph.members, mask, {}, old(deferred), news, graph.Envs(), deferred)
        invariant Fitting(graph.members, deferred) <= old(Fitting(graph.members, deferred))
        decreases todo
      {
        var k :| k in todo;
        PairsStep(stale, todo, pkey, k);
        todo := todo - {k};
        ghost var woken := WakeOne(k, pkey, stale + Pairs(todo, pkey), old(deferred), news);
        Associative(old(log), news, woken);
        Associative(old(delivered), news, woken);
        Associative(old(graph.history), news, woken);
        news := news + woken;
      }
    }

    /** Strikes pkey from one waiting envelope and handles it if that was the last need.
        The entry is always there: a waiting envelope leaves only through this door. */
    method WakeOne(k: Key, pkey: Key, ghost stale: set<(Key, Key)>, ghost start: Deferred, ghost done: seq<Envelope>)
      returns (ghost news: seq<Envelope>)
      requires Valid() && Consistent(stale + {(k, pkey)}) && (k, pkey) !in stale
      requires Evolves(graph.members, mask, {}, start, done, graph.Envs(), deferred)
      modifies this`deferred, this`deferredByNeed, this`outstanding, this`log, this`delivered, this`requests, graph
      ensures Valid() && Consistent(stale)
      ensures log == old(log) + news && delivered == old(delivered) + news && graph.history == old(graph.history) + news
      ensures Evolves(graph.members, mask, {}, start, done + news, graph.Envs(), deferred)
      ensures Fitting(graph.members, deferred) <= old(Fitting(graph.members, deferred))
      decreases Fitting(graph.members, deferred), 1
    {
      news := [];
      ghost var stale' := stale + {(k, pkey)};
      assert Awaits(deferred, k, pkey) && stale' - {(k, pkey)} == stale;
      assert IsDeferred(graph.members, graph.Envs(), k, deferred[k], stale', stuck);
      var p := deferred[k];
      FiledWithout(graph.members, convId, deferred, k, p.waiting - {pkey});
      if p.waiting - {pkey} != {} {
        AfterStrike(graph.members, graph.Envs(), deferred, deferredByNeed, outstanding, stale', stuck, k, pkey);
        deferred := deferred[k := p.(waiting := p.waiting - {pkey})];
        NothingEvolves(graph.members, mask, {}, graph.Envs(), old(deferred), deferred);
        EvolvesThen(graph.members, mask, convId, start, done, graph.Envs(), old(deferred), [], graph.Envs(), deferred);
      } else {
        AfterWake(graph.members, graph.Envs(), deferred, deferredByNeed, outstanding, stale', stuck, k, pkey);
        WokenIsReady(graph.members, graph.Envs(), k, p, stale', stuck, pkey);
        FittingWithout(graph.members, deferred, k);
        deferred := deferred - {k};
        news := HandleEnvelope(p.env, p.from, stale);
        HistoryGrows(graph.members, old(graph.history), news);
        WakeEvolves(graph.members, mask, convId, old(graph.Envs()), old(deferred), k, news, graph.Envs(), deferred);
        EvolvesThen(graph.members, mask, convId, start, done, old(graph.Envs()), old(deferred), news, graph.Envs(),
                    deferred);
      }
    }
  
    /** The protocol state this object stands for. */
    ghost function Abs(): Local
      reads this, graph
    {
      Local(graph.Envs(), Envelopes(deferred), stuck, graph.history, log)
    }

    /** An incoming envelope; None is one without a sender. */
    method Receive(wire: Option<Envelope>, from: ReplicaId) returns (ghost news: seq<Envelope>)
      requires Valid() && Consistent({})
      modifies this`deferred, this`deferredByNeed, this`outstanding, this`log, this`delivered, this`requests, graph
      ensures Valid() && Consistent({})
      ensures log == old(log) + news && delivered == old(delivered) + news && graph.history == old(graph.history) + news
      ensures wire.None? || wire.value.conv != convId || wire.value.sender in mask ==> Abs() == old(Abs())
      ensures wire.Some? && wire.value.conv == convId && mask == {} ==>
        ReceiveStep(graph.members, wire.value, old(Abs()), Abs())
    {
      news := [];
      if wire.None? { return; }
      news := HandleEnvelope(wire.value, from, {});
      ReceiveIsStep(news, wire.value, from, old(graph.history), old(log), old(deferred));
    }

    lemma ReceiveIsStep(news: seq<Envelope>, env: Envelope, from: ReplicaId, h: seq<Envelope>, l: seq<Envelope>,
                        d: Deferred)
      requires Valid() && Consistent({}) && graph.history == h + news && log == l + news
      requires Admitted(env) && Acceptable(graph.members, env) ==>
        Handled(graph.members, mask, env, from, Index(graph.members, h), d, news, graph.Envs(), deferred)
      requires !(Admitted(env) && Acceptable(graph.members, env)) ==> deferred == d && news == []
      ensures env.conv == convId && mask == {} ==>
        ReceiveStep(graph.members, env, Local(Index(graph.members, h), Envelopes(d), stuck, h, l), Abs())
      ensures !Admitted(env) ==> Abs() == Local(Index(graph.members, h), Envelopes(d), stuck, h, l)
    {
      if Admitted(env) && Acceptable(graph.members, env) {
        if mask == {} {
          HandledIsReceive(graph.members, env, from, h, l, d, news, deferred, deferredByNeed, outstanding, stuck);
        }
      } else {
        assert h + news == h && l + news == l;
        IndexedIsSettled(graph.members, graph.Envs(), deferred, deferredByNeed, outstanding, stuck);
      }
    }

    /** The next message of this replica, stamped with everything it has seen. */
    method Stamp(payload: Bytes) returns (env: Envelope)
      requires Valid()
      ensures env == Outgoing(graph.members, convId, graph.Envs(), selfSlot, payload)
      ensures Admissible(graph.members, graph.Envs(), env)
    {
      OutgoingAdmissible(graph.members, convId, graph.Envs(), selfSlot, payload);
      var view := graph.CurrentView();
      env := Envelope(convId, graph.members[selfSlot], Increment(view, selfSlot), payload);
    }

    /** The index is as exact as it was with these pairs stuck. */
    ghost predicate Exact(pairs: set<(Key, Key)>)
      reads this, graph
    {
      Indexed(graph.members, graph.Envs(), deferred, deferredByNeed, outstanding, {}, pairs)
    }

    /** Inserts an admissible envelope without waking what waits for it. */
    method InsertOnly(env: Envelope)
      requires Valid() && Consistent({}) && Admissible(graph.members, graph.Envs(), env)
      modifies graph, this`stuck
      ensures Valid() && Consistent({}) && graph.history == old(graph.history) + [env]
      ensures graph.Envs() == old(graph.Envs())[KeyOf(graph.members, env) := env]
      ensures stuck == old(stuck) + StuckOver(graph.members, deferred, old(graph.Envs()), graph.Envs())
      ensures Exact(old(stuck)) <==> !Awaited(graph.members, deferred, KeyOf(graph.members, env))
    {
      ghost var envs := graph.Envs();
      ghost var envs' := envs[KeyOf(graph.members, env) := env];
      CausalSnoc(graph.members, graph.history, env);
      InsertWithoutWaking(graph.members, envs, envs', deferred, deferredByNeed, outstanding, stuck);
      InsertStrands(graph.members, envs, envs', deferred, deferredByNeed, outstanding, stuck);
      var _ := graph.Insert(env);
      stuck := stuck + StuckOver(graph.members, deferred, envs, envs');
    }

    /** Stamps, logs, inserts, delivers and broadcasts a message of this replica. It does
        not wake deferred envelopes, so the dictionaries stay as exact as they were if and
        only if none was waiting for this message. */
    method Send(payload: Bytes) returns (env: Envelope)
      requires Valid() && Consistent({})
      modifies this`log, this`delivered, this`broadcasts, this`stuck, graph
      ensures Valid() && Consistent({})
      ensures env == Outgoing(graph.members, convId, old(graph.Envs()), selfSlot, payload)
      ensures log == old(log) + [env] && delivered == old(delivered) + [env] && broadcasts == old(broadcasts) + [env]
      ensures graph.history == old(graph.history) + [env]
      ensures graph.Envs() == old(graph.Envs())[KeyOf(graph.members, env) := env]
      ensures Exact(old(stuck)) <==> !Awaited(graph.members, deferred, KeyOf(graph.members, env))
    {
      env := Stamp(payload);
      log := log + [env];
      InsertOnly(env);
      delivered := delivered + [env];
      broadcasts := broadcasts + [env];
    }

    /** One log entry of a replay: inserted if it can be, skipped otherwise. */
    method ReplayOne(env: Envelope) returns (inserted: bool)
      requires Valid()
      modifies graph
      ensures Valid() && inserted == Admissible(graph.members, old(graph.Envs()), env)
      ensures inserted ==> graph.history == old(graph.history) + [env]
      ensures inserted ==> graph.Envs() == old(graph.Envs())[KeyOf(graph.members, env) := env]
      ensures !inserted ==> graph.history == old(graph.history)
    {
      inserted := false;
      var slot := SlotOf(graph.members, env.sender);
      if 0 <= slot < |env.vc| && !graph.Has(Key(env.sender, env.vc[slot])) {
        CausalSnoc(graph.members, graph.history, env);
        var result := graph.Insert(env);
        inserted := result.Inserted?;
      }
    }

    method InsertLog() returns (envelopes: seq<Envelope>)
      requires Valid()
      modifies graph
      ensures Valid()
      ensures graph.Envs() == Replay(graph.members, old(graph.Envs()), log)
      ensures envelopes == Replayed(graph.members, old(graph.Envs()), log)
      ensures graph.history == old(graph.history) + envelopes
    {
      envelopes := [];
      var i := 0;
      while i < |log|
        invariant 0 <= i <= |log|
        invariant Valid()
        invariant graph.Envs() == Replay(graph.members, old(graph.Envs()), log[..i])
        invariant envelopes == Replayed(graph.members, old(graph.Envs()), log[..i])
        invariant graph.history == old(graph.history) + envelopes
      {
        assert log[..i + 1][..i] == log[..i];
        Associative(old(graph.history), envelopes, [log[i]]);
        var inserted := ReplayOne(log[i]);
        if inserted { envelopes := envelopes + [log[i]]; }
        i := i + 1;
      }
      assert log[..i] == log;
    }

    /** Inserts the log's entries in order, skipping those present or not insertable, and
        returns what was inserted for redelivery. Nobody is woken, so the dictionaries stay
        as exact as they were if and only if no fitting deferred envelope waits for a key
        that the replay inserts. */
    method HandleReplay() returns (envelopes: seq<Envelope>)
      requires Valid() && Consistent({})
      modifies graph, this`stuck
      ensures Valid() && Consistent({})
      ensures Abs() == AfterReplay(graph.members, old(Abs()))
      ensures envelopes == Replayed(graph.members, old(graph.Envs()), log)
      ensures Exact(old(stuck)) <==>
        forall n :: n in graph.Envs() && n !in old(graph.Envs()) ==> !Awaited(graph.members, deferred, n)
    {
      ghost var envs, h := graph.Envs(), graph.history;
      envelopes := InsertLog();
      ghost var envs' := graph.Envs();
      ReplayGrows(graph.members, envs, log);
      InsertWithoutWaking(graph.members, envs, envs', deferred, deferredByNeed, outstanding, stuck);
      InsertStrands(graph.members, envs, envs', deferred, deferredByNeed, outstanding, stuck);
      StuckIsNewlyStuck(graph.members, envs, envs', deferred, deferredByNeed, outstanding, stuck);
      stuck := stuck + StuckOver(graph.members, deferred, envs, envs');
    }
  }

  lemma {:induction false} HistoryGrows(ms: seq<ReplicaId>, h: seq<Envelope>, news: seq<Envelope>)
    ensures Index(ms, h).Keys <= Index(ms, h + news).Keys
  {
    if news == [] {
      assert h + news == h;
    } else {
      var n := |news| - 1;
      HistoryGrows(ms, h, news[..n]);
      assert (h + news)[..|h + news| - 1] == h + news[..n];
    }
  }

  lemma PairsStep(stale: set<(Key, Key)>, todo: set<Key>, n: Key, k: Key)
    requires k in todo && forall x :: (x, n) !in stale
    ensures (k, n) !in stale + Pairs(todo - {k}, n)
    ensures stale + Pairs(todo - {k}, n) + {(k, n)} == stale + Pairs(todo, n)
  {
  }

  lemma DeliverDone(ms: seq<ReplicaId>, mask: set<ReplicaId>, env: Envelope, from: ReplicaId, h: seq<Envelope>,
                    d: Deferred, woken: seq<Envelope>, d': Deferred)
    requires Evolves(ms, mask, {}, d, woken, Index(ms, h + [env] + woken), d') && Fitting(ms, d') <= Fitting(ms, d)
    ensures Handled(ms, mask, env, from, Index(ms, h), d, [env] + woken, Index(ms, h + [env] + woken), d')
  {
    CausalSnoc(ms, h, env);
    HistoryGrows(ms, h + [env], woken);
    assert ([env] + woken)[1..] == woken;
    DeliverIsHandled(ms, mask, env, from, Index(ms, h), d, [env] + woken, Index(ms, h + [env] + woken), d');
  }

  lemma CausalSnoc(ms: seq<ReplicaId>, h: seq<Envelope>, e: Envelope)
    ensures Index(ms, h + [e]) == Index(ms, h)[KeyOf(ms, e) := e]
  {
    assert (h + [e])[..|h|] == h;
  }

  lemma FittingWithout(ms: seq<ReplicaId>, d: Deferred, k: Key)
    requires k in d
    ensures Fitting(ms, d - {k}) == Fitting(ms, d) - {k}
    ensures Fits(ms, d[k].env) ==> Fitting(ms, d - {k}) < Fitting(ms, d)
    ensures !Fits(ms, d[k].env) ==> Fitting(ms, d - {k}) == Fitting(ms, d)
  {
    if Fits(ms, d[k].env) { assert k in Fitting(ms, d); }
  }

  /** An envelope with no need left has all its predecessors. */
  lemma WokenIsReady(ms: seq<ReplicaId>, envs: Nodes, k: Key, p: Pending, stale: set<(Key, Key)>,
                     stuck: set<(Key, Key)>, n: Key)
    requires IsDeferred(ms, envs, k, p, stale, stuck) && p.waiting - {n} == {} && n in envs
    ensures Fits(ms, p.env) ==> Parents(ms, p.env) <= envs.Keys
  {
    assert p.waiting <= {n};
    if Fits(ms, p.env) {
      forall m | m in Parents(ms, p.env) ensures m in envs.Keys {
        assert m in envs.Keys || m in Lacking(ms, envs, p.env);
      }
    }
  }

  lemma WaitListIsLacking(ms: seq<ReplicaId>, envs: Nodes, e: Envelope)
    requires Lacks(ms, envs, e)
    ensures Elements(WaitList(ms, envs, e)) == Lacking(ms, envs, e) != {}
  {
    if Fits(ms, e) {
      MissingListIsMissing(ms, envs.Keys, e);
      assert Elements(WaitList(ms, envs, e)) == Parents(ms, e) - envs.Keys;
      var k :| k in Parents(ms, e) && k !in envs.Keys;
      assert k in Lacking(ms, envs, e);
    } else {
      var n := Key(e.sender, SeqOf(ms, e) - 1);
      assert WaitList(ms, envs, e) == [n];
      assert n in Lacking(ms, envs, e);
    }
  }
}
