/** The three cross-linked deferral dictionaries of a conversation and the steps that
    keep them consistent (psync/conversation.go). */
module Deferral {
  import opened Basics
  import opened Causality
  import opened Protocol
  import opened Graph

  /** A deferred envelope, who relayed it, and the predecessors it still waits for. */
  datatype Pending = Pending(env: Envelope, from: ReplicaId, waiting: set<Key>)

  type Deferred = map<Key, Pending>
  type Needs = map<Key, set<Key>>

  /** What e must wait for in this graph. */
  function Lacking(ms: seq<ReplicaId>, envs: Nodes, e: Envelope): set<Key> {
    if Fits(ms, e) then Parents(ms, e) - envs.Keys
    else if SeqOf(ms, e) > 0 then {Key(e.sender, SeqOf(ms, e) - 1)} else {}
  }

  /** `stale` holds the (deferred, need) pairs of wake-ups in progress: the need has been
      inserted and struck from the reverse index, but not yet from the waiting set. `stuck`
      holds the pairs whose need a replay has inserted without waking: they stay. */
  ghost predicate IsDeferred(ms: seq<ReplicaId>, envs: Nodes, k: Key, p: Pending, stale: set<(Key, Key)>,
                             stuck: set<(Key, Key)>)
  {
    && KeyOf(ms, p.env) == k
    && Acceptable(ms, p.env)
    && p.waiting != {}
    && (!Fits(ms, p.env) ==> p.waiting == Lacking(ms, envs, p.env))
    && forall n :: n in p.waiting <==> n in Lacking(ms, envs, p.env) || (k, n) in stale || (k, n) in stuck
  }

  ghost predicate Listed(byNeed: Needs, n: Key, k: Key) {
    n in byNeed && k in byNeed[n]
  }

  ghost predicate Awaits(d: Deferred, k: Key, n: Key) {
    k in d && n in d[k].waiting
  }

  /** Each waiting set is exactly the absent predecessors (and the stuck ones) and not empty, the reverse index
      is its inverse without empty entries, and exactly the indexed keys are outstanding. */
  ghost predicate Indexed(ms: seq<ReplicaId>, envs: Nodes, d: Deferred, byNeed: Needs, outstanding: set<Key>,
                          stale: set<(Key, Key)>, stuck: set<(Key, Key)>)
  {
    && (forall k {:trigger IsDeferred(ms, envs, k, d[k], stale, stuck)} :: k in d ==>
          IsDeferred(ms, envs, k, d[k], stale, stuck))
    && (forall n, k {:trigger Listed(byNeed, n, k)} {:trigger Awaits(d, k, n)} ::
          Listed(byNeed, n, k) <==> Awaits(d, k, n) && (k, n) !in stale)
    && (forall n :: n in byNeed ==> byNeed[n] != {})
    && outstanding == byNeed.Keys
    && (forall k, n {:trigger (k, n) in stale} :: (k, n) in stale ==> Awaits(d, k, n) && n in envs)
    && (forall k, n {:trigger (k, n) in stuck} :: (k, n) in stuck ==>
          Awaits(d, k, n) && n in envs && (k, n) !in stale && Fits(ms, d[k].env) && n in Parents(ms, d[k].env))
  }

  function Pairs(keys: set<Key>, n: Key): set<(Key, Key)> {
    set k | k in keys :: (k, n)
  }

  function WaitersOf(byNeed: Needs, n: Key): set<Key> {
    if n in byNeed then byNeed[n] else {}
  }

  /** Inserting a node turns its waiters into wake-ups in progress. */
  lemma AfterInsert(ms: seq<ReplicaId>, envs: Nodes, e: Envelope, d: Deferred, byNeed: Needs, outstanding: set<Key>,
                    stale: set<(Key, Key)>, stuck: set<(Key, Key)>)
    requires Indexed(ms, envs, d, byNeed, outstanding, stale, stuck) && KeyOf(ms, e) !in envs
    ensures var n := KeyOf(ms, e);
      && Indexed(ms, envs[n := e], d, byNeed - {n}, outstanding - {n}, stale + Pairs(WaitersOf(byNeed, n), n), stuck)
      && forall k :: (k, n) !in stale
  {
    var n := KeyOf(ms, e);
    var envs', byNeed', stale' := envs[n := e], byNeed - {n}, stale + Pairs(WaitersOf(byNeed, n), n);
    forall k ensures (k, n) in stale' <==> Listed(byNeed, n, k) {
    }
    forall k | k in d ensures IsDeferred(ms, envs', k, d[k], stale', stuck) {
      assert IsDeferred(ms, envs, k, d[k], stale, stuck);
      assert Listed(byNeed, n, k) <==> Awaits(d, k, n);
      assert Lacking(ms, envs', d[k].env) ==
        if Fits(ms, d[k].env) then Lacking(ms, envs, d[k].env) - {n} else Lacking(ms, envs, d[k].env);
    }
    forall m, k ensures Listed(byNeed', m, k) <==> Awaits(d, k, m) && (k, m) !in stale' {
      assert Listed(byNeed, m, k) <==> Awaits(d, k, m) && (k, m) !in stale;
    }
  }

  /** Striking a need that leaves others to wait for. */
  lemma AfterStrike(ms: seq<ReplicaId>, envs: Nodes, d: Deferred, byNeed: Needs, outstanding: set<Key>,
                    stale: set<(Key, Key)>, stuck: set<(Key, Key)>, k: Key, n: Key)
    requires Indexed(ms, envs, d, byNeed, outstanding, stale, stuck) && (k, n) in stale
    requires k in d && d[k].waiting - {n} != {}
    ensures
      Indexed(ms, envs, d[k := d[k].(waiting := d[k].waiting - {n})], byNeed, outstanding, stale - {(k, n)}, stuck)
  {
    var d' := d[k := d[k].(waiting := d[k].waiting - {n})];
    var stale' := stale - {(k, n)};
    assert IsDeferred(ms, envs, k, d[k], stale, stuck);
    assert Awaits(d, k, n);
    assert Fits(ms, d[k].env);
    forall x | x in d' ensures IsDeferred(ms, envs, x, d'[x], stale', stuck) {
      assert IsDeferred(ms, envs, x, d[x], stale, stuck);
    }
    forall m, x ensures Listed(byNeed, m, x) <==> Awaits(d', x, m) && (x, m) !in stale' {
      assert Listed(byNeed, m, x) <==> Awaits(d, x, m) && (x, m) !in stale;
    }
  }

  /** Striking the last need and removing the envelope. */
  lemma AfterWake(ms: seq<ReplicaId>, envs: Nodes, d: Deferred, byNeed: Needs, outstanding: set<Key>,
                  stale: set<(Key, Key)>, stuck: set<(Key, Key)>, k: Key, n: Key)
    requires Indexed(ms, envs, d, byNeed, outstanding, stale, stuck) && (k, n) in stale
    requires k in d && d[k].waiting - {n} == {}
    ensures Indexed(ms, envs, d - {k}, byNeed, outstanding, stale - {(k, n)}, stuck)
  {
    var d' := d - {k};
    var stale' := stale - {(k, n)};
    assert Awaits(d, k, n) && d[k].waiting == {n};
    forall x | x in d' ensures IsDeferred(ms, envs, x, d'[x], stale', stuck) {
      assert IsDeferred(ms, envs, x, d[x], stale, stuck);
    }
    forall m, x ensures Listed(byNeed, m, x) <==> Awaits(d', x, m) && (x, m) !in stale' {
      assert Listed(byNeed, m, x) <==> Awaits(d, x, m) && (x, m) !in stale;
    }
    forall x, m | (x, m) in stale' ensures Awaits(d', x, m) && m in envs {
      assert Awaits(d, x, m);
    }
  }

  /** k added under every key of list. */
  function AddNeeds(byNeed: Needs, list: set<Key>, k: Key): Needs {
    map n | n in byNeed.Keys + list :: if n in list then WaitersOf(byNeed, n) + {k} else byNeed[n]
  }

  lemma AddNeedsNone(byNeed: Needs, k: Key)
    ensures AddNeeds(byNeed, {}, k) == byNeed
  {
    assert AddNeeds(byNeed, {}, k).Keys == byNeed.Keys;
  }

  lemma AddNeedsOne(byNeed: Needs, list: set<Key>, n: Key, k: Key)
    ensures var m := AddNeeds(byNeed, list, k); AddNeeds(byNeed, list + {n}, k) == m[n := WaitersOf(m, n) + {k}]
  {
    var m := AddNeeds(byNeed, list, k);
    assert AddNeeds(byNeed, list + {n}, k).Keys == m.Keys + {n};
  }

  lemma AfterDefer(ms: seq<ReplicaId>, envs: Nodes, d: Deferred, byNeed: Needs, outstanding: set<Key>,
                   stale: set<(Key, Key)>, stuck: set<(Key, Key)>, e: Envelope, from: ReplicaId)
    requires Indexed(ms, envs, d, byNeed, outstanding, stale, stuck)
    requires Acceptable(ms, e) && KeyOf(ms, e) !in d && Lacking(ms, envs, e) != {}
    ensures var list := Lacking(ms, envs, e); var k := KeyOf(ms, e);
      Indexed(ms, envs, d[k := Pending(e, from, list)], AddNeeds(byNeed, list, k), outstanding + list, stale, stuck)
  {
    var list, k := Lacking(ms, envs, e), KeyOf(ms, e);
    var d', byNeed' := d[k := Pending(e, from, list)], AddNeeds(byNeed, list, k);
    assert forall n :: !Awaits(d, k, n);
    forall x | x in d' ensures IsDeferred(ms, envs, x, d'[x], stale, stuck) {
      if x != k { assert IsDeferred(ms, envs, x, d[x], stale, stuck); }
    }
    forall m, x ensures Listed(byNeed', m, x) <==> Awaits(d', x, m) && (x, m) !in stale {
      assert Listed(byNeed, m, x) <==> Awaits(d, x, m) && (x, m) !in stale;
    }
  }

  // ---- what a wake-up may do ----

  ghost predicate SamePending(p: Pending, q: Pending) {
    p.env == q.env && p.from == q.from
  }

  /** Newly inserted and still deferred envelopes come from `extra` or were deferred
      before, and a deferred envelope of an unmasked sender is never lost. */
  ghost predicate Evolves(ms: seq<ReplicaId>, mask: set<ReplicaId>, extra: set<Envelope>,
                          d: Deferred, news: seq<Envelope>, envs': Nodes, d': Deferred) {
    && (forall x {:trigger FromDeferred(ms, d, x)} :: x in news ==> x in extra || FromDeferred(ms, d, x))
    && (forall k {:trigger Carried(d, d', k)} :: k in d' ==> d'[k].env in extra || Carried(d, d', k))
    && (forall k {:trigger Kept(mask, d, envs', d', k)} :: k in d ==> Kept(mask, d, envs', d', k))
  }

  ghost predicate FromDeferred(ms: seq<ReplicaId>, d: Deferred, x: Envelope) {
    KeyOf(ms, x) in d && d[KeyOf(ms, x)].env == x
  }

  ghost predicate Carried(d: Deferred, d': Deferred, k: Key) {
    k in d && k in d' && SamePending(d[k], d'[k])
  }

  ghost predicate Kept(mask: set<ReplicaId>, d: Deferred, envs': Nodes, d': Deferred, k: Key) {
    (k in d && d[k].env.sender in mask) || k in envs' || Carried(d, d', k)
  }

  ghost predicate Filed(ms: seq<ReplicaId>, convId: ConversationId, k: Key, p: Pending) {
    p.env.conv == convId && KeyOf(ms, p.env) == k
  }

  ghost predicate AllFiled(ms: seq<ReplicaId>, convId: ConversationId, d: Deferred) {
    forall k {:trigger Filed(ms, convId, k, d[k])} :: k in d ==> Filed(ms, convId, k, d[k])
  }

  lemma FiledWithout(ms: seq<ReplicaId>, convId: ConversationId, d: Deferred, k: Key, waiting: set<Key>)
    requires AllFiled(ms, convId, d) && k in d
    ensures AllFiled(ms, convId, d - {k}) && AllFiled(ms, convId, d[k := d[k].(waiting := waiting)])
    ensures Filed(ms, convId, k, d[k])
  {
    var e, f := d - {k}, d[k := d[k].(waiting := waiting)];
    forall x | x in e ensures Filed(ms, convId, x, e[x]) {
      assert Filed(ms, convId, x, d[x]);
    }
    forall x | x in f ensures Filed(ms, convId, x, f[x]) {
      assert Filed(ms, convId, x, d[x]);
    }
  }

  lemma EvolvesThen(ms: seq<ReplicaId>, mask: set<ReplicaId>, convId: ConversationId, d0: Deferred,
                    news1: seq<Envelope>, envs1: Nodes, d1: Deferred, news2: seq<Envelope>, envs2: Nodes, d2: Deferred)
    requires Evolves(ms, mask, {}, d0, news1, envs1, d1) && Evolves(ms, mask, {}, d1, news2, envs2, d2)
    requires envs1.Keys <= envs2.Keys && AllFiled(ms, convId, d1)
    ensures Evolves(ms, mask, {}, d0, news1 + news2, envs2, d2)
  {
    forall x | x in news1 + news2 ensures FromDeferred(ms, d0, x) {
      if x !in news1 {
        assert FromDeferred(ms, d1, x);
        assert Carried(d0, d1, KeyOf(ms, x));
      }
    }
    forall k | k in d2 ensures Carried(d0, d2, k) {
      assert Carried(d1, d2, k);
      assert Carried(d0, d1, k);
    }
    forall k | k in d0 ensures Kept(mask, d0, envs2, d2, k) {
      assert Kept(mask, d0, envs1, d1, k);
      if k in d1 {
        assert Carried(d0, d1, k);
        assert Kept(mask, d1, envs2, d2, k);
      }
    }
  }

  /** The same after handling env, which is now inserted or deferred; unless it lacks a
      predecessor it adds nothing to the fitting deferred envelopes. */
  ghost predicate Handled(ms: seq<ReplicaId>, mask: set<ReplicaId>, env: Envelope, from: ReplicaId,
                          envs: Nodes, d: Deferred, news: seq<Envelope>, envs': Nodes, d': Deferred) {
    && Evolves(ms, mask, {env}, d, news, envs', d')
    && (KeyOf(ms, env) in envs' || KeyOf(ms, env) in d')
    && (KeyOf(ms, env) !in d && KeyOf(ms, env) in d' ==> SamePending(Pending(env, from, {}), d'[KeyOf(ms, env)]))
    && ((Fits(ms, env) ==> Parents(ms, env) <= envs.Keys) ==> Fitting(ms, d') <= Fitting(ms, d))
  }

  lemma NothingEvolves(ms: seq<ReplicaId>, mask: set<ReplicaId>, extra: set<Envelope>, envs: Nodes, d: Deferred,
                       d': Deferred)
    requires forall k :: k in d ==> k in d' && SamePending(d[k], d'[k])
    requires forall k :: k in d' ==> k in d || d'[k].env in extra
    ensures Evolves(ms, mask, extra, d, [], envs, d')
  {
  }

  lemma PresentIsHandled(ms: seq<ReplicaId>, mask: set<ReplicaId>, env: Envelope, from: ReplicaId, envs: Nodes,
                         d: Deferred)
    requires KeyOf(ms, env) in envs
    ensures Handled(ms, mask, env, from, envs, d, [], envs, d)
  {
  }

  lemma DeferIsHandled(ms: seq<ReplicaId>, mask: set<ReplicaId>, env: Envelope, from: ReplicaId, envs: Nodes,
                       d: Deferred, d': Deferred)
    requires Lacks(ms, envs, env)
    requires var k := KeyOf(ms, env);
      if k in d then d' == d else k in d' && d' == d[k := d'[k]] && SamePending(Pending(env, from, {}), d'[k])
    ensures Handled(ms, mask, env, from, envs, d, [], envs, d')
  {
  }

  lemma DeliverIsHandled(ms: seq<ReplicaId>, mask: set<ReplicaId>, env: Envelope, from: ReplicaId,
                         envs: Nodes, d: Deferred, news: seq<Envelope>, envs': Nodes, d': Deferred)
    requires news != [] && news[0] == env && KeyOf(ms, env) in envs'
    requires Evolves(ms, mask, {}, d, news[1..], envs', d') && Fitting(ms, d') <= Fitting(ms, d)
    ensures Handled(ms, mask, env, from, envs, d, news, envs', d')
  {
    forall x | x in news ensures x in {env} || FromDeferred(ms, d, x) {
      assert x == env || x in news[1..];
    }
    forall k | k in d' ensures Carried(d, d', k) {
      assert d'[k].env !in {};
    }
    forall k | k in d ensures Kept(mask, d, envs', d', k) {
    }
  }

  /** Waking k: it leaves the deferred set and is handled as if it had just arrived. */
  lemma WakeEvolves(ms: seq<ReplicaId>, mask: set<ReplicaId>, convId: ConversationId, envs: Nodes, d: Deferred, k: Key,
                    news: seq<Envelope>, envs': Nodes, d': Deferred)
    requires k in d && AllFiled(ms, convId, d) && AllFiled(ms, convId, d')
    requires if d[k].env.sender in mask then news == [] && d' == d - {k}
             else Handled(ms, mask, d[k].env, d[k].from, envs, d - {k}, news, envs', d')
    ensures Evolves(ms, mask, {}, d, news, envs', d')
  {
    var rest := d - {k};
    assert Filed(ms, convId, k, d[k]);
    forall x | x in news ensures FromDeferred(ms, d, x) {
      assert x == d[k].env || FromDeferred(ms, rest, x);
    }
    forall x | x in d' ensures Carried(d, d', x) {
      assert Filed(ms, convId, x, d'[x]);
      assert d[k].env.sender !in mask ==> d'[x].env == d[k].env || Carried(rest, d', x);
    }
    forall x | x in d ensures Kept(mask, d, envs', d', x) {
      if x != k { assert d[k].env.sender !in mask ==> Kept(mask, rest, envs', d', x); }
    }
  }

  /** An envelope that is new to a graph is acceptable exactly when the graph inserts it or
      reports what it lacks; otherwise it is malformed or of no member. */
  lemma AcceptedExactly(ms: seq<ReplicaId>, envs: Nodes, e: Envelope)
    requires KeyOf(ms, e) !in envs
    ensures Acceptable(ms, e) <==> Admissible(ms, envs, e) || Lacks(ms, envs, e)
    ensures !Acceptable(ms, e) <==>
      var s := SlotOf(ms, e.sender);
      s < 0 || s >= |e.vc| || e.vc[s] == 0 || (|e.vc| > |ms| && e.vc[s] == 1)
  {
    AdmissibleExactly(ms, envs, e);
    LacksExactly(ms, envs, e);
  }

  /** The deferred envelopes whose clocks fit: the measure of the wake-up recursion. */
  function Fitting(ms: seq<ReplicaId>, d: Deferred): set<Key> {
    set k | k in d && Fits(ms, d[k].env)
  }

  /** The lost-message requests a deferral sends: one to the relayer for each need not
      already outstanding. */
  function Asked(outstanding: set<Key>, list: seq<Key>, from: ReplicaId): seq<(Key, ReplicaId)> {
    if list == [] then []
    else
      var n := |list| - 1;
      Asked(outstanding, list[..n], from)
      + (if list[n] in outstanding || list[n] in list[..n] then [] else [(list[n], from)])
  }

  lemma NextAsked(outstanding: set<Key>, list: seq<Key>, from: ReplicaId, i: nat)
    requires i < |list|
    ensures Elements(list[..i + 1]) == Elements(list[..i]) + {list[i]}
    ensures Asked(outstanding, list[..i + 1], from) == Asked(outstanding, list[..i], from)
      + (if list[i] in outstanding + Elements(list[..i]) then [] else [(list[i], from)])
  {
    assert list[..i + 1] == list[..i] + [list[i]];
    assert list[..i + 1][..i] == list[..i];
  }

  // ---- the dictionaries against the protocol relations ----

  function Envelopes(d: Deferred): Nodes {
    map k | k in d :: d[k].env
  }

  lemma IndexedIsSettled(ms: seq<ReplicaId>, envs: Nodes, d: Deferred, byNeed: Needs, outstanding: set<Key>,
                         stuck: set<(Key, Key)>)
    requires Indexed(ms, envs, d, byNeed, outstanding, {}, stuck)
    ensures Settled(ms, envs, Envelopes(d), stuck)
    ensures forall p :: p in stuck ==> p.0 in Envelopes(d) && p.1 in envs
  {
    forall k | k in d
      ensures KeyOf(ms, d[k].env) == k && Acceptable(ms, d[k].env)
      ensures Fits(ms, d[k].env) ==> Waiting(ms, envs, Envelopes(d), stuck, k)
    {
      assert IsDeferred(ms, envs, k, d[k], {}, stuck);
      var n :| n in d[k].waiting;
      assert n in Lacking(ms, envs, d[k].env) || (k, n) in stuck;
    }
    forall p | p in stuck ensures p.0 in d && p.1 in envs {
      assert (p.0, p.1) in stuck;
    }
  }

  /** Handling an envelope is a receive step of the protocol. */
  lemma HandledIsReceive(ms: seq<ReplicaId>, env: Envelope, from: ReplicaId, h: seq<Envelope>, log: seq<Envelope>,
                         d: Deferred, news: seq<Envelope>, d': Deferred, byNeed': Needs, outstanding': set<Key>,
                         stuck: set<(Key, Key)>)
    requires Acceptable(ms, env) && Causal(ms, h + news)
    requires Indexed(ms, Index(ms, h + news), d', byNeed', outstanding', {}, stuck)
    requires Handled(ms, {}, env, from, Index(ms, h), d, news, Index(ms, h + news), d')
    ensures ReceiveStep(ms, env, Local(Index(ms, h), Envelopes(d), stuck, h, log),
                        Local(Index(ms, h + news), Envelopes(d'), stuck, h + news, log + news))
  {
    IndexedIsSettled(ms, Index(ms, h + news), d', byNeed', outstanding', stuck);
    assert (h + news)[|h|..] == news;
    forall x | x in news ensures x == env || (KeyOf(ms, x) in d && d[KeyOf(ms, x)].env == x) {
      assert x in {env} || FromDeferred(ms, d, x);
    }
    forall k | k in d' ensures d'[k].env == env || (k in d && d'[k].env == d[k].env) {
      assert d'[k].env in {env} || Carried(d, d', k);
    }
    forall k | k in d ensures k in Index(ms, h + news) || (k in d' && d'[k].env == d[k].env) {
      assert Kept({}, d, Index(ms, h + news), d', k);
    }
  }

  /** A fitting deferred envelope waits for n. */
  ghost predicate Awaited(ms: seq<ReplicaId>, d: Deferred, n: Key) {
    exists k :: Awaits(d, k, n) && Fits(ms, d[k].env)
  }

  /** The pairs stuck after inserting envs' over envs without waking anybody. */
  ghost function StuckOver(ms: seq<ReplicaId>, d: Deferred, envs: Nodes, envs': Nodes): set<(Key, Key)> {
    set k, n | k in d && n in d[k].waiting && Fits(ms, d[k].env) && n !in envs && n in envs' :: (k, n)
  }

  /** Inserting any nodes without waking their waiters leaves exactly those pairs stuck. */
  lemma InsertStrands(ms: seq<ReplicaId>, envs: Nodes, envs': Nodes, d: Deferred, byNeed: Needs, outstanding: set<Key>,
                      stuck: set<(Key, Key)>)
    requires Indexed(ms, envs, d, byNeed, outstanding, {}, stuck) && envs.Keys <= envs'.Keys
    ensures Indexed(ms, envs', d, byNeed, outstanding, {}, stuck + StuckOver(ms, d, envs, envs'))
  {
    var stuck' := stuck + StuckOver(ms, d, envs, envs');
    forall k | k in d ensures IsDeferred(ms, envs', k, d[k], {}, stuck') {
      assert IsDeferred(ms, envs, k, d[k], {}, stuck);
      forall n ensures n in d[k].waiting <==> n in Lacking(ms, envs', d[k].env) || (k, n) in stuck' {
        assert (k, n) in stuck' <==>
          (k, n) in stuck || (n in d[k].waiting && Fits(ms, d[k].env) && n !in envs && n in envs');
        assert (k, n) in stuck ==> Awaits(d, k, n);
      }
    }
    forall k, n | (k, n) in stuck'
      ensures Awaits(d, k, n) && n in envs' && Fits(ms, d[k].env) && n in Parents(ms, d[k].env)
    {
      if (k, n) !in stuck {
        assert k in d && n in d[k].waiting && IsDeferred(ms, envs, k, d[k], {}, stuck);
      }
    }
  }

  /** So inserting without waking, as a send and a replay do, keeps the dictionaries as
      exact as they were if and only if no fitting envelope waits for an inserted key. */
  lemma InsertWithoutWaking(ms: seq<ReplicaId>, envs: Nodes, envs': Nodes, d: Deferred, byNeed: Needs,
                            outstanding: set<Key>, stuck: set<(Key, Key)>)
    requires Indexed(ms, envs, d, byNeed, outstanding, {}, stuck) && envs.Keys <= envs'.Keys
    ensures Indexed(ms, envs', d, byNeed, outstanding, {}, stuck)
      <==> forall n :: n in envs' && n !in envs ==> !Awaited(ms, d, n)
  {
    if n :| n in envs' && n !in envs && Awaited(ms, d, n) {
      var k :| Awaits(d, k, n) && Fits(ms, d[k].env);
      assert (k, n) !in stuck;
      assert !IsDeferred(ms, envs', k, d[k], {}, stuck);
    } else {
      InsertStrands(ms, envs, envs', d, byNeed, outstanding, stuck);
      forall p | p in StuckOver(ms, d, envs, envs') ensures false {
        assert Awaits(d, p.0, p.1);
        assert Awaited(ms, d, p.1);
      }
      assert stuck + StuckOver(ms, d, envs, envs') == stuck;
    }
  }

  /** In the terms of the protocol: what a replay leaves stuck. */
  lemma StuckIsNewlyStuck(ms: seq<ReplicaId>, envs: Nodes, envs': Nodes, d: Deferred, byNeed: Needs,
                          outstanding: set<Key>, stuck: set<(Key, Key)>)
    requires Indexed(ms, envs, d, byNeed, outstanding, {}, stuck)
    ensures StuckOver(ms, d, envs, envs') == NewlyStuck(ms, envs, Envelopes(d), envs')
  {
    forall k, n
      ensures (k, n) in StuckOver(ms, d, envs, envs') <==> (k, n) in NewlyStuck(ms, envs, Envelopes(d), envs')
    {
      if k in d {
        assert IsDeferred(ms, envs, k, d[k], {}, stuck);
        assert (k, n) in stuck ==> n in envs;
      }
    }
    forall p ensures p in StuckOver(ms, d, envs, envs') <==> p in NewlyStuck(ms, envs, Envelopes(d), envs') {
      assert p == (p.0, p.1);
    }
  }
}
