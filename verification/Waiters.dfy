/** Read-your-writes bookkeeping of the substrate (substrate.go). Each method is one
    section under a lock, so any interleaving of Submit, WaitForCausality and the apply
    pump is a sequence of calls; `Valid` is what all of them keep. */
module Waiters {
  import opened Basics
  import opened Causality
  import opened World
  import opened Delivery
  import Stranding

  /** The highest number applied of a sender, 0 for none. */
  ghost function Highest(applied: seq<Key>, r: ReplicaId): nat {
    if applied == [] then 0
    else
      var rest, last := Highest(applied[..|applied| - 1], r), applied[|applied| - 1];
      if last.sender == r && last.num > rest then last.num else rest
  }

  lemma {:induction false} HighestIs(applied: seq<Key>, r: ReplicaId)
    ensures forall k :: k in applied && k.sender == r ==> k.num <= Highest(applied, r)
    ensures Highest(applied, r) > 0 ==> Key(r, Highest(applied, r)) in applied
  {
    if applied != [] {
      HighestIs(applied[..|applied| - 1], r);
      assert applied == applied[..|applied| - 1] + [applied[|applied| - 1]];
    }
  }

  function SeenOf(seen: map<ReplicaId, nat>, r: ReplicaId): nat {
    if r in seen then seen[r] else 0
  }

  function Raised(seen: map<ReplicaId, nat>, k: Key): map<ReplicaId, nat> {
    if k.num > SeenOf(seen, k.sender) then seen[k.sender := k.num] else seen
  }

  ghost predicate SeenIs(seen: map<ReplicaId, nat>, applied: seq<Key>) {
    forall r {:trigger Highest(applied, r)} :: SeenOf(seen, r) == Highest(applied, r)
  }

  lemma RaisedIsSeen(seen: map<ReplicaId, nat>, applied: seq<Key>, k: Key)
    requires SeenIs(seen, applied)
    ensures SeenIs(Raised(seen, k), applied + [k])
  {
    assert (applied + [k])[..|applied|] == applied;
  }

  // ---- waiters for a position ----

  predicate Reached(seen: map<ReplicaId, nat>, k: Key) {
    k.num <= SeenOf(seen, k.sender)
  }

  /** A registered waiter waits for a position not yet reached; a call leaves the register
      only by being woken, at a position reached, or by giving up. */
  ghost predicate WaitsOk(seen: map<ReplicaId, nat>, waiters: map<nat, Key>, calls: map<nat, Key>, woken: set<nat>,
                          gaveUp: set<nat>)
  {
    && (forall w :: w in waiters ==> w in calls && calls[w] == waiters[w] && !Reached(seen, waiters[w]))
    && (forall w :: w in calls ==> w in waiters || w in woken || w in gaveUp)
    && (forall w :: w in woken ==> w in calls && Reached(seen, calls[w]))
  }

  predicate Reaches(k: Key, target: Key) {
    target.sender == k.sender && target.num <= k.num
  }

  ghost function Woken(k: Key, waiters: map<nat, Key>): set<nat> {
    set w | w in waiters && Reaches(k, waiters[w])
  }

  lemma NoteKeepsWaits(seen: map<ReplicaId, nat>, waiters: map<nat, Key>, calls: map<nat, Key>, woken: set<nat>,
                       gaveUp: set<nat>, k: Key)
    requires WaitsOk(seen, waiters, calls, woken, gaveUp)
    ensures WaitsOk(Raised(seen, k), waiters - Woken(k, waiters), calls, woken + Woken(k, waiters), gaveUp)
  {
    assert forall t :: Reached(Raised(seen, k), t) <==> Reached(seen, t) || Reaches(k, t);
  }

  // ---- Submit calls, each named by the position of the message it sent ----

  /** `done` are the positions signalled so far. A registered call waits for a position not
      yet signalled; each own position signalled left a marker or was claimed by a call; a
      call leaves the register only by being woken, at its own signal or after it, or by
      giving up. */
  ghost predicate SubmitsOk(self: ReplicaId, done: seq<Key>, pending: set<Key>, markers: set<Key>, submits: set<Key>,
                            woken: set<Key>, gaveUp: set<Key>)
  {
    && (forall k :: k in pending ==> k in submits && k !in done)
    && (forall k :: k in markers ==> k in done)
    && (forall k :: k in done && k.sender == self ==> k in markers || k in submits)
    && submits <= pending + woken + gaveUp
    && (forall k :: k in woken ==> k in submits && k in done)
  }

  class Waiters {
    const self: ReplicaId
    var senderSeen: map<ReplicaId, nat>
    /** Registered waiters with the position each waits for. */
    var waiters: map<nat, Key>
    var pendingApplies: set<Key>
    var appliedSelf: set<Key>
    /** Closed wake-up channels of waiters and of Submit calls. */
    var wokenWaits: set<nat>
    var wokenSubmits: set<Key>

    /** Positions whose command the state machine has applied or a snapshot covers; how
        many of them the pump has noted, and how many it has signalled. */
    ghost var applied: seq<Key>
    ghost var noted: nat
    ghost var signalled: nat
    /** Every call ever registered with its position, and those that gave up. */
    ghost var calls: map<nat, Key>
    ghost var submits: set<Key>
    ghost var quitWaits: set<nat>
    ghost var quitSubmits: set<Key>

    ghost predicate Valid()
      reads this
    {
      && signalled <= noted <= |applied| <= signalled + 1
      && SeenIs(senderSeen, applied[..noted])
      && WaitsOk(senderSeen, waiters, calls, wokenWaits, quitWaits)
      && SubmitsOk(self, applied[..signalled], pendingApplies, appliedSelf, submits, wokenSubmits, quitSubmits)
    }

    constructor (self: ReplicaId)
      ensures Valid() && this.self == self && applied == []
    {
      this.self := self;
      senderSeen, waiters, pendingApplies, appliedSelf, wokenWaits, wokenSubmits := map[], map[], {}, {}, {}, {};
      applied, noted, signalled, calls, submits, quitWaits, quitSubmits := [], 0, 0, map[], {}, {}, {};
    }

    // ---- the apply pump ----

    /** The state machine has run a command, or the snapshot covers it. */
    ghost method Applied(k: Key)
      requires Valid() && |applied| == signalled
      modifies this`applied
      ensures Valid() && applied == old(applied) + [k]
    {
      applied := applied + [k];
      assert applied[..noted] == old(applied)[..noted] && applied[..signalled] == old(applied)[..signalled];
    }

    method Raise(k: Key)
      modifies this`senderSeen
      ensures senderSeen == Raised(old(senderSeen), k)
    {
      if k.num > SeenOf(senderSeen, k.sender) { senderSeen := senderSeen[k.sender := k.num]; }
    }

    /** Wakes and drops the waiters that position k reaches. */
    method WakeReached(k: Key)
      modifies this`waiters, this`wokenWaits
      ensures waiters == old(waiters) - Woken(k, old(waiters))
      ensures wokenWaits == old(wokenWaits) + Woken(k, old(waiters))
    {
      var todo := waiters.Keys;
      while todo != {}
        invariant todo <= waiters.Keys <= old(waiters).Keys
        invariant forall w :: w in waiters ==> waiters[w] == old(waiters)[w]
        invariant forall w :: w in old(waiters) && w !in todo ==> (w in waiters <==> !Reaches(k, old(waiters)[w]))
        invariant forall w :: w in wokenWaits <==>
          w in old(wokenWaits) || (w in old(waiters) && w !in todo && Reaches(k, old(waiters)[w]))
        decreases todo
      {
        var w :| w in todo;
        todo := todo - {w};
        if waiters[w].sender == k.sender && k.num >= waiters[w].num {
          wokenWaits := wokenWaits + {w};
          waiters := waiters - {w};
        }
      }
    }

    /** Raises the sender's mark and wakes every waiter it reaches. */
    method NoteApplied(k: Key)
      requires Valid() && noted < |applied| && applied[noted] == k
      modifies this`senderSeen, this`waiters, this`wokenWaits, this`noted
      ensures Valid() && noted == old(noted) + 1
      ensures senderSeen == Raised(old(senderSeen), k)
      ensures waiters == old(waiters) - Woken(k, old(waiters))
      ensures wokenWaits == old(wokenWaits) + Woken(k, old(waiters))
    {
      RaisedIsSeen(senderSeen, applied[..noted], k);
      NoteKeepsWaits(senderSeen, waiters, calls, wokenWaits, quitWaits, k);
      assert applied[..noted + 1] == applied[..noted] + [k];
      Raise(k);
      WakeReached(k);
      noted := noted + 1;
    }

    /** Wakes the Submit call of this position, or leaves a marker for one to come. */
    method Signal(k: Key)
      requires Valid() && signalled < noted && applied[signalled] == k
      modifies this`pendingApplies, this`appliedSelf, this`wokenSubmits, this`signalled
      ensures Valid() && signalled == old(signalled) + 1
      ensures pendingApplies == old(pendingApplies) - {k}
      ensures wokenSubmits == if k in old(pendingApplies) then old(wokenSubmits) + {k} else old(wokenSubmits)
      ensures appliedSelf ==
        if k !in old(pendingApplies) && k.sender == self then old(appliedSelf) + {k} else old(appliedSelf)
    {
      if k in pendingApplies {
        pendingApplies := pendingApplies - {k};
        wokenSubmits := wokenSubmits + {k};
      } else if k.sender == self {
        appliedSelf := appliedSelf + {k};
      }
      assert applied[..signalled + 1] == applied[..signalled] + [k];
      signalled := signalled + 1;
    }

    // ---- Submit ----

    /** After the send: consumes the marker of an apply that came first, or registers.
        The position is that of a message just sent, so no other call has it. */
    method RegisterSubmit(k: Key) returns (done: bool)
      requires Valid() && k.sender == self && k !in submits
      modifies this`pendingApplies, this`appliedSelf, this`submits, this`wokenSubmits
      ensures Valid() && submits == old(submits) + {k}
      ensures done <==> k in applied[..signalled]
      ensures wokenSubmits == if done then old(wokenSubmits) + {k} else old(wokenSubmits)
      ensures pendingApplies == if done then old(pendingApplies) else old(pendingApplies) + {k}
      ensures appliedSelf == old(appliedSelf) - {k}
    {
      done := k in appliedSelf;
      if done {
        appliedSelf := appliedSelf - {k};
        wokenSubmits := wokenSubmits + {k};
      } else {
        pendingApplies := pendingApplies + {k};
      }
      submits := submits + {k};
    }

    /** The caller's context ended first. */
    method CancelSubmit(k: Key)
      requires Valid() && k in submits
      modifies this`pendingApplies, this`quitSubmits
      ensures Valid() && quitSubmits == old(quitSubmits) + {k} && pendingApplies == old(pendingApplies) - {k}
    {
      pendingApplies := pendingApplies - {k};
      quitSubmits := quitSubmits + {k};
    }

    // ---- WaitForCausality ----

    method HasApplied(k: Key) returns (yes: bool)
      requires Valid()
      ensures yes <==> k.num <= Highest(applied[..noted], k.sender)
    {
      yes := SeenOf(senderSeen, k.sender) >= k.num;
    }

    /** Re-checks under the lock, so that an apply between the fast path and the
        registration is not missed. */
    method RegisterWaiter(w: nat, k: Key) returns (done: bool)
      requires Valid() && w !in calls
      modifies this`waiters, this`calls
      ensures Valid()
      ensures done <==> k.num <= Highest(applied[..noted], k.sender)
      ensures waiters == if done then old(waiters) else old(waiters)[w := k]
      ensures calls == if done then old(calls) else old(calls)[w := k]
    {
      done := SeenOf(senderSeen, k.sender) >= k.num;
      if !done { waiters, calls := waiters[w := k], calls[w := k]; }
    }

    method TimeoutWaiter(w: nat)
      requires Valid() && w in calls
      modifies this`waiters, this`quitWaits
      ensures Valid() && quitWaits == old(quitWaits) + {w} && w !in waiters
    {
      waiters := waiters - {w};
      quitWaits := quitWaits + {w};
    }

    // ---- what the callers are promised ----

    /** No wake-up is lost and none is early: a waiter that did not give up has been woken
        exactly when the pump has noted a position that reaches the one waited for. */
    lemma WokenExactly(w: nat)
      requires Valid() && w in calls && w !in quitWaits
      ensures w in wokenWaits <==> calls[w].num <= Highest(applied[..noted], calls[w].sender)
    {
      assert w in waiters ==> !Reached(senderSeen, waiters[w]);
    }

    /** Likewise for Submit, whichever of the call and the apply came first: a call that did
        not give up is free exactly when its local apply has happened and been signalled. */
    lemma SubmitExactly(k: Key)
      requires Valid() && k in submits && k !in quitSubmits
      ensures k in wokenSubmits <==> k in applied[..signalled]
    {
      assert k in pendingApplies ==> k !in applied[..signalled];
    }
  }

  // ---- what a reached position means ----

  /** The positions of the application commands of a history; other frames are not noted. */
  function AppPositions(ms: seq<ReplicaId>, isApp: Bytes -> bool, h: seq<Envelope>): seq<Key> {
    if h == [] then []
    else
      var rest := AppPositions(ms, isApp, h[..|h| - 1]);
      if isApp(h[|h| - 1].payload) then rest + [KeyOf(ms, h[|h| - 1])] else rest
  }

  lemma {:induction false} AppElements(ms: seq<ReplicaId>, isApp: Bytes -> bool, h: seq<Envelope>)
    ensures forall k :: k in AppPositions(ms, isApp, h) <==> exists e :: e in h && isApp(e.payload) && KeyOf(ms, e) == k
  {
    if h != [] {
      AppElements(ms, isApp, h[..|h| - 1]);
      assert h == h[..|h| - 1] + [h[|h| - 1]];
    }
  }

  /** Every application command m ever sent, up to the highest position reached after the
      deliveries `done`, is among them. */
  ghost predicate HandledUpTo(ms: seq<ReplicaId>, net: set<Envelope>, isApp: Bytes -> bool, done: seq<Envelope>,
                              m: ReplicaId)
  {
    var positions := AppPositions(ms, isApp, done);
    forall e :: e in net && e.sender == m && isApp(e.payload) && SeqOf(ms, e) <= Highest(positions, m) ==>
      KeyOf(ms, e) in positions
  }

  lemma ReachedIsHandled(ms: seq<ReplicaId>, net: set<Envelope>, isApp: Bytes -> bool, d: seq<Envelope>, n: nat,
                         m: ReplicaId)
    requires NetInv(ms, net) && (forall e :: e in d ==> e in net) && FromFirst(ms, d, m) && n <= |d|
    ensures HandledUpTo(ms, net, isApp, d[..n], m)
  {
    var positions := AppPositions(ms, isApp, d[..n]);
    var top := Highest(positions, m);
    HighestIs(positions, m);
    AppElements(ms, isApp, d[..n]);
    forall e | e in net && e.sender == m && isApp(e.payload) && SeqOf(ms, e) <= top ensures KeyOf(ms, e) in positions {
      assert SeqOf(ms, e) > 0 && Key(m, top) in positions;
      var p :| 0 <= p < n && KeyOf(ms, d[..n][p]) == Key(m, top);
      if SeqOf(ms, e) < top {
        assert Key(m, SeqOf(ms, e)) in Keys(ms, d[..p]);
        var q :| 0 <= q < p && KeyOf(ms, d[..p][q]) == KeyOf(ms, e);
        assert d[q] == e && d[..n][q] == e;
      }
    }
  }

  lemma EveryPosition(ms: seq<ReplicaId>, h: seq<Envelope>, k: Key)
    ensures k in AppPositions(ms, _ => true, h) <==> k in Keys(ms, h)
  {
    AppElements(ms, _ => true, h);
  }

  /** A gap in front of a delivery shows: after it the position is reached and the missing
      command not handled. */
  lemma GapShows(ms: seq<ReplicaId>, net: set<Envelope>, d: seq<Envelope>, p: nat, y: Envelope)
    requires p < |d| && y in net && y.sender == d[p].sender && SeqOf(ms, y) < SeqOf(ms, d[p])
    requires KeyOf(ms, y) !in Keys(ms, d[..p])
    ensures !HandledUpTo(ms, net, _ => true, d[..p + 1], y.sender)
  {
    assert d[..p + 1] == d[..p] + [d[p]];
    KeysAppend(ms, d[..p], d[p]);
    EveryPosition(ms, d[..p + 1], KeyOf(ms, d[p]));
    EveryPosition(ms, d[..p + 1], KeyOf(ms, y));
  }

  /** Read-your-writes for m over the deliveries d, whichever commands count and however many
      deliveries have been handled. */
  ghost predicate ReadsOwnWrites(ms: seq<ReplicaId>, net: set<Envelope>, d: seq<Envelope>, m: ReplicaId) {
    forall isApp: Bytes -> bool, n: nat {:trigger HandledUpTo(ms, net, isApp, d[..n], m)} ::
      n <= |d| ==> HandledUpTo(ms, net, isApp, d[..n], m)
  }

  lemma GapBreaks(ms: seq<ReplicaId>, net: set<Envelope>, h: seq<Envelope>, d: seq<Envelope>, m: ReplicaId)
    requires Causal(ms, h) && (forall e :: e in d ==> e in h) && (forall e :: e in h ==> e in net)
    requires !FromFirst(ms, d, m)
    ensures !ReadsOwnWrites(ms, net, d, m)
  {
    var p: nat, n: nat :| p < |d| && d[p].sender == m && 1 <= n < SeqOf(ms, d[p]) && Key(m, n) !in Keys(ms, d[..p]);
    assert d[p] in d;
    var y := LowerBefore(ms, h, d[p], n);
    GapShows(ms, net, d, p, y);
  }

  lemma HandledIff(ms: seq<ReplicaId>, net: set<Envelope>, h: seq<Envelope>, d: seq<Envelope>, m: ReplicaId)
    requires NetInv(ms, net) && Causal(ms, h) && (forall e :: e in d ==> e in h) && forall e :: e in h ==> e in net
    ensures FromFirst(ms, d, m) <==> ReadsOwnWrites(ms, net, d, m)
  {
    if FromFirst(ms, d, m) {
      forall isApp: Bytes -> bool, n: nat | n <= |d| ensures HandledUpTo(ms, net, isApp, d[..n], m) {
        ReachedIsHandled(ms, net, isApp, d, n, m);
      }
    } else {
      GapBreaks(ms, net, h, d, m);
    }
  }

  /** In every run read-your-writes holds for m's commands at a replica if and only if since
      the last restart no new envelope of m was delivered there while an older one of m was
      queued or withheld. */
  lemma ReadYourWrites(ms: seq<ReplicaId>, conv: ConversationId, ws: seq<World>, t: nat, i: nat, m: ReplicaId)
    requires Run(ms, conv, ws) && t < |ws| && i < |ms| && |ws[t].reps| == |ms|
    ensures m !in Overtaken(ws[t].reps[i]) <==> ReadsOwnWrites(ms, ws[t].net, ws[t].reps[i].delivered, m)
  {
    DeliveredSent(ms, conv, ws, t, i);
    SenderInOrder(ms, conv, ws, t, i, m);
    HandledIff(ms, ws[t].net, ws[t].reps[i].local.history, ws[t].reps[i].delivered, m);
  }

  /** The two together: the substrate's bookkeeping over a replica's deliveries. A waiter
      that did not give up has been woken exactly when its position is reached, and then
      every application command of that sender up to it has been applied here. */
  lemma WokenMeansApplied(s: Waiters, ms: seq<ReplicaId>, conv: ConversationId, isApp: Bytes -> bool, ws: seq<World>,
                          t: nat, i: nat, n: nat, w: nat, e: Envelope)
    requires s.Valid() && w in s.calls && w in s.wokenWaits
    requires Run(ms, conv, ws) && t < |ws| && i < |ms| && |ws[t].reps| == |ms| && n <= |ws[t].reps[i].delivered|
    requires s.calls[w].sender !in Overtaken(ws[t].reps[i])
    requires s.applied == AppPositions(ms, isApp, ws[t].reps[i].delivered[..n])
    requires e in ws[t].net && e.sender == s.calls[w].sender && SeqOf(ms, e) <= s.calls[w].num && isApp(e.payload)
    ensures KeyOf(ms, e) in s.applied
  {
    var k := s.calls[w];
    assert Reached(s.senderSeen, k);
    var seen := Highest(s.applied[..s.noted], k.sender);
    assert k.num <= seen;
    HighestIs(s.applied, k.sender);
    HighestIs(s.applied[..s.noted], k.sender);
    if seen > 0 {
      assert Key(k.sender, seen) in s.applied[..s.noted];
      assert Key(k.sender, seen) in s.applied;
    }
    assert seen <= Highest(s.applied, k.sender);
    ReadYourWrites(ms, conv, ws, t, i, k.sender);
    assert HandledUpTo(ms, ws[t].net, isApp, ws[t].reps[i].delivered[..n], k.sender);
  }

  lemma LaterAlone(ms: seq<ReplicaId>, net: set<Envelope>, isApp: Bytes -> bool, x: Envelope, y: Envelope)
    requires y in net && x.sender == y.sender && SeqOf(ms, y) < SeqOf(ms, x) && isApp(x.payload) && isApp(y.payload)
    ensures !HandledUpTo(ms, net, isApp, [x], x.sender)
  {
    assert [x][..0] == [] && AppPositions(ms, isApp, []) == [];
    HighestIs(AppPositions(ms, isApp, [x]), x.sender);
    assert AppPositions(ms, isApp, [x]) == [] + [KeyOf(ms, x)] == [KeyOf(ms, x)];
    assert KeyOf(ms, x) in [KeyOf(ms, x)];
  }

  /** And it can fail: there is a run in which a sender's second command is applied, and its
      position reached, while the first is still queued. */
  lemma OvertakenRead(a: ReplicaId, b: ReplicaId, conv: ConversationId, p: Bytes, isApp: Bytes -> bool)
    requires a != b && isApp(p)
    ensures
      var ms, ws := [a, b], Stranding.OvertakingRun(a, b, conv, p);
      Run(ms, conv, ws) && !HandledUpTo(ms, ws[6].net, isApp, ws[6].reps[1].delivered, a)
  {
    Stranding.TwoMessages(a, b, conv, p);
    Stranding.ReplayCanBeOvertaken(a, b, conv, p);
    LaterAlone([a, b], Stranding.OvertakingRun(a, b, conv, p)[6].net, isApp,
               Stranding.Second(a, b, conv, p), Stranding.First(a, b, conv, p));
  }
}
