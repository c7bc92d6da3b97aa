/** Vote sessions as values: majorities, what an answer and a count do to a session, and the
    invariant of all sessions with the answers received (membership/voteout.go,
    membership/votein.go). */
module Ballots {
  import opened Basics

  datatype VoteError = TargetIsSelf | NotMember | AlreadyMember | Minority | InProgress | Nacked | TimedOut | Cancelled
  datatype Outcome = Accepted | Rejected(error: VoteError)
  datatype Started = Session(id: nat) | Refused(error: VoteError)

  /** A vote on removing target. `members` is the list when the session was created; the
      outcome is what the caller of VoteOut is told, once. */
  datatype OutVote = OutVote(
    target: ReplicaId, members: seq<ReplicaId>, acked: set<ReplicaId>, nacked: set<ReplicaId>, outcome: Option<Outcome>)

  /** A vote on adding target. */
  datatype InVote = InVote(
    target: ReplicaId, members: seq<ReplicaId>, acked: set<ReplicaId>, nacked: set<ReplicaId>, committed: bool,
    outcome: Option<Outcome>)

  /** A strict majority of n voters, at least one. */
  function Needed(n: int): (k: int)
    ensures k >= 1 && 2 * k > n
    ensures n >= 0 ==> 2 * (k - 1) <= n
  {
    if n < 0 then 1 else n / 2 + 1
  }

  function Without(list: seq<ReplicaId>, r: ReplicaId): (out: seq<ReplicaId>)
    ensures forall x :: x in out <==> x in list && x != r
  {
    if list == [] then []
    else
      var rest := Without(list[..|list| - 1], r);
      assert list == list[..|list| - 1] + [list[|list| - 1]];
      if list[|list| - 1] != r then rest + [list[|list| - 1]] else rest
  }

  /** Filtering keeps the order and every other entry, however often it stands there. */
  lemma {:induction false} WithoutConcat(a: seq<ReplicaId>, b: seq<ReplicaId>, r: ReplicaId)
    ensures Without(a + b, r) == Without(a, r) + Without(b, r)
    ensures forall x :: Without([x], r) == if x == r then [] else [x]
  {
    assert forall x: ReplicaId :: [x][..0] == [] && Without([], r) == [];
    if b == [] {
      assert a + b == a;
    } else {
      var n := |b| - 1;
      assert (a + b)[..|a + b| - 1] == a + b[..n];
      WithoutConcat(a, b[..n], r);
    }
  }

  // ---- removal votes ----

  /** The target does not vote on its own removal. */
  predicate OutCarried(v: OutVote) {
    v.nacked == {} && |v.acked| >= Needed(|v.members| - 1)
  }

  function Answer(v: OutVote, voter: ReplicaId, ack: bool): OutVote {
    if ack then v.(acked := v.acked + {voter}) else v.(nacked := v.nacked + {voter})
  }

  /** One more answer recorded. */
  function Answered(outs: seq<OutVote>, i: nat, voter: ReplicaId, ack: bool): seq<OutVote>
    requires i < |outs|
  {
    outs[i := Answer(outs[i], voter, ack)]
  }

  /** The session in which a VoteOut for target is recorded: the open one, or a new one. */
  function JoinedId(outs: seq<OutVote>, open: map<ReplicaId, nat>, target: ReplicaId): nat {
    if target in open then open[target] else |outs|
  }

  /** The sessions once the initiator's Ack is in. */
  function Joined(list: seq<ReplicaId>, outs: seq<OutVote>, open: map<ReplicaId, nat>, target: ReplicaId,
                  initiator: ReplicaId): seq<OutVote>
    requires target in open ==> open[target] < |outs|
  {
    if target in open then Answered(outs, open[target], initiator, true)
    else outs + [OutVote(target, list, {initiator}, {}, None)]
  }

  /** The list after a count of v. */
  function Decide(list: seq<ReplicaId>, v: OutVote): seq<ReplicaId> {
    if OutCarried(v) then Without(list, v.target) else list
  }

  /** The first outcome of a session stands. */
  function Told(outs: seq<OutVote>, i: nat, outcome: Outcome): seq<OutVote>
    requires i < |outs|
  {
    if outs[i].outcome.Some? then outs else outs[i := outs[i].(outcome := Some(outcome))]
  }

  /** The sessions after a count of session i: carried, or closed by a Nack. */
  function Counted(outs: seq<OutVote>, open: map<ReplicaId, nat>, i: nat): seq<OutVote>
    requires i < |outs|
  {
    var v := outs[i];
    if OutCarried(v) then Told(outs, i, Accepted)
    else if v.nacked != {} && v.target in open && open[v.target] < |outs| then
      Told(outs, open[v.target], Rejected(Nacked))
    else outs
  }

  function OpenAfter(open: map<ReplicaId, nat>, v: OutVote): map<ReplicaId, nat> {
    if OutCarried(v) || v.nacked != {} then open - {v.target} else open
  }

  // ---- addition votes ----

  predicate InQuorum(v: InVote) {
    |v.acked| >= Needed(|v.members|)
  }

  function InAnswer(v: InVote, voter: ReplicaId, ack: bool): InVote {
    if ack then v.(acked := v.acked + {voter}) else v.(nacked := v.nacked + {voter})
  }

  /** A count of v announces the addition. */
  predicate Commits(v: InVote) {
    v.nacked == {} && !v.committed && InQuorum(v)
  }

  function InTold(ins: seq<InVote>, i: nat, outcome: Outcome): seq<InVote>
    requires i < |ins|
  {
    if ins[i].outcome.Some? then ins else ins[i := ins[i].(outcome := Some(outcome))]
  }

  /** The sessions after a count of session i: committed by a quorum, or closed by a Nack. */
  function InCounted(ins: seq<InVote>, i: nat): seq<InVote>
    requires i < |ins|
  {
    if Commits(ins[i]) then ins[i := ins[i].(committed := true)]
    else if ins[i].nacked != {} then InTold(ins, i, Rejected(Nacked))
    else ins
  }

  /** What an answer and the count after it make of a session. */
  lemma AnswerCounted(ins: seq<InVote>, i: nat, voter: ReplicaId, ack: bool)
    requires i < |ins|
    ensures
      var was, v := ins[i], InAnswer(ins[i], voter, ack);
      var now := InCounted(ins[i := v], i)[i];
      && now.acked == (if ack then was.acked + {voter} else was.acked)
      && now.nacked == (if ack then was.nacked else was.nacked + {voter})
      && (!ack ==> !Commits(v) && v.nacked != {})
      && (!ack ==> now.outcome == if was.outcome.None? then Some(Rejected(Nacked)) else was.outcome)
      && (ack ==> (Commits(v) <==>
                     was.nacked == {} && !was.committed && |was.acked + {voter}| >= Needed(|was.members|)))
  {
    assert !ack ==> voter in InAnswer(ins[i], voter, ack).nacked;
  }

  // ---- answers received ----

  /** An answer as it arrived: who sent it, and whether it was an Ack. */
  datatype Heard = Heard(voter: ReplicaId, ack: bool)

  ghost function Voters(heard: seq<Heard>, ack: bool): set<ReplicaId> {
    set h | h in heard && h.ack == ack :: h.voter
  }

  /** The two sets of a vote are the answers received for it. */
  ghost predicate Tallied(acked: set<ReplicaId>, nacked: set<ReplicaId>, heard: seq<Heard>) {
    acked == Voters(heard, true) && nacked == Voters(heard, false)
  }

  lemma TalliedFirst(voter: ReplicaId)
    ensures Tallied({voter}, {}, [Heard(voter, true)])
  {
    assert Heard(voter, true) in [Heard(voter, true)];
  }

  lemma TalliedNext(acked: set<ReplicaId>, nacked: set<ReplicaId>, heard: seq<Heard>, voter: ReplicaId, ack: bool)
    requires Tallied(acked, nacked, heard)
    ensures ack ==> Tallied(acked + {voter}, nacked, heard + [Heard(voter, true)])
    ensures !ack ==> Tallied(acked, nacked + {voter}, heard + [Heard(voter, false)])
  {
    assert Heard(voter, ack) in heard + [Heard(voter, ack)];
  }

  /** The first n answers hold no Nack, and Acks of a strict majority of the voters. */
  ghost predicate Agreed(voters: int, heard: seq<Heard>, n: nat) {
    && n <= |heard|
    && (forall h :: h in heard[..n] ==> h.ack)
    && |Voters(heard[..n], true)| >= Needed(voters)
  }

  lemma AgreedLater(voters: int, heard: seq<Heard>, n: nat, h: Heard)
    requires Agreed(voters, heard, n)
    ensures Agreed(voters, heard + [h], n)
  {
    assert (heard + [h])[..n] == heard[..n];
  }

  lemma AgreedNow(voters: int, acked: set<ReplicaId>, heard: seq<Heard>)
    requires Tallied(acked, {}, heard) && |acked| >= Needed(voters)
    ensures Agreed(voters, heard, |heard|)
  {
    assert heard[..|heard|] == heard;
    forall h | h in heard ensures h.ack { assert !h.ack ==> h.voter in Voters(heard, false); }
  }

  // ---- the invariant of the removal votes ----

  /** The removal votes of a manager, with the record kept beside them: `carried` has each
      vote as it stood when a tally carried it, `counts` how many answers had come in then,
      and `nackedSince` the carried votes that got a Nack later. */
  datatype OutState = OutState(
    outs: seq<OutVote>, open: map<ReplicaId, nat>, carried: map<nat, OutVote>, removals: seq<nat>,
    nackedSince: set<nat>, heard: seq<seq<Heard>>, counts: map<nat, nat>)

  /** The open vote about t is one about t, and t is a member. */
  ghost predicate OpenAt(list: seq<ReplicaId>, s: OutState, t: ReplicaId) {
    t in s.open && s.open[t] < |s.outs| && s.outs[s.open[t]].target == t && t in list
  }

  /** A carried vote was carried by a majority without a Nack, and has a Nack on record
      exactly when one came later. */
  ghost predicate CarriedAt(s: OutState, i: nat) {
    && i in s.carried && i in s.counts && i < |s.outs| && i < |s.heard|
    && OutCarried(s.carried[i])
    && s.carried[i].target == s.outs[i].target && s.carried[i].members == s.outs[i].members
    && Agreed(|s.outs[i].members| - 1, s.heard[i], s.counts[i])
    && (s.outs[i].nacked == {} <==> i !in s.nackedSince)
  }

  /** No vote is about this replica; its sets are the answers received; success is told only
      after a removal. */
  ghost predicate SessionAt(self: ReplicaId, s: OutState, i: nat) {
    && i < |s.outs| && i < |s.heard|
    && s.outs[i].target != self
    && Tallied(s.outs[i].acked, s.outs[i].nacked, s.heard[i])
    && (s.outs[i].outcome == Some(Accepted) ==> i in s.removals)
  }

  ghost predicate OutOk(self: ReplicaId, list: seq<ReplicaId>, s: OutState) {
    && |s.heard| == |s.outs|
    && (forall t :: t in s.open ==> s.open[t] < |s.outs|)
    && (forall t {:trigger OpenAt(list, s, t)} :: t in s.open ==> OpenAt(list, s, t))
    && (forall i: nat {:trigger SessionAt(self, s, i)} :: i < |s.outs| ==> SessionAt(self, s, i))
    && (forall i {:trigger CarriedAt(s, i)} :: i in s.carried ==> CarriedAt(s, i))
    && (forall i :: i in s.removals || i in s.nackedSince ==> i in s.carried)
  }


  ghost function Opened(s: OutState, v: OutVote, voter: ReplicaId): OutState {
    s.(outs := s.outs + [v], open := s.open[v.target := |s.outs|], heard := s.heard + [[Heard(voter, true)]])
  }

  lemma OpenedOk(self: ReplicaId, list: seq<ReplicaId>, s: OutState, v: OutVote, voter: ReplicaId)
    requires OutOk(self, list, s) && v.target != self && v.target in list
    requires v.acked == {voter} && v.nacked == {} && v.outcome == None
    ensures OutOk(self, list, Opened(s, v, voter))
  {
    var s' := Opened(s, v, voter);
    forall t | t in s'.open ensures OpenAt(list, s', t) {
      assert t != v.target ==> OpenAt(list, s, t);
    }
    forall i: nat | i < |s'.outs| ensures SessionAt(self, s', i) {
      if i == |s.outs| { TalliedFirst(voter); } else { assert SessionAt(self, s, i); }
    }
    forall i | i in s'.carried ensures CarriedAt(s', i) { assert CarriedAt(s, i); }
  }

  ghost function Recorded(s: OutState, i: nat, voter: ReplicaId, ack: bool): OutState
    requires i < |s.outs| && i < |s.heard|
  {
    s.(outs := Answered(s.outs, i, voter, ack), heard := s.heard[i := s.heard[i] + [Heard(voter, ack)]],
       nackedSince := if !ack && i in s.carried then s.nackedSince + {i} else s.nackedSince)
  }

  lemma RecordedOk(self: ReplicaId, list: seq<ReplicaId>, s: OutState, i: nat, voter: ReplicaId, ack: bool)
    requires OutOk(self, list, s) && i < |s.outs|
    ensures i < |s.heard| && OutOk(self, list, Recorded(s, i, voter, ack))
  {
    var s' := Recorded(s, i, voter, ack);
    forall t | t in s'.open ensures OpenAt(list, s', t) { assert OpenAt(list, s, t); }
    forall j: nat | j < |s'.outs| ensures SessionAt(self, s', j) {
      assert SessionAt(self, s, j);
      if j == i { TalliedNext(s.outs[i].acked, s.outs[i].nacked, s.heard[i], voter, ack); }
    }
    forall j | j in s'.carried ensures CarriedAt(s', j) {
      assert CarriedAt(s, j);
      if j == i { CarriedRecorded(s, i, voter, ack); }
    }
  }

  lemma CarriedRecorded(s: OutState, i: nat, voter: ReplicaId, ack: bool)
    requires CarriedAt(s, i)
    ensures CarriedAt(Recorded(s, i, voter, ack), i)
  {
    AgreedLater(|s.outs[i].members| - 1, s.heard[i], s.counts[i], Heard(voter, ack));
    assert !ack ==> voter in Recorded(s, i, voter, ack).outs[i].nacked;
  }

  ghost function Carrying(s: OutState, i: nat): OutState
    requires i < |s.outs| && i < |s.heard|
  {
    s.(carried := s.carried[i := s.outs[i]], counts := s.counts[i := |s.heard[i]|])
  }

  lemma CarryingOk(self: ReplicaId, list: seq<ReplicaId>, s: OutState, i: nat)
    requires OutOk(self, list, s) && i < |s.outs| && OutCarried(s.outs[i])
    ensures i < |s.heard| && OutOk(self, list, Carrying(s, i))
  {
    var s' := Carrying(s, i);
    assert SessionAt(self, s, i);
    AgreedNow(|s.outs[i].members| - 1, s.outs[i].acked, s.heard[i]);
    assert i in s.nackedSince ==> CarriedAt(s, i);
    forall t | t in s'.open ensures OpenAt(list, s', t) { assert OpenAt(list, s, t); }
    forall j: nat | j < |s'.outs| ensures SessionAt(self, s', j) { assert SessionAt(self, s, j); }
    forall j | j in s'.carried ensures CarriedAt(s', j) { assert j != i ==> CarriedAt(s, j); }
  }

  lemma ToldOk(self: ReplicaId, list: seq<ReplicaId>, s: OutState, i: nat, outcome: Outcome)
    requires OutOk(self, list, s) && i < |s.outs| && (outcome == Accepted ==> i in s.removals)
    ensures OutOk(self, list, s.(outs := Told(s.outs, i, outcome)))
  {
    var s' := s.(outs := Told(s.outs, i, outcome));
    forall t | t in s'.open ensures OpenAt(list, s', t) { assert OpenAt(list, s, t); }
    forall j: nat | j < |s'.outs| ensures SessionAt(self, s', j) { assert SessionAt(self, s, j); }
    forall j | j in s'.carried ensures CarriedAt(s', j) { assert CarriedAt(s, j); }
  }

  lemma ClosedOk(self: ReplicaId, list: seq<ReplicaId>, s: OutState, t: ReplicaId)
    requires OutOk(self, list, s)
    ensures OutOk(self, list, s.(open := s.open - {t}))
  {
    var s' := s.(open := s.open - {t});
    forall u | u in s'.open ensures OpenAt(list, s', u) { assert OpenAt(list, s, u); }
    forall j: nat | j < |s'.outs| ensures SessionAt(self, s', j) { assert SessionAt(self, s, j); }
    forall j | j in s'.carried ensures CarriedAt(s', j) { assert CarriedAt(s, j); }
  }

  lemma RemovedOk(self: ReplicaId, list: seq<ReplicaId>, s: OutState, i: nat)
    requires OutOk(self, list, s) && i in s.carried
    ensures CarriedAt(s, i) && SessionAt(self, s, i)
    ensures
      var t := s.outs[i].target;
      OutOk(self, Without(list, t), s.(open := s.open - {t}, removals := s.removals + [i]))
  {
    assert CarriedAt(s, i) && SessionAt(self, s, i);
    var t := s.outs[i].target;
    var s' := s.(open := s.open - {t}, removals := s.removals + [i]);
    forall u | u in s'.open ensures OpenAt(Without(list, t), s', u) { assert OpenAt(list, s, u); }
    forall j: nat | j < |s'.outs| ensures SessionAt(self, s', j) { assert SessionAt(self, s, j); }
    forall j | j in s'.carried ensures CarriedAt(s', j) { assert CarriedAt(s, j); }
  }

  lemma LongerOk(self: ReplicaId, list: seq<ReplicaId>, s: OutState, r: ReplicaId)
    requires OutOk(self, list, s)
    ensures OutOk(self, list + [r], s)
  {
    forall t | t in s.open ensures OpenAt(list + [r], s, t) { assert OpenAt(list, s, t); }
  }

  // ---- who is told ----

  /** A session whose caller was told, or will be: a tally has carried the vote and its
      thread will tell, or it is the open one of its target. */
  predicate Tracked(outs: seq<OutVote>, carried: map<nat, OutVote>, open: map<ReplicaId, nat>, i: nat)
    requires i < |outs|
  {
    outs[i].outcome.Some? || i in carried || (outs[i].target in open && open[outs[i].target] == i)
  }

  ghost predicate AllTracked(outs: seq<OutVote>, carried: map<nat, OutVote>, open: map<ReplicaId, nat>) {
    forall i: nat {:trigger Tracked(outs, carried, open, i)} :: i < |outs| ==> Tracked(outs, carried, open, i)
  }

  /** Dropping the open session of a target strands its caller unless it was decided. */
  lemma DropTracked(self: ReplicaId, list: seq<ReplicaId>, s: OutState, t: ReplicaId)
    requires OutOk(self, list, s) && AllTracked(s.outs, s.carried, s.open)
    ensures t in s.open ==> s.open[t] < |s.outs|
    ensures AllTracked(s.outs, s.carried, s.open - {t}) <==>
      t !in s.open || s.open[t] in s.carried || s.outs[s.open[t]].outcome.Some?
  {
    var after := s.open - {t};
    assert t in s.open ==> OpenAt(list, s, t);
    if t !in s.open || s.open[t] in s.carried || s.outs[s.open[t]].outcome.Some? {
      forall i: nat | i < |s.outs| ensures Tracked(s.outs, s.carried, after, i) {
        assert Tracked(s.outs, s.carried, s.open, i);
      }
    } else {
      assert !Tracked(s.outs, s.carried, after, s.open[t]);
    }
  }

  // ---- the invariant of the addition votes ----

  /** The addition votes of a manager, the sessions announced, the answers received for each
      and how many had come in when it was announced. */
  datatype InState = InState(
    ins: seq<InVote>, open: map<ReplicaId, nat>, adds: seq<nat>, heard: seq<seq<Heard>>, quorums: map<nat, nat>)

  /** The open vote about t is one about t, and t is no member. */
  ghost predicate InOpenAt(list: seq<ReplicaId>, s: InState, t: ReplicaId) {
    t in s.open && s.open[t] < |s.ins| && s.ins[s.open[t]].target == t && t !in list
  }

  /** The sets of a vote are the answers received; it was announced exactly when it is
      committed, and then with a quorum. */
  ghost predicate InSessionAt(s: InState, i: nat) {
    && i < |s.ins| && i < |s.heard|
    && Tallied(s.ins[i].acked, s.ins[i].nacked, s.heard[i])
    && (i in s.adds <==> s.ins[i].committed)
    && (i in s.adds ==> i in s.quorums && Agreed(|s.ins[i].members|, s.heard[i], s.quorums[i]))
  }

  ghost predicate InOk(list: seq<ReplicaId>, s: InState) {
    && |s.heard| == |s.ins|
    && NoDuplicates(s.adds)
    && (forall i :: i in s.adds ==> i < |s.ins|)
    && (forall t :: t in s.open ==> s.open[t] < |s.ins|)
    && (forall t {:trigger InOpenAt(list, s, t)} :: t in s.open ==> InOpenAt(list, s, t))
    && (forall i: nat {:trigger InSessionAt(s, i)} :: i < |s.ins| ==> InSessionAt(s, i))
  }

  ghost function InOpened(s: InState, v: InVote, voter: ReplicaId): InState {
    s.(ins := s.ins + [v], open := s.open[v.target := |s.ins|], heard := s.heard + [[Heard(voter, true)]])
  }

  lemma InOpenedOk(list: seq<ReplicaId>, s: InState, v: InVote, voter: ReplicaId)
    requires InOk(list, s) && v.target !in list && v.acked == {voter} && v.nacked == {} && !v.committed
    ensures InOk(list, InOpened(s, v, voter))
  {
    var s' := InOpened(s, v, voter);
    forall t | t in s'.open ensures InOpenAt(list, s', t) { assert t != v.target ==> InOpenAt(list, s, t); }
    forall i: nat | i < |s'.ins| ensures InSessionAt(s', i) {
      if i == |s.ins| { TalliedFirst(voter); } else { assert InSessionAt(s, i); }
    }
  }

  ghost function InRecorded(s: InState, i: nat, voter: ReplicaId, ack: bool): InState
    requires i < |s.ins| && i < |s.heard|
  {
    s.(ins := s.ins[i := InAnswer(s.ins[i], voter, ack)], heard := s.heard[i := s.heard[i] + [Heard(voter, ack)]])
  }

  lemma InRecordedOk(list: seq<ReplicaId>, s: InState, i: nat, voter: ReplicaId, ack: bool)
    requires InOk(list, s) && i < |s.ins|
    ensures i < |s.heard| && InOk(list, InRecorded(s, i, voter, ack))
  {
    var s' := InRecorded(s, i, voter, ack);
    forall t | t in s'.open ensures InOpenAt(list, s', t) { assert InOpenAt(list, s, t); }
    forall j: nat | j < |s'.ins| ensures InSessionAt(s', j) {
      assert InSessionAt(s, j);
      if j == i {
        TalliedNext(s.ins[i].acked, s.ins[i].nacked, s.heard[i], voter, ack);
        if i in s.adds { AgreedLater(|s.ins[i].members|, s.heard[i], s.quorums[i], Heard(voter, ack)); }
      }
    }
  }

  ghost function InCommitted(s: InState, i: nat): InState
    requires i < |s.ins| && i < |s.heard|
  {
    s.(ins := s.ins[i := s.ins[i].(committed := true)], adds := s.adds + [i],
       quorums := s.quorums[i := |s.heard[i]|])
  }

  lemma InCommittedOk(list: seq<ReplicaId>, s: InState, i: nat)
    requires InOk(list, s) && i < |s.ins| && Commits(s.ins[i])
    ensures i < |s.heard| && InOk(list, InCommitted(s, i))
  {
    var s' := InCommitted(s, i);
    assert InSessionAt(s, i);
    AgreedNow(|s.ins[i].members|, s.ins[i].acked, s.heard[i]);
    forall t | t in s'.open ensures InOpenAt(list, s', t) { assert InOpenAt(list, s, t); }
    forall j: nat | j < |s'.ins| ensures InSessionAt(s', j) {
      assert InSessionAt(s, j);
      assert j in s'.adds <==> j in s.adds || j == i;
    }
  }

  ghost function InClosed(s: InState, t: ReplicaId, outcome: Outcome): InState
    requires t in s.open ==> s.open[t] < |s.ins|
  {
    s.(open := s.open - {t}, ins := if t in s.open then InTold(s.ins, s.open[t], outcome) else s.ins)
  }

  lemma InClosedOk(list: seq<ReplicaId>, s: InState, t: ReplicaId, outcome: Outcome)
    requires InOk(list, s)
    ensures t in s.open ==> s.open[t] < |s.ins|
    ensures InOk(list, InClosed(s, t, outcome))
    ensures InOk(list + [t], InClosed(s, t, outcome))
  {
    assert t in s.open ==> InOpenAt(list, s, t);
    var s' := InClosed(s, t, outcome);
    forall u | u in s'.open ensures InOpenAt(list, s', u) && InOpenAt(list + [t], s', u) {
      assert InOpenAt(list, s, u);
    }
    forall j: nat | j < |s'.ins| ensures InSessionAt(s', j) { assert InSessionAt(s, j); }
  }

  lemma ShorterOk(list: seq<ReplicaId>, s: InState, r: ReplicaId)
    requires InOk(list, s)
    ensures InOk(Without(list, r), s)
  {
    forall t | t in s.open ensures InOpenAt(Without(list, r), s, t) { assert InOpenAt(list, s, t); }
  }
}
