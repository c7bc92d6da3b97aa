/** The membership manager's vote sessions as an object (membership/voteout.go,
    membership/votein.go). Each basic method is one section under a lock; the receive pump
    and the callers of VoteOut and VoteIn interleave between sections, and `Valid` is what
    every section keeps. Handlers are the sections in program order. */
module Votes {
  import opened Basics
  import opened Ballots

  class Manager {
    const self: ReplicaId
    const initialGroupSize: nat
    var membershipList: seq<ReplicaId>
    /** Every session ever created; the two maps hold the open one per target. */
    var outs: seq<OutVote>
    var voteOutSessions: map<ReplicaId, nat>
    var ins: seq<InVote>
    var voteInSessions: map<ReplicaId, nat>
    /** The MemberAdd frames sent, by session. */
    var memberAdds: seq<nat>

    ghost var carried: map<nat, OutVote>
    ghost var removals: seq<nat>
    /** The carried votes that got a Nack after the tally. */
    ghost var nackedSince: set<nat>
    /** The answers received for each removal vote, and how many had come in when a tally
        carried it. */
    ghost var outHeard: seq<seq<Heard>>
    ghost var counts: map<nat, nat>
    /** The answers received for each addition vote, and how many had come in when it was
        announced. */
    ghost var inHeard: seq<seq<Heard>>
    ghost var quorums: map<nat, nat>

    ghost function OutAbs(): OutState
      reads this
    {
      OutState(outs, voteOutSessions, carried, removals, nackedSince, outHeard, counts)
    }

    ghost function InAbs(): InState
      reads this
    {
      InState(ins, voteInSessions, memberAdds, inHeard, quorums)
    }

    ghost predicate Valid()
      reads this
    {
      OutOk(self, membershipList, OutAbs()) && InOk(membershipList, InAbs())
    }

    constructor (self: ReplicaId, members: seq<ReplicaId>, initialGroupSize: nat)
      ensures Valid() && this.self == self && this.initialGroupSize == initialGroupSize
      ensures membershipList == members && outs == [] && ins == [] && memberAdds == []
      ensures voteOutSessions == map[] && carried == map[] && removals == [] && nackedSince == {}
    {
      this.self, this.initialGroupSize, membershipList := self, initialGroupSize, members;
      outs, voteOutSessions, ins, voteInSessions, memberAdds := [], map[], [], map[], [];
      carried, removals, nackedSince, outHeard, counts := map[], [], {}, [], map[];
      inHeard, quorums := [], map[];
    }

    method IsMember(r: ReplicaId) returns (yes: bool)
      ensures yes <==> r in membershipList
    {
      for i := 0 to |membershipList|
        invariant r !in membershipList[..i]
      {
        if membershipList[i] == r { return true; }
      }
      return false;
    }

    // ---- removal votes: sections ----

    method OpenOut(target: ReplicaId, voter: ReplicaId)
      requires Valid() && target != self && target in membershipList
      modifies this`outs, this`voteOutSessions, this`outHeard
      ensures Valid() && outs == old(outs) + [OutVote(target, membershipList, {voter}, {}, None)]
      ensures voteOutSessions == old(voteOutSessions)[target := old(|outs|)]
      ensures outHeard == old(outHeard) + [[Heard(voter, true)]]
    {
      var v := OutVote(target, membershipList, {voter}, {}, None);
      ghost var s := Opened(OutAbs(), v, voter);
      OpenedOk(self, membershipList, OutAbs(), v, voter);
      voteOutSessions := voteOutSessions[target := |outs|];
      outs, outHeard := outs + [v], outHeard + [[Heard(voter, true)]];
      assert OutAbs() == s;
    }

    /** VoteOut up to the broadcast: refused, or a new session with our own Ack. */
    method StartVoteOut(target: ReplicaId) returns (r: Started)
      requires Valid()
      modifies this`outs, this`voteOutSessions, this`outHeard
      ensures Valid()
      ensures target == self ==> r == Refused(TargetIsSelf)
      ensures target != self && target !in membershipList ==> r == Refused(NotMember)
      ensures target != self && target in membershipList && 2 * |membershipList| <= initialGroupSize ==>
        r == Refused(Minority)
      ensures target != self && target in membershipList && 2 * |membershipList| > initialGroupSize ==>
        if target in old(voteOutSessions) then r == Refused(InProgress)
        else r == Session(old(|outs|)) && outs == old(outs) + [OutVote(target, membershipList, {self}, {}, None)]
             && voteOutSessions == old(voteOutSessions)[target := old(|outs|)]
      ensures r.Refused? ==> outs == old(outs) && voteOutSessions == old(voteOutSessions)
    {
      if target == self { return Refused(TargetIsSelf); }
      var member := IsMember(target);
      if !member { return Refused(NotMember); }
      if 2 * |membershipList| <= initialGroupSize { return Refused(Minority); }
      if target in voteOutSessions { return Refused(InProgress); }
      OpenOut(target, self);
      return Session(|outs| - 1);
    }

    /** Records one answer: an Ack among the Acks, a Nack among the Nacks. */
    method RecordOut(id: nat, voter: ReplicaId, ack: bool)
      requires Valid() && id < |outs|
      modifies this`outs, this`nackedSince, this`outHeard
      ensures Valid() && outs == Answered(old(outs), id, voter, ack)
      ensures outHeard == old(outHeard)[id := old(outHeard)[id] + [Heard(voter, ack)]]
      ensures outs[id].acked == if ack then old(outs)[id].acked + {voter} else old(outs)[id].acked
      ensures outs[id].nacked == if ack then old(outs)[id].nacked else old(outs)[id].nacked + {voter}
      ensures nackedSince == if !ack && id in carried then old(nackedSince) + {id} else old(nackedSince)
    {
      RecordedOk(self, membershipList, OutAbs(), id, voter, ack);
      ghost var s := Recorded(OutAbs(), id, voter, ack);
      outHeard := outHeard[id := outHeard[id] + [Heard(voter, ack)]];
      if ack {
        outs := outs[id := outs[id].(acked := outs[id].acked + {voter})];
      } else {
        outs := outs[id := outs[id].(nacked := outs[id].nacked + {voter})];
        if id in carried { nackedSince := nackedSince + {id}; }
      }
      assert OutAbs() == s;
    }

    /** handleVoteOut, first section: joins or opens the session and records the
        initiator's Ack. */
    method JoinVoteOut(target: ReplicaId, sender: ReplicaId) returns (id: Option<nat>)
      requires Valid() && target != self
      modifies this`outs, this`voteOutSessions, this`outHeard
      ensures Valid()
      ensures target !in membershipList ==> id.None? && outs == old(outs) && voteOutSessions == old(voteOutSessions)
      ensures target in membershipList ==>
        && id == Some(JoinedId(old(outs), old(voteOutSessions), target)) && id.value < |outs|
        && outs == Joined(membershipList, old(outs), old(voteOutSessions), target, sender)
        && voteOutSessions == old(voteOutSessions)[target := id.value]
        && outs[id.value].target == target && sender in outs[id.value].acked
        && (target !in old(voteOutSessions) ==> outs[id.value].members == membershipList)
    {
      var member := IsMember(target);
      if !member { return None; }
      if target in voteOutSessions {
        id := Some(voteOutSessions[target]);
        assert OpenAt(membershipList, OutAbs(), target);
        RecordedOk(self, membershipList, OutAbs(), id.value, sender, true);
        ghost var s := Recorded(OutAbs(), id.value, sender, true);
        outHeard := outHeard[id.value := outHeard[id.value] + [Heard(sender, true)]];
        outs := outs[id.value := outs[id.value].(acked := outs[id.value].acked + {sender})];
        voteOutSessions := voteOutSessions[target := id.value];
        assert OutAbs() == s;
      } else {
        id := Some(|outs|);
        OpenOut(target, sender);
      }
    }

    /** checkVoteOutDecision, the count: Rejected(Nacked), Accepted or nothing yet. */
    method TallyOut(id: nat) returns (decision: Option<Outcome>)
      requires Valid() && id < |outs|
      modifies this`carried, this`counts
      ensures Valid()
      ensures decision == Some(Accepted) <==>
        outs[id].nacked == {} && |outs[id].acked| >= Needed(|outs[id].members| - 1)
      ensures decision == Some(Rejected(Nacked)) <==> outs[id].nacked != {}
      ensures decision.None? <==> outs[id].nacked == {} && |outs[id].acked| < Needed(|outs[id].members| - 1)
      ensures carried == if decision == Some(Accepted) then old(carried)[id := outs[id]] else old(carried)
    {
      if outs[id].nacked != {} { return Some(Rejected(Nacked)); }
      var voterCount := |outs[id].members| - 1;
      if |outs[id].acked| < Needed(voterCount) { return None; }
      CarryingOk(self, membershipList, OutAbs(), id);
      ghost var s := Carrying(OutAbs(), id);
      carried, counts := carried[id := outs[id]], counts[id := |outHeard[id]|];
      assert OutAbs() == s;
      return Some(Accepted);
    }

    /** Tells the caller of a session its outcome, unless it has one already. */
    method CompleteOut(id: nat, outcome: Outcome)
      requires Valid() && id < |outs| && (outcome == Accepted ==> id in removals)
      modifies this`outs
      ensures Valid() && outs == Told(old(outs), id, outcome)
      ensures outs[id].outcome == if old(outs)[id].outcome.None? then Some(outcome) else old(outs)[id].outcome
    {
      ToldOk(self, membershipList, OutAbs(), id, outcome);
      ghost var s := OutAbs().(outs := Told(outs, id, outcome));
      if outs[id].outcome.None? { outs := outs[id := outs[id].(outcome := Some(outcome))]; }
      assert OutAbs() == s;
    }

    /** Closes the open session of a target with an error, if there is one. */
    method CancelOut(target: ReplicaId, error: VoteError)
      requires Valid()
      modifies this`outs, this`voteOutSessions
      ensures Valid() && voteOutSessions == old(voteOutSessions) - {target}
      ensures outs ==
        if target in old(voteOutSessions) then Told(old(outs), old(voteOutSessions)[target], Rejected(error))
        else old(outs)
    {
      if target !in voteOutSessions { return; }
      var id := voteOutSessions[target];
      assert OpenAt(membershipList, OutAbs(), target);
      ClosedOk(self, membershipList, OutAbs(), target);
      ghost var s := OutAbs().(open := voteOutSessions - {target});
      voteOutSessions := voteOutSessions - {target};
      assert OutAbs() == s;
      CompleteOut(id, Rejected(error));
    }

    method RemoveFromList(target: ReplicaId)
      modifies this`membershipList
      ensures membershipList == Without(old(membershipList), target)
    {
      var kept := [];
      for i := 0 to |membershipList|
        invariant membershipList == old(membershipList)
        invariant kept == Without(membershipList[..i], target)
      {
        assert membershipList[..i + 1][..i] == membershipList[..i];
        if membershipList[i] != target { kept := kept + [membershipList[i]]; }
      }
      assert membershipList[..|membershipList|] == membershipList;
      membershipList := kept;
    }

    /** checkVoteOutDecision after a tally that carried the vote: the target goes. It goes
        with no Nack on record exactly when none was recorded since that tally. */
    method Remove(id: nat)
      requires Valid() && id in carried
      ensures id < |outs|
      modifies this`membershipList, this`voteOutSessions, this`removals
      ensures Valid() && removals == old(removals) + [id]
      ensures membershipList == Without(old(membershipList), outs[id].target)
      ensures voteOutSessions == old(voteOutSessions) - {outs[id].target}
      ensures self in old(membershipList) ==> self in membershipList
      ensures outs[id].nacked == {} <==> id !in nackedSince
    {
      RemovedOk(self, membershipList, OutAbs(), id);
      var target := outs[id].target;
      ShorterOk(membershipList, InAbs(), target);
      ghost var s := OutAbs().(open := voteOutSessions - {target}, removals := removals + [id]);
      voteOutSessions := voteOutSessions - {target};
      RemoveFromList(target);
      removals := removals + [id];
      assert OutAbs() == s;
    }

    // ---- removal votes: handlers ----

    /** checkVoteOutDecision without interruption: the target leaves the list exactly when
        no Nack is recorded and the Acks suffice. */
    method CheckVoteOutDecision(id: nat)
      requires Valid() && id < |outs|
      modifies this`outs, this`voteOutSessions, this`membershipList, this`carried, this`counts, this`removals
      ensures Valid() && outs == Counted(old(outs), old(voteOutSessions), id)
      ensures removals == if OutCarried(old(outs)[id]) then old(removals) + [id] else old(removals)
      ensures membershipList == Decide(old(membershipList), old(outs)[id])
      ensures voteOutSessions == OpenAfter(old(voteOutSessions), old(outs)[id])
      ensures self in old(membershipList) ==> self in membershipList
      ensures old(outs)[id].nacked != {} ==>
        membershipList == old(membershipList) && voteOutSessions == old(voteOutSessions) - {old(outs)[id].target}
      ensures old(outs)[id].nacked == {} && |old(outs)[id].acked| >= Needed(|old(outs)[id].members| - 1) ==>
        && old(outs)[id].target !in membershipList && removals == old(removals) + [id]
        && voteOutSessions == old(voteOutSessions) - {old(outs)[id].target} && outs[id].outcome.Some?
      ensures old(outs)[id].nacked != {} && old(outs)[id].target in old(voteOutSessions) ==>
        && old(voteOutSessions)[old(outs)[id].target] < |outs|
        && outs[old(voteOutSessions)[old(outs)[id].target]].outcome.Some?
      ensures old(outs)[id].nacked == {} && |old(outs)[id].acked| < Needed(|old(outs)[id].members| - 1) ==>
        outs == old(outs) && voteOutSessions == old(voteOutSessions) && membershipList == old(membershipList)
    {
      var decision := TallyOut(id);
      if decision.None? { return; }
      if decision == Some(Rejected(Nacked)) {
        CancelOut(outs[id].target, Nacked);
        return;
      }
      Remove(id);
      CompleteOut(id, Accepted);
    }

    /** handleVoteOut. A vote on this replica is answered with a Nack and opens nothing. */
    method HandleVoteOut(target: Option<ReplicaId>, sender: ReplicaId, suspected: bool) returns (answer: Option<bool>)
      requires Valid()
      modifies this`outs, this`voteOutSessions, this`membershipList, this`carried, this`counts, this`removals
      modifies this`nackedSince, this`outHeard
      ensures Valid()
      ensures answer ==
        if target.None? then None
        else if target.value == self then Some(false)
        else if sender == self || target.value !in old(membershipList) then None
        else Some(suspected)
      ensures target.None? || answer.None? || target.value == self ==>
        outs == old(outs) && voteOutSessions == old(voteOutSessions) && membershipList == old(membershipList)
      ensures target.Some? && target.value != self && answer.Some? ==>
        JoinedVote(old(membershipList), old(outs), old(voteOutSessions), target.value, sender, suspected,
                   membershipList, outs, voteOutSessions)
      ensures self in old(membershipList) ==> self in membershipList
    {
      if target.None? { return None; }
      if target.value == self { return Some(false); }
      if sender == self { return None; }
      var id := JoinVoteOut(target.value, sender);
      if id.None? { return None; }
      RecordOut(id.value, self, suspected);
      CheckVoteOutDecision(id.value);
      return Some(suspected);
    }

    /** A VoteOut was recorded with its initiator's Ack and our own answer, and counted. */
    ghost predicate JoinedVote(list: seq<ReplicaId>, outs: seq<OutVote>, open: map<ReplicaId, nat>, target: ReplicaId,
                               initiator: ReplicaId, ack: bool,
                               list': seq<ReplicaId>, outs': seq<OutVote>, open': map<ReplicaId, nat>)
      requires target in open ==> open[target] < |outs|
    {
      var id := JoinedId(outs, open, target);
      var now := Answered(Joined(list, outs, open, target, initiator), id, self, ack);
      && list' == Decide(list, now[id])
      && open' == OpenAfter(open[target := id], now[id])
      && outs' == Counted(now, open[target := id], id)
    }

    /** handleVoteOutAck and handleVoteOutNack; answers to no open session are dropped. */
    method HandleVoteOutAnswer(target: Option<ReplicaId>, sender: ReplicaId, ack: bool)
      requires Valid()
      modifies this`outs, this`voteOutSessions, this`membershipList, this`carried, this`counts, this`removals
      modifies this`nackedSince, this`outHeard
      ensures Valid()
      ensures target.None? || target.value !in old(voteOutSessions) ==>
        outs == old(outs) && voteOutSessions == old(voteOutSessions) && membershipList == old(membershipList)
      ensures target.Some? && target.value in old(voteOutSessions) ==>
        var id := old(voteOutSessions)[target.value];
        var now := Answered(old(outs), id, sender, ack);
        && membershipList == Decide(old(membershipList), now[id])
        && voteOutSessions == OpenAfter(old(voteOutSessions), now[id])
        && outs == Counted(now, old(voteOutSessions), id)
      ensures self in old(membershipList) ==> self in membershipList
    {
      if target.None? { return; }
      if target.value !in voteOutSessions { return; }
      var id := voteOutSessions[target.value];
      assert OpenAt(membershipList, OutAbs(), target.value);
      RecordOut(id, sender, ack);
      CheckVoteOutDecision(id);
    }

    // ---- addition votes ----

    method StartVoteIn(target: ReplicaId) returns (r: Started)
      requires Valid()
      modifies this`ins, this`voteInSessions, this`inHeard
      ensures Valid() && memberAdds == old(memberAdds)
      ensures target == self ==> r == Refused(TargetIsSelf)
      ensures target != self && target in membershipList ==> r == Refused(AlreadyMember)
      ensures target != self && target !in membershipList && 2 * |membershipList| <= initialGroupSize ==>
        r == Refused(Minority)
      ensures target != self && target !in membershipList && 2 * |membershipList| > initialGroupSize ==>
        if target in old(voteInSessions) then r == Refused(InProgress)
        else r == Session(old(|ins|)) && ins == old(ins) + [InVote(target, membershipList, {self}, {}, false, None)]
             && voteInSessions == old(voteInSessions)[target := old(|ins|)]
             && inHeard == old(inHeard) + [[Heard(self, true)]]
      ensures r.Refused? ==> ins == old(ins) && voteInSessions == old(voteInSessions) && inHeard == old(inHeard)
    {
      if target == self { return Refused(TargetIsSelf); }
      var member := IsMember(target);
      if member { return Refused(AlreadyMember); }
      if 2 * |membershipList| <= initialGroupSize { return Refused(Minority); }
      if target in voteInSessions { return Refused(InProgress); }
      var v := InVote(target, membershipList, {self}, {}, false, None);
      InOpenedOk(membershipList, InAbs(), v, self);
      ghost var s := InOpened(InAbs(), v, self);
      voteInSessions := voteInSessions[target := |ins|];
      ins, inHeard := ins + [v], inHeard + [[Heard(self, true)]];
      assert InAbs() == s;
      return Session(|ins| - 1);
    }

    /** Records one answer: an Ack among the Acks, a Nack among the Nacks. */
    method RecordIn(id: nat, voter: ReplicaId, ack: bool)
      requires Valid() && id < |ins|
      modifies this`ins, this`inHeard
      ensures Valid() && ins == old(ins)[id := InAnswer(old(ins)[id], voter, ack)]
      ensures inHeard == old(inHeard)[id := old(inHeard)[id] + [Heard(voter, ack)]]
      ensures ins[id].acked == if ack then old(ins)[id].acked + {voter} else old(ins)[id].acked
      ensures ins[id].nacked == if ack then old(ins)[id].nacked else old(ins)[id].nacked + {voter}
    {
      InRecordedOk(membershipList, InAbs(), id, voter, ack);
      ghost var s := InRecorded(InAbs(), id, voter, ack);
      if ack {
        ins := ins[id := ins[id].(acked := ins[id].acked + {voter})];
      } else {
        ins := ins[id := ins[id].(nacked := ins[id].nacked + {voter})];
      }
      inHeard := inHeard[id := inHeard[id] + [Heard(voter, ack)]];
      assert InAbs() == s;
    }

    /** checkVoteInDecision, one section: sends MemberAdd on the first tally with a quorum
        and no Nack, never again. */
    method TallyIn(id: nat) returns (nacked: bool)
      requires Valid() && id < |ins|
      modifies this`ins, this`memberAdds, this`quorums
      ensures Valid()
      ensures nacked <==> old(ins)[id].nacked != {}
      ensures memberAdds != old(memberAdds) <==>
        var v := old(ins)[id];
        v.nacked == {} && !v.committed && |v.acked| >= Needed(|v.members|)
      ensures memberAdds == if Commits(old(ins)[id]) then old(memberAdds) + [id] else old(memberAdds)
      ensures ins == if Commits(old(ins)[id]) then old(ins)[id := old(ins)[id].(committed := true)] else old(ins)
    {
      if ins[id].nacked != {} { return true; }
      if ins[id].committed { return false; }
      if |ins[id].acked| < Needed(|ins[id].members|) { return false; }
      InCommittedOk(membershipList, InAbs(), id);
      ghost var s := InCommitted(InAbs(), id);
      quorums := quorums[id := |inHeard[id]|];
      ins := ins[id := ins[id].(committed := true)];
      memberAdds := memberAdds + [id];
      assert InAbs() == s;
      return false;
    }

    /** Closes the open vote about a target, if there is one, and tells its caller. */
    method CloseIn(target: ReplicaId, outcome: Outcome)
      requires Valid()
      modifies this`ins, this`voteInSessions
      ensures Valid() && voteInSessions == old(voteInSessions) - {target}
      ensures InAbs() == InClosed(old(InAbs()), target, outcome)
      ensures ins ==
        if target in old(voteInSessions) then InTold(old(ins), old(voteInSessions)[target], outcome) else old(ins)
    {
      InClosedOk(membershipList, InAbs(), target, outcome);
      ghost var s := InClosed(InAbs(), target, outcome);
      if target !in voteInSessions {
        assert InAbs() == s;
        return;
      }
      var id := voteInSessions[target];
      voteInSessions := voteInSessions - {target};
      if ins[id].outcome.None? { ins := ins[id := ins[id].(outcome := Some(outcome))]; }
      assert InAbs() == s;
    }

    /** handleVoteInAck and handleVoteInNack. A Nack closes the vote and announces nothing; an
        Ack announces the addition exactly when it completes the quorum of a vote without
        Nacks that was not announced before. */
    method HandleVoteInAnswer(target: Option<ReplicaId>, sender: ReplicaId, ack: bool)
      requires Valid()
      modifies this`ins, this`voteInSessions, this`memberAdds, this`quorums, this`inHeard
      ensures Valid()
      ensures target.None? || target.value !in old(voteInSessions) ==>
        && ins == old(ins) && voteInSessions == old(voteInSessions) && memberAdds == old(memberAdds)
        && inHeard == old(inHeard)
      ensures target.Some? && target.value in old(voteInSessions) ==>
        var id := old(voteInSessions)[target.value];
        var v := InAnswer(old(ins)[id], sender, ack);
        && inHeard == old(inHeard)[id := old(inHeard)[id] + [Heard(sender, ack)]]
        && ins == InCounted(old(ins)[id := v], id)
        && voteInSessions == (if v.nacked != {} then old(voteInSessions) - {target.value} else old(voteInSessions))
      ensures target.Some? && target.value in old(voteInSessions) && !ack ==>
        var id := old(voteInSessions)[target.value];
        && memberAdds == old(memberAdds) && target.value !in voteInSessions
        && ins[id].nacked == old(ins)[id].nacked + {sender} && ins[id].acked == old(ins)[id].acked
        && ins[id].outcome == (if old(ins)[id].outcome.None? then Some(Rejected(Nacked)) else old(ins)[id].outcome)
      ensures target.Some? && target.value in old(voteInSessions) && ack ==>
        var id := old(voteInSessions)[target.value];
        var was := old(ins)[id];
        && ins[id].acked == was.acked + {sender} && ins[id].nacked == was.nacked
        && memberAdds == (if was.nacked == {} && !was.committed && |was.acked + {sender}| >= Needed(|was.members|)
                          then old(memberAdds) + [id] else old(memberAdds))
    {
      if target.None? { return; }
      if target.value !in voteInSessions { return; }
      var id := voteInSessions[target.value];
      AnswerCounted(ins, id, sender, ack);
      RecordIn(id, sender, ack);
      var nacked := TallyIn(id);
      if nacked { CloseIn(target.value, Rejected(Nacked)); }
    }

    /** handleMemberAdd and applyMemberAdd: the list grows by a new member at its end, once,
        and the vote about it closes. */
    method HandleMemberAdd(target: Option<ReplicaId>)
      requires Valid()
      modifies this`membershipList, this`ins, this`voteInSessions
      ensures Valid()
      ensures membershipList ==
        if target.None? || target.value == self || target.value in old(membershipList) then old(membershipList)
        else old(membershipList) + [target.value]
      ensures target.Some? && membershipList != old(membershipList) ==>
        voteInSessions == old(voteInSessions) - {target.value}
      ensures target.Some? && membershipList != old(membershipList) && target.value in old(voteInSessions) ==>
        ins == InTold(old(ins), old(voteInSessions)[target.value], Accepted)
    {
      if target.None? { return; }
      if target.value == self { return; }
      var member := IsMember(target.value);
      if member { return; }
      LongerOk(self, membershipList, OutAbs(), target.value);
      InClosedOk(membershipList, InAbs(), target.value, Accepted);
      CloseIn(target.value, Accepted);
      membershipList := membershipList + [target.value];
    }

    // ---- what interleaving can do ----

    /** Whatever the interleaving, a removal goes back to a tally before which nobody had
        answered with a Nack, and Acks had arrived from more senders than half the members
        at the start without the target. It is never of this replica. */
    lemma RemovedOnlyCarried(n: nat)
      requires Valid() && n < |removals|
      ensures removals[n] in carried && removals[n] < |outs|
      ensures
        var v := carried[removals[n]];
        v.nacked == {} && |v.acked| >= (|v.members| - 1) / 2 + 1
        && v.target == outs[removals[n]].target && v.members == outs[removals[n]].members && v.target != self
      ensures
        var id := removals[n];
        && id < |outs| && id < |outHeard| && id in counts && counts[id] <= |outHeard[id]| && outs[id].target != self
        && (forall h :: h in outHeard[id][..counts[id]] ==> h.ack)
        && 2 * |set h | h in outHeard[id][..counts[id]] && h.ack :: h.voter| > |outs[id].members| - 1
    {
      var id := removals[n];
      assert id in removals;
      assert CarriedAt(OutAbs(), id) && SessionAt(self, OutAbs(), id);
      var early := outHeard[id][..counts[id]];
      assert Voters(early, true) == set h | h in early && h.ack :: h.voter;
    }

    /** MemberAdd goes out at most once per session. */
    lemma AnnouncedOnce(n: nat, m: nat)
      requires Valid() && n < m < |memberAdds|
      ensures memberAdds[n] != memberAdds[m]
    {
    }

    /** When a MemberAdd went out, nobody had answered with a Nack, and the Acks that had
        arrived came from more senders than half the members at the start. */
    lemma AnnouncedWithQuorum(n: nat)
      requires Valid() && n < |memberAdds|
      ensures
        var id := memberAdds[n];
        && id < |ins| && id < |inHeard| && id in quorums && quorums[id] <= |inHeard[id]|
        && (forall h :: h in inHeard[id][..quorums[id]] ==> h.ack)
        && 2 * |set h | h in inHeard[id][..quorums[id]] && h.ack :: h.voter| > |ins[id].members|
    {
      var id := memberAdds[n];
      assert id in memberAdds && InSessionAt(InAbs(), id);
      var early := inHeard[id][..quorums[id]];
      assert Voters(early, true) == set h | h in early && h.ack :: h.voter;
    }
  }

  /** A vote-in with one Nack among three members: nothing is announced, and the caller is
      told; with an Ack instead the addition goes out. */
  method OneAnswer(s: ReplicaId, a: ReplicaId, b: ReplicaId, t: ReplicaId, ack: bool) returns (m: Manager)
    requires s != a && t != s && t != a && t != b
    ensures m.Valid() && |m.ins| == 1 && m.memberAdds == if ack then [0] else []
    ensures !ack ==> m.ins[0].outcome == Some(Rejected(Nacked)) && m.voteInSessions == map[]
  {
    m := new Manager(s, [s, a, b], 3);
    var r := m.StartVoteIn(t);
    assert |{s} + {a}| == 2;
    m.HandleVoteInAnswer(Some(t), a, ack);
  }

  /** Between a tally and its removal the pump may run. A caller votes on b; a's own VoteOut
      for b joins the session and makes the majority; the caller's tally carries the vote.
      Then the pump records this replica's Nack, as it does not suspect b, and the caller is
      told Nacked. A second caller opens a new vote on b, and the first caller's removal
      takes b from the list and drops the second session, whose caller is never told. */
  method NackAfterTally(s: ReplicaId, a: ReplicaId, b: ReplicaId) returns (m: Manager)
    requires s != a && s != b && a != b
    ensures m.Valid() && b !in m.membershipList && |m.outs| == 2 && m.removals == [0] && 0 in m.nackedSince
    ensures m.outs[0].target == b && m.outs[0].nacked == {s} && m.outs[0].outcome == Some(Rejected(Nacked))
    ensures m.outs[1].target == b && !Tracked(m.outs, m.carried, m.voteOutSessions, 1)
  {
    m := NackedVote(s, a, b);
    assert m.membershipList[2] == b;
    var r := m.StartVoteOut(b);
    m.Remove(0);
  }

  /** The pump's sections: our Nack, its own tally and the cancellation. */
  method NackedVote(s: ReplicaId, a: ReplicaId, b: ReplicaId) returns (m: Manager)
    requires s != a && s != b && a != b
    ensures m.Valid() && fresh(m) && m.self == s && m.initialGroupSize == 3 && m.membershipList == [s, a, b]
    ensures m.outs == [OutVote(b, [s, a, b], {s, a}, {s}, Some(Rejected(Nacked)))] && m.voteOutSessions == map[]
    ensures m.carried.Keys == {0} && m.nackedSince == {0} && m.removals == []
  {
    m := CarriedVote(s, a, b);
    m.RecordOut(0, s, false);
    assert m.outs[0].nacked == {s};
    var decision := m.TallyOut(0);
    m.CancelOut(b, Nacked);
  }

  /** The pump's joining of a's VoteOut and the first caller's tally. */
  method CarriedVote(s: ReplicaId, a: ReplicaId, b: ReplicaId) returns (m: Manager)
    requires s != a && s != b && a != b
    ensures m.Valid() && fresh(m) && m.self == s && m.initialGroupSize == 3 && m.membershipList == [s, a, b]
    ensures m.outs == [OutVote(b, [s, a, b], {s, a}, {}, None)] && m.voteOutSessions == map[b := 0]
    ensures m.carried == map[0 := m.outs[0]] && m.nackedSince == {} && m.removals == []
  {
    m := StartedVote(s, a, b);
    assert m.membershipList[2] == b;
    var id := m.JoinVoteOut(b, a);
    assert m.outs[0].acked == {s, a} && |{s, a}| == 2;
    var decision := m.TallyOut(0);
  }

  method StartedVote(s: ReplicaId, a: ReplicaId, b: ReplicaId) returns (m: Manager)
    requires s != a && s != b && a != b
    ensures m.Valid() && fresh(m) && m.self == s && m.initialGroupSize == 3 && m.membershipList == [s, a, b]
    ensures m.outs == [OutVote(b, [s, a, b], {s}, {}, None)] && m.voteOutSessions == map[b := 0]
    ensures m.carried == map[] && m.nackedSince == {} && m.removals == []
  {
    m := new Manager(s, [s, a, b], 3);
    assert m.membershipList[2] == b;
    var r := m.StartVoteOut(b);
  }
}
