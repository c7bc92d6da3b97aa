/** The semantic order as an object: commutative operations run eagerly, the others wave
    by wave (order/semorder.go). The output channel is a list. */
module SemOrder {
  import opened Basics
  import opened Vectors
  import opened Causality
  import opened Fixpoint
  import opened Eager
  import opened World
  import opened WaveBuckets
  import SemTrace
  import Total

  class SemOrder {
    const ms: seq<ReplicaId>
    const classOf: Classifier
    var currentWave: nat
    var executed: set<Key>
    var messagesByWave: Buckets
    var seenInWave: map<nat, set<Key>>
    var latestVector: map<ReplicaId, Vector>
    var applied: seq<Envelope>
    /** The envelopes handed over, the strict ones that came after their wave had been
        passed, and the waves processed. */
    ghost var input: seq<Envelope>
    ghost var late: set<Envelope>
    ghost var rounds: seq<SemTrace.Round>

    ghost function Trace(): SemTrace.Trace
      reads this
    {
      SemTrace.Trace(messagesByWave, applied, currentWave, input, late, rounds)
    }

    /** The history kept beside the state is right, and the clocks kept are the newest. */
    ghost predicate Traced()
      reads this
    {
      SemTrace.Traced(ms, classOf, Trace()) && Newest(messagesByWave, latestVector)
    }

    ghost predicate Valid()
      reads this
    {
      && Filed(ms, classOf, messagesByWave)
      && Seen(ms, messagesByWave, seenInWave)
      && executed == Keys(ms, applied)
      && Disciplined(ms, classOf, applied)
      && AllObserved(messagesByWave, applied)
      && WaveOrdered(classOf, applied, currentWave)
      && FromObserved(messagesByWave, latestVector)
    }

    /** Nothing commutative is ready and waiting. */
    ghost predicate Quiet()
      reads this
    {
      Saturated(ms, Pool(messagesByWave, classOf), executed)
    }

    constructor (ms: seq<ReplicaId>, classOf: Classifier)
      ensures Valid() && Quiet() && Traced() && this.ms == ms && this.classOf == classOf
      ensures currentWave == 1 && applied == [] && messagesByWave == map[] && latestVector == map[]
      ensures input == [] && late == {} && rounds == []
    {
      this.ms, this.classOf := ms, classOf;
      currentWave, executed, applied := 1, {}, [];
      messagesByWave, seenInWave, latestVector := map[], map[], map[];
      input, late, rounds := [], {}, [];
    }

    // ---- observing ----

    /** Whether e's clock is the newest of its sender. */
    method IsNewest(e: Envelope) returns (later: bool)
      ensures later <==>
        e.sender !in latestVector || (|e.vc| == |latestVector[e.sender]| && Leq(latestVector[e.sender], e.vc))
    {
      if e.sender !in latestVector { return true; }
      var was := latestVector[e.sender];
      if |e.vc| != |was| { return false; }
      for i := 0 to |was|
        invariant forall k :: 0 <= k < i ==> was[k] <= e.vc[k]
      {
        if e.vc[i] < was[i] {
          assert At(was, i) > At(e.vc, i);
          return false;
        }
      }
      return true;
    }

    method NoteVector(e: Envelope)
      requires Valid() && Observed(messagesByWave, e)
      modifies this`latestVector
      ensures Valid() && latestVector == WithVector(old(latestVector), e)
      ensures e.sender in latestVector
      ensures latestVector[e.sender] ==
        if e.sender !in old(latestVector) then e.vc
        else
          var was := old(latestVector)[e.sender];
          if |e.vc| == |was| && forall i: nat :: At(was, i) <= At(e.vc, i) then e.vc else was
      ensures latestVector - {e.sender} == old(latestVector) - {e.sender}
    {
      var later := IsNewest(e);
      if later { latestVector := latestVector[e.sender := e.vc]; }
    }

    method FileNew(e: Envelope)
      requires Valid() && Numbered(ms, e) && (Class1(classOf, e) ==> InRange(ms, e))
      modifies this`messagesByWave, this`seenInWave
      ensures Valid() && messagesByWave == FiledAlso(old(messagesByWave), e) && Observed(messagesByWave, e)
    {
      FiledAlsoKeeps(ms, classOf, messagesByWave, seenInWave, e);
      FiledAlsoObserves(messagesByWave, latestVector, applied, e);
      var w := Wave(e.vc);
      seenInWave := seenInWave[w := (if w in seenInWave then seenInWave[w] else {}) + {KeyOf(ms, e)}];
      messagesByWave := FiledAlso(messagesByWave, e);
    }

    /** e has a number and its key is new to its wave. */
    ghost predicate IsNew(e: Envelope)
      reads this
    {
      Numbered(ms, e) && KeyOf(ms, e) !in Keys(ms, Bucket(messagesByWave, Wave(e.vc)))
    }

    /** Files a delivered envelope; a sender without a number and a repeated key are
        ignored. */
    method FileIfNew(e: Envelope)
      requires Valid() && (Class1(classOf, e) ==> InRange(ms, e))
      modifies this`messagesByWave, this`seenInWave, this`latestVector
      ensures Valid()
      ensures messagesByWave == if old(IsNew(e)) then FiledAlso(old(messagesByWave), e) else old(messagesByWave)
      ensures latestVector == if old(IsNew(e)) then WithVector(old(latestVector), e) else old(latestVector)
      ensures !(0 <= SlotOf(ms, e.sender) < |e.vc|) ==> unchanged(this)
    {
      var slot := SlotOf(ms, e.sender);
      if slot < 0 || slot >= |e.vc| { return; }
      var w, key := Wave(e.vc), KeyOf(ms, e);
      var bucket := if w in seenInWave then seenInWave[w] else {};
      if key in bucket { return; }
      FileNew(e);
      NoteVector(e);
    }

    /** One envelope is handed over. A strict operation whose wave has been passed is filed
        too, but late. */
    method Observe(e: Envelope)
      requires Valid() && Traced() && (Class1(classOf, e) ==> InRange(ms, e))
      modifies this`messagesByWave, this`seenInWave, this`latestVector, this`input, this`late
      ensures Valid() && Traced() && Trace() == SemTrace.Observe(ms, classOf, old(Trace()), e)
      ensures latestVector == if old(IsNew(e)) then WithVector(old(latestVector), e) else old(latestVector)
    {
      ghost var t := SemTrace.Observe(ms, classOf, Trace(), e);
      SemTrace.ObserveKeeps(ms, classOf, Trace(), e);
      NewestNext(messagesByWave, latestVector, e);
      FileIfNew(e);
      input, late := t.input, t.late;
      assert Trace() == t;
    }

    // ---- eager execution ----

    method PredecessorsExecuted(e: Envelope) returns (ready: bool)
      requires InRange(ms, e)
      ensures ready <==> Numbered(ms, e) && Parents(ms, e) <= executed
    {
      var own := SlotOf(ms, e.sender);
      if own < 0 || own >= |e.vc| { return false; }
      for i := 0 to |e.vc|
        invariant forall k: nat :: k < i && Required(ms, e, k) > 0 ==> Key(ms[k], Required(ms, e, k)) in executed
      {
        var dep := if i == own then (if e.vc[own] <= 1 then 0 else e.vc[own] - 1) else e.vc[i];
        assert dep == Required(ms, e, i) && (i >= |ms| ==> At(e.vc, i) == 0);
        if dep > 0 && Key(ms[i], dep) !in executed {
          assert Key(ms[i], dep) in Parents(ms, e);
          return false;
        }
      }
      return true;
    }

    method ApplyEnv(e: Envelope)
      requires Valid() && Observed(messagesByWave, e) && KeyOf(ms, e) !in executed
      requires if Class1(classOf, e) then Parents(ms, e) <= executed else Wave(e.vc) == currentWave
      modifies this`executed, this`applied
      ensures Valid() && applied == old(applied) + [e] && executed == old(executed) + {KeyOf(ms, e)}
    {
      KeysAppend(ms, applied, e);
      DisciplinedExtend(ms, classOf, applied, e);
      executed := executed + {KeyOf(ms, e)};
      applied := applied + [e];
    }

    /** Only commutative operations of the pool were appended since `mark`. */
    ghost predicate EagerSince(mark: nat)
      reads this
    {
      mark <= |applied| && forall e :: e in applied[mark..] ==> Class1(classOf, e) && e in Pool(messagesByWave, classOf)
    }

    /** Applies e when it is commutative, new and ready. */
    method TryOne(e: Envelope, ghost mark: nat) returns (progressed: bool)
      requires Valid() && Observed(messagesByWave, e) && EagerSince(mark)
      modifies this`executed, this`applied
      ensures Valid() && EagerSince(mark) && old(applied) <= applied
      ensures
        if progressed then old(applied) < applied
        else applied == old(applied) && Handled(ms, classOf, executed, e)
    {
      if !Class1(classOf, e) { return false; }
      if KeyOf(ms, e) in executed { return false; }
      progressed := PredecessorsExecuted(e);
      if progressed {
        assert e in Pool(messagesByWave, classOf);
        ApplyEnv(e);
      }
    }

    /** Applies every ready commutative operation of one bucket, in list order. */
    method TryBucket(w: nat, ghost mark: nat) returns (progressed: bool)
      requires Valid() && w in messagesByWave && EagerSince(mark)
      modifies this`executed, this`applied
      ensures Valid() && EagerSince(mark) && old(applied) <= applied
      ensures if progressed then old(applied) < applied else applied == old(applied)
      ensures !progressed ==> AllHandled(ms, classOf, executed, messagesByWave[w])
    {
      progressed := false;
      var envs := messagesByWave[w];
      for i := 0 to |envs|
        invariant Valid() && EagerSince(mark) && old(applied) <= applied
        invariant if progressed then old(applied) < applied else applied == old(applied)
        invariant !progressed ==> AllHandled(ms, classOf, executed, envs[..i])
      {
        BucketObserved(ms, classOf, messagesByWave, w, i);
        var p := TryOne(envs[i], mark);
        progressed := progressed || p;
        if !progressed { AllHandledExtend(ms, classOf, executed, envs, i); }
      }
      assert envs[..|envs|] == envs;
    }

    /** One pass over all buckets, in the arbitrary order of map iteration. */
    method TryPass(ghost mark: nat) returns (progressed: bool)
      requires Valid() && EagerSince(mark)
      modifies this`executed, this`applied
      ensures Valid() && EagerSince(mark) && old(applied) <= applied
      ensures if progressed then old(applied) < applied else Quiet()
    {
      progressed := false;
      var todo := messagesByWave.Keys;
      while todo != {}
        invariant todo <= messagesByWave.Keys
        invariant Valid() && EagerSince(mark) && old(applied) <= applied
        invariant if progressed then old(applied) < applied else applied == old(applied)
        invariant !progressed ==>
          forall w :: w in messagesByWave && w !in todo ==> AllHandled(ms, classOf, executed, messagesByWave[w])
        decreases todo
      {
        var w :| w in todo;
        todo := todo - {w};
        var p := TryBucket(w, mark);
        progressed := progressed || p;
      }
      if !progressed {
        forall e | e in Pool(messagesByWave, classOf) && Parents(ms, e) <= executed ensures KeyOf(ms, e) in executed {
          var w :| w in messagesByWave && e in messagesByWave[w];
          assert AllHandled(ms, classOf, executed, messagesByWave[w]) && Handled(ms, classOf, executed, e);
        }
      }
    }

    /** Runs until nothing is ready; the executed set is the retry fixpoint, whatever the
        iteration order. */
    method TryEagerExecutions()
      requires Valid()
      modifies this`executed, this`applied
      ensures Valid() && Quiet() && old(applied) <= applied && EagerSince(old(|applied|))
      ensures executed == Retry(ms, Pool(messagesByWave, classOf), old(executed))
    {
      ghost var mark := |applied|;
      var progressed := true;
      while progressed
        invariant Valid() && EagerSince(mark) && old(applied) <= applied
        invariant !progressed ==> Quiet()
        decreases PoolKeys(ms, messagesByWave, classOf) - executed, progressed
      {
        ghost var before := applied;
        progressed := TryPass(mark);
        if progressed { PoolShrinks(ms, messagesByWave, classOf, before, applied); }
      }
      TailDerives(ms, classOf, Pool(messagesByWave, classOf), applied, mark);
      assert applied[..mark] == old(applied);
      DerivationIsRetry(ms, Pool(messagesByWave, classOf), old(executed), applied[mark..]);
    }

    // ---- wave by wave ----

    method IsMessageStableLocal(e: Envelope) returns (stable: bool)
      ensures stable == StableLocal(ms, latestVector, e)
      ensures stable <==>
        && 0 <= SlotOf(ms, e.sender) < |e.vc|
        && forall r :: r in ms && r != e.sender ==>
             r in latestVector && At(latestVector[r], SlotOf(ms, e.sender)) >= e.vc[SlotOf(ms, e.sender)]
    {
      var slot := SlotOf(ms, e.sender);
      if slot < 0 || slot >= |e.vc| { return false; }
      for i := 0 to |ms|
        invariant forall r :: r in ms[..i] && r != e.sender ==>
          r in latestVector && At(latestVector[r], slot) >= SeqOf(ms, e)
      {
        var r := ms[i];
        assert ms[..i + 1] == ms[..i] + [r];
        if r == e.sender { continue; }
        if r !in latestVector || At(latestVector[r], slot) < e.vc[slot] { return false; }
      }
      assert ms[..|ms|] == ms;
      return true;
    }

    method WaveCompleteLocal(w: nat) returns (complete: bool)
      ensures complete == CompleteLocal(ms, latestVector, messagesByWave, w)
      ensures complete <==>
        w in messagesByWave && exists e :: e in messagesByWave[w] && StableLocal(ms, latestVector, e)
    {
      if w !in messagesByWave { return false; }
      var envs := messagesByWave[w];
      for i := 0 to |envs|
        invariant forall e :: e in envs[..i] ==> !StableLocal(ms, latestVector, e)
      {
        var stable := IsMessageStableLocal(envs[i]);
        if stable { return true; }
        assert envs[..i + 1] == envs[..i] + [envs[i]];
      }
      assert envs[..|envs|] == envs;
      return false;
    }

    method ContinuationProperty() returns (past: bool)
      ensures past == ContinuationLocal(ms, latestVector, currentWave)
      ensures past <==> forall r :: r in ms ==> r in latestVector && Wave(latestVector[r]) > currentWave
    {
      for i := 0 to |ms|
        invariant ContinuationLocal(ms[..i], latestVector, currentWave)
      {
        var r := ms[i];
        if r !in latestVector || Wave(latestVector[r]) <= currentWave { return false; }
        assert ms[..i + 1] == ms[..i] + [r];
      }
      assert ms[..|ms|] == ms;
      return true;
    }

    method MaxObservedWave() returns (top: nat)
      ensures forall w :: w in messagesByWave ==> w <= top
    {
      top := 0;
      var todo := messagesByWave.Keys;
      while todo != {}
        invariant todo <= messagesByWave.Keys
        invariant forall w :: w in messagesByWave && w !in todo ==> w <= top
        decreases todo
      {
        var w :| w in todo;
        todo := todo - {w};
        if w > top { top := w; }
      }
    }

    method AnyStrict(w: nat) returns (any: bool)
      ensures any == HasStrict(messagesByWave, classOf, w)
    {
      if w !in messagesByWave { return false; }
      var envs := messagesByWave[w];
      for i := 0 to |envs|
        invariant forall e :: e in envs[..i] ==> Class1(classOf, e)
      {
        if !Class1(classOf, envs[i]) { return true; }
        assert envs[..i + 1] == envs[..i] + [envs[i]];
      }
      assert envs[..|envs|] == envs;
      return false;
    }

    /** The first wave from start on that holds a strict operation. */
    method FindNextStrictWave(start: nat) returns (next: Option<nat>)
      ensures next.Some? ==> start <= next.value && HasStrict(messagesByWave, classOf, next.value)
      ensures next.Some? ==> forall w :: start <= w < next.value ==> !HasStrict(messagesByWave, classOf, w)
      ensures next.None? ==> forall w :: start <= w ==> !HasStrict(messagesByWave, classOf, w)
    {
      var candidate := start;
      var top := MaxObservedWave();
      while true
        invariant start <= candidate
        invariant forall w :: start <= w < candidate ==> !HasStrict(messagesByWave, classOf, w)
        decreases if candidate <= top then top + 1 - candidate else 0
      {
        var any := AnyStrict(candidate);
        if any { return Some(candidate); }
        if candidate > top { return None; }
        candidate := candidate + 1;
      }
    }

    /** Sorts the current bucket in place by sender bytes. */
    method SortBucket()
      requires Valid() && currentWave in messagesByWave
      modifies this`messagesByWave
      ensures Valid() && SameBuckets(old(messagesByWave), messagesByWave)
      ensures SenderSorted(messagesByWave[currentWave])
      ensures
        var s := messagesByWave[currentWave];
        forall p, q :: 0 <= p < q < |s| ==>
          s[p].sender == s[q].sender || exists i: nat :: SmallerAt(s[p].sender, s[q].sender, i)
    {
      var sorted := Total.SortBySender(messagesByWave[currentWave]);
      Reordered(ms, classOf, messagesByWave, currentWave, sorted, seenInWave);
      ReorderedObserves(messagesByWave, currentWave, sorted, latestVector, applied);
      messagesByWave := messagesByWave[currentWave := sorted];
    }

    /** Applies e unless it is commutative or already executed. */
    method ApplyIfStrict(e: Envelope)
      requires Valid() && Observed(messagesByWave, e) && Wave(e.vc) == currentWave
      modifies this`executed, this`applied
      ensures Valid()
      ensures applied ==
        if Class1(classOf, e) || KeyOf(ms, e) in old(executed) then old(applied) else old(applied) + [e]
    {
      if Class1(classOf, e) { return; }
      if KeyOf(ms, e) in executed { return; }
      ApplyEnv(e);
    }

    /** Applies the strict operations of the current bucket, in list order. */
    method ApplyStrict()
      requires Valid() && currentWave in messagesByWave
      modifies this`executed, this`applied
      ensures Valid() && applied == old(applied) + StrictOf(ms, classOf, messagesByWave[currentWave], old(executed))
    {
      var envs := messagesByWave[currentWave];
      for i := 0 to |envs|
        invariant Valid() && applied == old(applied) + StrictOf(ms, classOf, envs[..i], old(executed))
      {
        BucketObserved(ms, classOf, messagesByWave, currentWave, i);
        StrictOfMore(ms, classOf, envs, i, old(applied));
        ApplyIfStrict(envs[i]);
      }
      assert envs[..|envs|] == envs;
    }

    method SortCurrent()
      requires Valid() && Traced() && currentWave in messagesByWave
      modifies this`messagesByWave
      ensures Valid() && Traced() && SameBuckets(old(messagesByWave), messagesByWave)
      ensures SenderSorted(messagesByWave[currentWave])
    {
      ghost var t := Trace();
      SortBucket();
      NewestSame(t.buckets, messagesByWave, latestVector);
      SemTrace.SortKeeps(ms, classOf, t, messagesByWave);
      assert Trace() == t.(buckets := messagesByWave);
    }

    /** The strict operations of the sorted current bucket go out. */
    method SendSorted()
      requires Valid() && Traced() && currentWave in messagesByWave && ContinuationLocal(ms, latestVector, currentWave)
      requires SenderSorted(messagesByWave[currentWave])
      modifies this`executed, this`applied, this`rounds
      ensures Valid() && Traced() && Trace() == SemTrace.Send(ms, classOf, old(Trace()), latestVector)
    {
      ghost var t := SemTrace.Send(ms, classOf, Trace(), latestVector);
      SemTrace.SendKeeps(ms, classOf, Trace(), latestVector);
      ApplyStrict();
      rounds := t.rounds;
      assert Trace() == t;
    }

    lemma StrictSent(before: seq<Envelope>)
      requires Valid() && currentWave in messagesByWave
      requires applied == before + StrictOf(ms, classOf, messagesByWave[currentWave], Keys(ms, before))
      ensures StrictDone(ms, classOf, messagesByWave, executed, currentWave)
    {
      StrictOfElements(ms, classOf, messagesByWave[currentWave], Keys(ms, before));
      KeysConcat(ms, before, StrictOf(ms, classOf, messagesByWave[currentWave], Keys(ms, before)));
    }

    /** The strict operations of the current bucket go out by sender. */
    method SendStrict()
      requires Valid() && Traced() && currentWave in messagesByWave && ContinuationLocal(ms, latestVector, currentWave)
      modifies this`executed, this`applied, this`messagesByWave, this`rounds
      ensures Valid() && Traced() && SameBuckets(old(messagesByWave), messagesByWave)
      ensures
        var news := StrictOf(ms, classOf, messagesByWave[currentWave], old(executed));
        && applied == old(applied) + news && SenderSorted(news)
        && rounds == old(rounds)
             + [SemTrace.Round(currentWave, |input|, messagesByWave[currentWave], latestVector, |old(applied)|, news)]
      ensures StrictDone(ms, classOf, messagesByWave, executed, currentWave)
    {
      SortCurrent();
      StrictOfSorted(ms, classOf, messagesByWave[currentWave], executed);
      SendSorted();
      StrictSent(old(applied));
    }

    /** Commutative operations go out, as long as any is ready. */
    method SendEager()
      requires Valid() && Traced()
      modifies this`executed, this`applied
      ensures Valid() && Traced() && Quiet() && old(applied) <= applied && old(executed) <= executed
    {
      ghost var t := Trace();
      TryEagerExecutions();
      assert Trace() == t.(applied := applied);
      SemTrace.EagerKeeps(ms, classOf, t, Trace());
      assert applied == old(applied) + applied[|old(applied)|..];
      KeysConcat(ms, old(applied), applied[|old(applied)|..]);
    }

    /** One open wave: its strict operations go out by sender, then whatever they freed. */
    method ProcessWave()
      requires Valid() && Traced() && currentWave in messagesByWave && ContinuationLocal(ms, latestVector, currentWave)
      modifies this`executed, this`applied, this`messagesByWave, this`rounds
      ensures Valid() && Traced() && Quiet() && SameBuckets(old(messagesByWave), messagesByWave)
      ensures
        var news := StrictOf(ms, classOf, messagesByWave[currentWave], old(executed));
        && old(applied) + news <= applied && SenderSorted(news)
        && rounds == old(rounds)
             + [SemTrace.Round(currentWave, |input|, messagesByWave[currentWave], latestVector, |old(applied)|, news)]
      ensures StrictDone(ms, classOf, messagesByWave, executed, currentWave)
    {
      SendStrict();
      SendEager();
    }

    /** Both gates of the current wave are open. */
    ghost predicate Open()
      reads this
    {
      CompleteLocal(ms, latestVector, messagesByWave, currentWave) && ContinuationLocal(ms, latestVector, currentWave)
    }

    /** Nothing more can go out: a gate is closed, or the wave is done and no strict
        operation lies beyond it. */
    ghost predicate Stuck()
      reads this
    {
      !Open() || (StrictDone(ms, classOf, messagesByWave, executed, currentWave)
                  && forall w :: currentWave < w ==> !HasStrict(messagesByWave, classOf, w))
    }

    method IsOpen() returns (open: bool)
      ensures open == Open()
      ensures open <==>
        CompleteLocal(ms, latestVector, messagesByWave, currentWave)
        && ContinuationLocal(ms, latestVector, currentWave)
    {
      open := WaveCompleteLocal(currentWave);
      if open { open := ContinuationProperty(); }
    }

    /** Moves from a finished wave to the next one with a strict operation, if any. Strict
        operations of the waves in between that arrive from now on are late. */
    method MoveOn() returns (moved: bool)
      requires Valid() && Traced() && Quiet() && StrictDone(ms, classOf, messagesByWave, executed, currentWave)
      modifies this`currentWave
      ensures Valid() && Traced() && Quiet()
      ensures moved ==> old(currentWave) < currentWave && HasStrict(messagesByWave, classOf, currentWave)
      ensures forall w :: old(currentWave) < w < currentWave ==> !HasStrict(messagesByWave, classOf, w)
      ensures !moved ==> currentWave == old(currentWave) && Stuck()
    {
      var next := FindNextStrictWave(currentWave + 1);
      if next.None? { return false; }
      forall w | currentWave <= w < next.value ensures StrictDone(ms, classOf, messagesByWave, executed, w) {
        assert w > currentWave ==> !HasStrict(messagesByWave, classOf, w);
      }
      SemTrace.MoveKeeps(ms, classOf, Trace(), next.value);
      currentWave := next.value;
      return true;
    }

    /** Processes the current wave when it is complete and every member has sent beyond
        it, and moves to the next wave with a strict operation. */
    method TryAdvance() returns (moved: bool)
      requires Valid() && Traced() && Quiet()
      modifies this`executed, this`applied, this`messagesByWave, this`currentWave, this`rounds
      ensures Valid() && Traced() && Quiet() && old(applied) <= applied
      ensures SameBuckets(old(messagesByWave), messagesByWave)
      ensures moved ==> old(currentWave) in messagesByWave && old(currentWave) < currentWave
      ensures moved ==> HasStrict(messagesByWave, classOf, currentWave)
      ensures !moved ==> currentWave == old(currentWave) && Stuck()
      ensures moved || applied != old(applied) ==> old(Open())
    {
      moved := IsOpen();
      if !moved { return; }
      ProcessWave();
      moved := MoveOn();
    }

    /** Works through the open waves and stops only where nothing more can go out. What became
        of the strict operations of the waves passed is in Traced. */
    method AdvanceWave()
      requires Valid() && Traced() && Quiet()
      modifies this`executed, this`applied, this`messagesByWave, this`currentWave, this`rounds
      ensures Valid() && Traced() && Quiet() && old(applied) <= applied
      ensures SameBuckets(old(messagesByWave), messagesByWave)
      ensures old(currentWave) <= currentWave && Stuck()
      ensures currentWave != old(currentWave) ==> old(Open()) && HasStrict(messagesByWave, classOf, currentWave)
    {
      ghost var top := MaxObservedWave();
      var moved := true;
      while moved
        invariant Valid() && Traced() && Quiet() && old(applied) <= applied
        invariant SameBuckets(old(messagesByWave), messagesByWave)
        invariant old(currentWave) <= currentWave && (!moved ==> Stuck())
        invariant currentWave == old(currentWave) ==> old(Open()) == Open()
        invariant currentWave != old(currentWave) ==> old(Open()) && HasStrict(messagesByWave, classOf, currentWave)
        invariant forall w :: w in messagesByWave ==> w <= top
        decreases if currentWave <= top then top + 1 - currentWave else 0, moved
      {
        ghost var m := messagesByWave;
        moved := TryAdvance();
        SameGate(ms, latestVector, m, messagesByWave, old(currentWave));
        SameStrict(m, messagesByWave, classOf, currentWave);
      }
    }

    /** Everything done for one delivered envelope. Afterwards the executed set is the
        retry fixpoint of all commutative operations observed, over the strict operations
        executed: the order of arrival and of map iteration left no trace in it. */
    method Pump(e: Envelope)
      requires Valid() && Traced() && (Class1(classOf, e) ==> InRange(ms, e))
      modifies this
      ensures Valid() && Traced() && Quiet() && old(applied) <= applied && old(currentWave) <= currentWave && Stuck()
      ensures executed == Retry(ms, Pool(messagesByWave, classOf), StrictKeys(ms, classOf, applied))
      ensures
        var t := SemTrace.Observe(ms, classOf, old(Trace()), e);
        && input == t.input && late == t.late && SameBuckets(t.buckets, messagesByWave)
        && (currentWave != old(currentWave) ==>
              CompleteLocal(ms, latestVector, t.buckets, t.wave) && ContinuationLocal(ms, latestVector, t.wave)
              && HasStrict(messagesByWave, classOf, currentWave))
      ensures latestVector == if old(IsNew(e)) then WithVector(old(latestVector), e) else old(latestVector)
    {
      Observe(e);
      SendEager();
      AdvanceWave();
      PoolHolds();
      ExecutedIsRetry(ms, classOf, Pool(messagesByWave, classOf), applied);
    }

    lemma PoolHolds()
      requires Valid()
      ensures forall x :: x in applied && Class1(classOf, x) ==> x in Pool(messagesByWave, classOf)
    {
      forall x | x in applied && Class1(classOf, x) ensures x in Pool(messagesByWave, classOf) {
        assert Observed(messagesByWave, x);
      }
    }
  }
}
