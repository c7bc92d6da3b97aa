/** Tombstone collection on values, and why no reader can tell that it happened
    (examples/kvstore/kvstore.go). */
module Tombstones {
  import opened Basics
  import opened Lww

  /** The store's entries and the highest wave applied per sender. */
  datatype Kv = Kv(data: Data, seen: map<ReplicaId, nat>)

  function Note(seen: map<ReplicaId, nat>, m: Message): map<ReplicaId, nat> {
    if m.wave > (if m.sender in seen then seen[m.sender] else 0) then seen[m.sender := m.wave] else seen
  }

  /** A payload that does not parse, or holds no command, leaves no trace at all. */
  function ApplyTo(s: Kv, m: Message): Kv {
    if Commands(m) == [] then s else Kv(DoAll(s.data, EventsOf(m)), Note(s.seen, m))
  }

  /** The wave below which no member will write again; None when a member is silent. */
  function SafeWave(seen: map<ReplicaId, nat>, members: seq<ReplicaId>): Option<nat> {
    if members == [] then None
    else
      var n := |members| - 1;
      if members[n] !in seen || seen[members[n]] == 0 then None
      else if n == 0 then Some(seen[members[n]])
      else
        var rest := SafeWave(seen, members[..n]);
        if rest.Some? && seen[members[n]] < rest.value then Some(seen[members[n]]) else rest
  }

  /** It is the minimum of the members' marks, and there is none when there is no member or
      one of them has no mark. */
  lemma {:induction false} SafeWaveIsMinimum(seen: map<ReplicaId, nat>, members: seq<ReplicaId>)
    ensures
      var w := SafeWave(seen, members);
      && (w.Some? <==> members != [] && forall r :: r in members ==> r in seen && seen[r] > 0)
      && (w.Some? ==> forall r :: r in members ==> w.value <= seen[r])
      && (w.Some? ==> exists r :: r in members && w.value == seen[r])
  {
    if members != [] {
      var n := |members| - 1;
      SafeWaveIsMinimum(seen, members[..n]);
      assert members == members[..n] + [members[n]];
    }
  }

  lemma SafeWaveNext(seen: map<ReplicaId, nat>, members: seq<ReplicaId>, i: nat)
    requires i < |members|
    ensures
      var r, rest := members[i], SafeWave(seen, members[..i]);
      SafeWave(seen, members[..i + 1]) ==
        if r !in seen || seen[r] == 0 then None
        else if i == 0 || (rest.Some? && seen[r] < rest.value) then Some(seen[r])
        else rest
  {
    assert members[..i + 1][..i] == members[..i];
  }

  lemma SilentMember(seen: map<ReplicaId, nat>, members: seq<ReplicaId>, i: nat)
    requires i < |members| && (members[i] !in seen || seen[members[i]] == 0)
    ensures SafeWave(seen, members) == None
  {
    SafeWaveIsMinimum(seen, members);
  }

  function Kept(data: Data, w: nat): Data {
    map k | k in data && !(data[k].deleted && data[k].wave < w) :: data[k]
  }

  function Sweep(s: Kv, members: seq<ReplicaId>): Kv {
    var w := SafeWave(s.seen, members);
    if w.Some? then s.(data := Kept(s.data, w.value)) else s
  }

  datatype Action = Deliver(msg: Message) | Collect(members: seq<ReplicaId>)

  function Perform(s: Kv, a: Action): Kv {
    match a
    case Deliver(m) => ApplyTo(s, m)
    case Collect(members) => Sweep(s, members)
  }

  function PerformAll(s: Kv, acts: seq<Action>): Kv
    decreases |acts|
  {
    if acts == [] then s else PerformAll(Perform(s, acts[0]), acts[1..])
  }

  /** The same deliveries and no collection. */
  function ApplyAll(s: Kv, acts: seq<Action>): Kv
    decreases |acts|
  {
    if acts == [] then s
    else ApplyAll(if acts[0].Deliver? then ApplyTo(s, acts[0].msg) else s, acts[1..])
  }

  // ---- hypotheses on a delivery sequence ----

  /** Each sender's waves never go down; they may repeat. */
  ghost predicate WavesRise(acts: seq<Action>) {
    forall i, j ::
      0 <= i < j < |acts| && acts[i].Deliver? && acts[j].Deliver? && acts[i].msg.sender == acts[j].msg.sender ==>
      acts[i].msg.wave <= acts[j].msg.wave
  }

  /** A collection consults every replica that delivers later. */
  ghost predicate Consulted(acts: seq<Action>) {
    forall i, j :: 0 <= i < j < |acts| && acts[i].Collect? && acts[j].Deliver? ==> acts[j].msg.sender in acts[i].members
  }

  // ---- the simulation ----

  /** No later delivery is at or below wave w. */
  ghost predicate Past(w: nat, acts: seq<Action>) {
    forall i :: 0 <= i < |acts| && acts[i].Deliver? ==> w < acts[i].msg.wave
  }

  ghost predicate SeenBelow(seen: map<ReplicaId, nat>, acts: seq<Action>) {
    forall i :: 0 <= i < |acts| && acts[i].Deliver? && acts[i].msg.sender in seen ==>
      seen[acts[i].msg.sender] <= acts[i].msg.wave
  }

  predicate Agree(full: Data, swept: Data) {
    forall k :: k in swept ==> k in full && full[k] == swept[k]
  }

  predicate Dropped(full: Data, swept: Data, k: Bytes) {
    k in full && k !in swept
  }

  /** The swept store lacks only tombstones older than anything still to come. */
  ghost predicate Sim(full: Data, swept: Data, acts: seq<Action>) {
    Agree(full, swept) && forall k :: Dropped(full, swept, k) ==> full[k].deleted && Past(full[k].wave, acts)
  }

  ghost predicate Older(full: Data, swept: Data, w: nat) {
    Agree(full, swept) && forall k :: Dropped(full, swept, k) ==> full[k].deleted && full[k].wave < w
  }

  ghost predicate FewerDropped(full: Data, swept: Data, full': Data, swept': Data) {
    forall k :: Dropped(full', swept', k) ==> Dropped(full, swept, k) && full'[k] == full[k]
  }

  lemma {:induction false} DoAllSim(full: Data, swept: Data, es: seq<Event>, w: nat)
    requires Older(full, swept, w) && forall e :: e in es ==> e.msg.wave == w
    ensures Agree(DoAll(full, es), DoAll(swept, es))
    ensures FewerDropped(full, swept, DoAll(full, es), DoAll(swept, es))
  {
    if es != [] {
      var rest := es[..|es| - 1];
      DoAllSim(full, swept, rest, w);
      var x, y := DoAll(full, rest), DoAll(swept, rest);
      assert es[|es| - 1] in es;
      forall k | Dropped(x, y, k) ensures x[k].wave < w { assert Dropped(full, swept, k); }
    }
  }

  lemma DeliverSim(full: Kv, swept: Kv, acts: seq<Action>)
    requires acts != [] && acts[0].Deliver? && full.seen == swept.seen && Sim(full.data, swept.data, acts)
    requires WavesRise(acts) && SeenBelow(full.seen, acts)
    ensures Sim(ApplyTo(full, acts[0].msg).data, ApplyTo(swept, acts[0].msg).data, acts[1..])
    ensures SeenBelow(ApplyTo(full, acts[0].msg).seen, acts[1..])
  {
    var m := acts[0].msg;
    forall k | Dropped(full.data, swept.data, k)
      ensures full.data[k].wave < m.wave && Past(full.data[k].wave, acts[1..])
    {
      assert Past(full.data[k].wave, acts);
    }
    DoAllSim(full.data, swept.data, EventsOf(m), m.wave);
    forall i | 0 <= i < |acts| - 1 && acts[i + 1].Deliver? && acts[i + 1].msg.sender == m.sender
      ensures m.wave <= acts[1..][i].msg.wave
    {
      assert WavesRise(acts);
    }
  }

  lemma CollectSim(full: Kv, swept: Kv, acts: seq<Action>)
    requires acts != [] && acts[0].Collect? && full.seen == swept.seen && Sim(full.data, swept.data, acts)
    requires Consulted(acts) && SeenBelow(full.seen, acts)
    ensures Sim(full.data, Sweep(swept, acts[0].members).data, acts[1..])
    ensures SeenBelow(full.seen, acts[1..])
  {
    SafeWaveIsMinimum(swept.seen, acts[0].members);
    var swept' := Sweep(swept, acts[0].members);
    forall k | Dropped(full.data, swept'.data, k) ensures full.data[k].deleted && Past(full.data[k].wave, acts[1..]) {
      if Dropped(full.data, swept.data, k) {
        assert Past(full.data[k].wave, acts);
      } else {
        forall i | 0 <= i < |acts| - 1 && acts[1..][i].Deliver? ensures full.data[k].wave < acts[1..][i].msg.wave {
          assert acts[i + 1].msg.sender in acts[0].members;
        }
      }
    }
  }

  lemma TailHypotheses(acts: seq<Action>)
    requires acts != [] && WavesRise(acts) && Consulted(acts)
    ensures WavesRise(acts[1..]) && Consulted(acts[1..])
  {
    var t := acts[1..];
    forall i, j | 0 <= i < j < |t| ensures t[i] == acts[i + 1] && t[j] == acts[j + 1] {}
  }

  lemma {:induction false} SimRun(full: Kv, swept: Kv, acts: seq<Action>)
    requires full.seen == swept.seen && Sim(full.data, swept.data, acts)
    requires WavesRise(acts) && Consulted(acts) && SeenBelow(full.seen, acts)
    ensures Sim(ApplyAll(full, acts).data, PerformAll(swept, acts).data, [])
    decreases |acts|
  {
    if acts != [] {
      TailHypotheses(acts);
      if acts[0].Deliver? {
        DeliverSim(full, swept, acts);
        SimRun(ApplyTo(full, acts[0].msg), ApplyTo(swept, acts[0].msg), acts[1..]);
      } else {
        CollectSim(full, swept, acts);
        SimRun(full, Sweep(swept, acts[0].members), acts[1..]);
      }
    }
  }

  /** Collecting at any points of a delivery sequence leaves every read as it would be
      without any collection. */
  lemma CollectionIsInvisible(acts: seq<Action>, k: Bytes)
    requires WavesRise(acts) && Consulted(acts)
    ensures Visible(PerformAll(Kv(map[], map[]), acts).data, k) == Visible(ApplyAll(Kv(map[], map[]), acts).data, k)
  {
    var empty := Kv(map[], map[]);
    SimRun(empty, empty, acts);
    var full, swept := ApplyAll(empty, acts).data, PerformAll(empty, acts).data;
    assert Dropped(full, swept, k) ==> full[k].deleted;
  }

  // ---- the deliveries of an action sequence ----

  function Deliveries(acts: seq<Action>): seq<Message> {
    if acts == [] then []
    else
      var rest := Deliveries(acts[..|acts| - 1]);
      var a := acts[|acts| - 1];
      if a.Deliver? then rest + [a.msg] else rest
  }

  lemma {:induction false} DeliveredAt(acts: seq<Action>, j: nat)
    requires j < |acts| && acts[j].Deliver?
    ensures acts[j].msg in Deliveries(acts)
  {
    if j < |acts| - 1 { DeliveredAt(acts[..|acts| - 1], j); }
  }

  ghost predicate MessagesRise(msgs: seq<Message>) {
    forall i, j :: 0 <= i < j < |msgs| && msgs[i].sender == msgs[j].sender ==> msgs[i].wave <= msgs[j].wave
  }

  lemma {:induction false} DeliveriesRise(acts: seq<Action>)
    requires MessagesRise(Deliveries(acts))
    ensures WavesRise(acts)
  {
    if acts != [] {
      var n := |acts| - 1;
      var rest, a := acts[..n], acts[n];
      assert forall i :: 0 <= i < |Deliveries(rest)| ==> Deliveries(rest)[i] == Deliveries(acts)[i];
      DeliveriesRise(rest);
      assert forall i, j :: 0 <= i < j < n ==> rest[i] == acts[i] && rest[j] == acts[j];
      forall i | 0 <= i < n && acts[i].Deliver? && a.Deliver? && acts[i].msg.sender == a.msg.sender
        ensures acts[i].msg.wave <= a.msg.wave
      {
        DeliveredAt(rest, i);
        var p :| 0 <= p < |Deliveries(rest)| && Deliveries(rest)[p] == acts[i].msg;
        assert Deliveries(acts)[p] == acts[i].msg && Deliveries(acts)[|Deliveries(rest)|] == a.msg;
      }
    }
  }

  lemma {:induction false} ApplyAllLast(s: Kv, acts: seq<Action>)
    requires acts != []
    ensures ApplyAll(s, acts) == ApplyAll(ApplyAll(s, acts[..|acts| - 1]), [acts[|acts| - 1]])
    decreases |acts|
  {
    if |acts| == 1 {
      assert acts == [acts[0]] && acts[..0] == [];
    } else {
      var s' := if acts[0].Deliver? then ApplyTo(s, acts[0].msg) else s;
      ApplyAllLast(s', acts[1..]);
      assert acts[1..][..|acts| - 2] == acts[..|acts| - 1][1..];
    }
  }

  lemma {:induction false} ApplyAllIsData(acts: seq<Action>)
    ensures ApplyAll(Kv(map[], map[]), acts).data == DataAfter(Deliveries(acts))
  {
    if acts != [] {
      var rest, a := acts[..|acts| - 1], acts[|acts| - 1];
      var s := ApplyAll(Kv(map[], map[]), rest);
      ApplyAllLast(Kv(map[], map[]), acts);
      ApplyAllIsData(rest);
      assert [a][1..] == [];
      if a.Deliver? {
        assert Deliveries(acts)[..|Deliveries(rest)|] == Deliveries(rest);
        assert Commands(a.msg) == [] ==> EventsOf(a.msg) == [];
      }
    }
  }

  /** The mark of a sender is the highest wave among its messages that hold a command, 0 for
      none, whatever was collected in between. */
  lemma {:induction false} SeenIsHighest(acts: seq<Action>, r: ReplicaId)
    ensures
      var seen := PerformAll(Kv(map[], map[]), acts).seen;
      var mark := if r in seen then seen[r] else 0;
      && (forall m :: m in Deliveries(acts) && m.sender == r && Commands(m) != [] ==> m.wave <= mark)
      && (mark > 0 ==> exists m :: m in Deliveries(acts) && m.sender == r && Commands(m) != [] && m.wave == mark)
  {
    if acts != [] {
      var rest, a := acts[..|acts| - 1], acts[|acts| - 1];
      SeenIsHighest(rest, r);
      PerformAllLast(Kv(map[], map[]), acts);
      var s := PerformAll(Kv(map[], map[]), rest);
      var mark := if r in s.seen then s.seen[r] else 0;
      if mark > 0 {
        var m :| m in Deliveries(rest) && m.sender == r && Commands(m) != [] && m.wave == mark;
        assert m in Deliveries(acts);
      }
      if a.Deliver? { assert a.msg in Deliveries(acts); }
    }
  }

  lemma {:induction false} PerformAllLast(s: Kv, acts: seq<Action>)
    requires acts != []
    ensures PerformAll(s, acts) == Perform(PerformAll(s, acts[..|acts| - 1]), acts[|acts| - 1])
    decreases |acts|
  {
    if |acts| == 1 {
      assert acts[1..] == [] && acts[..0] == [];
    } else {
      PerformAllLast(Perform(s, acts[0]), acts[1..]);
      assert acts[1..][..|acts| - 2] == acts[..|acts| - 1][1..];
    }
  }

  // ---- the hypotheses are needed ----

  /** One command that alone makes up a message. */
  function Single(sender: ReplicaId, num: nat, wave: nat, c: Command): Message {
    Message(sender, num, wave, Some([c]))
  }

  lemma ApplySingle(s: Kv, sender: ReplicaId, num: nat, wave: nat, c: Command)
    ensures ApplyTo(s, Single(sender, num, wave, c)).data == Do(s.data, Event(Single(sender, num, wave, c), 0))
    ensures ApplyTo(s, Single(sender, num, wave, c)).seen == Note(s.seen, Single(sender, num, wave, c))
  {
    var m := Single(sender, num, wave, c);
    var x := Event(m, 0);
    assert EventsOf(m) == [x] && [x][..0] == [];
    assert DoAll(s.data, [x]) == Do(DoAll(s.data, []), x);
  }

  /** A late write of a replica the collection did not consult revives a deleted key. */
  lemma UnconsultedWriterRevives(a: ReplicaId, b: ReplicaId, k: Bytes, v: Bytes)
    requires a != b
    ensures
      var s := Kv(map[k := Entry([], 2, Rep16(a), true)], map[a := 3]);
      var late := Single(b, 1, 1, Command(Set, k, v));
      var acts := [Collect([a]), Deliver(late)];
      WavesRise(acts) && !Consulted(acts)
      && Visible(PerformAll(s, acts).data, k) == Some(v)
      && Visible(ApplyAll(s, acts).data, k) == None
  {
    var s := Kv(map[k := Entry([], 2, Rep16(a), true)], map[a := 3]);
    var late := Single(b, 1, 1, Command(Set, k, v));
    var acts := [Collect([a]), Deliver(late)];
    assert acts[0].Collect? && acts[1].Deliver? && acts[1].msg.sender !in acts[0].members;
    ApplySingle(s, b, 1, 1, Command(Set, k, v));
    SafeWaveIsMinimum(s.seen, [a]);
    var t := Sweep(s, [a]);
    assert t.data == map[];
    ApplySingle(t, b, 1, 1, Command(Set, k, v));
    assert acts[1..] == [Deliver(late)] && [Deliver(late)][1..] == [];
    assert PerformAll(s, acts) == PerformAll(t, [Deliver(late)]) == ApplyTo(t, late);
    assert ApplyAll(s, acts) == ApplyAll(s, [Deliver(late)]) == ApplyTo(s, late);
  }

  /** Collecting at the safe wave itself would be wrong: a sender's wave may repeat, and
      the repeated wave may lose to the tombstone. */
  lemma SafeWaveItselfIsKept(a: ReplicaId, b: ReplicaId, k: Bytes, v: Bytes, seen: map<ReplicaId, nat>)
    requires Less(Rep16(b), Rep16(a)) && a in seen && b in seen && seen[a] == seen[b] == 5
    ensures
      var data: Data := map[k := Entry([], 5, Rep16(a), true)];
      var late := Single(b, 2, 5, Command(Set, k, v));
      SafeWave(seen, [a, b]) == Some(5)
      && Kept(data, 5) == data
      && Visible(ApplyTo(Kv(data, seen), late).data, k) == None
      && Visible(ApplyTo(Kv(Kept(data, 6), seen), late).data, k) == Some(v)
  {
    var data: Data := map[k := Entry([], 5, Rep16(a), true)];
    SafeWaveIsMinimum(seen, [a, b]);
    assert [a, b][0] == a && [a, b][1] == b;
    LessTrichotomy(Rep16(b), Rep16(a));
    ApplySingle(Kv(data, seen), b, 2, 5, Command(Set, k, v));
    ApplySingle(Kv(Kept(data, 6), seen), b, 2, 5, Command(Set, k, v));
    assert Kept(data, 6) == map[];
  }
}
