/** The last-writer-wins store on values: applying batches, convergence of stores, and
    tombstone collection (examples/kvstore/kvstore.go). */
module Lww {
  import opened Basics

  datatype Op = Set | Delete | Ack | Unknown
  datatype Command = Command(op: Op, key: Bytes, value: Bytes)

  /** A delivered application message. `num` is the sender's sequence number; a batch of
      None is a payload that does not parse. */
  datatype Message = Message(sender: ReplicaId, num: nat, wave: nat, batch: Option<seq<Command>>)

  /** What the store keeps per key; a deleted entry is a tombstone. */
  datatype Entry = Entry(value: Bytes, wave: nat, originRep: Bytes, deleted: bool)

  type Data = map<Bytes, Entry>

  /** The sender copied into a 16-byte array. */
  function Rep16(sender: ReplicaId): Bytes {
    if |sender| >= 16 then sender[..16] else sender + seq(16 - |sender|, _ => 0)
  }

  /** inc strictly wins against cur. */
  predicate Wins(inc: Entry, cur: Entry) {
    if inc.wave != cur.wave then inc.wave > cur.wave else Less(cur.originRep, inc.originRep)
  }

  /** Same (wave, origin): a later write of the same sender. */
  predicate SameOrigin(inc: Entry, cur: Entry) {
    inc.wave == cur.wave && inc.originRep == cur.originRep
  }

  function Put(data: Data, k: Bytes, inc: Entry): Data {
    if k !in data || SameOrigin(inc, data[k]) || Wins(inc, data[k]) then data[k := inc] else data
  }

  // ---- applying messages, one command at a time ----

  function Commands(m: Message): seq<Command> {
    if m.batch.Some? then m.batch.value else []
  }

  /** The idx-th command of a message. */
  datatype Event = Event(msg: Message, idx: nat)

  predicate Mutates(e: Event) {
    e.idx < |Commands(e.msg)| && (Commands(e.msg)[e.idx].op.Set? || Commands(e.msg)[e.idx].op.Delete?)
  }

  predicate Writes(e: Event, k: Bytes) {
    Mutates(e) && Commands(e.msg)[e.idx].key == k
  }

  function EntryOf(e: Event): Entry
    requires Mutates(e)
  {
    var c := Commands(e.msg)[e.idx];
    Entry(if c.op.Set? then c.value else [], e.msg.wave, Rep16(e.msg.sender), c.op.Delete?)
  }

  function Do(data: Data, e: Event): Data {
    if Mutates(e) then Put(data, Commands(e.msg)[e.idx].key, EntryOf(e)) else data
  }

  function DoAll(data: Data, es: seq<Event>): Data {
    if es == [] then data else Do(DoAll(data, es[..|es| - 1]), es[|es| - 1])
  }

  function EventsOf(m: Message): seq<Event> {
    seq(|Commands(m)|, i requires 0 <= i < |Commands(m)| => Event(m, i))
  }

  function Events(msgs: seq<Message>): seq<Event> {
    if msgs == [] then [] else Events(msgs[..|msgs| - 1]) + EventsOf(msgs[|msgs| - 1])
  }

  /** The store after a sequence of messages. */
  function DataAfter(msgs: seq<Message>): Data {
    if msgs == [] then map[] else DoAll(DataAfter(msgs[..|msgs| - 1]), EventsOf(msgs[|msgs| - 1]))
  }

  lemma {:induction false} DoAllAppend(data: Data, a: seq<Event>, b: seq<Event>)
    ensures DoAll(data, a + b) == DoAll(DoAll(data, a), b)
  {
    if b == [] {
      assert a + b == a;
    } else {
      DoAllAppend(data, a, b[..|b| - 1]);
      assert (a + b)[..|a + b| - 1] == a + b[..|b| - 1];
    }
  }

  lemma {:induction false} DataIsEvents(msgs: seq<Message>)
    ensures DataAfter(msgs) == DoAll(map[], Events(msgs))
  {
    if msgs != [] {
      DataIsEvents(msgs[..|msgs| - 1]);
      DoAllAppend(map[], Events(msgs[..|msgs| - 1]), EventsOf(msgs[|msgs| - 1]));
    }
  }

  // ---- the winner of a key ----

  /** The order (wave, sender, sequence number, place in the batch). */
  predicate Beats(x: Event, y: Event) {
    var a, b := Rep16(x.msg.sender), Rep16(y.msg.sender);
    x.msg.wave > y.msg.wave
    || (x.msg.wave == y.msg.wave && (Less(b, a)
        || (a == b && (x.msg.num > y.msg.num
            || (x.msg.num == y.msg.num && x.idx > y.idx)))))
  }

  lemma BeatsIsStrictOrder(x: Event, y: Event, z: Event)
    ensures !Beats(x, x)
    ensures Beats(x, y) && Beats(y, z) ==> Beats(x, z)
  {
    var a, b, c := Rep16(x.msg.sender), Rep16(y.msg.sender), Rep16(z.msg.sender);
    LessTrichotomy(a, a);
    if Less(c, b) && Less(b, a) { LessTransitive(c, b, a); }
  }

  /** The order written out: a higher wave; in one wave the larger 16 bytes by their first
      difference; of one origin the higher number, and in one message the later place. */
  lemma BeatsExactly(x: Event, y: Event)
    ensures Beats(x, y) <==>
      var a, b := Rep16(x.msg.sender), Rep16(y.msg.sender);
      || x.msg.wave > y.msg.wave
      || (x.msg.wave == y.msg.wave && exists i: nat :: SmallerAt(b, a, i))
      || (x.msg.wave == y.msg.wave && a == b && x.msg.num > y.msg.num)
      || (x.msg.wave == y.msg.wave && a == b && x.msg.num == y.msg.num && x.idx > y.idx)
  {
    LessByFirstDifference(Rep16(y.msg.sender), Rep16(x.msg.sender));
  }

  lemma BeatsIsTotal(x: Event, y: Event)
    requires !Beats(x, y) && !Beats(y, x)
    ensures x.msg.wave == y.msg.wave && Rep16(x.msg.sender) == Rep16(y.msg.sender)
    ensures x.msg.num == y.msg.num && x.idx == y.idx
  {
    LessTrichotomy(Rep16(x.msg.sender), Rep16(y.msg.sender));
  }

  predicate SameStamp(x: Event, y: Event) {
    x.msg.wave == y.msg.wave && Rep16(x.msg.sender) == Rep16(y.msg.sender)
  }

  /** Events of one sender in one wave come in (sequence number, place) order. */
  ghost predicate Fifo(es: seq<Event>) {
    forall i, j :: 0 <= i < j < |es| && SameStamp(es[i], es[j]) ==> Beats(es[j], es[i])
  }

  ghost predicate IsWinner(es: seq<Event>, k: Bytes, w: Event) {
    w in es && Writes(w, k) && forall e :: e in es && Writes(e, k) ==> !Beats(e, w)
  }

  /** A write against the current winner: it replaces it exactly when it beats it. */
  lemma OneMore(es: seq<Event>, k: Bytes, w: Event, e: Event)
    requires Fifo(es + [e]) && IsWinner(es, k, w) && Writes(e, k)
    ensures Beats(e, w) <==> SameOrigin(EntryOf(e), EntryOf(w)) || Wins(EntryOf(e), EntryOf(w))
    ensures Beats(e, w) ==> IsWinner(es + [e], k, e)
    ensures !Beats(e, w) ==> IsWinner(es + [e], k, w)
  {
    var i :| 0 <= i < |es| && es[i] == w;
    assert (es + [e])[i] == w && (es + [e])[|es|] == e;
    LessTrichotomy(Rep16(e.msg.sender), Rep16(w.msg.sender));
    BeatsIsStrictOrder(e, e, e);
    forall x | x in es && Writes(x, k) && Beats(e, w) ensures !Beats(x, e) {
      BeatsIsStrictOrder(x, e, w);
    }
  }

  ghost predicate Written(es: seq<Event>, k: Bytes) {
    exists e :: e in es && Writes(e, k)
  }

  /** k holds the entry of its maximal write; an unwritten key is not held. */
  ghost predicate Holds(data: Data, es: seq<Event>, k: Bytes) {
    (k in data <==> Written(es, k))
    && (k in data ==> exists w :: IsWinner(es, k, w) && data[k] == EntryOf(w))
  }

  lemma HoldsOther(data: Data, es: seq<Event>, e: Event, k: Bytes)
    requires Holds(data, es, k) && !Writes(e, k)
    ensures Holds(Do(data, e), es + [e], k)
  {
    assert Written(es + [e], k) ==> Written(es, k);
    if k in data {
      var w :| IsWinner(es, k, w) && data[k] == EntryOf(w);
      assert IsWinner(es + [e], k, w);
    }
  }

  lemma HoldsWrite(data: Data, es: seq<Event>, e: Event, k: Bytes)
    requires Holds(data, es, k) && Writes(e, k) && Fifo(es + [e])
    ensures Holds(Do(data, e), es + [e], k)
  {
    assert e in es + [e];
    if k in data {
      var w :| IsWinner(es, k, w) && data[k] == EntryOf(w);
      OneMore(es, k, w, e);
    } else {
      BeatsIsStrictOrder(e, e, e);
      assert IsWinner(es + [e], k, e);
    }
  }

  lemma {:induction false} HoldsWinner(es: seq<Event>, k: Bytes)
    requires Fifo(es)
    ensures Holds(DoAll(map[], es), es, k)
  {
    if es != [] {
      var rest, e := es[..|es| - 1], es[|es| - 1];
      assert es == rest + [e];
      HoldsWinner(rest, k);
      if Writes(e, k) {
        HoldsWrite(DoAll(map[], rest), rest, e, k);
      } else {
        HoldsOther(DoAll(map[], rest), rest, e, k);
      }
    }
  }

  /** The (wave, sender, number, place) tag identifies a write. */
  ghost predicate Tagged(es: seq<Event>) {
    forall x, y :: x in es && y in es && !Beats(x, y) && !Beats(y, x) ==> x == y
  }

  lemma SameWritesSameData(a: seq<Event>, b: seq<Event>)
    requires Fifo(a) && Fifo(b) && Tagged(a) && forall e :: e in a <==> e in b
    ensures DoAll(map[], a) == DoAll(map[], b)
  {
    var x, y := DoAll(map[], a), DoAll(map[], b);
    forall k ensures k in x <==> k in y {
      HoldsWinner(a, k);
      HoldsWinner(b, k);
    }
    forall k | k in x ensures x[k] == y[k] {
      HoldsWinner(a, k);
      HoldsWinner(b, k);
      var v :| IsWinner(a, k, v) && x[k] == EntryOf(v);
      var w :| IsWinner(b, k, w) && y[k] == EntryOf(w);
      assert v == w;
    }
  }

  // ---- convergence of stores ----

  /** Two senders are never confused by the 16-byte copy. */
  ghost predicate DistinctOrigins(msgs: seq<Message>) {
    forall m, n :: m in msgs && n in msgs && Rep16(m.sender) == Rep16(n.sender) ==> m.sender == n.sender
  }

  /** Each sender's messages arrive once, in sequence order; senders interleave freely. */
  ghost predicate SenderFifo(msgs: seq<Message>) {
    forall i, j :: 0 <= i < j < |msgs| && msgs[i].sender == msgs[j].sender ==> msgs[i].num < msgs[j].num
  }

  lemma {:induction false} EventsBelong(msgs: seq<Message>)
    ensures forall e :: e in Events(msgs) <==> e.msg in msgs && e.idx < |Commands(e.msg)|
  {
    if msgs != [] {
      var rest, m := msgs[..|msgs| - 1], msgs[|msgs| - 1];
      EventsBelong(rest);
      assert msgs == rest + [m];
      forall e ensures e in EventsOf(m) <==> e.msg == m && e.idx < |Commands(m)| {
        if e.msg == m && e.idx < |Commands(m)| { assert EventsOf(m)[e.idx] == e; }
      }
    }
  }

  lemma {:induction false} EventsFifo(msgs: seq<Message>)
    requires SenderFifo(msgs) && DistinctOrigins(msgs)
    ensures Fifo(Events(msgs))
  {
    if msgs != [] {
      var n := |msgs| - 1;
      var rest, m := msgs[..n], msgs[n];
      EventsFifo(rest);
      EventsBelong(rest);
      var es, a := Events(msgs), Events(rest);
      forall i, j | 0 <= i < j < |es| && SameStamp(es[i], es[j]) ensures Beats(es[j], es[i]) {
        if j < |a| {
          assert SameStamp(a[i], a[j]);
        } else {
          assert es[j] == EventsOf(m)[j - |a|];
          if i < |a| {
            assert a[i].msg in rest;
            var q :| 0 <= q < n && rest[q] == a[i].msg;
            assert msgs[q] in msgs && m in msgs;
          } else {
            assert es[i] == EventsOf(m)[i - |a|];
          }
        }
      }
    }
  }

  lemma EventsTagged(msgs: seq<Message>)
    requires SenderFifo(msgs) && DistinctOrigins(msgs)
    ensures Tagged(Events(msgs))
  {
    EventsBelong(msgs);
    forall x, y | x in Events(msgs) && y in Events(msgs) && !Beats(x, y) && !Beats(y, x) ensures x == y {
      BeatsIsTotal(x, y);
      var i :| 0 <= i < |msgs| && msgs[i] == x.msg;
      var j :| 0 <= j < |msgs| && msgs[j] == y.msg;
    }
  }

  /** Stores that applied the same messages, each sender's in its own order, hold the
      same entries, tombstones included, however the senders interleave. */
  lemma Convergence(a: seq<Message>, b: seq<Message>)
    requires SenderFifo(a) && SenderFifo(b) && DistinctOrigins(a)
    requires forall m :: m in a <==> m in b
    ensures DataAfter(a) == DataAfter(b)
  {
    EventsFifo(a);
    EventsFifo(b);
    EventsTagged(a);
    EventsBelong(a);
    EventsBelong(b);
    SameWritesSameData(Events(a), Events(b));
    DataIsEvents(a);
    DataIsEvents(b);
  }

  /** What a key holds, without reference to the order of application: the maximal write
      by (wave, sender, sequence number, place in the batch). */
  lemma KeyHoldsMaximum(msgs: seq<Message>, k: Bytes)
    requires SenderFifo(msgs) && DistinctOrigins(msgs)
    ensures Holds(DataAfter(msgs), Events(msgs), k)
  {
    EventsFifo(msgs);
    HoldsWinner(Events(msgs), k);
    DataIsEvents(msgs);
  }

  /** What a reader sees of a key. */
  function Visible(data: Data, k: Bytes): Option<Bytes> {
    if k in data && !data[k].deleted then Some(data[k].value) else None
  }

  /** Command i of message m sets or deletes k. */
  predicate IsWrite(m: Message, i: nat, k: Bytes) {
    m.batch.Some? && i < |m.batch.value| && m.batch.value[i].key == k && m.batch.value[i].op in {Set, Delete}
  }

  /** And no write to k among the messages beats it. */
  ghost predicate TopWrite(msgs: seq<Message>, k: Bytes, m: Message, i: nat) {
    && m in msgs && IsWrite(m, i, k)
    && forall n, j: nat :: n in msgs && IsWrite(n, j, k) ==> !Beats(Event(n, j), Event(m, i))
  }

  lemma WinnerIsTop(msgs: seq<Message>, k: Bytes, m: Message, i: nat)
    ensures TopWrite(msgs, k, m, i) <==> IsWinner(Events(msgs), k, Event(m, i))
  {
    EventsBelong(msgs);
    assert forall n, j: nat :: IsWrite(n, j, k) <==> Writes(Event(n, j), k);
    assert forall e :: Writes(e, k) <==> IsWrite(e.msg, e.idx, k);
    if TopWrite(msgs, k, m, i) {
      forall e | e in Events(msgs) && Writes(e, k) ensures !Beats(e, Event(m, i)) {
        assert e == Event(e.msg, e.idx);
      }
    }
    if IsWinner(Events(msgs), k, Event(m, i)) {
      forall n, j: nat | n in msgs && IsWrite(n, j, k) ensures !Beats(Event(n, j), Event(m, i)) {
        assert Event(n, j) in Events(msgs);
      }
    }
  }

  lemma TopIsUnique(msgs: seq<Message>, k: Bytes, m: Message, i: nat, n: Message, j: nat)
    requires SenderFifo(msgs) && DistinctOrigins(msgs) && TopWrite(msgs, k, m, i) && TopWrite(msgs, k, n, j)
    ensures m == n && i == j
  {
    EventsTagged(msgs);
    WinnerIsTop(msgs, k, m, i);
    WinnerIsTop(msgs, k, n, j);
    assert !Beats(Event(m, i), Event(n, j)) && !Beats(Event(n, j), Event(m, i));
  }

  /** Reads, without reference to the store: a key reads as v exactly when its maximal write
      is a Set of v, and is missing exactly when it was never written or its maximal write is
      a Delete. */
  lemma ReadIsMaximalWrite(msgs: seq<Message>, k: Bytes)
    requires SenderFifo(msgs) && DistinctOrigins(msgs)
    ensures forall v :: Visible(DataAfter(msgs), k) == Some(v) <==>
      exists m, i: nat :: TopWrite(msgs, k, m, i) && m.batch.value[i] == Command(Set, k, v)
    ensures Visible(DataAfter(msgs), k) == None <==>
      || (forall m, i: nat :: m in msgs && m.batch.Some? && i < |m.batch.value| && m.batch.value[i].key == k ==>
            m.batch.value[i].op != Set && m.batch.value[i].op != Delete)
      || exists m, i: nat :: TopWrite(msgs, k, m, i) && m.batch.value[i].op == Delete
  {
    KeyHoldsMaximum(msgs, k);
    EventsBelong(msgs);
    var data := DataAfter(msgs);
    if k in data {
      var w :| IsWinner(Events(msgs), k, w) && data[k] == EntryOf(w);
      assert w == Event(w.msg, w.idx);
      WinnerIsTop(msgs, k, w.msg, w.idx);
      forall m, i: nat | TopWrite(msgs, k, m, i) ensures m == w.msg && i == w.idx {
        TopIsUnique(msgs, k, m, i, w.msg, w.idx);
      }
      assert w.msg in msgs;
    } else {
      forall m, i: nat | m in msgs && m.batch.Some? && i < |m.batch.value| && m.batch.value[i].key == k
        ensures m.batch.value[i].op != Set && m.batch.value[i].op != Delete
      {
        assert Event(m, i) in Events(msgs);
      }
    }
  }

  /** Distinct origins are needed: the first writes of two ids that agree on their first 16
      bytes tie, and then the order of arrival decides. */
  lemma LongIdsDiverge(r: ReplicaId, s: ReplicaId, k: Bytes, v: Bytes, w: Bytes)
    requires r != s && Rep16(r) == Rep16(s) && v != w
    ensures
      var a, b := Message(r, 1, 1, Some([Command(Set, k, v)])), Message(s, 1, 1, Some([Command(Set, k, w)]));
      && SenderFifo([a, b]) && SenderFifo([b, a])
      && DataAfter([a, b]) != DataAfter([b, a])
  {
    var a, b := Message(r, 1, 1, Some([Command(Set, k, v)])), Message(s, 1, 1, Some([Command(Set, k, w)]));
    assert EventsOf(a) == [Event(a, 0)] && EventsOf(b) == [Event(b, 0)];
    Twice(a, b);
    Twice(b, a);
    assert DataAfter([a, b])[k].value == w && DataAfter([b, a])[k].value == v;
  }

  /** The same messages of these senders, each sender's in its own order. */
  ghost predicate SameFeed(ids: set<ReplicaId>, a: seq<Message>, b: seq<Message>) {
    SenderFifo(a) && SenderFifo(b) && (forall m :: m in a ==> m.sender in ids) && forall m :: m in a <==> m in b
  }

  /** Stores fed by a set of senders, each in its own order, always converge if and only if no
      two of the ids agree on their first 16 bytes. */
  lemma ConvergenceExactly(ids: set<ReplicaId>)
    ensures (forall a, b :: SameFeed(ids, a, b) ==> DataAfter(a) == DataAfter(b)) <==>
      forall r, s :: r in ids && s in ids && Rep16(r) == Rep16(s) ==> r == s
  {
    if r, s :| r in ids && s in ids && Rep16(r) == Rep16(s) && r != s {
      LongIdsDiverge(r, s, [], [1], [2]);
      var a, b := Message(r, 1, 1, Some([Command(Set, [], [1])])), Message(s, 1, 1, Some([Command(Set, [], [2])]));
      assert SameFeed(ids, [a, b], [b, a]);
    } else {
      forall a, b | SameFeed(ids, a, b) ensures DataAfter(a) == DataAfter(b) { Convergence(a, b); }
    }
  }

  /** Each sender's order is needed too: two writes of one sender in one wave, turned
      round, leave the older one. */
  lemma SenderOrderMatters(r: ReplicaId, k: Bytes, v: Bytes, w: Bytes)
    requires v != w
    ensures var a, b := Message(r, 1, 1, Some([Command(Set, k, v)])), Message(r, 2, 1, Some([Command(Set, k, w)]));
      && SenderFifo([a, b]) && !SenderFifo([b, a])
      && k in DataAfter([a, b]) && DataAfter([a, b])[k].value == w
      && k in DataAfter([b, a]) && DataAfter([b, a])[k].value == v
  {
    var a, b := Message(r, 1, 1, Some([Command(Set, k, v)])), Message(r, 2, 1, Some([Command(Set, k, w)]));
    assert [b, a][0].num > [b, a][1].num;
    assert EventsOf(a) == [Event(a, 0)] && EventsOf(b) == [Event(b, 0)];
    Twice(a, b);
    Twice(b, a);
  }

  lemma Twice(a: Message, b: Message)
    requires EventsOf(a) == [Event(a, 0)] && EventsOf(b) == [Event(b, 0)]
    ensures DataAfter([a, b]) == Do(Do(map[], Event(a, 0)), Event(b, 0))
  {
    assert [a, b][..1] == [a] && [a][..0] == [];
    DataIsEvents([a, b]);
    assert Events([a]) == [Event(a, 0)];
    assert Events([a, b]) == [Event(a, 0), Event(b, 0)];
    var x, y := Event(a, 0), Event(b, 0);
    assert [x, y][..1] == [x] && [x][..0] == [];
    assert DoAll(map[], [x]) == Do(map[], x);
  }
}
