/** The message log as its users see it, and the in-memory log (log/log.go,
    log/memory.go). */
module Log {
  import opened Basics
  import opened Codec

  datatype Error = NotFound | ConversationMismatch | Closed | CorruptLog
  datatype Result<+T> = Ok(value: T) | Err(error: Error)

  datatype Entry = Entry(offset: nat, env: Envelope)

  /** The readable part of a log: the frames at offsets first, first + 1, ... */
  datatype Contents = Contents(first: nat, frames: seq<Frame>)

  function Next(s: Contents): nat {
    s.first + |s.frames|
  }

  predicate Matches(f: Frame, k: Key) {
    Key(f.env.sender, f.num) == k
  }

  /** The place of the last frame indexed under k, or -1. */
  function LastMatch(fs: seq<Frame>, k: Key): (i: int)
    ensures -1 <= i < |fs|
    ensures i >= 0 ==> Matches(fs[i], k)
    ensures forall j :: 0 <= j < |fs| && Matches(fs[j], k) ==> j <= i
  {
    if fs == [] then -1
    else if Matches(fs[|fs| - 1], k) then |fs| - 1
    else LastMatch(fs[..|fs| - 1], k)
  }

  function Lookup(s: Contents, k: Key): Result<Entry> {
    var i := LastMatch(s.frames, k);
    if i < 0 then Err(NotFound) else Ok(Entry(s.first + i, s.frames[i].env))
  }

  /** The entries whose offset lies in [from, to). */
  function Range(s: Contents, from: nat, to: nat): seq<Entry> {
    var lo := if from < s.first then s.first else from;
    var hi := if to > Next(s) then Next(s) else to;
    if lo < hi then seq(hi - lo, i requires 0 <= i < hi - lo => Entry(lo + i, s.frames[lo - s.first + i].env)) else []
  }

  function Added(s: Contents, f: Frame): Contents {
    s.(frames := s.frames + [f])
  }

  function Truncated(s: Contents, below: nat): Contents {
    if below <= s.first then s
    else if below > Next(s) then Contents(Next(s), [])
    else Contents(below, s.frames[below - s.first..])
  }

  /** Range yields each readable offset of the interval once, in order. */
  lemma RangeIsExact(s: Contents, from: nat, to: nat)
    ensures forall i :: 0 <= i < |Range(s, from, to)| - 1 ==>
      Range(s, from, to)[i].offset + 1 == Range(s, from, to)[i + 1].offset
    ensures forall e :: e in Range(s, from, to) <==>
      from <= e.offset < to && s.first <= e.offset < Next(s) && e.env == s.frames[e.offset - s.first].env
  {
    var lo := if from < s.first then s.first else from;
    forall e: Entry
      | from <= e.offset < to && s.first <= e.offset < Next(s) && e.env == s.frames[e.offset - s.first].env
      ensures e in Range(s, from, to)
    {
      assert Range(s, from, to)[e.offset - lo] == e;
    }
  }

  /** Truncation moves no entry: what stays readable keeps its offset, what goes is
      exactly what lies below. */
  lemma TruncateKeepsOffsets(s: Contents, below: nat, from: nat, to: nat)
    ensures Next(Truncated(s, below)) == Next(s)
    ensures Range(Truncated(s, below), from, to) == Range(s, if from < below then below else from, to)
  {
    var t := Truncated(s, below);
    if below > s.first {
      assert forall j :: 0 <= j < |t.frames| ==> t.frames[j] == s.frames[t.first - s.first + j];
    }
  }

  /** A lookup still answers after a truncation exactly when its entry was not below. */
  lemma TruncateLookup(s: Contents, below: nat, k: Key)
    ensures Lookup(Truncated(s, below), k) ==
      (if Lookup(s, k).Ok? && Lookup(s, k).value.offset >= below then Lookup(s, k) else Err(NotFound))
  {
    var i, t := LastMatch(s.frames, k), Truncated(s, below);
    var j := LastMatch(t.frames, k);
    assert j >= 0 ==> t.frames[j] == s.frames[t.first - s.first + j];
    assert i >= t.first - s.first ==> t.frames[i - (t.first - s.first)] == s.frames[i];
  }

  /** The index a cache of these contents must hold. */
  ghost predicate IsIndex(s: Contents, index: map<Key, nat>) {
    forall k ::
      (k in index <==> LastMatch(s.frames, k) >= 0) && (k in index ==> index[k] == s.first + LastMatch(s.frames, k))
  }

  ghost predicate AreEntries(s: Contents, entries: seq<Entry>) {
    |entries| == |s.frames| && forall i :: 0 <= i < |entries| ==> entries[i] == Entry(s.first + i, s.frames[i].env)
  }

  lemma AddedIndex(s: Contents, f: Frame, index: map<Key, nat>)
    requires IsIndex(s, index)
    ensures IsIndex(Added(s, f), index[Key(f.env.sender, f.num) := Next(s)])
  {
    assert (s.frames + [f])[..|s.frames|] == s.frames;
  }

  lemma TruncatedIndex(s: Contents, below: nat, index: map<Key, nat>, index': map<Key, nat>)
    requires IsIndex(s, index) && s.first <= below <= Next(s)
    requires forall k :: k in index' <==> k in index && index[k] >= below
    requires forall k :: k in index' ==> index'[k] == index[k]
    ensures IsIndex(Truncated(s, below), index')
  {
    forall k ensures
      var i := LastMatch(Truncated(s, below).frames, k);
      (k in index' <==> i >= 0) && (k in index' ==> index'[k] == below + i)
    {
      TruncateLookup(s, below, k);
    }
  }

  /** The in-memory log, which is also the cache that the file log reads from. The ghost
      field adds to the entries the sequence numbers they were indexed by. */
  class Memory {
    var entries: seq<Entry>
    var firstOffset: nat
    var index: map<Key, nat>
    var closed: bool
    ghost var contents: Contents

    ghost predicate Valid()
      reads this
    {
      && contents.first == firstOffset
      && if closed then entries == [] else AreEntries(contents, entries) && IsIndex(contents, index)
    }

    constructor (first: nat)
      ensures Valid() && !closed && contents == Contents(first, [])
    {
      entries, firstOffset, index, closed := [], first, map[], false;
      contents := Contents(first, []);
    }

    /** Files an envelope at the next offset. */
    method Add(env: Envelope, num: U64) returns (off: nat)
      requires Valid() && !closed
      modifies this
      ensures Valid() && !closed && contents == Added(old(contents), Frame(env, num)) && off == old(Next(contents))
    {
      off := firstOffset + |entries|;
      AddedIndex(contents, Frame(env, num), index);
      entries := entries + [Entry(off, env)];
      index := index[Key(env.sender, num) := off];
      contents := Added(contents, Frame(env, num));
    }

    method Append(env: Option<Envelope>, num: U64) returns (r: Result<nat>)
      requires Valid()
      modifies this
      ensures Valid() && closed == old(closed)
      ensures env.None? ==> r == Err(CorruptLog) && contents == old(contents)
      ensures env.Some? && closed ==> r == Err(Closed) && contents == old(contents)
      ensures env.Some? && !closed ==>
        r == Ok(old(Next(contents))) && contents == Added(old(contents), Frame(env.value, num))
    {
      if env.None? { return Err(CorruptLog); }
      if closed { return Err(Closed); }
      var off := Add(env.value, num);
      return Ok(off);
    }

    method LookupBySender(sender: ReplicaId, num: U64) returns (r: Result<Entry>)
      requires Valid()
      ensures r == if closed then Err(Closed) else Lookup(contents, Key(sender, num))
    {
      if closed { return Err(Closed); }
      if Key(sender, num) !in index { return Err(NotFound); }
      var off := index[Key(sender, num)];
      if off < firstOffset { return Err(NotFound); }
      return Ok(entries[off - firstOffset]);
    }

    method ReadRange(from: nat, to: nat) returns (r: Result<seq<Entry>>)
      requires Valid()
      ensures r == if closed then Err(Closed) else Ok(Range(contents, from, to))
    {
      if closed { return Err(Closed); }
      var next := firstOffset + |entries|;
      var lo := if from < firstOffset then firstOffset else from;
      var hi := if to > next then next else to;
      var snapshot := [];
      if lo < hi {
        for i := lo to hi
          invariant snapshot == Range(contents, lo, i)
        {
          snapshot := snapshot + [entries[i - firstOffset]];
        }
      }
      return Ok(snapshot);
    }

    method FirstOffset() returns (off: nat)
      requires Valid()
      ensures off == contents.first
    {
      return firstOffset;
    }

    /** After Close the entries are gone, and the answer is the first offset. */
    method NextOffset() returns (off: nat)
      requires Valid()
      ensures off == if closed then contents.first else Next(contents)
    {
      return firstOffset + |entries|;
    }

    method DropIndexBelow(below: nat)
      modifies this`index
      ensures forall k :: k in index <==> k in old(index) && old(index)[k] >= below
      ensures forall k :: k in index ==> index[k] == old(index)[k]
    {
      var todo := index.Keys;
      while todo != {}
        invariant todo <= index.Keys <= old(index).Keys
        invariant forall k :: k in index ==> index[k] == old(index)[k]
        invariant forall k :: k in old(index) && k !in todo ==> (k in index <==> old(index)[k] >= below)
        decreases todo
      {
        var k :| k in todo;
        todo := todo - {k};
        if index[k] < below { index := index - {k}; }
      }
    }

    method Truncate(belowOffset: nat) returns (r: Result<()>)
      requires Valid()
      modifies this
      ensures Valid() && closed == old(closed)
      ensures closed ==> r == Err(Closed) && contents == old(contents)
      ensures !closed ==> r == Ok(()) && contents == Truncated(old(contents), belowOffset)
    {
      if closed { return Err(Closed); }
      if belowOffset <= firstOffset { return Ok(()); }
      var maxFirst := firstOffset + |entries|;
      var below := if belowOffset > maxFirst then maxFirst else belowOffset;
      DropIndexBelow(below);
      TruncatedIndex(contents, below, old(index), index);
      entries := entries[below - firstOffset..];
      firstOffset := below;
      contents := Truncated(contents, below);
      return Ok(());
    }

    method Close()
      requires Valid()
      modifies this
      ensures Valid() && closed
    {
      closed, entries, index := true, [], map[];
    }
  }
}
