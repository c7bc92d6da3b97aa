/** The file log: an append-only byte file with a sidecar for the first offset, recovery
    after a crash, and its refinement of the in-memory log (log/file.go). */
module FileLog {
  import opened Basics
  import opened Codec
  import opened Log

  /** The two files of a log directory; the sidecar is absent until the first truncation. */
  datatype Disk = Disk(data: Bytes, meta: Option<Bytes>)

  datatype Opened = Opened(disk: Disk, contents: Contents)

  // ---- opening ----

  function ReadMeta(meta: Option<Bytes>): Result<nat> {
    if meta.None? then Ok(0)
    else if |meta.value| != 8 then Err(CorruptLog)
    else Ok(UnLE(meta.value))
  }

  /** What opening a directory yields: the repaired disk and the readable contents. */
  function Open(c: Codec, conv: ConversationId, disk: Disk): Result<Opened> {
    var first := ReadMeta(disk.meta);
    if first.Err? then Err(first.error)
    else if disk.data == [] then Ok(Opened(disk.(data := Header(c, conv)), Contents(first.value, [])))
    else
      match ReadHeader(c, conv, disk.data)
      case Corrupt => Err(CorruptLog)
      case OtherConversation => Err(ConversationMismatch)
      case Accepted(size) =>
        match Scan(c, disk.data[size..], first.value)
        case Bad => Err(CorruptLog)
        case Good(frames, intact) =>
          Ok(Opened(disk.(data := disk.data[..size + intact]), Contents(first.value, frames)))
  }

  // ---- the invariant between disk and memory ----

  /** all is the whole history of appended frames: the file holds it in full, the memory
      its part from the first offset on. */
  ghost predicate Stores(c: Codec, conv: ConversationId, disk: Disk, s: Contents, all: seq<Frame>) {
    && disk.data == Header(c, conv) + EncodeAll(c, all)
    && |all| == Next(s) < TWO64
    && s.frames == all[s.first..]
    && (if s.first == 0 && disk.meta.None? then true else disk.meta == Some(LE(s.first, 8)))
  }

  lemma StoresFresh(c: Codec, conv: ConversationId)
    ensures Open(c, conv, Disk([], None)).Ok?
    ensures
      var o := Open(c, conv, Disk([], None)).value;
      Stores(c, conv, o.disk, o.contents, []) && o.contents == Contents(0, [])
  {
    assert Header(c, conv) + [] == Header(c, conv);
  }

  lemma StoresAppend(c: Codec, conv: ConversationId, disk: Disk, s: Contents, all: seq<Frame>, f: Frame)
    requires Stores(c, conv, disk, s, all) && |all| + 1 < TWO64
    ensures Stores(c, conv, disk.(data := disk.data + EncodeFrame(c, f)), Added(s, f), all + [f])
  {
    EncodeAllAppend(c, all, f);
    Associative(Header(c, conv), EncodeAll(c, all), EncodeFrame(c, f));
  }

  /** The sidecar a truncation leaves behind. */
  function TruncatedDisk(disk: Disk, s: Contents, below: nat): Disk {
    if below <= s.first then disk else disk.(meta := Some(LE(Truncated(s, below).first, 8)))
  }

  lemma StoresTruncate(c: Codec, conv: ConversationId, disk: Disk, s: Contents, all: seq<Frame>, below: nat)
    requires Stores(c, conv, disk, s, all)
    ensures Stores(c, conv, TruncatedDisk(disk, s, below), Truncated(s, below), all)
  {
  }

  lemma MetaRoundTrip(c: Codec, conv: ConversationId, disk: Disk, s: Contents, all: seq<Frame>)
    requires Stores(c, conv, disk, s, all)
    ensures ReadMeta(disk.meta) == Ok(s.first)
  {
    Widths();
    LERoundTrip(s.first, 8);
  }

  /** Crash and reopen: whatever part of one more frame reached the file, opening brings
      back the contents from before the crash and repairs the file. */
  lemma RecoveryIsExact(c: Codec, conv: ConversationId, disk: Disk, s: Contents, all: seq<Frame>, torn: Bytes)
    requires Faithful(c) && Nameable(c, conv) && Stores(c, conv, disk, s, all)
    requires AllEncodable(c, all) && IsTear(c, torn)
    ensures Open(c, conv, disk.(data := disk.data + torn)) == Ok(Opened(disk, s))
  {
    var h, body := Header(c, conv), EncodeAll(c, all);
    var data := disk.data + torn;
    MetaRoundTrip(c, conv, disk, s, all);
    Associative(h, body, torn);
    HeaderRoundTrip(c, conv, conv, body + torn);
    assert data[|h|..] == body + torn;
    ScanRecovers(c, all, torn, s.first);
    assert data[..|h| + |body|] == disk.data;
  }

  /** Opening for another conversation is refused and opening with a torn header too. */
  lemma OpenRefuses(c: Codec, conv: ConversationId, asked: ConversationId, disk: Disk, s: Contents, all: seq<Frame>,
                    torn: Bytes)
    requires Faithful(c) && Nameable(c, conv) && Stores(c, conv, disk, s, all)
    ensures asked != conv ==> Open(c, asked, disk) == Err(ConversationMismatch)
    ensures [] < torn < Header(c, conv) ==> Open(c, asked, disk.(data := torn)) == Err(CorruptLog)
  {
    MetaRoundTrip(c, conv, disk, s, all);
    HeaderRoundTrip(c, conv, asked, EncodeAll(c, all));
    if torn < Header(c, conv) { TornHeaderRefused(c, conv, asked, torn); }
  }

  /** The data of a log in which the frame at offset n has this stored checksum and payload. */
  function WithFrame(c: Codec, conv: ConversationId, all: seq<Frame>, n: nat, crc: nat, p: Bytes): Bytes
    requires n < |all|
  {
    Header(c, conv) + (EncodeAll(c, all[..n]) + (RawFrame(all[n].num, crc, p) + EncodeAll(c, all[n + 1..])))
  }

  lemma {:induction false} EncodeAllSplit(c: Codec, all: seq<Frame>, n: nat)
    requires n < |all|
    ensures EncodeAll(c, all) == EncodeAll(c, all[..n]) + (EncodeFrame(c, all[n]) + EncodeAll(c, all[n + 1..]))
    decreases n
  {
    var tail := EncodeFrame(c, all[n]) + EncodeAll(c, all[n + 1..]);
    if n == 0 {
      assert all[..0] == [] && EncodeAll(c, all[..0]) + tail == tail;
    } else {
      EncodeAllSplit(c, all[1..], n - 1);
      assert all[1..][..n - 1] == all[..n][1..] && all[1..][n..] == all[n + 1..];
      Associative(EncodeFrame(c, all[0]), EncodeAll(c, all[..n][1..]), tail);
    }
  }

  /** Damage is noticed. Take any log, any frame of it, truncated away or not, and replace its
      payload: when the checksum of the new payload differs from the stored one, opening
      fails; and when the frame is readable and the payload does not unmarshal, it fails even
      if the checksum was adapted. */
  lemma DamageIsRefused(c: Codec, conv: ConversationId, disk: Disk, s: Contents, all: seq<Frame>, n: nat, crc: nat,
                        p: Bytes)
    requires Faithful(c) && Nameable(c, conv) && Stores(c, conv, disk, s, all) && AllEncodable(c, all)
    requires n < |all| && |p| < TWO32 && crc < TWO32
    ensures WithFrame(c, conv, all, n, c.crc(c.marshal(all[n].env)), c.marshal(all[n].env)) == disk.data
    ensures c.crc(p) != crc ==>
      Open(c, conv, disk.(data := WithFrame(c, conv, all, n, crc, p))) == Err(CorruptLog)
    ensures s.first <= n && c.unmarshal(p).None? ==>
      Open(c, conv, disk.(data := WithFrame(c, conv, all, n, crc, p))) == Err(CorruptLog)
  {
    EncodeAllSplit(c, all, n);
    assert EncodeFrame(c, all[n]) == RawFrame(all[n].num, c.crc(c.marshal(all[n].env)), c.marshal(all[n].env));
    MetaRoundTrip(c, conv, disk, s, all);
    var body := EncodeAll(c, all[..n]) + (RawFrame(all[n].num, crc, p) + EncodeAll(c, all[n + 1..]));
    HeaderRoundTrip(c, conv, conv, body);
    assert (Header(c, conv) + body)[|Header(c, conv)|..] == body;
    assert AllEncodable(c, all[..n]);
    ScanRefuses(c, all[..n], all[n].num, crc, p, EncodeAll(c, all[n + 1..]), s.first);
  }

  /** So is a sidecar of the wrong size, a wrong magic and a conversation id that does not
      unmarshal, whatever follows. */
  lemma HeaderDamageIsRefused(c: Codec, conv: ConversationId, disk: Disk, q: Bytes, rest: Bytes)
    ensures disk.meta.Some? && |disk.meta.value| != 8 ==> Open(c, conv, disk) == Err(CorruptLog)
    ensures |disk.data| >= 8 && disk.data[..8] != MAGIC ==> Open(c, conv, disk) == Err(CorruptLog)
    ensures |q| < TWO32 && c.unmarshalConv(q).None? ==>
      Open(c, conv, disk.(data := MAGIC + LE(|q|, 4) + q + rest)) == Err(CorruptLog)
  {
    var b := MAGIC + LE(|q|, 4) + q + rest;
    Widths();
    LERoundTrip(|q|, 4);
    assert b[..8] == MAGIC && b[8..12] == LE(|q|, 4);
    assert |q| < TWO32 ==> b[12..12 + |q|] == q;
  }

  // ---- whole runs ----

  /** A crash in the middle of a truncation is a crash before or after it, since the
      sidecar is replaced by renaming; likewise an append whose frame is complete. */
  datatype Op = Append(frame: Frame) | Truncate(below: nat) | Crash(torn: Bytes)

  function FileStep(c: Codec, conv: ConversationId, o: Opened, op: Op): Result<Opened> {
    match op
    case Append(f) => Ok(Opened(o.disk.(data := o.disk.data + EncodeFrame(c, f)), Added(o.contents, f)))
    case Truncate(below) => Ok(Opened(TruncatedDisk(o.disk, o.contents, below), Truncated(o.contents, below)))
    case Crash(torn) => Open(c, conv, o.disk.(data := o.disk.data + torn))
  }

  function FileRun(c: Codec, conv: ConversationId, ops: seq<Op>): Result<Opened> {
    if ops == [] then Open(c, conv, Disk([], None))
    else
      var o := FileRun(c, conv, ops[..|ops| - 1]);
      if o.Err? then o else FileStep(c, conv, o.value, ops[|ops| - 1])
  }

  /** The same operations on a log that never crashes and keeps no file. */
  function MemoryRun(ops: seq<Op>): Contents {
    if ops == [] then Contents(0, [])
    else
      var s := MemoryRun(ops[..|ops| - 1]);
      match ops[|ops| - 1]
      case Append(f) => Added(s, f)
      case Truncate(below) => Truncated(s, below)
      case Crash(_) => s
  }

  /** Every frame ever appended. */
  function Appended(ops: seq<Op>): (fs: seq<Frame>)
    ensures |fs| <= |ops|
  {
    if ops == [] then []
    else
      var rest := Appended(ops[..|ops| - 1]);
      var op := ops[|ops| - 1];
      if op.Append? then rest + [op.frame] else rest
  }

  ghost predicate Plausible(c: Codec, ops: seq<Op>) {
    && |ops| < TWO64
    && (forall op :: op in ops && op.Append? ==> Encodable(c, op.frame))
    && (forall op :: op in ops && op.Crash? ==> IsTear(c, op.torn))
  }

  lemma {:induction false} AppendedEncodable(c: Codec, ops: seq<Op>)
    requires forall op :: op in ops && op.Append? ==> Encodable(c, op.frame)
    ensures AllEncodable(c, Appended(ops))
  {
    if ops != [] {
      AppendedEncodable(c, ops[..|ops| - 1]);
      assert ops[|ops| - 1] in ops;
    }
  }

  /** Over every sequence of appends, truncations and crashes the file log never fails to
      reopen, its readable contents are those of the memory log, and the file holds every
      frame ever appended: as many as the first offset plus what is readable. */
  lemma {:induction false} FileRefinesMemory(c: Codec, conv: ConversationId, ops: seq<Op>)
    requires Faithful(c) && Nameable(c, conv) && Plausible(c, ops)
    ensures FileRun(c, conv, ops).Ok?
    ensures
      var o := FileRun(c, conv, ops).value;
      o.contents == MemoryRun(ops) && Stores(c, conv, o.disk, o.contents, Appended(ops))
  {
    if ops == [] {
      StoresFresh(c, conv);
    } else {
      var rest, op := ops[..|ops| - 1], ops[|ops| - 1];
      FileRefinesMemory(c, conv, rest);
      var o := FileRun(c, conv, rest).value;
      assert op in ops;
      match op
      case Append(f) => StoresAppend(c, conv, o.disk, o.contents, Appended(rest), f);
      case Truncate(below) => StoresTruncate(c, conv, o.disk, o.contents, Appended(rest), below);
      case Crash(torn) =>
        AppendedEncodable(c, rest);
        RecoveryIsExact(c, conv, o.disk, o.contents, Appended(rest), torn);
    }
  }

  lemma StoredIsRead(c: Codec, conv: ConversationId, d: Disk, s: Contents, all: seq<Frame>, off: nat)
    requires Stores(c, conv, d, s, all) && s.first <= off < |all|
    ensures Range(s, off, off + 1) == [Entry(off, all[off].env)]
  {
  }

  /** Durability: an acknowledged append is found again after any further operations
      unless a truncation covered it. */
  lemma AppendSurvives(c: Codec, conv: ConversationId, ops: seq<Op>, off: nat)
    requires Faithful(c) && Nameable(c, conv) && Plausible(c, ops) && off < |Appended(ops)|
    ensures FileRun(c, conv, ops).Ok?
    ensures
      var s := FileRun(c, conv, ops).value.contents;
      s.first <= off ==> Range(s, off, off + 1) == [Entry(off, Appended(ops)[off].env)]
  {
    FileRefinesMemory(c, conv, ops);
    var o := FileRun(c, conv, ops).value;
    if o.contents.first <= off { StoredIsRead(c, conv, o.disk, o.contents, Appended(ops), off); }
  }

  // ---- the log object ----

  lemma PrependTwice(a: seq<Frame>, n: nat, b: seq<Frame>, m: nat, s: Scanned)
    ensures Prepend(a, n, Prepend(b, m, s)) == Prepend(a + b, n + m, s)
  {
    if s.Good? { Associative(a, b, s.frames); }
  }

  /** The outcome of a scan that has read n bytes and cached `done`, is at offset off and
      has b still to read. */
  function Remaining(c: Codec, done: seq<Frame>, n: nat, b: Bytes, first: nat, off: nat): Scanned {
    Prepend(done, n, Scan(c, b, if off < first then first - off else 0))
  }

  /** What a whole frame at offset off adds to the cache. */
  function Taken(c: Codec, r: Parsed, first: nat, off: nat): Option<seq<Frame>>
    requires r.Whole?
  {
    if off < first then Some([])
    else
      var env := c.unmarshal(r.payload);
      if env.None? then None else Some([Frame(env.value, r.num)])
  }

  lemma RemainingAdvance(c: Codec, done: seq<Frame>, n: nat, b: Bytes, first: nat, off: nat)
    requires ReadFrame(c, b).Whole?
    ensures
      var r := ReadFrame(c, b);
      var m := 16 + |r.payload|;
      var taken := Taken(c, r, first, off);
      Remaining(c, done, n, b, first, off) ==
        if taken.None? then Bad else Remaining(c, done + taken.value, n + m, b[m..], first, off + 1)
  {
    var r := ReadFrame(c, b);
    var m := 16 + |r.payload|;
    var taken := Taken(c, r, first, off);
    if taken.Some? {
      PrependTwice(done, n, taken.value, m, Scan(c, b[m..], if off + 1 < first then first - off - 1 else 0));
    }
  }

  lemma RemainingEnds(c: Codec, done: seq<Frame>, n: nat, b: Bytes, first: nat, off: nat)
    requires !ReadFrame(c, b).Whole?
    ensures Remaining(c, done, n, b, first, off) == if ReadFrame(c, b).BadChecksum? then Bad else Good(done, n)
  {
    assert done + [] == done;
  }

  class File {
    const codec: Codec
    const conv: ConversationId
    const cache: Memory
    var data: Bytes
    var meta: Option<Bytes>

    ghost predicate Valid()
      reads this, cache
    {
      cache.Valid()
    }

    function OnDisk(): Disk
      reads this
    {
      Disk(data, meta)
    }

    /** An empty cache at the given offset, over the given files. */
    constructor (codec: Codec, conv: ConversationId, data: Bytes, meta: Option<Bytes>, first: nat)
      ensures Valid() && fresh(cache) && !cache.closed && cache.contents == Contents(first, [])
      ensures this.codec == codec && this.conv == conv && OnDisk() == Disk(data, meta)
    {
      this.codec, this.conv, this.data, this.meta := codec, conv, data, meta;
      cache := new Memory(first);
    }

    /** Caches a frame unless it lies below the first offset. */
    method TakeFrame(num: U64, payload: Bytes, off: nat) returns (ok: bool)
      requires Valid() && !cache.closed
      modifies cache
      ensures Valid() && !cache.closed && cache.contents.first == old(cache.contents.first)
      ensures
        var taken := Taken(codec, Whole(num, payload), cache.contents.first, off);
        ok == taken.Some? && (ok ==> cache.contents.frames == old(cache.contents.frames) + taken.value)
    {
      if off >= cache.firstOffset {
        var env := codec.unmarshal(payload);
        if env.None? { return false; }
        var _ := cache.Add(env.value, num);
      }
      return true;
    }

    /** Reads the frame at pos, the off-th, and takes it when it is whole: what remained to be
        scanned is settled, or is what remains behind the frame. */
    method ScanFrame(ghost n: nat, pos: nat, off: nat) returns (r: Parsed, ok: bool)
      requires Valid() && !cache.closed && pos <= |data|
      modifies cache
      ensures Valid() && !cache.closed && cache.contents.first == old(cache.contents.first)
      ensures r == ReadFrame(codec, data[pos..]) && (ok ==> r.Whole?)
      ensures
        var before := Remaining(codec, old(cache.contents.frames), n, data[pos..], cache.contents.first, off);
        if !r.Whole? then
          && cache.contents == old(cache.contents)
          && before == if r.BadChecksum? then Bad else Good(cache.contents.frames, n)
        else
          var m := 16 + |r.payload|;
          && pos + m <= |data|
          && before == if !ok then Bad else Remaining(codec, cache.contents.frames, n + m, data[pos + m..],
                                                      cache.contents.first, off + 1)
    {
      r := ReadFrame(codec, data[pos..]);
      ok := false;
      ghost var first := cache.contents.first;
      if !r.Whole? {
        RemainingEnds(codec, cache.contents.frames, n, data[pos..], first, off);
        return;
      }
      RemainingAdvance(codec, cache.contents.frames, n, data[pos..], first, off);
      assert data[pos..][16 + |r.payload|..] == data[pos + (16 + |r.payload|)..];
      ok := TakeFrame(r.num, r.payload, off);
    }

    /** Fills the cache from the frames behind the header; a partial frame at the end is
        cut off the file. */
    method ScanIntoCache(start: nat) returns (ok: bool)
      requires Valid() && !cache.closed && cache.contents.frames == [] && start <= |data|
      modifies this`data, cache
      ensures Valid() && !cache.closed
      ensures ok == Scan(codec, old(data)[start..], old(cache.contents.first)).Good?
      ensures ok ==>
        var s := Scan(codec, old(data)[start..], old(cache.contents.first));
        data == old(data)[..start + s.size] && cache.contents == Contents(old(cache.contents.first), s.frames)
    {
      var pos, off := start, 0;
      ghost var n, first := 0, cache.contents.first;
      ghost var goal := Remaining(codec, [], 0, data[start..], first, 0);
      while true
        invariant pos == start + n <= |data| && data == old(data)
        invariant Valid() && !cache.closed && cache.contents.first == first
        invariant goal == Remaining(codec, cache.contents.frames, n, data[pos..], first, off)
        decreases |data| - pos
      {
        var r;
        r, ok := ScanFrame(n, pos, off);
        if r.BadChecksum? || (r.Whole? && !ok) { return false; }
        if r.Torn? { data := data[..pos]; }
        if !r.Whole? { break; }
        var m := 16 + |r.payload|;
        pos, off, n := pos + m, off + 1, n + m;
      }
      assert data == old(data)[..pos];
      return true;
    }

    /** Opens the log directory whose files are given, creating it when empty. */
    static method OpenFile(codec: Codec, conv: ConversationId, data: Bytes, meta: Option<Bytes>)
      returns (r: Result<File>)
      ensures Open(codec, conv, Disk(data, meta)).Err? ==> r == Err(Open(codec, conv, Disk(data, meta)).error)
      ensures Open(codec, conv, Disk(data, meta)).Ok? ==>
        r.Ok? && fresh(r.value) && fresh(r.value.cache)
        && r.value.Valid() && !r.value.cache.closed && r.value.codec == codec && r.value.conv == conv
        && Opened(r.value.OnDisk(), r.value.cache.contents) == Open(codec, conv, Disk(data, meta)).value
    {
      var first := ReadMeta(meta);
      if first.Err? { return Err(first.error); }
      var f := new File(codec, conv, data, meta, first.value);
      if |data| == 0 {
        f.data := Header(codec, conv);
        return Ok(f);
      }
      match ReadHeader(codec, conv, data)
      case Corrupt => return Err(CorruptLog);
      case OtherConversation => return Err(ConversationMismatch);
      case Accepted(size) =>
        var ok := f.ScanIntoCache(size);
        if !ok { return Err(CorruptLog); }
        return Ok(f);
    }

    method Append(env: Option<Envelope>, num: U64) returns (r: Result<nat>)
      requires Valid()
      modifies this`data, cache
      ensures Valid() && cache.closed == old(cache.closed)
      ensures env.None? ==> r == Err(CorruptLog)
      ensures env.Some? && cache.closed ==> r == Err(Closed)
      ensures r.Err? ==> data == old(data) && cache.contents == old(cache.contents)
      ensures env.Some? && !cache.closed ==>
        r == Ok(old(Next(cache.contents)))
        && Ok(Opened(OnDisk(), cache.contents))
           == FileStep(codec, conv, old(Opened(OnDisk(), cache.contents)), Op.Append(Frame(env.value, num)))
    {
      if env.None? { return Err(CorruptLog); }
      var payload := codec.marshal(env.value);
      if cache.closed { return Err(Closed); }
      var hdr := LE(|payload| % TWO32, 4) + LE(num, 8) + LE(codec.crc(payload), 4);
      data := data + hdr;
      data := data + payload;
      Associative(old(data), hdr, payload);
      var off := cache.Add(env.value, num);
      return Ok(off);
    }

    method Truncate(below: nat) returns (r: Result<()>)
      requires Valid() && Next(cache.contents) < TWO64
      modifies this`meta, cache
      ensures Valid() && cache.closed == old(cache.closed)
      ensures cache.closed ==> r == Err(Closed) && meta == old(meta) && cache.contents == old(cache.contents)
      ensures !cache.closed ==>
        r == Ok(())
        && Ok(Opened(OnDisk(), cache.contents)) ==
             FileStep(codec, conv, old(Opened(OnDisk(), cache.contents)), Op.Truncate(below))
      ensures below <= old(cache.contents.first) ==> meta == old(meta)
    {
      if cache.closed { return Err(Closed); }
      if below <= cache.firstOffset { return Ok(()); }
      var next := cache.NextOffset();
      var first := if below > next then next else below;
      meta := Some(LE(first, 8));
      r := cache.Truncate(first);
    }
  }
}
