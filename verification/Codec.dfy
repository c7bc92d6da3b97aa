/** The on-disk format of the file log: little-endian numbers, the header, frames, and
    the scan that reads them back (log/file.go). */
module Codec {
  import opened Basics

  const TWO32: nat := 0x1_0000_0000
  const TWO64: nat := 0x1_0000_0000_0000_0000

  type U64 = n: nat | n < TWO64

  /** Serialisation and checksum, about which nothing is assumed but what Faithful says. */
  datatype Codec = Codec(
    marshal: Envelope -> Bytes, unmarshal: Bytes -> Option<Envelope>,
    marshalConv: ConversationId -> Bytes, unmarshalConv: Bytes -> Option<ConversationId>,
    crc: Bytes -> nat)

  ghost predicate Faithful(c: Codec) {
    && (forall e :: c.unmarshal(c.marshal(e)) == Some(e))
    && (forall v :: c.unmarshalConv(c.marshalConv(v)) == Some(v))
    && (forall b :: c.crc(b) < TWO32)
  }

  /** One record: an envelope and the sender's sequence number it is indexed by. */
  datatype Frame = Frame(env: Envelope, num: U64)

  /** The payload fits the 32-bit length field. */
  predicate Encodable(c: Codec, f: Frame) {
    |c.marshal(f.env)| < TWO32
  }

  /** The conversation id fits the header's 32-bit length field. */
  predicate Nameable(c: Codec, conv: ConversationId) {
    |c.marshalConv(conv)| < TWO32
  }

  // ---- little-endian numbers ----

  function LE(n: nat, width: nat): (b: Bytes)
    ensures |b| == width
  {
    if width == 0 then [] else [(n % 256) as Byte] + LE(n / 256, width - 1)
  }

  function UnLE(b: Bytes): nat {
    if b == [] then 0 else b[0] as nat + 256 * UnLE(b[1..])
  }

  function Capacity(width: nat): nat {
    if width == 0 then 1 else 256 * Capacity(width - 1)
  }

  /** A number survives exactly when it fits. */
  lemma {:induction false} LERoundTrip(n: nat, width: nat)
    ensures UnLE(LE(n, width)) < Capacity(width)
    ensures n < Capacity(width) ==> UnLE(LE(n, width)) == n
  {
    if width > 0 {
      LERoundTrip(n / 256, width - 1);
      assert LE(n, width)[1..] == LE(n / 256, width - 1);
    }
  }

  lemma Shifted(x: nat, u: nat, c: nat, v: nat)
    ensures x + 256 * (u + c * v) == x + 256 * u + 256 * c * v
  {
  }

  /** Low bytes come first. */
  lemma {:induction false} LowBytesFirst(a: Bytes, b: Bytes)
    ensures UnLE(a + b) == UnLE(a) + Capacity(|a|) * UnLE(b)
    ensures |a| == 1 ==> UnLE(a) == a[0] as nat
  {
    if a == [] {
      assert a + b == b;
    } else {
      LowBytesFirst(a[1..], b);
      assert (a + b)[1..] == a[1..] + b;
      Shifted(a[0] as nat, UnLE(a[1..]), Capacity(|a| - 1), UnLE(b));
    }
  }

  lemma Widths()
    ensures Capacity(4) == TWO32 && Capacity(8) == TWO64
  {
    assert Capacity(2) == 65536;
    assert Capacity(4) == 65536 * 65536;
    assert Capacity(6) == 65536 * Capacity(4);
    assert Capacity(8) == 65536 * Capacity(6);
  }

  // ---- frames ----

  function EncodeFrame(c: Codec, f: Frame): (b: Bytes)
    ensures |b| == 16 + |c.marshal(f.env)|
  {
    var p := c.marshal(f.env);
    LE(|p| % TWO32, 4) + LE(f.num, 8) + LE(c.crc(p), 4) + p
  }

  function EncodeAll(c: Codec, fs: seq<Frame>): Bytes {
    if fs == [] then [] else EncodeFrame(c, fs[0]) + EncodeAll(c, fs[1..])
  }

  datatype Parsed = End | Torn | BadChecksum | Whole(num: U64, payload: Bytes)

  /** The frame at the front of b. */
  function ReadFrame(c: Codec, b: Bytes): (r: Parsed)
    ensures r.Whole? ==> 16 + |r.payload| <= |b|
  {
    if b == [] then End
    else if |b| < 16 then Torn
    else
      var len := UnLE(b[..4]);
      if |b| < 16 + len then Torn
      else if c.crc(b[16..16 + len]) != UnLE(b[12..16]) then BadChecksum
      else Whole(FrameNum(b), b[16..16 + len])
  }

  function FrameNum(b: Bytes): U64
    requires |b| >= 16
  {
    UnLEBound(b[4..12]);
    UnLE(b[4..12])
  }

  lemma UnLEBound(b: Bytes)
    ensures UnLE(b) < Capacity(|b|)
    ensures |b| == 8 ==> UnLE(b) < TWO64
  {
    Widths();
    if b != [] { UnLEBound(b[1..]); }
  }

  /** What the fixed fields of an encoded frame say, whatever follows them. */
  lemma FrameFields(c: Codec, f: Frame, b: Bytes)
    requires |b| >= 16 && EncodeFrame(c, f)[..16] == b[..16]
    requires c.crc(c.marshal(f.env)) < TWO32
    ensures UnLE(b[..4]) == |c.marshal(f.env)| % TWO32
    ensures UnLE(b[4..12]) == f.num
    ensures UnLE(b[12..16]) == c.crc(c.marshal(f.env))
  {
    var p := c.marshal(f.env);
    var h := b[..16];
    Widths();
    LERoundTrip(|p| % TWO32, 4);
    LERoundTrip(f.num, 8);
    LERoundTrip(c.crc(p), 4);
    assert h == LE(|p| % TWO32, 4) + LE(f.num, 8) + LE(c.crc(p), 4);
    assert b[..4] == h[..4] == LE(|p| % TWO32, 4);
    assert b[4..12] == h[4..12] == LE(f.num, 8);
    assert b[12..16] == h[12..16] == LE(c.crc(p), 4);
  }

  /** A frame with any number, stored checksum and payload. */
  function RawFrame(num: U64, crc: nat, p: Bytes): (b: Bytes)
    ensures |b| == 16 + |p|
  {
    LE(|p| % TWO32, 4) + LE(num, 8) + LE(crc, 4) + p
  }

  /** It is whole exactly when the stored checksum is that of the payload. */
  lemma ReadRaw(c: Codec, num: U64, crc: nat, p: Bytes, rest: Bytes)
    requires |p| < TWO32 && crc < TWO32
    ensures ReadFrame(c, RawFrame(num, crc, p) + rest) == if c.crc(p) == crc then Whole(num, p) else BadChecksum
  {
    var b := RawFrame(num, crc, p) + rest;
    Widths();
    LERoundTrip(|p| % TWO32, 4);
    LERoundTrip(num, 8);
    LERoundTrip(crc, 4);
    assert b[..4] == LE(|p| % TWO32, 4);
    assert b[4..12] == LE(num, 8);
    assert b[12..16] == LE(crc, 4);
    assert b[16..16 + |p|] == p;
  }

  lemma LongIsWrapped(c: Codec, f: Frame, rest: Bytes)
    requires Faithful(c) && !Encodable(c, f)
    ensures ReadFrame(c, EncodeFrame(c, f) + rest) != Whole(f.num, c.marshal(f.env))
  {
    var b := EncodeFrame(c, f) + rest;
    assert b[..16] == EncodeFrame(c, f)[..16];
    FrameFields(c, f, b);
  }

  /** A frame reads back as written exactly when its payload fits the length field. */
  lemma FrameRoundTrip(c: Codec, f: Frame, rest: Bytes)
    requires Faithful(c)
    ensures ReadFrame(c, EncodeFrame(c, f) + rest) == Whole(f.num, c.marshal(f.env)) <==> Encodable(c, f)
  {
    if Encodable(c, f) {
      ReadRaw(c, f.num, c.crc(c.marshal(f.env)), c.marshal(f.env), rest);
    } else {
      LongIsWrapped(c, f, rest);
    }
  }

  /** Whatever the bytes, a frame taken as whole has its checksum right. */
  lemma WholeIsChecked(c: Codec, b: Bytes)
    requires ReadFrame(c, b).Whole?
    ensures
      var r := ReadFrame(c, b);
      c.crc(r.payload) == UnLE(b[12..16]) && r.num == UnLE(b[4..12])
      && |r.payload| == UnLE(b[..4]) && r.payload == b[16..16 + |r.payload|]
  {
  }

  /** b is what a crash may leave of a frame being written: any strict prefix. */
  ghost predicate IsTear(c: Codec, b: Bytes) {
    exists f :: Encodable(c, f) && b < EncodeFrame(c, f)
  }

  lemma TearIsIncomplete(c: Codec, b: Bytes)
    requires Faithful(c) && IsTear(c, b)
    ensures ReadFrame(c, b) == (if b == [] then End else Torn)
  {
    var f :| Encodable(c, f) && b < EncodeFrame(c, f);
    if |b| >= 16 {
      assert b[..16] == EncodeFrame(c, f)[..16];
      FrameFields(c, f, b);
    }
  }

  // ---- scanning ----

  /** Frames found after `skip` skipped ones, and the length of the intact part. */
  datatype Scanned = Good(frames: seq<Frame>, size: nat) | Bad

  function Prepend(fs: seq<Frame>, n: nat, s: Scanned): Scanned {
    if s.Good? then Good(fs + s.frames, n + s.size) else Bad
  }

  /** Reads frames up to the end or to a torn one; skipped frames are checked but not
      parsed. */
  function Scan(c: Codec, b: Bytes, skip: nat): (r: Scanned)
    ensures r.Good? ==> r.size <= |b|
    decreases |b|
  {
    match ReadFrame(c, b)
    case End => Good([], 0)
    case Torn => Good([], 0)
    case BadChecksum => Bad
    case Whole(num, p) =>
      var rest := b[16 + |p|..];
      if skip > 0 then Prepend([], 16 + |p|, Scan(c, rest, skip - 1))
      else
        var env := c.unmarshal(p);
        if env.None? then Bad else Prepend([Frame(env.value, num)], 16 + |p|, Scan(c, rest, 0))
  }

  lemma {:induction false} EncodeAllAppend(c: Codec, fs: seq<Frame>, f: Frame)
    ensures EncodeAll(c, fs + [f]) == EncodeAll(c, fs) + EncodeFrame(c, f)
  {
    if fs == [] {
      assert [f][1..] == [];
      assert EncodeAll(c, [f]) == EncodeFrame(c, f) + EncodeAll(c, []);
    } else {
      EncodeAllAppend(c, fs[1..], f);
      assert (fs + [f])[1..] == fs[1..] + [f];
      Associative(EncodeFrame(c, fs[0]), EncodeAll(c, fs[1..]), EncodeFrame(c, f));
    }
  }

  lemma ScanFrame(c: Codec, f: Frame, rest: Bytes, skip: nat)
    requires Faithful(c) && Encodable(c, f)
    ensures Scan(c, EncodeFrame(c, f) + rest, skip) ==
      if skip > 0 then Prepend([], |EncodeFrame(c, f)|, Scan(c, rest, skip - 1))
      else Prepend([f], |EncodeFrame(c, f)|, Scan(c, rest, 0))
  {
    FrameRoundTrip(c, f, rest);
    assert (EncodeFrame(c, f) + rest)[16 + |c.marshal(f.env)|..] == rest;
  }

  lemma ScanTear(c: Codec, torn: Bytes, skip: nat)
    requires Faithful(c) && IsTear(c, torn)
    ensures Scan(c, torn, skip) == Good([], 0)
  {
    TearIsIncomplete(c, torn);
  }

  /** Prefixing one whole frame to a recoverable rest. */
  lemma ScanOneMore(c: Codec, f: Frame, fs: seq<Frame>, b: Bytes, n: nat, skip: nat)
    requires Faithful(c) && Encodable(c, f) && skip <= |fs| + 1
    requires Scan(c, b, if skip > 0 then skip - 1 else 0) == Good(fs[if skip > 0 then skip - 1 else 0..], n)
    ensures Scan(c, EncodeFrame(c, f) + b, skip) == Good(([f] + fs)[skip..], |EncodeFrame(c, f)| + n)
  {
    ScanFrame(c, f, b, skip);
    if skip > 0 {
      assert ([f] + fs)[skip..] == fs[skip - 1..] == [] + fs[skip - 1..];
    } else {
      assert fs[0..] == fs && ([f] + fs)[0..] == [f] + fs;
    }
  }

  ghost predicate AllEncodable(c: Codec, fs: seq<Frame>) {
    forall f :: f in fs ==> Encodable(c, f)
  }

  /** Scanning what was written, with an incomplete frame behind it, gives back exactly the
      frames beyond the skipped ones and cuts the file where the tear begins. */
  lemma {:induction false} ScanBefore(c: Codec, fs: seq<Frame>, torn: Bytes, skip: nat)
    requires Faithful(c) && AllEncodable(c, fs) && skip <= |fs|
    requires Scan(c, torn, 0) == Good([], 0)
    ensures Scan(c, EncodeAll(c, fs) + torn, skip) == Good(fs[skip..], |EncodeAll(c, fs)|)
  {
    if fs == [] {
      assert EncodeAll(c, fs) + torn == torn;
    } else {
      var rest := EncodeAll(c, fs[1..]);
      assert fs[0] in fs && AllEncodable(c, fs[1..]);
      ScanBefore(c, fs[1..], torn, if skip > 0 then skip - 1 else 0);
      ScanOneMore(c, fs[0], fs[1..], rest + torn, |rest|, skip);
      assert fs == [fs[0]] + fs[1..];
      assert EncodeAll(c, fs) + torn == EncodeFrame(c, fs[0]) + (rest + torn) by {
        Associative(EncodeFrame(c, fs[0]), rest, torn);
      }
    }
  }

  lemma ScanRecovers(c: Codec, fs: seq<Frame>, torn: Bytes, skip: nat)
    requires Faithful(c) && AllEncodable(c, fs) && IsTear(c, torn) && skip <= |fs|
    ensures Scan(c, EncodeAll(c, fs) + torn, skip) == Good(fs[skip..], |EncodeAll(c, fs)|)
  {
    ScanTear(c, torn, 0);
    ScanBefore(c, fs, torn, skip);
  }

  /** A frame behind intact ones that has the wrong checksum spoils the scan, skipped or not;
      so does one that is not skipped and does not unmarshal. */
  lemma {:induction false} ScanRefuses(c: Codec, fs: seq<Frame>, num: U64, crc: nat, p: Bytes, rest: Bytes, skip: nat)
    requires Faithful(c) && AllEncodable(c, fs) && |p| < TWO32 && crc < TWO32
    ensures c.crc(p) != crc ==> Scan(c, EncodeAll(c, fs) + (RawFrame(num, crc, p) + rest), skip) == Bad
    ensures skip <= |fs| && c.unmarshal(p).None? ==>
      Scan(c, EncodeAll(c, fs) + (RawFrame(num, crc, p) + rest), skip) == Bad
  {
    var tail := RawFrame(num, crc, p) + rest;
    if fs == [] {
      assert EncodeAll(c, fs) + tail == tail;
      ReadRaw(c, num, crc, p, rest);
    } else {
      assert fs[0] in fs && AllEncodable(c, fs[1..]);
      ScanRefuses(c, fs[1..], num, crc, p, rest, if skip > 0 then skip - 1 else 0);
      Associative(EncodeFrame(c, fs[0]), EncodeAll(c, fs[1..]), tail);
      ScanFrame(c, fs[0], EncodeAll(c, fs[1..]) + tail, skip);
    }
  }

  // ---- header ----

  const MAGIC: Bytes := [99, 111, 109, 108, 105, 110, 107, 1]

  function Header(c: Codec, conv: ConversationId): (h: Bytes)
    ensures |h| == 12 + |c.marshalConv(conv)|
  {
    MAGIC + LE(|c.marshalConv(conv)| % TWO32, 4) + c.marshalConv(conv)
  }

  datatype HeaderResult = Accepted(size: nat) | Corrupt | OtherConversation

  function ReadHeader(c: Codec, conv: ConversationId, b: Bytes): (r: HeaderResult)
    ensures r.Accepted? ==> 12 <= r.size <= |b|
  {
    if |b| < 8 || b[..8] != MAGIC then Corrupt
    else if |b| < 12 then Corrupt
    else
      var len := UnLE(b[8..12]);
      if |b| < 12 + len then Corrupt
      else
        var stored := c.unmarshalConv(b[12..12 + len]);
        if stored.None? then Corrupt
        else if stored.value != conv then OtherConversation
        else Accepted(12 + len)
  }

  lemma HeaderFields(c: Codec, conv: ConversationId, b: Bytes)
    requires Faithful(c) && Nameable(c, conv) && |b| >= 12 && b[..12] == Header(c, conv)[..12]
    ensures b[..8] == MAGIC && UnLE(b[8..12]) == |c.marshalConv(conv)|
  {
    var h := b[..12];
    Widths();
    LERoundTrip(|c.marshalConv(conv)| % TWO32, 4);
    assert h == MAGIC + LE(|c.marshalConv(conv)| % TWO32, 4);
    assert b[..8] == h[..8] == MAGIC;
    assert b[8..12] == h[8..12];
  }

  /** A header is accepted for its own conversation and for no other. */
  lemma HeaderRoundTrip(c: Codec, conv: ConversationId, asked: ConversationId, rest: Bytes)
    requires Faithful(c) && Nameable(c, conv)
    ensures ReadHeader(c, asked, Header(c, conv) + rest) ==
      (if asked == conv then Accepted(|Header(c, conv)|) else OtherConversation)
  {
    var b := Header(c, conv) + rest;
    assert b[..12] == Header(c, conv)[..12];
    HeaderFields(c, conv, b);
    assert b[12..12 + |c.marshalConv(conv)|] == c.marshalConv(conv);
  }

  /** A header torn by a crash is always refused. */
  lemma TornHeaderRefused(c: Codec, conv: ConversationId, asked: ConversationId, b: Bytes)
    requires Faithful(c) && Nameable(c, conv) && b < Header(c, conv)
    ensures ReadHeader(c, asked, b) == Corrupt
  {
    if |b| >= 12 {
      assert b[..12] == Header(c, conv)[..12];
      HeaderFields(c, conv, b);
    }
  }
}
