/**
 * The byte-level wire format: two header shapes (plain and compressed), the
 * 32-bit little-endian size field, and what a receiver makes of a frame.
 * LZ4 and ZLIB appear only as an abstract `Codec`.
 */
module Wire {
  import opened Types

  // ---------- the size field ----------

  const U32 := 0x1_0000_0000

  function LE32(n: nat): (s: Bytes)
    ensures |s| == 4
  {
    [n % 256, (n / 256) % 256, (n / 65536) % 256, (n / 16777216) % 256]
  }

  function FromLE32(s: Bytes): (n: nat)
    requires |s| >= 4
    ensures n < U32
  {
    s[0] as int + 256 * s[1] as int + 65536 * s[2] as int + 16777216 * s[3] as int
  }

  lemma DivideTwice(n: nat, k: nat)
    requires k > 0
    ensures n / (256 * k) == (n / 256) / k
  {
    var q := n / 256;
    var d, r := q / k, q % k;
    assert n == 256 * q + n % 256 && q == k * d + r;
    assert n == (256 * k) * d + (256 * r + n % 256);
    assert 0 <= 256 * r + n % 256 < 256 * k;
    Quotient(n, 256 * k, d, 256 * r + n % 256);
  }

  lemma Quotient(n: nat, m: nat, d: nat, r: nat)
    requires 0 <= r < m && n == m * d + r
    ensures n / m == d && n % m == r
  {
    var e := n / m - d;
    assert m * e == r - n % m;
  }

  lemma SizeFieldRoundTrip(n: nat)
    ensures FromLE32(LE32(n)) == n % U32
  {
    var a := n / 256;
    var b := a / 256;
    var c := b / 256;
    var d := c / 256;
    DivideTwice(n, 256);
    DivideTwice(n, 65536);
    DivideTwice(a, 256);
    assert LE32(n) == [n % 256, a % 256, b % 256, c % 256];
    assert n == U32 * d + FromLE32(LE32(n));
    Quotient(n, U32, d, FromLE32(LE32(n)));
  }

  lemma SizeFieldUnique(s: Bytes)
    requires |s| == 4
    ensures LE32(FromLE32(s)) == s
  {
    var n := FromLE32(s);
    var s0: int, s1: int, s2: int, s3: int := s[0], s[1], s[2], s[3];
    assert n / 256 == s1 + 256 * s2 + 65536 * s3;
    assert n / 65536 == s2 + 256 * s3;
    assert n / 16777216 == s3;
  }

  lemma PartsOf(header: Bytes, gid: Bytes, data: Bytes)
    ensures var v := header + gid + data;
            && v[..|header|] == header && v[|header|..|header| + |gid|] == gid && v[|header| + |gid|..] == data
  {
  }

  // ---------- the compression libraries ----------

  /**
   * `compress` is one library call (None: LZ4 returned <= 0, ZLIB did not
   * return Z_OK). `inflateLz4` and `inflateZlib` are given the compressed bytes
   * and the room for the result, and return what they wrote.
   */
  datatype Codec = Codec(
    compress: (Compressor, nat, Bytes) -> Option<Bytes>,
    inflateLz4: (Bytes, nat) -> Option<Bytes>,
    inflateZlib: (Bytes, nat) -> Option<Bytes>)
  {
    /** Both LZ4 compressors share one decompressor. */
    function Inflate(k: Compressor, src: Bytes, room: nat): Option<Bytes> {
      if k.Zlib? then inflateZlib(src, room) else inflateLz4(src, room)
    }

    /** A successful compression is not empty, and its decompressor returns the input. */
    ghost predicate Lawful() {
      forall k, rate, src :: compress(k, rate, src).Some? ==>
        |compress(k, rate, src).value| > 0 && Inflate(k, compress(k, rate, src).value, |src|) == Some(src)
    }
  }

  const LZ4_MAX_SRC_SIZE := 0x7E00_0000
  const ZLIB_MAX_SRC_SIZE := 0xFFFF_FFFE

  function SrcLimit(k: Compressor): nat {
    if k.Zlib? then ZLIB_MAX_SRC_SIZE else LZ4_MAX_SRC_SIZE
  }

  /** None is the fallback: no compressor, data too big, or the library failed. */
  function TryCompress(codec: Codec, profile: Profile, src: Bytes): Option<Bytes> {
    if profile.compressor.Raw? || |src| > SrcLimit(profile.compressor) then None
    else codec.compress(profile.compressor, profile.rate, src)
  }

  /** `decompress`: the stored size must be reached exactly. */
  function TryInflate(codec: Codec, k: Compressor, size: nat, src: Bytes): (r: Option<Bytes>)
    ensures r.Some? ==> |r.value| == size && !k.Raw?
  {
    if k.Raw? || size > ZLIB_MAX_SRC_SIZE then None
    else
      var out := codec.Inflate(k, src, size);
      if out.Some? && |out.value| == size then out else None
  }

  lemma InflateInvertsCompress(codec: Codec, profile: Profile, src: Bytes)
    requires codec.Lawful() && TryCompress(codec, profile, src).Some?
    ensures var out := TryCompress(codec, profile, src).value;
            |out| > 0 && |src| < U32 && TryInflate(codec, profile.compressor, |src|, out) == Some(src)
  {
  }

  // ---------- received frames ----------

  /** RclMessage: what the read loop keeps of one frame. */
  datatype Rcl = Rcl(channel: byte, compressor: Compressor, uncompressedSize: nat, buffer: Bytes)

  /** The bytes the read loop dereferences without checking. */
  predicate Readable(frame: Bytes) {
    |frame| >= 2 && (1 <= frame[1] <= 3 ==> |frame| >= 6)
  }

  function FromFlatBuffer(frame: Bytes): (m: Rcl)
    requires Readable(frame)
    ensures m.channel == frame[0]
  {
    match CompressorOf(frame[1])
    case None => Rcl(frame[0], Raw, 0, [])
    case Some(Raw) => Rcl(frame[0], Raw, (|frame| - 2) % U32, frame[2..])
    case Some(k) => Rcl(frame[0], k, FromLE32(frame[2..6]), frame[6..])
  }

  /** The combined vector of a received message. */
  function RclBytes(m: Rcl): Bytes {
    if m.compressor.Raw? then [m.channel, 0] + m.buffer
    else [m.channel, m.compressor.Code()] + LE32(m.uncompressedSize) + m.buffer
  }

  /** A message rebuilds exactly the frame it was read from, whatever the sender put in it. */
  lemma CombinedVectorIsFrame(frame: Bytes)
    requires Readable(frame) && frame[1] <= 3
    ensures RclBytes(FromFlatBuffer(frame)) == frame
  {
    if frame[1] != 0 {
      SizeFieldUnique(frame[2..6]);
      assert frame == [frame[0], frame[1]] + frame[2..6] + frame[6..];
    } else {
      assert frame == [frame[0], 0] + frame[2..];
    }
  }

  /** The combined vector of a message reads back as that message. */
  lemma RclBytesReadBack(m: Rcl)
    requires m.uncompressedSize < U32
    ensures var frame := RclBytes(m);
            && Readable(frame) && frame[1] <= 3
            && FromFlatBuffer(frame) == if m.compressor.Raw? then m.(uncompressedSize := |m.buffer| % U32) else m
  {
    SizeFieldRoundTrip(m.uncompressedSize);
    var frame := RclBytes(m);
    if m.compressor.Raw? {
      assert frame[2..] == m.buffer;
    } else {
      assert frame[2..6] == LE32(m.uncompressedSize) && frame[6..] == m.buffer;
    }
  }

  /** An unknown compressor byte leaves an empty message: the rest of the frame is gone. */
  lemma UnknownCompressorIsEmpty(frame: Bytes)
    requires |frame| >= 2 && frame[1] > 3
    ensures RclBytes(FromFlatBuffer(frame)) == [frame[0], 0]
    ensures FromMessage(FromFlatBuffer(frame)) == None
  {
  }

  /** `decompress` on a received message; None when it fails and nothing changes. */
  function Decompressed(codec: Codec, m: Rcl): Option<Rcl> {
    match TryInflate(codec, m.compressor, m.uncompressedSize, m.buffer)
    case None => None
    case Some(data) => Some(m.(compressor := Raw, buffer := data))
  }

  // ---------- topics ----------

  /** VectorMessage::fromSerializedMessage: the plain frame of a topic payload. */
  function TopicBytes(channel: byte, payload: Bytes): Bytes {
    [channel, 0] + payload
  }

  function SendTopic(codec: Codec, profile: Profile, channel: byte, payload: Bytes): (frame: Bytes)
    ensures Readable(frame) && frame[0] == channel
  {
    match TryCompress(codec, profile, payload)
    case None => TopicBytes(channel, payload)
    case Some(out) => [channel, profile.compressor.Code()] + LE32(|payload|) + out
  }

  /** What a threaded publisher publishes of a frame: None is "cannot be decompressed". */
  function ReceiveTopic(codec: Codec, frame: Bytes): Option<Bytes>
    requires Readable(frame)
  {
    Payload(codec, FromFlatBuffer(frame))
  }

  function Payload(codec: Codec, m: Rcl): Option<Bytes> {
    if m.compressor.Raw? then Some(m.buffer)
    else match Decompressed(codec, m)
      case None => None
      case Some(d) => Some(d.buffer)
  }

  lemma PlainTopicReadsBack(channel: byte, payload: Bytes)
    ensures FromFlatBuffer(TopicBytes(channel, payload)) == Rcl(channel, Raw, |payload| % U32, payload)
  {
    assert TopicBytes(channel, payload)[2..] == payload;
  }

  lemma CompressedTopicReadsBack(channel: byte, k: Compressor, size: nat, out: Bytes)
    requires !k.Raw? && size < U32
    ensures var frame := [channel, k.Code()] + LE32(size) + out;
            Readable(frame) && FromFlatBuffer(frame) == Rcl(channel, k, size, out)
  {
    PartsOf([channel, k.Code()], LE32(size), out);
    SizeFieldRoundTrip(size);
  }

  /**
   * Every payload survives every profile, the fallbacks included, and the
   * receiver's message ends up byte-identical to the sender's plain frame.
   */
  lemma TopicRoundTrip(codec: Codec, profile: Profile, channel: byte, payload: Bytes)
    requires codec.Lawful()
    ensures var frame := SendTopic(codec, profile, channel, payload);
            && ReceiveTopic(codec, frame) == Some(payload)
            && var m := FromFlatBuffer(frame);
            && RclBytes(if m.compressor.Raw? then m else Decompressed(codec, m).value)
               == TopicBytes(channel, payload)
  {
    match TryCompress(codec, profile, payload)
    case None => PlainTopicReadsBack(channel, payload);
    case Some(out) =>
      InflateInvertsCompress(codec, profile, payload);
      CompressedTopicReadsBack(channel, profile.compressor, |payload|, out);
  }

  /** The library compresses this payload with the profile's compressor and rate. */
  predicate Compresses(codec: Codec, profile: Profile, payload: Bytes) {
    && profile.compressor != Raw
    && |payload| <= (if profile.compressor == Zlib then 4294967294 else 2113929216)
    && codec.compress(profile.compressor, profile.rate, payload).Some?
  }

  /**
   * A payload is sent compressed whenever the profile and the library allow it,
   * by that library call and with its size in the header; plain otherwise.
   */
  lemma CompressedExactly(codec: Codec, profile: Profile, channel: byte, payload: Bytes)
    ensures var frame := SendTopic(codec, profile, channel, payload);
            if Compresses(codec, profile, payload) then
              && frame[..2] == [channel, profile.compressor.Code()]
              && |frame| >= 6 && FromLE32(frame[2..6]) == |payload|
              && codec.compress(profile.compressor, profile.rate, payload) == Some(frame[6..])
            else frame == [channel, 0] + payload
  {
    if Compresses(codec, profile, payload) {
      var out := codec.compress(profile.compressor, profile.rate, payload).value;
      CompressedTopicReadsBack(channel, profile.compressor, |payload|, out);
    }
  }

  /** So is the data of a service message: what is kept in the clear is its header and gid. */
  lemma ServiceCompressedExactly(codec: Codec, profile: Profile, m: Service)
    requires m.compressor.Raw? && |m.gid| < 256
    ensures CompressedServiceBytes(codec, profile, m)
         == if Compresses(codec, profile, m.data) then
              var out := codec.compress(profile.compressor, profile.rate, m.data).value;
              [m.channel, profile.compressor.Code()] + LE32(|m.data|)
              + [m.serviceChannel, m.op.Code(), |m.gid|] + m.gid + out
            else [m.channel, 0, m.serviceChannel, m.op.Code(), |m.gid|] + m.gid + m.data
  {
    if !Compresses(codec, profile, m.data) {
      assert [m.channel, 0] + [m.serviceChannel, m.op.Code(), |m.gid|]
          == [m.channel, 0, m.serviceChannel, m.op.Code(), |m.gid|];
    }
  }

  /**
   * A compressed message is decompressed exactly when its own library yields as
   * many bytes as the header says; both LZ4 compressors share one library.
   */
  lemma InflatedExactly(codec: Codec, m: Rcl)
    requires m.compressor != Raw && m.uncompressedSize < U32
    ensures var out := if m.compressor == Zlib then codec.inflateZlib(m.buffer, m.uncompressedSize)
                       else codec.inflateLz4(m.buffer, m.uncompressedSize);
            Payload(codec, m)
            == if out.Some? && |out.value| == m.uncompressedSize && m.uncompressedSize != 4294967295 then out else None
  {
  }

  // ---------- subscription notifications ----------

  function SubscriptionBytes(channel: byte, value: bool): (frame: Bytes)
    ensures Readable(frame) && frame[0] == SUBSCRIPTION
  {
    [SUBSCRIPTION, 0, channel, if value then 1 else 0]
  }

  /** RclMessage::toSubscription reads two bytes of the buffer unchecked. */
  function ToSubscription(m: Rcl): (byte, bool)
    requires |m.buffer| >= 2
  {
    (m.buffer[0], m.buffer[1] == 1)
  }

  lemma SubscriptionRoundTrip(channel: byte, value: bool)
    ensures var m := FromFlatBuffer(SubscriptionBytes(channel, value));
            && m.channel == SUBSCRIPTION && |m.buffer| == 2 && ToSubscription(m) == (channel, value)
  {
  }

  // ---------- services and actions ----------

  /** ServiceActionMessage: the header fields and the two spans of its buffer. */
  datatype Service = Service(
    channel: byte, compressor: Compressor, uncompressedSize: nat,
    serviceChannel: byte, op: Op, gid: Bytes, data: Bytes)

  function ServiceHeaderSize(k: Compressor): nat {
    if k.Raw? then 5 else 9
  }

  /** The buffer of a message, header first. */
  function ServiceBytes(m: Service): Bytes
    requires |m.gid| < 256
  {
    HeaderOf(m) + m.gid + m.data
  }

  /** The spans the constructors lay over a combined vector. */
  function SpansOf(m: Rcl, v: Bytes, op: Op): (r: Service)
    requires |v| >= ServiceHeaderSize(m.compressor)
    requires |v| >= ServiceHeaderSize(m.compressor) + v[ServiceHeaderSize(m.compressor) - 1] as int
  {
    var h := ServiceHeaderSize(m.compressor);
    var end := h + v[h - 1] as int;
    Service(m.channel, m.compressor, if m.compressor.Raw? then (|v| - end) % U32 else m.uncompressedSize,
            v[h - 3], op, v[h..end], v[end..])
  }

  function FromMessage(m: Rcl): Option<Service> {
    var v := RclBytes(m);
    var h := ServiceHeaderSize(m.compressor);
    if |v| < h + 1 || OpOf(v[h - 2]).None? || |v| < h + v[h - 1] as int then None
    else Some(SpansOf(m, v, OpOf(v[h - 2]).value))
  }

  /**
   * Parser soundness on arbitrary input: a frame is either refused, or header,
   * gid and data partition it exactly.
   */
  lemma ParserSound(frame: Bytes)
    requires Readable(frame)
    ensures var got := FromMessage(FromFlatBuffer(frame));
            got.Some? ==>
              && frame[1] <= 3
              && |got.value.gid| < 256
              && ServiceBytes(got.value) == frame
              && |frame| == ServiceHeaderSize(got.value.compressor) + |got.value.gid| + |got.value.data|
  {
    if frame[1] <= 3 {
      CombinedVectorIsFrame(frame);
      if FromMessage(FromFlatBuffer(frame)).Some? { SpansPartition(frame); }
    } else {
      UnknownCompressorIsEmpty(frame);
    }
  }

  lemma SpansPartition(frame: Bytes)
    requires Readable(frame) && frame[1] <= 3
    requires var h := if frame[1] == 0 then 5 else 9;
             |frame| > h && frame[h - 2] <= 13 && |frame| >= h + frame[h - 1] as int
    ensures var m := FromFlatBuffer(frame);
            var h := ServiceHeaderSize(m.compressor);
            ServiceBytes(SpansOf(m, frame, OpOf(frame[h - 2]).value)) == frame
  {
    var h := if frame[1] == 0 then 5 else 9;
    var end := h + frame[h - 1] as int;
    var header := [frame[h - 3], frame[h - 2], frame[h - 1]];
    assert frame == frame[..h - 3] + header + frame[h..end] + frame[end..];
    if frame[1] == 0 {
      assert frame[..h - 3] == [frame[0], 0];
    } else {
      SizeFieldUnique(frame[2..6]);
      assert frame[..h - 3] == [frame[0], frame[1]] + frame[2..6];
    }
  }

  /** An accepted message is the bytes it was read from. */
  lemma MessageBytes(m: Rcl)
    requires m.uncompressedSize < U32 && FromMessage(m).Some?
    ensures var s := FromMessage(m).value;
            |s.gid| < 256 && s.uncompressedSize < U32 && ServiceBytes(s) == RclBytes(m)
  {
    RclBytesReadBack(m);
    SpansPartition(RclBytes(m));
  }

  /** A frame is refused exactly when it is too short, its op-code is unknown or its gid is cut off. */
  lemma ParserComplete(frame: Bytes)
    requires Readable(frame) && frame[1] <= 3
    ensures var h := if frame[1] == 0 then 5 else 9;
            FromMessage(FromFlatBuffer(frame)).None? <==>
              |frame| <= h || frame[h - 2] > 13 || |frame| < h + frame[h - 1] as int
  {
    CombinedVectorIsFrame(frame);
  }

  /** forServiceAction's buffer; the gid length is stored modulo 256. */
  function PlainServiceBytes(serviceChannel: byte, op: Op, gid: Bytes, data: Bytes): Bytes {
    [SERVICE_ACTION, 0, serviceChannel, op.Code(), |gid| % 256] + gid + data
  }

  /** forServiceAction's message: the constructor lays the spans with the stored gid length. */
  function ForServiceAction(serviceChannel: byte, op: Op, gid: Bytes, data: Bytes): Service {
    var v := gid + data;
    Service(SERVICE_ACTION, Raw, |data| % U32, serviceChannel, op, v[..|gid| % 256], v[|gid| % 256..])
  }

  /** getCompressedCombinedVector of a plain message. */
  function CompressedServiceBytes(codec: Codec, profile: Profile, m: Service): Bytes
    requires m.compressor.Raw? && |m.gid| < 256
  {
    match TryCompress(codec, profile, m.data)
    case None => ServiceBytes(m)
    case Some(out) => ServiceBytes(m.(compressor := profile.compressor, uncompressedSize := |m.data|, data := out))
  }

  function SendService(
      codec: Codec, profile: Profile, serviceChannel: byte, op: Op, gid: Bytes, data: Bytes): (frame: Bytes)
    ensures Readable(frame) && frame[0] == SERVICE_ACTION && frame[1] <= 3
  {
    CompressedServiceBytes(codec, profile, ForServiceAction(serviceChannel, op, gid, data))
  }

  lemma PlainBytesOfMessage(serviceChannel: byte, op: Op, gid: Bytes, data: Bytes)
    ensures ServiceBytes(ForServiceAction(serviceChannel, op, gid, data))
            == PlainServiceBytes(serviceChannel, op, gid, data)
  {
    var v, n := gid + data, |gid| % 256;
    assert v == v[..n] + v[n..];
    calc {
      ServiceBytes(ForServiceAction(serviceChannel, op, gid, data));
      ([SERVICE_ACTION, 0] + [serviceChannel, op.Code(), n]) + v[..n] + v[n..];
      [SERVICE_ACTION, 0, serviceChannel, op.Code(), n] + (v[..n] + v[n..]);
      PlainServiceBytes(serviceChannel, op, gid, data);
    }
  }

  /** The content of a message: its data span, decompressed first when it is compressed. */
  function Content(codec: Codec, m: Service): Option<Bytes> {
    if m.compressor.Raw? then Some(m.data)
    else TryInflate(codec, m.compressor, m.uncompressedSize, m.data)
  }

  function Opened(codec: Codec, m: Service): Message {
    Message(m.op, m.gid, Content(codec, m))
  }

  /** What the peer's endpoint reads of a frame: the endpoint's channel and the opened message. */
  function ReceiveService(codec: Codec, frame: Bytes): Option<(byte, Message)>
    requires Readable(frame)
  {
    match FromMessage(FromFlatBuffer(frame))
    case None => None
    case Some(m) => Some((m.serviceChannel, Opened(codec, m)))
  }

  /** Reading back the buffer of a message returns its spans. */
  lemma ServiceBytesReadBack(m: Service)
    requires |m.gid| < 256 && m.uncompressedSize < U32
    requires |m.gid| + |m.data| > 0
    ensures Readable(ServiceBytes(m))
    ensures var got := FromMessage(FromFlatBuffer(ServiceBytes(m)));
            && got.Some?
            && got.value == m.(uncompressedSize := if m.compressor.Raw? then |m.data| % U32 else m.uncompressedSize)
  {
    var v := ServiceBytes(m);
    ServiceBytesLayout(m);
    CombinedVectorIsFrame(v);
  }

  /** The part of the buffer before the gid. */
  function HeaderOf(m: Service): (h: Bytes)
    requires |m.gid| < 256
    ensures |h| == ServiceHeaderSize(m.compressor)
  {
    (if m.compressor.Raw? then [m.channel, 0] else [m.channel, m.compressor.Code()] + LE32(m.uncompressedSize))
    + [m.serviceChannel, m.op.Code(), |m.gid|]
  }

  lemma HeaderLayout(m: Service)
    requires |m.gid| < 256 && m.uncompressedSize < U32
    ensures var v, h := HeaderOf(m), ServiceHeaderSize(m.compressor);
            && v[0] == m.channel && v[1] == m.compressor.Code()
            && v[h - 3] == m.serviceChannel && v[h - 2] == m.op.Code() && v[h - 1] == |m.gid|
            && (!m.compressor.Raw? ==> FromLE32(v[2..6]) == m.uncompressedSize)
  {
    if !m.compressor.Raw? {
      SizeFieldRoundTrip(m.uncompressedSize);
      assert HeaderOf(m)[2..6] == LE32(m.uncompressedSize);
    }
  }

  /** Where each field of a message lies in its buffer. */
  lemma ServiceBytesLayout(m: Service)
    requires |m.gid| < 256 && m.uncompressedSize < U32
    ensures var v := ServiceBytes(m);
            var h := ServiceHeaderSize(m.compressor);
            && |v| == h + |m.gid| + |m.data|
            && v[0] == m.channel && v[1] == m.compressor.Code()
            && v[h - 3] == m.serviceChannel && v[h - 2] == m.op.Code() && v[h - 1] == |m.gid|
            && v[h..h + |m.gid|] == m.gid && v[h + |m.gid|..] == m.data
            && (!m.compressor.Raw? ==> FromLE32(v[2..6]) == m.uncompressedSize)
  {
    var v, header := ServiceBytes(m), HeaderOf(m);
    PartsOf(header, m.gid, m.data);
    HeaderLayout(m);
    assert v == header + m.gid + m.data;
    assert forall i :: 0 <= i < |header| ==> v[i] == header[i];
    if !m.compressor.Raw? { assert v[2..6] == header[2..6]; }
  }

  /**
   * The wire round trip for every channel, op-code, gid, data and profile. The
   * stored gid length is one byte, so the receiver splits gid and data at
   * `|gid| % 256`; a frame with neither gid nor data is refused unless it was
   * compressed.
   */
  lemma ServiceRoundTrip(codec: Codec, profile: Profile, serviceChannel: byte, op: Op, gid: Bytes, data: Bytes)
    requires codec.Lawful()
    ensures var frame := SendService(codec, profile, serviceChannel, op, gid, data);
            var n := |gid| % 256;
            ReceiveService(codec, frame) ==
            if frame[1] == 0 && |gid| + |data| == 0 then None
            else Some((serviceChannel, Message(op, (gid + data)[..n], Some((gid + data)[n..]))))
  {
    var m := ForServiceAction(serviceChannel, op, gid, data);
    match TryCompress(codec, profile, m.data)
    case None => PlainReadBack(codec, m);
    case Some(out) => CompressedReadBack(codec, profile, m);
  }

  lemma PlainReadBack(codec: Codec, m: Service)
    requires m.compressor.Raw? && |m.gid| < 256 && m.uncompressedSize < U32
    ensures var frame := ServiceBytes(m);
            && Readable(frame) && frame[1] == 0
            && ReceiveService(codec, frame) ==
               if |m.gid| + |m.data| == 0 then None else Some((m.serviceChannel, Message(m.op, m.gid, Some(m.data))))
  {
    if |m.gid| + |m.data| > 0 {
      ServiceBytesReadBack(m);
    } else {
      ServiceBytesLayout(m);
      ParserComplete(ServiceBytes(m));
    }
  }

  lemma CompressedReadBack(codec: Codec, profile: Profile, m: Service)
    requires codec.Lawful() && m.compressor.Raw? && |m.gid| < 256 && TryCompress(codec, profile, m.data).Some?
    ensures var frame := CompressedServiceBytes(codec, profile, m);
            && Readable(frame) && frame[1] != 0
            && ReceiveService(codec, frame) == Some((m.serviceChannel, Message(m.op, m.gid, Some(m.data))))
  {
    InflateInvertsCompress(codec, profile, m.data);
    var out := TryCompress(codec, profile, m.data).value;
    var c := m.(compressor := profile.compressor, uncompressedSize := |m.data|, data := out);
    ServiceBytesReadBack(c);
    assert Content(codec, c) == Some(m.data);
  }

  /** With a non-empty gid the same message comes back exactly when the gid fits its length byte. */
  lemma ServiceRoundTripExact(codec: Codec, profile: Profile, serviceChannel: byte, op: Op, gid: Bytes, data: Bytes)
    requires codec.Lawful() && |gid| > 0
    ensures ReceiveService(codec, SendService(codec, profile, serviceChannel, op, gid, data))
              == Some((serviceChannel, Message(op, gid, Some(data))))
            <==> |gid| <= 255
  {
    ServiceRoundTrip(codec, profile, serviceChannel, op, gid, data);
    if |gid| <= 255 {
      assert (gid + data)[..|gid|] == gid && (gid + data)[|gid|..] == data;
    } else {
      assert |(gid + data)[..|gid| % 256]| < |gid|;
    }
  }
}
