/**
 * The three in-memory messages. Their methods fill, move and resize buffers in
 * place; each is proved against the frame functions of `Wire`.
 */
module Messages {
  import opened Types
  import opened Wire

  // ---------- byte moves ----------

  /** memcpy into a buffer from storage that does not overlap it. */
  method CopyIn(v: array<byte>, at: nat, src: Bytes)
    requires at + |src| <= v.Length
    modifies v
    ensures v[..] == old(v[..at]) + src + old(v[at + |src|..])
  {
    for i := 0 to |src|
      invariant v[..] == old(v[..at]) + src[..i] + old(v[at + i..])
    {
      v[at + i] := src[i];
    }
  }

  /**
   * memcpy within one buffer, as an ascending byte loop. Ranges may overlap: a
   * byte is read before the loop reaches its position, because it moves down.
   */
  method MoveDown(v: array<byte>, dst: nat, src: nat, n: nat)
    requires dst <= src && src + n <= v.Length
    modifies v
    ensures v[dst..dst + n] == old(v[src..src + n])
    ensures v[..dst] == old(v[..dst]) && v[dst + n..] == old(v[dst + n..])
  {
    for i := 0 to n
      invariant v[dst..dst + i] == old(v[src..src + i])
      invariant v[..dst] == old(v[..dst]) && v[dst + i..] == old(v[dst + i..])
    {
      assert v[dst + i..][src - dst] == old(v[dst + i..])[src - dst];
      v[dst + i] := v[src + i];
      assert v[dst + i + 1..] == old(v[dst + i..])[1..];
    }
  }

  /** std::vector::resize: keep the common prefix, zero-fill what is new. */
  method Resize(v: array<byte>, n: nat) returns (r: array<byte>)
    ensures fresh(r) && r.Length == n
    ensures r[..] == if n <= v.Length then v[..n] else v[..] + seq(n - v.Length, _ => 0)
  {
    r := new byte[n](_ => 0);
    var kept := if n <= v.Length then n else v.Length;
    for i := 0 to kept
      invariant forall k :: 0 <= k < n ==> r[k] == if k < i then v[k] else 0
    {
      r[i] := v[i];
    }
  }

  /** Allocates a combined vector and fills it with a header, an optional gid and a body. */
  method Assemble(header: Bytes, gid: Bytes, body: Bytes) returns (v: array<byte>)
    ensures fresh(v) && v[..] == header + gid + body
  {
    v := new byte[|header| + |gid| + |body|](_ => 0);
    CopyIn(v, 0, header);
    CopyIn(v, |header|, gid);
    assert v[..|header| + |gid|] == header + gid;
    CopyIn(v, |header| + |gid|, body);
  }

  /** Resizes to `kept` bytes plus a new body, growing or shrinking, and copies the body in. */
  method ReplaceTail(v: array<byte>, kept: nat, body: Bytes) returns (r: array<byte>)
    requires kept <= v.Length
    ensures fresh(r) && r[..] == v[..kept] + body
  {
    r := Resize(v, kept + |body|);
    assert r[..kept] == v[..kept];
    CopyIn(r, kept, body);
  }

  lemma SpansOfParts(v: Bytes, header: Bytes, gid: Bytes, data: Bytes)
    requires v == header + gid + data
    ensures v[|header|..|header| + |gid|] == gid
    ensures v[|header| + |gid|..|header| + |gid| + |data|] == data
  {
  }

  /** The spans of a new message, whatever part of the gid length was stored. */
  lemma SpansOfNew(header: Bytes, gid: Bytes, data: Bytes)
    requires |header| == 5
    ensures var v, n := header + gid + data, |gid| % 256;
            v[5..5 + n] == (gid + data)[..n] && v[5 + n..] == (gid + data)[n..]
  {
    assert header + gid + data == header + (gid + data);
  }

  lemma SlicesOf(v: array<byte>, from: nat, to: nat)
    requires from <= to <= v.Length
    ensures v[from..to] == v[..][from..to] && v[to..] == v[..][to..]
  {
  }

  lemma PlainBuffer(m: Service)
    requires m.compressor.Raw? && m.channel == SERVICE_ACTION && |m.gid| < 256
    ensures ServiceBytes(m) == PlainServiceBytes(m.serviceChannel, m.op, m.gid, m.data)
  {
    assert [SERVICE_ACTION, 0] + [m.serviceChannel, m.op.Code(), |m.gid|]
        == [SERVICE_ACTION, 0, m.serviceChannel, m.op.Code(), |m.gid| % 256];
  }

  // ---------- ServiceActionMessage ----------

  class ServiceActionMessage {
    const channel: byte
    const serviceActionChannel: byte
    const serviceActionOpCode: Op
    var compressor: Compressor
    var uncompressedSize: nat
    var combinedVector: array<byte>
    // the two spans, as offsets into combinedVector
    var gidAt: nat
    var gidSize: nat
    var dataAt: nat
    var dataSize: nat

    ghost predicate InBounds()
      reads this
    {
      gidAt + gidSize <= combinedVector.Length && dataAt + dataSize <= combinedVector.Length && gidSize < 256
    }

    /** The fields together with what the spans point at. */
    ghost function View(): Service
      reads this, combinedVector
      requires InBounds()
    {
      Service(channel, compressor, uncompressedSize, serviceActionChannel, serviceActionOpCode,
              combinedVector[gidAt..gidAt + gidSize], combinedVector[dataAt..dataAt + dataSize])
    }

    /** Spans are in bounds and lie where the header says, and the buffer is exactly the message. */
    ghost predicate Valid()
      reads this, combinedVector
    {
      && InBounds()
      && uncompressedSize < U32
      && gidAt == ServiceHeaderSize(compressor) && dataAt == gidAt + gidSize
      && combinedVector[..] == ServiceBytes(View())
    }

    /**
     * The constructors' span computation, over any combined vector in which the
     * stored gid length stays in bounds. The message is valid exactly when the
     * vector is the buffer of what the spans show.
     */
    constructor (channel: byte, compressor: Compressor, uncompressedSize: nat, serviceActionChannel: byte,
                 serviceActionOpCode: Op, combinedVector: array<byte>)
      requires var h := ServiceHeaderSize(compressor);
               combinedVector.Length >= h && combinedVector.Length >= h + combinedVector[h - 1] as int
      ensures this.combinedVector == combinedVector && InBounds()
      ensures var h := ServiceHeaderSize(compressor);
              var end := h + combinedVector[h - 1] as int;
              View() == Service(channel, compressor, uncompressedSize, serviceActionChannel, serviceActionOpCode,
                                combinedVector[h..end], combinedVector[end..])
      ensures Valid() <==> uncompressedSize < U32 && combinedVector[..] == ServiceBytes(View())
    {
      this.channel := channel;
      this.compressor := compressor;
      this.uncompressedSize := uncompressedSize;
      this.serviceActionChannel := serviceActionChannel;
      this.serviceActionOpCode := serviceActionOpCode;
      this.combinedVector := combinedVector;
      var h := ServiceHeaderSize(compressor);
      var size := combinedVector[h - 1];
      gidAt, gidSize := h, size;
      dataAt, dataSize := h + size as int, combinedVector.Length - h - size as int;
    }

    /** Checks a received message and lays the spans over a true copy of its combined vector. */
    static method FromMessage(m: Rcl) returns (r: Option<ServiceActionMessage>)
      requires m.uncompressedSize < U32
      ensures r.Some? <==> Wire.FromMessage(m).Some?
      ensures r.Some? ==> fresh(r.value) && fresh(r.value.combinedVector) && r.value.Valid()
      ensures r.Some? ==> Some(r.value.View()) == Wire.FromMessage(m)
    {
      var h := ServiceHeaderSize(m.compressor);
      var v := Assemble(RclBytes(m), [], []);
      assert v[..] == RclBytes(m);
      if v.Length < h + 1 { return None; }
      var op := OpOf(v[h - 2]);
      if op.None? || v.Length < h + v[h - 1] as int { return None; }
      var message := Lay(m, v, op.value);
      r := Some(message);
    }

    /** The constructor call at the end of fromMessage. */
    static method Lay(m: Rcl, v: array<byte>, op: Op) returns (message: ServiceActionMessage)
      requires m.uncompressedSize < U32 && v[..] == RclBytes(m)
      requires Wire.FromMessage(m).Some? && Wire.FromMessage(m).value.op == op
      ensures fresh(message) && message.combinedVector == v && message.Valid()
      ensures message.View() == Wire.FromMessage(m).value
    {
      MessageBytes(m);
      var h := ServiceHeaderSize(m.compressor);
      var size := if m.compressor.Raw? then (v.Length - h - v[h - 1] as int) % U32 else m.uncompressedSize;
      message := new ServiceActionMessage(m.channel, m.compressor, size, v[h - 3], op, v);
      SlicesOf(v, h, h + v[h - 1] as int);
    }

    /** Builds the plain message of a service or action call. */
    static method NewServiceAction(serviceActionChannel: byte, op: Op, data: Bytes, gID: Bytes)
      returns (m: ServiceActionMessage)
      ensures fresh(m) && fresh(m.combinedVector) && m.Valid()
      ensures m.View() == ForServiceAction(serviceActionChannel, op, gID, data)
      ensures m.combinedVector[..] == PlainServiceBytes(serviceActionChannel, op, gID, data)
    {
      var header := [SERVICE_ACTION, 0, serviceActionChannel, op.Code(), |gID| % 256];
      var v := Assemble(header, gID, data);
      PlainBytesOfMessage(serviceActionChannel, op, gID, data);
      SlicesOf(v, 5, 5 + |gID| % 256);
      SpansOfNew(header, gID, data);
      m := new ServiceActionMessage(SERVICE_ACTION, Raw, |data| % U32, serviceActionChannel, op, v);
    }

    /** The first half of store: write the plain header and slide the gid down behind it. */
    method Relocate()
      requires InBounds() && gidAt == 9
      requires combinedVector[0] == channel
      modifies combinedVector
      ensures combinedVector[..5 + gidSize] ==
              [channel, 0] + [serviceActionChannel, serviceActionOpCode.Code(), gidSize]
              + old(combinedVector[gidAt..gidAt + gidSize])
    {
      var v := combinedVector;
      v[1], v[2], v[3], v[4] := 0, serviceActionChannel, serviceActionOpCode.Code(), gidSize;
      assert v[gidAt..gidAt + gidSize] == old(combinedVector[gidAt..gidAt + gidSize]);
      assert v[..5] == [channel, 0] + [serviceActionChannel, serviceActionOpCode.Code(), gidSize];
      MoveDown(v, 5, gidAt, gidSize);
      assert v[..5 + gidSize] == v[..5] + v[5..5 + gidSize];
    }

    /**
     * Replaces the compressed data by `data` in the same buffer: the header
     * shrinks by the size field, the gid slides down over it, the buffer is
     * resized and the spans are laid again.
     */
    method Store(data: Bytes)
      requires InBounds() && gidAt == 9 && dataAt == 9 + gidSize && compressor.Raw?
      requires combinedVector[0] == channel
      requires uncompressedSize == |data| < U32
      modifies this, combinedVector
      ensures Valid() && fresh(combinedVector)
      ensures View() == old(View()).(data := data)
    {
      ghost var gid := combinedVector[gidAt..gidAt + gidSize];
      ghost var header := [channel, 0] + [serviceActionChannel, serviceActionOpCode.Code(), gidSize];
      Relocate();
      combinedVector := ReplaceTail(combinedVector, 5 + gidSize, data);
      gidAt, dataAt, dataSize := 5, 5 + gidSize, |data|;
      assert combinedVector[..] == header + gid + data;
      SpansOfParts(combinedVector[..], header, gid, data);
    }

    /** MessageBase::decompress: on failure the message is untouched. */
    method Decompress(codec: Codec) returns (ok: bool)
      requires Valid()
      modifies this, combinedVector
      ensures ok <==> TryInflate(codec, old(compressor), old(uncompressedSize), old(View().data)).Some?
      ensures !ok ==> Valid() && View() == old(View()) && combinedVector == old(combinedVector)
      ensures ok ==> Valid() && compressor.Raw?
      ensures ok ==> View() == old(View()).(compressor := Raw, data := Content(codec, old(View())).value)
      ensures ok && channel == SERVICE_ACTION ==>
                combinedVector[..]
                == PlainServiceBytes(serviceActionChannel, serviceActionOpCode, View().gid, View().data)
    {
      var uncompressed := TryInflate(codec, compressor, uncompressedSize, combinedVector[dataAt..dataAt + dataSize]);
      if uncompressed.None? { return false; }
      ServiceBytesLayout(View());
      compressor := Raw;
      Store(uncompressed.value);
      if channel == SERVICE_ACTION { PlainBuffer(View()); }
      return true;
    }

    /** getCompressedCombinedVector with any of the three compressors, or none. */
    method CompressedCombinedVector(codec: Codec, profile: Profile) returns (r: Bytes)
      requires Valid() && compressor.Raw?
      ensures r == CompressedServiceBytes(codec, profile, View())
    {
      var src := combinedVector[dataAt..dataAt + dataSize];
      var out := TryCompress(codec, profile, src);
      if out.None? { return combinedVector[..]; }
      var header := [channel, profile.compressor.Code()] + LE32(|src|)
                    + [serviceActionChannel, serviceActionOpCode.Code(), gidSize];
      var v := Assemble(header, combinedVector[gidAt..gidAt + gidSize], out.value);
      return v[..];
    }
  }

  // ---------- RclMessage ----------

  class RclMessage {
    const channel: byte
    var compressor: Compressor
    var uncompressedSize: nat
    var serializedMessage: Bytes

    ghost function View(): Rcl
      reads this
    {
      Rcl(channel, compressor, uncompressedSize, serializedMessage)
    }

    /** One frame from the read buffer, header fields first. */
    constructor FromFlatBuffer(frame: Bytes)
      requires Readable(frame)
      ensures View() == Wire.FromFlatBuffer(frame)
    {
      channel := frame[0];
      var k := CompressorOf(frame[1]);
      if k.None? {
        compressor, uncompressedSize, serializedMessage := Raw, 0, [];
      } else if k.value.Raw? {
        compressor, uncompressedSize, serializedMessage := Raw, (|frame| - 2) % U32, frame[2..];
      } else {
        compressor := k.value;
        uncompressedSize := frame[2] as int + 256 * frame[3] as int + 65536 * frame[4] as int
                            + 16777216 * frame[5] as int;
        serializedMessage := frame[6..];
      }
    }

    /** Overwrites the serialized message with the uncompressed data. */
    method Store(data: Bytes)
      modifies this`serializedMessage
      ensures View() == old(View()).(buffer := data)
    {
      serializedMessage := data;
    }

    method Decompress(codec: Codec) returns (ok: bool)
      modifies this
      ensures ok <==> Decompressed(codec, old(View())).Some?
      ensures View() == if ok then Decompressed(codec, old(View())).value else old(View())
      ensures ok ==> RclBytes(View()) == TopicBytes(channel, View().buffer)
    {
      var uncompressed := TryInflate(codec, compressor, uncompressedSize, serializedMessage);
      if uncompressed.None? { return false; }
      compressor := Raw;
      Store(uncompressed.value);
      return true;
    }
  }

  // ---------- VectorMessage ----------

  class VectorMessage {
    const channel: byte
    const combinedVector: array<byte>

    ghost function Payload(): Bytes
      reads combinedVector
      requires combinedVector.Length >= 2
    {
      combinedVector[2..]
    }

    ghost predicate Valid()
      reads combinedVector
    {
      combinedVector.Length >= 2 && combinedVector[0] == channel && combinedVector[1] == 0
    }

    /** Captures one serialized message behind a two-byte header. */
    constructor FromSerializedMessage(channel: byte, serializedMessage: Bytes)
      ensures Valid() && fresh(combinedVector) && this.channel == channel && Payload() == serializedMessage
      ensures combinedVector[..] == TopicBytes(channel, serializedMessage)
    {
      this.channel := channel;
      combinedVector := new byte[2 + |serializedMessage|](_ => 0);
      new;
      combinedVector[0], combinedVector[1] := channel, 0;
      CopyIn(combinedVector, 2, serializedMessage);
    }

    /** getCompressedCombinedVector: what the peer decodes back to the payload. */
    method CompressedCombinedVector(codec: Codec, profile: Profile) returns (r: Bytes)
      requires Valid()
      ensures r == SendTopic(codec, profile, channel, Payload())
      ensures codec.Lawful() ==> ReceiveTopic(codec, r) == Some(Payload())
    {
      var src := combinedVector[2..];
      if codec.Lawful() { TopicRoundTrip(codec, profile, channel, src); }
      var out := TryCompress(codec, profile, src);
      if out.None? {
        assert combinedVector[..] == TopicBytes(channel, src);
        return combinedVector[..];
      }
      var v := Assemble([channel, profile.compressor.Code()] + LE32(|src|), [], out.value);
      return v[..];
    }
  }
}
