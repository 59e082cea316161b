/**
 * The Packet value and its wire format.  A packet is written as a 7-byte
 * header (type ordinal: 1 byte, id: 2 bytes, data length: 4 bytes, all big
 * endian) followed by the data.  The Java and the Kotlin Packet classes have
 * the same fields, the same write and the same fromStream; both are this
 * module.
 */
module Packets {
  import opened Base
  import opened BigEndian
  import opened DataIO

  datatype PacketType = Request | Reply

  function Ordinal(t: PacketType): nat
  {
    match t
    case Request => 0
    case Reply => 1
  }

  /** PacketType.fastValues[i]: any index other than 0 or 1 is out of bounds. */
  function FromOrdinal(i: int): (r: Result<PacketType>)
    ensures r.Ok? <==> 0 <= i < 2
    ensures r.Ok? ==> Ordinal(r.value) == i
    ensures r.Fail? ==> r.error == IndexOutOfBounds
  {
    if i == 0 then Ok(Request) else if i == 1 then Ok(Reply) else Fail(IndexOutOfBounds)
  }

  /** An immutable packet; dataLength is fixed to the length of data on construction. */
  datatype Packet = Packet(packetType: PacketType, packetID: int16, data: ByteArray)
  {
    const dataLength: int32 := |data|

    function IsRequest(): (r: bool)
      ensures r <==> !IsReply()
    {
      packetType == Request
    }

    function IsReply(): bool
    {
      packetType == Reply
    }
  }

  /** The bytes Packet.write puts on the stream. */
  function Encode(p: Packet): (r: seq<uint8>)
    ensures |r| == 7 + p.dataLength
  {
    ByteBytes(Ordinal(p.packetType)) + ShortBytes(p.packetID) + IntBytes(p.dataLength) + p.data
  }

  /** What Packet.fromStream reads at pos, with the exception it throws if any. */
  function DecodePacket(data: seq<uint8>, pos: nat): (s: Step<Packet>)
    requires pos <= |data|
    ensures pos <= s.pos <= |data|
    ensures s.result.Fail? ==> s.result.error in {EOF, IndexOutOfBounds, NegativeArraySize}
    ensures s.result.Ok? ==> s.pos == pos + 7 + s.result.value.dataLength
  {
    var t := NextByte(data, pos);
    match t.result
    case Fail(e) => Step(Fail(e), t.pos)
    case Ok(tb) =>
      var ty := FromOrdinal(tb);
      if ty.Fail? then Step(Fail(IndexOutOfBounds), t.pos)
      else
        var id := NextShort(data, t.pos);
        match id.result
        case Fail(e) => Step(Fail(e), id.pos)
        case Ok(i) =>
          var len := NextInt(data, id.pos);
          match len.result
          case Fail(e) => Step(Fail(e), len.pos)
          case Ok(n) =>
            if n < 0 then Step(Fail(NegativeArraySize), len.pos)
            else
              var body := NextBytes(data, len.pos, n);
              match body.result
              case Fail(e) => Step(Fail(e), body.pos)
              case Ok(bs) =>
                assert |bs| == n && n <= MaxArrayLength;
                Step(Ok(Packet(ty.value, i, bs)), body.pos)
  }

  /**
   * fromStream inverts write: the packet written at pos is read back whole,
   * and exactly its 7 + dataLength bytes are consumed.
   */
  lemma DecodeEncode(data: seq<uint8>, pos: nat, p: Packet)
    requires At(data, pos, Encode(p))
    ensures DecodePacket(data, pos) == Step(Ok(p), pos + 7 + p.dataLength)
  {
    var h1, h2, h3 := ByteBytes(Ordinal(p.packetType)), ShortBytes(p.packetID), IntBytes(p.dataLength);
    Assoc4(h1, h2, h3, p.data);
    AtSplit(data, pos, h1, h2 + (h3 + p.data));
    AtSplit(data, pos + 1, h2, h3 + p.data);
    AtSplit(data, pos + 3, h3, p.data);
    NextByteAt(data, pos, Ordinal(p.packetType));
    NextShortAt(data, pos + 1, p.packetID);
    NextIntAt(data, pos + 3, p.dataLength);
    assert NextBytes(data, pos + 7, p.dataLength) == Step(Ok(p.data), pos + 7 + p.dataLength);
  }

  /** Conversely, a packet is read only from bytes that are its own encoding. */
  lemma DecodedIsEncoding(data: seq<uint8>, pos: nat)
    requires pos <= |data| && DecodePacket(data, pos).result.Ok?
    ensures At(data, pos, Encode(DecodePacket(data, pos).result.value))
  {
    var p := DecodePacket(data, pos).result.value;
    DecodedParts(data, pos);
    EncodeOfParts(data, pos, p);
  }

  /** A packet whose header and payload parts lie at pos lies there encoded. */
  lemma EncodeOfParts(data: seq<uint8>, pos: nat, p: Packet)
    requires pos + 7 + p.dataLength <= |data|
    requires ByteBytes(Ordinal(p.packetType)) == data[pos..pos + 1]
    requires ShortBytes(p.packetID) == data[pos + 1..pos + 3]
    requires IntBytes(p.dataLength) == data[pos + 3..pos + 7]
    requires p.data == data[pos + 7..pos + 7 + p.dataLength]
    ensures At(data, pos, Encode(p))
  {
    Slice4(data, pos, pos + 1, pos + 3, pos + 7, pos + 7 + p.dataLength);
  }

  /** Each part of a decoded packet is the encoding of the bytes it was read from. */
  lemma DecodedParts(data: seq<uint8>, pos: nat)
    requires pos <= |data| && DecodePacket(data, pos).result.Ok?
    ensures var p := DecodePacket(data, pos).result.value;
      pos + 7 + p.dataLength <= |data| &&
      ByteBytes(Ordinal(p.packetType)) == data[pos..pos + 1] &&
      ShortBytes(p.packetID) == data[pos + 1..pos + 3] &&
      IntBytes(p.dataLength) == data[pos + 3..pos + 7] &&
      p.data == data[pos + 7..pos + 7 + p.dataLength]
  {
    ByteOfSigned(data[pos..pos + 1]);
    ShortOfSigned(data[pos + 1..pos + 3]);
    IntOfSigned(data[pos + 3..pos + 7]);
  }

  /** The type byte is checked by indexing: any value but 0 or 1 is out of bounds. */
  lemma BadTypeIsOutOfBounds(data: seq<uint8>, pos: nat)
    requires pos <= |data|
    ensures DecodePacket(data, pos).result == Fail(IndexOutOfBounds) <==> pos < |data| && data[pos] > 1
  {
    Pow256Values();
    if pos < |data| {
      assert data[pos..pos + 1] == [data[pos]];
      assert Signed([data[pos]]) == if data[pos] < 0x80 then data[pos] else data[pos] as int - 0x100;
    }
  }

  /** A negative length fails at allocation, after the whole header is consumed. */
  lemma NegativeLengthFails(data: seq<uint8>, pos: nat)
    requires pos + 7 <= |data| && data[pos] <= 1 && data[pos + 3] >= 0x80
    ensures DecodePacket(data, pos) == Step(Fail(NegativeArraySize), pos + 7)
  {
    Pow256Values();
    assert data[pos..pos + 1] == [data[pos]];
    var lb := data[pos + 3..pos + 7];
    assert lb[0] == data[pos + 3];
    SignedNegative(lb);
  }

  /** A body shorter than the length field fails in readFully, consuming the rest. */
  lemma TruncatedBodyFails(data: seq<uint8>, pos: nat)
    requires pos + 7 <= |data| && data[pos] <= 1
    requires DecodePacket(data, pos).result.Fail? && DecodePacket(data, pos).result.error != NegativeArraySize
    ensures DecodePacket(data, pos) == Step(Fail(EOF), |data|)
  {
    Pow256Values();
    assert data[pos..pos + 1] == [data[pos]];
  }

  /** Packet.write. */
  method Write(p: Packet, out: DataOutputStream)
    modifies out
    ensures out.written == old(out.written) + Encode(p)
  {
    out.WriteByte(Ordinal(p.packetType));
    out.WriteShort(p.packetID);
    out.WriteInt(p.dataLength);
    out.Write(p.data);
  }

  /** Packet.fromStream. */
  method FromStream(input: DataInputStream) returns (r: Result<Packet>)
    requires input.Valid()
    modifies input
    ensures input.Valid()
    ensures r == DecodePacket(input.data, old(input.pos)).result && input.pos == DecodePacket(input.data, old(input.pos)).pos
  {
    var tb := input.ReadByte();
    if tb.Fail? {
      return Fail(tb.error);
    }
    var ty := FromOrdinal(tb.value);
    if ty.Fail? {
      return Fail(IndexOutOfBounds);
    }
    var id := input.ReadShort();
    if id.Fail? {
      return Fail(id.error);
    }
    var n := input.ReadInt();
    if n.Fail? {
      return Fail(n.error);
    }
    if n.value < 0 {
      return Fail(NegativeArraySize);
    }
    var bs := input.ReadFully(n.value);
    if bs.Fail? {
      return Fail(bs.error);
    }
    return Ok(Packet(ty.value, id.value, bs.value));
  }
}
