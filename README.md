# PNet in Dafny

PNet is a small Java/Kotlin networking library. Clients and servers exchange
*packets* over TCP or TLS sockets. A packet is a triple: a type (Request or
Reply), a 16-bit id, and a byte payload. On the wire it is a 7-byte big-endian
header followed by the payload. The payload is assembled field by field by a
`PacketBuilder` and read back in the same order by a `PacketReader`. There are
two dialects of these:

- the Java one writes raw byte arrays and `writeUTF` strings;
- the Kotlin one writes length-prefixed byte arrays and charset-encoded strings.

Around the codec the library has six more pieces:

- a dispatcher from packet ids to handlers;
- a client state machine with a socket-reading listener thread;
- an asynchronous send queue;
- an auto-reconnecting client;
- a server that tracks its connected clients;
- a TLS policy layer that keeps a socket's protocols and cipher suites to a pinned list.

This project models all of that core and proves what each piece promises.

Each kind of state is modelled as follows:

- **Sockets** are values (connected, closed, keep-alive, the bytes the peer sends, whether writes fail).
- **Socket factories, server-socket factories and JDK key stores** are parameters: the outcome they produce.
- **Streams** are byte sequences with a cursor. Each read is a pure `Step` function (value or exception, plus the new cursor). The stream classes' methods are proved against those functions.
- **Listeners, handlers and callbacks** are opaque identifiers. Every callback they receive is appended to an event log, so "fires once" and "in this order" become statements about sequences.
- **Threads** run sequentially: launching a thread is recorded, and the thread's body is a method the caller runs.

The Java and Kotlin copies of `Packet`, `ClientImpl` and `ServerImpl` have the
same state and branches, so each is modelled once. Where the copies differ, the
dialect is a parameter or a constant of the class:

- the payload builders and readers;
- the two distributers;
- the async client's queue discipline;
- the three AutoClients;
- the TLS lists;
- `withHost`.

Modules (one file each, in dependency order):

| file | module | models |
|---|---|---|
| base.dfy | Base | Java integer widths, `byte[]`, `String`, exceptions, `Result`/`Outcome`/`Step` |
| bigendian.dfy | BigEndian | two's-complement big-endian encoding at 1, 2, 4 and 8 bytes |
| mutf8.dfy | ModifiedUtf8 | the modified UTF-8 of `java.io.DataInput` (section 4.4.7 of the Java Virtual Machine Specification) |
| dataio.dfy | DataIO | `DataOutputStream` over a `ByteArrayOutputStream`, `DataInputStream` over a `ByteArrayInputStream` |
| packet.dfy | Packets | `Packet`, `PacketType`, `write`, `fromStream` |
| javapackets.dfy | JavaPackets | Java `PacketBuilder` and `PacketReader` |
| ktpackets.dfy | KotlinPackets | Kotlin `PacketBuilder` and `PacketReader` |
| distributer.dfy | Handlers, JavaEvents, KotlinEvents | the two `PacketDistributer`s |
| client.dfy | Clients | `ClientImpl` and its listener thread |
| async.dfy | AsyncClients | `AsyncClient` (Java and Kotlin) |
| auto.dfy | AutoClients | the three `AutoClient`s |
| server.dfy | Servers | `ServerImpl` |
| tls.dfy | Tls | `TLS` (Java and Kotlin): pinned lists, `getUsable`, socket creators |
| tls_builder.dfy | TlsBuilders | `TLSBuilder` (Java and Kotlin) |

## Model

| member | source | states |
|---|---|---|
| BigEndian.FromToBytes | src/main/java/nl/pvdberg/pnet/packet/Packet.java:117-159 | decoding the n-byte big-endian form of u gives u back |
| BigEndian.ToFromBytes | src/main/java/nl/pvdberg/pnet/packet/Packet.java:117-159 | an n-byte sequence is the n-byte big-endian form of its value |
| BigEndian.SignedNegative | src/main/java/nl/pvdberg/pnet/packet/Packet.java:147 | a two's-complement value is negative exactly when its top bit is set |
| BigEndian.SignedOfBytes | src/main/java/nl/pvdberg/pnet/packet/Packet.java:117-159 | a value written at width 1, 2, 4 or 8 and read back signed at that width is unchanged |
| BigEndian.SignedByte | src/main/java/nl/pvdberg/pnet/packet/Packet.java:120 | writeByte then readByte gives back every Java byte |
| BigEndian.SignedShort | src/main/java/nl/pvdberg/pnet/packet/Packet.java:123 | writeShort then readShort gives back every Java short |
| BigEndian.SignedInt | src/main/java/nl/pvdberg/pnet/packet/Packet.java:126 | writeInt then readInt gives back every Java int |
| BigEndian.SignedLong | src/main/java/main/nl/pvdberg/pnet/packet/PacketBuilder.java:215-227 | writeLong then readLong gives back every Java long |
| BigEndian.ByteOfSigned | src/main/java/nl/pvdberg/pnet/packet/Packet.java:141 | every single byte is the encoding of its signed value |
| BigEndian.ShortOfSigned | src/main/java/nl/pvdberg/pnet/packet/Packet.java:144 | every 2 bytes are the encoding of their signed value |
| BigEndian.IntOfSigned | src/main/java/nl/pvdberg/pnet/packet/Packet.java:147 | every 4 bytes are the encoding of their signed value |
| BigEndian.SignedMod | src/main/java/nl/pvdberg/pnet/packet/Packet.java:147 | the signed value reduced modulo 256^n is the unsigned value |
| ModifiedUtf8.EncodeChar | src/main/java/nl/pvdberg/pnet/packet/PacketReader.java:85-88 | a code unit takes 1 byte exactly when it is in 1..0x7F, and 3 bytes exactly when it is at least 0x800 (so U+0000 takes 2) |
| ModifiedUtf8.DecodeChar | src/main/java/nl/pvdberg/pnet/packet/PacketReader.java:85-88 | decoding the bytes of one code unit, followed by anything, yields that unit and then the rest's decoding |
| ModifiedUtf8.DecodeEncode | src/main/java/nl/pvdberg/pnet/packet/PacketReader.java:85-88 | decoding undoes encoding for every string |
| ModifiedUtf8.EncodeLength | src/main/java/main/nl/pvdberg/pnet/packet/PacketBuilder.java:139-151 | a string takes between 1 and 3 bytes per code unit |
| ModifiedUtf8.EncodeAppend | src/main/java/main/nl/pvdberg/pnet/packet/PacketBuilder.java:139-151 | the encoding of a concatenation is the concatenation of the encodings |
| DataIO.NextUTF | src/main/java/nl/pvdberg/pnet/packet/PacketReader.java:85-88 | readUTF never moves the cursor backwards or past the end |
| DataIO.NextByteAt | src/main/java/nl/pvdberg/pnet/packet/PacketReader.java:53-56 | readByte reads back what writeByte wrote |
| DataIO.NextShortAt | src/main/java/nl/pvdberg/pnet/packet/PacketReader.java:135-138 | readShort reads back what writeShort wrote |
| DataIO.NextIntAt | src/main/java/nl/pvdberg/pnet/packet/PacketReader.java:75-78 | readInt reads back what writeInt wrote |
| DataIO.NextLongAt | src/main/java/nl/pvdberg/pnet/packet/PacketReader.java:125-128 | readLong reads back what writeLong wrote |
| DataIO.NextBooleanAt | src/main/java/nl/pvdberg/pnet/packet/PacketReader.java:95-98 | readBoolean reads back what writeBoolean wrote |
| DataIO.NextUTFAt | src/main/java/nl/pvdberg/pnet/packet/PacketReader.java:85-88 | readUTF reads back what writeUTF wrote and consumes exactly those bytes |
| DataIO.DataOutputStream.WriteByte | src/main/java/nl/pvdberg/pnet/packet/Packet.java:120 | appends the byte's encoding to the buffer |
| DataIO.DataOutputStream.WriteShort | src/main/java/nl/pvdberg/pnet/packet/Packet.java:123 | appends 2 big-endian bytes |
| DataIO.DataOutputStream.WriteInt | src/main/java/nl/pvdberg/pnet/packet/Packet.java:126 | appends 4 big-endian bytes |
| DataIO.DataOutputStream.WriteLong | src/main/java/main/nl/pvdberg/pnet/packet/PacketBuilder.java:215-227 | appends 8 big-endian bytes |
| DataIO.DataOutputStream.WriteBoolean | src/main/java/main/nl/pvdberg/pnet/packet/PacketBuilder.java:158-170 | appends 1 or 0 |
| DataIO.DataOutputStream.Write | src/main/java/nl/pvdberg/pnet/packet/Packet.java:129 | appends the bytes themselves |
| DataIO.DataOutputStream.WriteUTF | src/main/java/main/nl/pvdberg/pnet/packet/PacketBuilder.java:139-151 | appends the 2-byte length and the modified UTF-8 bytes, or throws UTFDataFormatException and appends nothing |
| DataIO.DataInputStream.ReadFully | src/main/java/nl/pvdberg/pnet/packet/Packet.java:151 | the next n bytes when n are left; otherwise EOFException with everything left consumed |
| DataIO.DataInputStream.ReadByte | src/main/java/nl/pvdberg/pnet/packet/Packet.java:141 | the next byte, signed, or EOFException at the end; DataIO.NextByteAt proves it reads back writeByte |
| DataIO.DataInputStream.ReadShort | src/main/java/nl/pvdberg/pnet/packet/Packet.java:144 | the next 2 bytes as a signed big-endian value, or EOFException with the rest consumed; NextShortAt proves it reads back writeShort |
| DataIO.DataInputStream.ReadInt | src/main/java/nl/pvdberg/pnet/packet/Packet.java:147 | the next 4 bytes as a signed big-endian value, or EOFException with the rest consumed; NextIntAt proves it reads back writeInt |
| DataIO.DataInputStream.ReadLong | src/main/java/nl/pvdberg/pnet/packet/PacketReader.java:125-128 | the next 8 bytes as a signed big-endian value, or EOFException with the rest consumed; NextLongAt proves it reads back writeLong |
| DataIO.DataInputStream.ReadBoolean | src/main/java/nl/pvdberg/pnet/packet/PacketReader.java:95-98 | true exactly when the next byte is not zero, or EOFException at the end; NextBooleanAt proves it reads back writeBoolean |
| DataIO.DataInputStream.ReadUTF | src/main/java/nl/pvdberg/pnet/packet/PacketReader.java:85-88 | result and cursor are those of NextUTF, which NextUTFAt proves reads back writeUTF |
| DataIO.DataInputStream.Read | src/main/java/nl/pvdberg/pnet/packet/PacketReader.java:66 | IndexOutOfBoundsException exactly for a bad off/len range; -1 exactly at the end of the data, even for len 0; otherwise min(len, bytes left) bytes are copied into b[off..] and consumed; b and the cursor change in no other way |
| Packets.FromOrdinal | src/main/java/nl/pvdberg/pnet/packet/Packet.java:141 | fastValues[i] succeeds exactly for 0 and 1, giving the type of that ordinal; any other index is out of bounds |
| Packets.Packet.IsRequest | src/main/java/nl/pvdberg/pnet/packet/Packet.java:71-83 | exactly one of isRequest and isReply holds |
| Packets.Encode | src/main/java/nl/pvdberg/pnet/packet/Packet.java:117-130 | write emits exactly 7 + dataLength bytes |
| Packets.DecodePacket | src/main/java/nl/pvdberg/pnet/packet/Packet.java:138-159 | fromStream fails only with EOFException, an out-of-bounds type index or a negative array size; on success it consumes exactly 7 + dataLength bytes |
| Packets.DecodeEncode | src/main/java/nl/pvdberg/pnet/packet/Packet.java:138-159 | fromStream of written bytes returns the same packet and consumes exactly 7 + dataLength bytes |
| Packets.DecodedIsEncoding | src/main/java/nl/pvdberg/pnet/packet/Packet.java:138-159 | conversely, a packet is read only from bytes that are its own encoding |
| Packets.DecodedParts | src/main/java/nl/pvdberg/pnet/packet/Packet.java:141-151 | each header part and the payload of a decoded packet are exactly the bytes they were read from |
| Packets.BadTypeIsOutOfBounds | src/main/java/nl/pvdberg/pnet/packet/Packet.java:141 | fromStream fails with an index exception exactly when the type byte is present and is neither 0 nor 1 (signed bytes below 0 included) |
| Packets.NegativeLengthFails | src/main/java/nl/pvdberg/pnet/packet/Packet.java:150 | a negative length field fails at allocation, after the 7 header bytes |
| Packets.TruncatedBodyFails | src/main/java/nl/pvdberg/pnet/packet/Packet.java:151 | a body shorter than its length fails in readFully with EOFException, consuming the rest |
| Packets.Write | src/main/java/nl/pvdberg/pnet/packet/Packet.java:117-130 | the stream gains exactly Encode(p) |
| Packets.FromStream | src/main/java/nl/pvdberg/pnet/packet/Packet.java:138-159 | result and cursor are those of DecodePacket |
| JavaPackets.EncodeFieldsAppend | src/main/java/main/nl/pvdberg/pnet/packet/PacketBuilder.java:82-246 | the payload after one more with* call is the old payload followed by that field's bytes |
| JavaPackets.PacketBuilder.constructor | src/main/java/main/nl/pvdberg/pnet/packet/PacketBuilder.java:47-55 | a fresh builder has id 0, no fields, an empty buffer and is not built |
| JavaPackets.PacketBuilder.Append | src/main/java/main/nl/pvdberg/pnet/packet/PacketBuilder.java:60-63 | checkBuilt: a sealed builder throws IllegalStateException; otherwise the field's bytes are appended unless the buffer would outgrow the largest array |
| JavaPackets.PacketBuilder.WithID | src/main/java/main/nl/pvdberg/pnet/packet/PacketBuilder.java:70-75 | replaces the id and appends nothing; throws once built |
| JavaPackets.PacketBuilder.WithByte | src/main/java/main/nl/pvdberg/pnet/packet/PacketBuilder.java:82-94 | appends one byte field; throws once built |
| JavaPackets.PacketBuilder.WithBytes | src/main/java/main/nl/pvdberg/pnet/packet/PacketBuilder.java:101-113 | appends the raw bytes with no length in front |
| JavaPackets.PacketBuilder.WithInt | src/main/java/main/nl/pvdberg/pnet/packet/PacketBuilder.java:120-132 | appends one int field |
| JavaPackets.PacketBuilder.WithString | src/main/java/main/nl/pvdberg/pnet/packet/PacketBuilder.java:139-151 | appends the writeUTF bytes; an over-long string is logged (no exception, nothing appended) |
| JavaPackets.PacketBuilder.WithBoolean | src/main/java/main/nl/pvdberg/pnet/packet/PacketBuilder.java:158-170 | appends one boolean field |
| JavaPackets.PacketBuilder.WithFloat | src/main/java/main/nl/pvdberg/pnet/packet/PacketBuilder.java:177-189 | appends the float's 32-bit pattern |
| JavaPackets.PacketBuilder.WithDouble | src/main/java/main/nl/pvdberg/pnet/packet/PacketBuilder.java:196-208 | appends the double's 64-bit pattern |
| JavaPackets.PacketBuilder.WithLong | src/main/java/main/nl/pvdberg/pnet/packet/PacketBuilder.java:215-227 | appends one long field |
| JavaPackets.PacketBuilder.WithShort | src/main/java/main/nl/pvdberg/pnet/packet/PacketBuilder.java:234-246 | appends one short field |
| JavaPackets.PacketBuilder.Build | src/main/java/main/nl/pvdberg/pnet/packet/PacketBuilder.java:253-272 | returns Packet(type, id, concatenated fields in call order) and seals; a second build throws IllegalStateException |
| JavaPackets.ReadBytesStep | src/main/java/nl/pvdberg/pnet/packet/PacketReader.java:64-68 | a successful readBytes(out, n) consumes exactly the next n bytes and returns them |
| JavaPackets.ReadBytesOutcome | src/main/java/nl/pvdberg/pnet/packet/PacketReader.java:64-68 | what the single read leaves in the array and the cursor is what ReadBytesStep says, and the exception follows the count |
| JavaPackets.ReadStepAt | src/test/java/nl/pvdberg/pnet/packet/PacketBuilderReaderTest.java:33-64 | each single field is read back as written by the matching reader call |
| JavaPackets.ReadAllAt | src/test/java/nl/pvdberg/pnet/packet/PacketBuilderReaderTest.java:33-64 | written fields are read back in order, provided no empty raw array is read at the very end |
| JavaPackets.PayloadRoundTrip | src/test/java/nl/pvdberg/pnet/packet/PacketBuilderReaderTest.java:33-64 | every built payload whose last field is not an empty raw array is read back field by field |
| JavaPackets.EmptyBytesAtEndFails | src/main/java/nl/pvdberg/pnet/packet/PacketReader.java:64-68 | the payload of withBytes(empty) is empty, and reading it back with readBytes(out, 0) throws "Not enough data available" |
| JavaPackets.ReadBytesIntended | src/main/java/nl/pvdberg/pnet/packet/PacketReader.java:64-68 | the intended readBytes never moves the cursor backwards or past the end |
| JavaPackets.ReadBytesIntendedAt | src/main/java/nl/pvdberg/pnet/packet/PacketReader.java:64-68 | the intended readBytes reads back every raw array, the empty one at the end included |
| JavaPackets.ReadBytesAgree | src/main/java/nl/pvdberg/pnet/packet/PacketReader.java:64-68 | apart from a zero-length read at the end, the code and the intended readBytes succeed together and then agree |
| JavaPackets.PacketReader.constructor | src/main/java/nl/pvdberg/pnet/packet/PacketReader.java:41-46 | the reader holds the packet with its cursor at 0 |
| JavaPackets.PacketReader.GetPacket | src/main/java/nl/pvdberg/pnet/packet/PacketReader.java:144-147 | getPacket is the constructor's argument whatever has been read: `packet` is a constant that only the constructor sets, and reads move only the cursor |
| JavaPackets.PacketReader.ReadByte | src/main/java/nl/pvdberg/pnet/packet/PacketReader.java:53-56 | result and cursor are those of NextByte on the packet's data |
| JavaPackets.PacketReader.ReadBytes | src/main/java/nl/pvdberg/pnet/packet/PacketReader.java:64-68 | the outcome and cursor are those of ReadBytesStep; the array receives the bytes read, and the rest of it is unchanged |
| JavaPackets.PacketReader.ReadInt | src/main/java/nl/pvdberg/pnet/packet/PacketReader.java:75-78 | the next 4 bytes as a signed big-endian value, or EOFException with the rest consumed; NextIntAt proves it reads back writeInt |
| JavaPackets.PacketReader.ReadString | src/main/java/nl/pvdberg/pnet/packet/PacketReader.java:85-88 | result and cursor are those of NextUTF, which NextUTFAt proves reads back writeUTF |
| JavaPackets.PacketReader.ReadBoolean | src/main/java/nl/pvdberg/pnet/packet/PacketReader.java:95-98 | true exactly when the next byte is not zero, or EOFException at the end; NextBooleanAt proves it reads back writeBoolean |
| JavaPackets.PacketReader.ReadFloat | src/main/java/nl/pvdberg/pnet/packet/PacketReader.java:105-108 | the bit pattern of readInt |
| JavaPackets.PacketReader.ReadDouble | src/main/java/nl/pvdberg/pnet/packet/PacketReader.java:115-118 | the bit pattern of readLong |
| JavaPackets.PacketReader.ReadLong | src/main/java/nl/pvdberg/pnet/packet/PacketReader.java:125-128 | the next 8 bytes as a signed big-endian value, or EOFException with the rest consumed; NextLongAt proves it reads back writeLong |
| JavaPackets.PacketReader.ReadShort | src/main/java/nl/pvdberg/pnet/packet/PacketReader.java:135-138 | the next 2 bytes as a signed big-endian value, or EOFException with the rest consumed; NextShortAt proves it reads back writeShort |
| KotlinPackets.EncodeField | src/main/kotlin/nl/pvdberg/pnet/packet/PacketBuilder.kt:64-108 | every plus call appends at least one byte (an empty array still gets its 4-byte length) |
| KotlinPackets.EncodeFieldsAppend | src/main/kotlin/nl/pvdberg/pnet/packet/PacketBuilder.kt:64-108 | the payload after one more plus call is the old payload followed by that field's bytes |
| KotlinPackets.WriteField | src/main/kotlin/nl/pvdberg/pnet/packet/PacketBuilder.kt:64-108 | the stream calls behind each plus overload append exactly the field's bytes |
| KotlinPackets.PacketBuilder.constructor | src/main/kotlin/nl/pvdberg/pnet/packet/PacketBuilder.kt:38-42 | packetID defaults to 0 and the payload is empty |
| KotlinPackets.PacketBuilder.Bytes | src/main/kotlin/nl/pvdberg/pnet/packet/PacketBuilder.kt:48 | the bytes getter is the concatenation of the fields so far, as long as no plus(ByteArray) has failed after writing its length |
| KotlinPackets.PacketBuilder.GetPacket | src/main/kotlin/nl/pvdberg/pnet/packet/PacketBuilder.kt:54-62 | the packet getter is a snapshot of type, id and payload so far, without sealing; the payload is the fields' encoding as long as no plus(ByteArray) has failed half-way |
| KotlinPackets.PacketBuilder.SetPacketID | src/main/kotlin/nl/pvdberg/pnet/packet/PacketBuilder.kt:42 | packetID may be reassigned freely and appends nothing |
| KotlinPackets.PacketBuilder.Append | src/main/kotlin/nl/pvdberg/pnet/packet/PacketBuilder.kt:64-108 | appends exactly the field's bytes, or fails with OutOfMemoryError when the buffer would outgrow the largest array; a failing plus(ByteArray) still leaves its 4-byte length in the buffer when that alone fits, and the buffer then no longer encodes the fields |
| KotlinPackets.PacketBuilder.PlusByte | src/main/kotlin/nl/pvdberg/pnet/packet/PacketBuilder.kt:64-67 | appends one byte |
| KotlinPackets.PacketBuilder.PlusBytes | src/main/kotlin/nl/pvdberg/pnet/packet/PacketBuilder.kt:69-73 | appends the length as 4 big-endian bytes, then the bytes; writeInt and write are separate calls, so when only write(b) outgrows the largest array the length stays in the buffer |
| KotlinPackets.PacketBuilder.PlusString | src/main/kotlin/nl/pvdberg/pnet/packet/PacketBuilder.kt:75-78 | is exactly plus(ByteArray) of the charset's encoding, including its half-written failure |
| KotlinPackets.PacketBuilder.PlusInt | src/main/kotlin/nl/pvdberg/pnet/packet/PacketBuilder.kt:80-83 | appends 4 bytes |
| KotlinPackets.PacketBuilder.PlusBoolean | src/main/kotlin/nl/pvdberg/pnet/packet/PacketBuilder.kt:85-88 | appends 1 byte |
| KotlinPackets.PacketBuilder.PlusFloat | src/main/kotlin/nl/pvdberg/pnet/packet/PacketBuilder.kt:90-93 | appends the float's 32-bit pattern |
| KotlinPackets.PacketBuilder.PlusDouble | src/main/kotlin/nl/pvdberg/pnet/packet/PacketBuilder.kt:95-98 | appends the double's 64-bit pattern |
| KotlinPackets.PacketBuilder.PlusLong | src/main/kotlin/nl/pvdberg/pnet/packet/PacketBuilder.kt:100-103 | appends 8 bytes |
| KotlinPackets.PacketBuilder.PlusShort | src/main/kotlin/nl/pvdberg/pnet/packet/PacketBuilder.kt:105-108 | appends 2 bytes |
| KotlinPackets.SnapshotsArePrefixes | src/main/kotlin/nl/pvdberg/pnet/packet/PacketBuilder.kt:54-62 | a snapshot taken before more plus calls is a prefix of any later one |
| KotlinPackets.EncodeFieldsConcat | src/main/kotlin/nl/pvdberg/pnet/packet/PacketBuilder.kt:64-108 | the payload of two runs of plus calls is the concatenation of their payloads |
| KotlinPackets.BytesStep | src/main/kotlin/nl/pvdberg/pnet/packet/PacketReader.kt:45-56 | the bytes getter as written never moves the cursor backwards or past the end |
| KotlinPackets.ReadIntoZeros | src/main/kotlin/nl/pvdberg/pnet/packet/PacketReader.kt:48-50 | one read into a fresh zero-filled array leaves the bytes still there followed by zeros |
| KotlinPackets.BytesStepRead | src/main/kotlin/nl/pvdberg/pnet/packet/PacketReader.kt:45-56 | BytesStep is exactly what the getter's readInt and read leave behind |
| KotlinPackets.BytesLength | src/main/kotlin/nl/pvdberg/pnet/packet/PacketReader.kt:45-56 | a successful bytes getter returns an array of exactly the length it read |
| KotlinPackets.BytesAt | src/main/kotlin/nl/pvdberg/pnet/packet/PacketReader.kt:45-56 | plus(ByteArray) followed by the bytes getter returns the original array |
| KotlinPackets.ShortPayloadIsPadded | src/main/kotlin/nl/pvdberg/pnet/packet/PacketReader.kt:51-53 | a length of 2 followed by one byte is read as that byte and a zero, instead of failing |
| KotlinPackets.BytesIntended | src/main/kotlin/nl/pvdberg/pnet/packet/PacketReader.kt:51-53 | the intended getter never moves the cursor backwards or past the end |
| KotlinPackets.BytesIntendedExact | src/main/kotlin/nl/pvdberg/pnet/packet/PacketReader.kt:45-56 | the intended getter succeeds exactly when the announced length is non-negative and available, and then returns exactly those bytes |
| KotlinPackets.BytesIntendedAt | src/main/kotlin/nl/pvdberg/pnet/packet/PacketReader.kt:45-56 | the intended getter still reads back what plus(ByteArray) wrote |
| KotlinPackets.BytesAgree | src/main/kotlin/nl/pvdberg/pnet/packet/PacketReader.kt:45-56 | where the intended getter succeeds the code agrees; where only the code succeeds, it returns the remaining bytes padded with zeros |
| KotlinPackets.GetStepAt | src/main/kotlin/nl/pvdberg/pnet/packet/PacketReader.kt:44-63 | each field is read back as written by its getter, consuming exactly its bytes |
| KotlinPackets.GetAllAt | src/main/kotlin/nl/pvdberg/pnet/packet/PacketReader.kt:44-63 | written fields are read back in order by the matching getters |
| KotlinPackets.PayloadRoundTrip | src/main/kotlin/nl/pvdberg/pnet/packet/PacketReader.kt:44-63 | every Kotlin payload is read back field by field |
| KotlinPackets.StringAt | src/main/kotlin/nl/pvdberg/pnet/packet/PacketReader.kt:57 | after plus(String) the string getter yields the charset's decoding of its encoding, hence the string when the charset round-trips it |
| KotlinPackets.PacketReader.constructor | src/main/kotlin/nl/pvdberg/pnet/packet/PacketReader.kt:40-42 | the reader holds the packet with its cursor at 0 |
| KotlinPackets.PacketReader.Byte | src/main/kotlin/nl/pvdberg/pnet/packet/PacketReader.kt:44 | the next byte, signed, or EOFException at the end; DataIO.NextByteAt proves it reads back writeByte |
| KotlinPackets.PacketReader.Bytes | src/main/kotlin/nl/pvdberg/pnet/packet/PacketReader.kt:45-56 | result and cursor are those of BytesStep |
| KotlinPackets.PacketReader.String | src/main/kotlin/nl/pvdberg/pnet/packet/PacketReader.kt:57 | the charset's decoding of the bytes getter, with its cursor, and its failure |
| KotlinPackets.PacketReader.Int | src/main/kotlin/nl/pvdberg/pnet/packet/PacketReader.kt:58 | the next 4 bytes as a signed big-endian value, or EOFException with the rest consumed; NextIntAt proves it reads back writeInt |
| KotlinPackets.PacketReader.Boolean | src/main/kotlin/nl/pvdberg/pnet/packet/PacketReader.kt:59 | true exactly when the next byte is not zero, or EOFException at the end; NextBooleanAt proves it reads back writeBoolean |
| KotlinPackets.PacketReader.Float | src/main/kotlin/nl/pvdberg/pnet/packet/PacketReader.kt:60 | the bit pattern of readInt |
| KotlinPackets.PacketReader.Double | src/main/kotlin/nl/pvdberg/pnet/packet/PacketReader.kt:61 | the bit pattern of readLong |
| KotlinPackets.PacketReader.Long | src/main/kotlin/nl/pvdberg/pnet/packet/PacketReader.kt:62 | the next 8 bytes as a signed big-endian value, or EOFException with the rest consumed; NextLongAt proves it reads back writeLong |
| KotlinPackets.PacketReader.Short | src/main/kotlin/nl/pvdberg/pnet/packet/PacketReader.kt:63 | the next 2 bytes as a signed big-endian value, or EOFException with the rest consumed; NextShortAt proves it reads back writeShort |
| KotlinPackets.IntGetterAdvances | src/main/kotlin/nl/pvdberg/pnet/packet/PacketReader.kt:58 | reading int twice reads two successive words: getters are not idempotent |
| JavaEvents.DispatchAfterAdd | src/main/java/nl/pvdberg/pnet/event/PacketDistributer.java:59-79 | after adding a handler for an id, that id goes to it and not to the default; other ids are unaffected |
| JavaEvents.DispatchAfterClear | src/main/java/nl/pvdberg/pnet/event/PacketDistributer.java:59-98 | after clearHandlers every packet goes to the default handler, if any |
| JavaEvents.PacketDistributer.constructor | src/main/java/nl/pvdberg/pnet/event/PacketDistributer.java:42-45 | empty registry, no default |
| JavaEvents.PacketDistributer.SetDefaultHandler | src/main/java/nl/pvdberg/pnet/event/PacketDistributer.java:50-53 | replaces the slot (null clears it) and leaves the registry |
| JavaEvents.PacketDistributer.OnReceive | src/main/java/nl/pvdberg/pnet/event/PacketDistributer.java:59-67 | the packet goes to the non-null handler registered for its id, else to the default handler, else to none |
| JavaEvents.PacketDistributer.AddHandler | src/main/java/nl/pvdberg/pnet/event/PacketDistributer.java:75-89 | a registered id (even one mapped to null) throws IllegalArgumentException and changes nothing; a new id adds exactly that mapping, so getHandler then returns it for that id and what it returned before for every other id |
| JavaEvents.PacketDistributer.ClearHandlers | src/main/java/nl/pvdberg/pnet/event/PacketDistributer.java:86-98 | empties the registry and keeps the default, so getHandler then returns null for every id |
| KotlinEvents.LocalDispatchAfterAdd | src/main/kotlin/nl/pvdberg/pnet/event/PacketDistributer.kt:59-85 | once a handler is added for an id, the local part of onReceive sends that id to it alone, and other ids as before |
| KotlinEvents.LocalDispatchAfterClear | src/main/kotlin/nl/pvdberg/pnet/event/PacketDistributer.kt:59-105 | after clearHandlers the local part sends every packet to the default handler, if there is one |
| KotlinEvents.PacketDistributer.constructor | src/main/kotlin/nl/pvdberg/pnet/event/PacketDistributer.kt:43-53 | no global handler, no default, empty registry |
| KotlinEvents.PacketDistributer.OnReceive | src/main/kotlin/nl/pvdberg/pnet/event/PacketDistributer.kt:59-71 | the global chain's deliveries come first, then the local one; at most one delivery per distributer on the chain, which is acyclic |
| KotlinEvents.PacketDistributer.SetGlobalHandler | src/main/kotlin/nl/pvdberg/pnet/event/PacketDistributer.kt:43 | sets the global slot, keeping the chain acyclic |
| KotlinEvents.PacketDistributer.SetDefaultHandler | src/main/kotlin/nl/pvdberg/pnet/event/PacketDistributer.kt:111-114 | sets the default slot only |
| KotlinEvents.PacketDistributer.AddHandler | src/main/kotlin/nl/pvdberg/pnet/event/PacketDistributer.kt:81-96 | a duplicate id throws IllegalArgumentException and changes nothing; otherwise exactly that mapping is added, so getHandler then returns it for that id and what it returned before for every other id |
| KotlinEvents.PacketDistributer.ClearHandlers | src/main/kotlin/nl/pvdberg/pnet/event/PacketDistributer.kt:93-105 | empties only the registry, not the default or the global slot, so getHandler then finds nothing for any id |
| KotlinEvents.GlobalAndLocal | src/test/java/nl/pvdberg/pnet/event/PacketDistributerTest.java:120-130 | a global default plus a per-id handler deliver a packet twice, globally first |
| Clients.NotifyReceived | src/main/java/nl/pvdberg/pnet/client/ClientImpl.java:145-159 | one onReceive per packet, in order, when a listener is set |
| Clients.NotifyReceivedAppend | src/main/java/nl/pvdberg/pnet/client/ClientImpl.java:145-159 | one more packet adds exactly its onReceive at the end |
| Clients.DecodeAll | src/main/java/nl/pvdberg/pnet/client/ClientImpl.java:114-140 | fromStream repeated until it throws never moves the cursor past the end |
| Clients.EncodeAllAppend | src/main/java/nl/pvdberg/pnet/client/ClientImpl.java:173 | one more send puts exactly that packet's encoding after the earlier ones |
| Clients.DecodeAllEncodings | src/main/java/nl/pvdberg/pnet/client/ClientImpl.java:114-140 | a stream holding exactly the writes of ps is read back as ps, and the reader then stops with EOFException at the end |
| Clients.DrainStep | src/main/java/nl/pvdberg/pnet/client/ClientImpl.java:114-140 | a throwing fromStream ends the run with its exception; a successful one yields the run's first packet |
| Clients.DecodesToDrain | src/main/java/nl/pvdberg/pnet/client/ClientImpl.java:114-140 | a run that has read ps so far continues as the run from where it stopped |
| Clients.DecodesToExtend | src/main/java/nl/pvdberg/pnet/client/ClientImpl.java:114-140 | one more successful fromStream extends a run by its packet |
| Clients.SentStreamDecodes | src/main/java/nl/pvdberg/pnet/client/ClientImpl.java:166-182 | everything a client sent is, to its peer, exactly those packets followed by end of stream |
| Clients.ReadLoop | src/main/java/nl/pvdberg/pnet/client/ClientImpl.java:114-160 | the reader loop yields DecodeAll's packets and stop exception, with one onReceive per packet |
| Clients.ClientImpl.constructor | src/main/java/nl/pvdberg/pnet/client/ClientImpl.java:55-60 | no socket, no listener, nothing sent, no events |
| Clients.ClientImpl.SetClientListener | src/main/java/nl/pvdberg/pnet/client/ClientImpl.java:63-66 | replaces the listener slot and nothing else |
| Clients.ClientImpl.SetSocket | src/main/java/nl/pvdberg/pnet/client/ClientImpl.java:89-110 | refused with IllegalStateException while a socket is open; otherwise adopts it with keep-alive off and fresh streams, launches one listener thread and fires onConnect once |
| Clients.ClientImpl.Connect | src/main/java/nl/pvdberg/pnet/client/ClientImpl.java:69-87 | IllegalStateException while open, or for an empty host or port -1; false when the factory fails, with nothing changed; true once the socket is adopted |
| Clients.ClientImpl.Send | src/main/java/nl/pvdberg/pnet/client/ClientImpl.java:165-182 | true exactly when connected and the write works, and then the packet's bytes are on the stream; false otherwise, without closing |
| Clients.ClientImpl.Close | src/main/java/nl/pvdberg/pnet/client/ClientImpl.java:184-203 | nothing for a missing or closed socket; otherwise closes it and fires onDisconnect once; afterwards the client is neither open nor connected |
| Clients.ClientImpl.ListenerThread | src/main/java/nl/pvdberg/pnet/client/ClientImpl.java:112-163 | reads DecodeAll's packets with one onReceive each; an IOException closes the client, other exceptions end the thread without closing |
| Clients.ClientImpl.ReadPackets | src/main/java/nl/pvdberg/pnet/client/ClientImpl.java:114-160 | the read loop delivers DecodeAll's packets in order and returns its stop exception |
| AsyncClients.Enqueue | src/main/java/nl/pvdberg/pnet/client/util/AsyncClient.java:135 | sendAsync adds exactly one entry |
| AsyncClients.TakeOrderPermutes | src/main/java/nl/pvdberg/pnet/client/util/AsyncClient.java:154-160 | the worker serves every queued entry exactly once |
| AsyncClients.EnqueueIsFifo | src/main/java/nl/pvdberg/pnet/client/util/AsyncClient.java:135-158 | ordinary entries are served first in, first out, in both dialects |
| AsyncClients.PriorityJumpsAhead | src/main/kotlin/nl/pvdberg/pnet/client/util/AsyncClient.kt:105-128 | a Kotlin top-priority entry is served before everything already queued |
| AsyncClients.CompletionsOf | src/main/java/nl/pvdberg/pnet/client/util/AsyncClient.java:194-198 | at most one onCompletion per served entry: entries with a null listener get none |
| AsyncClients.CompletionsAppend | src/main/java/nl/pvdberg/pnet/client/util/AsyncClient.java:159 | serving one more entry adds its completion, if it has a listener, at the end |
| AsyncClients.ServeQueue | src/main/java/nl/pvdberg/pnet/client/util/AsyncClient.java:154-166 | the drain loop sends every queued packet exactly once, in the take order, with one result per entry |
| AsyncClients.AsyncClient.constructor | src/main/java/nl/pvdberg/pnet/client/util/AsyncClient.java:58-86 | empty deque, no future |
| AsyncClients.AsyncClient.SendAsync | src/main/java/nl/pvdberg/pnet/client/util/AsyncClient.java:132-149 | enqueues the entry, and launches a worker exactly when there is none or the last one is done |
| AsyncClients.AsyncClient.Send | src/main/java/nl/pvdberg/pnet/client/util/AsyncClient.java:121-126 | Java: enqueues at the head with no listener, launches a worker exactly as sendAsync does, sends nothing now and answers true; Kotlin: the wrapped client's send, true exactly when it reaches the socket, with the queue and the worker untouched |
| AsyncClients.AsyncClient.RunWorker | src/main/java/nl/pvdberg/pnet/client/util/AsyncClient.java:151-168 | sends every queued entry once, in the take order, passes each result to its listener, and leaves the queue empty; a cancelled worker still runs and its future stays cancelled |
| AsyncClients.AsyncClient.ConnectAsync | src/main/java/nl/pvdberg/pnet/client/util/AsyncClient.java:92-110 | connected with a listener: completes false at once without connecting; otherwise connects and passes the result to the listener, if any |
| AsyncClients.AsyncClient.Close | src/main/java/nl/pvdberg/pnet/client/util/AsyncClient.java:176-181 | closes the wrapped client, then marks a running worker cancelled |
| AutoClients.AutoClient.constructor | src/nl/pvdberg/pnet/client/util/AutoClient.java:53-58 | host and port fixed at construction; no callback set, none run |
| AutoClients.AutoClient.SetOnReconnect | src/nl/pvdberg/pnet/client/util/AutoClient.java:64-67 | replaces the callback slot |
| AutoClients.AutoClient.Connect | src/main/java/nl/pvdberg/pnet/client/util/AutoClient.java:76-82 | returns the wrapped connect's result; the later copies run onReconnect once exactly when it returned true, the early copy never |
| AutoClients.AutoClient.Send | src/nl/pvdberg/pnet/client/util/AutoClient.java:70-80 | connected: only delegates; otherwise one connect to the fixed host and port, false with nothing sent when it fails, else onReconnect once and then the send's result |
| Servers.ForwardConnects | src/main/java/nl/pvdberg/pnet/server/ServerImpl.java:117-125 | one onConnect per accepted client, in order, when a listener is set |
| Servers.ClosedIdempotent | src/main/java/nl/pvdberg/pnet/client/ClientImpl.java:187-188 | closing twice is closing once |
| Servers.RemoveFirst | src/main/java/nl/pvdberg/pnet/server/ServerImpl.java:133 | remove leaves a list without the client unchanged and otherwise shortens it by one |
| Servers.RemoveFirstAt | src/main/java/nl/pvdberg/pnet/server/ServerImpl.java:133 | remove cuts out exactly the first occurrence |
| Servers.RemoveFirstMultiset | src/main/java/nl/pvdberg/pnet/server/ServerImpl.java:133 | remove takes away one copy of the client and nothing else |
| Servers.RemoveFirstKeeps | src/main/java/nl/pvdberg/pnet/server/ServerImpl.java:133 | every client left after remove was there before |
| Servers.ConnectThenDisconnect | src/main/java/nl/pvdberg/pnet/server/ServerImpl.java:117-136 | adding a client on connect and removing it on disconnect restores the list |
| Servers.ServerImpl.constructor | src/main/java/nl/pvdberg/pnet/server/ServerImpl.java:60-67 | no server socket, no clients, no listener |
| Servers.ServerImpl.SetListener | src/main/java/nl/pvdberg/pnet/server/ServerImpl.java:70-73 | replaces the listener slot only |
| Servers.ServerImpl.Start | src/main/java/nl/pvdberg/pnet/server/ServerImpl.java:76-101 | false with nothing launched when the factory fails; true with the socket kept and one acceptor launched otherwise |
| Servers.ServerImpl.OnConnect | src/main/java/nl/pvdberg/pnet/server/ServerImpl.java:117-125 | appends the client to the list, then forwards onConnect |
| Servers.ServerImpl.OnDisconnect | src/main/java/nl/pvdberg/pnet/server/ServerImpl.java:127-136 | removes the client's first entry, then forwards onDisconnect |
| Servers.ServerImpl.OnReceive | src/main/java/nl/pvdberg/pnet/server/ServerImpl.java:138-142 | forwards onReceive unchanged |
| Servers.ServerImpl.AcceptOne | src/main/java/nl/pvdberg/pnet/server/ServerImpl.java:110-145 | the new client gets the relay listener, then the socket; its onConnect puts it on the list and is forwarded |
| Servers.ServerImpl.AcceptNext | src/main/java/nl/pvdberg/pnet/server/ServerImpl.java:105-146 | one turn of the accept loop adopts the next connection |
| Servers.ServerImpl.AcceptAll | src/main/java/nl/pvdberg/pnet/server/ServerImpl.java:105-146 | the accepted clients are appended in order, each adopted its own socket, with one forwarded onConnect each |
| Servers.ServerImpl.AcceptorThread | src/main/java/nl/pvdberg/pnet/server/ServerImpl.java:103-161 | accepts every connection; when accept then fails, stop runs, leaving no clients and the server socket closed |
| Servers.ServerImpl.Stop | src/main/java/nl/pvdberg/pnet/server/ServerImpl.java:164-190 | every tracked client has its listener cleared and is closed (so nothing is forwarded or removed mid-loop), the list is cleared, and the server socket is closed if there is one |
| Servers.Detach | src/main/java/nl/pvdberg/pnet/server/ServerImpl.java:174-175 | listener cleared first, then closed, so the client reports no event |
| Tls.JavaSuitesRanked | src/main/java/nl/pvdberg/pnet/security/TLS.java:50-62 | the Java list has 10 suites: 2 ChaCha20, then 4 GCM, then 4 CBC, never getting stronger |
| Tls.KotlinSuitesRanked | src/main/kotlin/nl/pvdberg/pnet/security/TLS.kt:24-34 | the Kotlin list has 8 suites: 2 ChaCha20, then 6 GCM |
| Tls.KotlinTls.constructor | src/main/kotlin/nl/pvdberg/pnet/security/TLS.kt:20-35 | init leaves exactly TLSv1.2 and the 8 listed suites, in order |
| Tls.UsableSnoc | src/main/java/nl/pvdberg/pnet/security/TLS.java:74-77 | one more loop step appends the entry exactly when it is supported |
| Tls.UsableMembership | src/main/java/nl/pvdberg/pnet/security/TLS.java:69-82 | an entry is usable exactly when it is pinned and supported |
| Tls.UsableCounts | src/main/java/nl/pvdberg/pnet/security/TLS.java:74-77 | duplicates are kept once per occurrence in the pinned list, or dropped entirely |
| Tls.UsableSubsequence | src/main/java/nl/pvdberg/pnet/security/TLS.java:74-77 | the result is a subsequence of the pinned list, in its order, of supported entries |
| Tls.UsableKeepsSupported | src/main/java/nl/pvdberg/pnet/security/TLS.java:69-82 | a pinned list that is fully supported is kept as it is |
| Tls.UsableIdempotent | src/main/java/nl/pvdberg/pnet/security/TLS.java:69-82 | filtering twice changes nothing more |
| Tls.GetUsable | src/main/java/nl/pvdberg/pnet/security/TLS.java:69-82 | the loop computes Usable: the supported pinned entries in pinned order |
| Tls.KotlinUsable | src/main/kotlin/nl/pvdberg/pnet/security/TLS.kt:51-53 | the Kotlin result has as many entries as the filtered list, all null |
| Tls.GetUsableKotlin | src/main/kotlin/nl/pvdberg/pnet/security/TLS.kt:41-54 | the Kotlin loop filters, then returns a fresh array of nulls of that length |
| Tls.KotlinUsableLosesNames | src/main/kotlin/nl/pvdberg/pnet/security/TLS.kt:51-53 | a socket that supports TLSv1.2 has TLSv1.2 usable, but the Kotlin copy returns [null] |
| Tls.StoreContext | src/main/java/nl/pvdberg/pnet/security/TLS.java:107-138 | a custom TLSv1.2 context over the store, or the key store failure when it does not load |
| Tls.EnablePinned | src/main/java/nl/pvdberg/pnet/security/TLS.java:134-135 | the socket's enabled protocols and suites are Usable of the pinned lists against what it supports |
| Tls.CreateTlsSocketWithStore | src/main/java/nl/pvdberg/pnet/security/TLS.java:107-138 | a store that does not load fails; then a connect failure propagates; otherwise a socket over the store-trusting context with the pinned enabled sets |
| Tls.CreateTlsSocket | src/main/java/nl/pvdberg/pnet/security/TLS.java:147-156 | the same over the platform default context |
| Tls.CreateTlsServerSocket | src/main/java/nl/pvdberg/pnet/security/TLS.java:172-197 | key managers only (no trust managers), the pinned enabled sets, and client authentication not required |
| Tls.EnabledProtocolsPinned | src/main/java/nl/pvdberg/pnet/security/TLS.java:45 | a protocol is enabled exactly when it is pinned (TLSv1.2 or TLSv1.1) and supported; a socket supporting both gets exactly TLSv1.2, TLSv1.1 |
| TlsBuilders.TlsBuilder.constructor | src/main/java/nl/pvdberg/pnet/security/TLSBuilder.java:36-46 | no host, port 0, no key store, no timeout |
| TlsBuilders.TlsBuilder.WithPort | src/main/java/nl/pvdberg/pnet/security/TLSBuilder.java:52-56 | sets the port and returns the same builder |
| TlsBuilders.TlsBuilder.WithHost | src/main/java/nl/pvdberg/pnet/security/TLSBuilder.java:62-66 | sets the host (non-null in Kotlin) and returns the same builder |
| TlsBuilders.TlsBuilder.WithKeyStore | src/main/java/nl/pvdberg/pnet/security/TLSBuilder.java:71-79 | sets the flag and replaces any earlier store |
| TlsBuilders.TlsBuilder.WithTrustStore | src/main/java/nl/pvdberg/pnet/security/TLSBuilder.java:84-87 | has exactly withKeyStore's effect |
| TlsBuilders.TlsBuilder.WithTimeout | src/main/java/nl/pvdberg/pnet/security/TLSBuilder.java:93-99 | sets the flag and the timeout |
| TlsBuilders.TlsBuilder.Build | src/main/java/nl/pvdberg/pnet/security/TLSBuilder.java:101-138 | fails exactly when a given store does not load (key store failure) or a negative timeout was given (IllegalArgumentException from setSessionTimeout, checked after the store); custom context exactly when a store was given; both session timeouts set, to the same value, exactly when a timeout was given (for the shared default context, only on its first use: see Left out) |
| TlsBuilders.TlsBuilder.BuildSocket | src/main/java/nl/pvdberg/pnet/security/TLSBuilder.java:144-156 | without a host, IllegalStateException before any context is built; then the context's and the connection's failures; otherwise the pinned enabled sets |
| TlsBuilders.TlsBuilder.BuildServerSocket | src/main/java/nl/pvdberg/pnet/security/TLSBuilder.java:162-172 | needs no host: the context's or the bind's failure, otherwise a socket on the port with the pinned enabled sets |

## Left out

- Threads, `synchronized`, `Future` and `launchThread`. Each thread body runs sequentially when the caller invokes its method. The race in which a worker exits while a concurrent `sendAsync` sees it as not yet done is not modelled. `Clients.ClientImpl.ListenerThread` may be invoked after `close`; it then delivers the packets left in the closed socket's input, which stands for a reader thread that read them before `close`. A thread that starts reading only after `close` would get a SocketException and deliver nothing.
- Logging (slf4j) and `toString` of `Packet` and `ClientImpl`: they have no effect on state.
- Sockets, socket factories, server-socket factories, `accept` and JSSE are abstract values and outcomes.
  - The factory's exception is a `Result` argument.
  - `accept` failing is the `failsAfter` flag of `AcceptorThread`, and every accepted connection gets a fresh, distinct client.
  - A failing `socket.close()` or `server.close()`, which the code only logs, is not modelled.
- `KeyStore.load`, `KeyManagerFactory`, `TrustManagerFactory` and `SecureRandom` are collapsed into one flag, `KeyStore.loads`, with the failure `KeyStoreFailure`. Connecting and binding are an `Outcome` parameter.
- `TLSBuilder.setSSLDebug`, which only sets a JVM system property, is not modelled.
- IOExceptions from `socket.getInputStream`/`getOutputStream` inside `setSocket` are not modelled.
- Floats and doubles are their IEEE 754 bit patterns. No floating-point arithmetic is modelled.
- The Kotlin charset is a pair of conversion functions, and only the round-trip property a caller states is assumed of it.
- OutOfMemoryError is modelled only as a `ByteArrayOutputStream` that cannot grow past the largest array length. Each `DataOutputStream` call of a field is taken as all-or-nothing (as the buffered `writeInt`/`writeLong` of recent JDKs are), except that the Kotlin `plus(ByteArray)` makes two calls and may fail after the first.
- `AsyncClient.waitForAsyncCompletion`: it only blocks until the worker is done, which needs threads.
- The decorators' forwarding of client-listener callbacks to their own listener is left out. This covers `AsyncClient`'s constructor-installed listener and `setClientListener`, and AutoClient's `setClientListener`. Likewise `getSocket`/`getInetAddress`.
- `AsyncClient.Close` marks the future cancelled. `cancel(true)` interrupts the worker, but `takeLast`/`takeFirst` of a `LinkedBlockingDeque` throw `InterruptedException` only when they must wait on an empty deque, so a worker that still finds entries goes on; `RunWorker` therefore serves the whole queue even after cancel.
- `AsyncClients.AsyncClient.RunWorker`: the `InterruptedException` branch that clears the queue and stops is left out. It is reached only when two workers race for the last entry, and sequential threads cannot represent that race.
- `AutoClient.getHost`/`getPort` are the class's `host` and `port` constants.
- The Kotlin `PacketBuilder.close` is left out: closing a `DataOutputStream` over a `ByteArrayOutputStream` has no observable effect.
- Three behaviours of the code that a reader might not expect, modelled as written:
  - `ClientImpl.send` does not close the client on an IOException;
  - `withString` silently drops a string whose modified UTF-8 encoding is longer than 65535 bytes;
  - the pinned protocols are TLSv1.2 and TLSv1.1 (Java) and TLSv1.2 (Kotlin), not TLS 1.3.
- `TLSBuilder.java` refers to `TLS.TLS_CONTEXT_PROTOCOL`, `TLS.TLS_PROTOCOLS`, `TLS.TLS_CIPHER_SUITES` and `TLS.getUsable`. But `TLS.java` makes `TLS_CONTEXT_PROTOCOL` (line 40), `TLS_PROTOCOLS` (line 45) and `getUsable` private, and names the suite list `TLC_CIPHER_SUITES`. The builder is modelled with the constants, the list and the loop that `TLS.java` defines.
- The Kotlin builder calls `TLS.getUsable`, whose copy returns an array of nulls (see Findings). The builder is modelled with the corrected `GetUsable`. What the JDK setters do with null entries is not modelled.
- `KotlinEvents.PacketDistributer.GetHandler`: the Kotlin `getHandler` declares a non-null return type for a nullable map lookup. It is modelled as returning `None` for an unregistered id.
- `TlsBuilders.TlsBuilder.Build`: without a key store, `build()` takes `SSLContext.getDefault()`, one context shared by the whole JVM, and `setSessionTimeout` changes that shared context in place. The model gives each build a fresh `Context(PlatformDefault, None, None)`. So it does not capture that a timeout set by one build stays on the default context for every later builder without a timeout, and for `Tls.CreateTlsSocket`, whose `SSLSocketFactory.getDefault()` uses that context. Build's clause "session timeouts set exactly when a timeout was given" holds for a custom context, and for a default context only while no earlier build has set a timeout.
- `Servers.Detach` in Kotlin: `ServerImpl.kt` passes `null` to `client.setClientListener`, whose parameter `Client.kt` declares non-null. `Detach` models it with the Java semantics: the listener is cleared, then the client is closed.
- `KotlinEvents.PacketDistributer.SetGlobalHandler` requires that the new chain does not lead back to this distributer. A cyclic chain makes `onReceive` recurse without end, which the model excludes rather than represents.
- Cipher suites are structured values (key exchange, cipher, hash); `SuiteName` spells each one as the source does, and `Usable` filters those strings against the socket's supported names. The two Java ChaCha20 entries are spelled without the `_SHA256` of their standard names, so no JDK reports them as supported and the filter always drops them.
- `KotlinPackets.PacketBuilder.Bytes` and `KotlinPackets.PacketBuilder.GetPacket`: the payload is stated as the fields' encoding only while the builder is intact. After a `plus(ByteArray)` that failed after writing its length, the buffer is described call by call, by each `plus` method's contract on `out.written`, and not as the encoding of a field list.
- `DataIO.NextUTF`: only its cursor bounds are stated on their own. Its meaning is given by `NextUTFAt` and `ModifiedUtf8.DecodeEncode`, and the malformed-input branches follow `java.io.DataInput` without a separate lemma each.
- The Java and Kotlin `PacketReader`/`getPacket` classes model the code as written, including the two reader faults under Findings. The corrected functions stand beside them.

## Findings

| source | as written | input that shows it | evidently intended | confidence | as-written member | corrected member |
|---|---|---|---|---|---|---|
| src/main/java/nl/pvdberg/pnet/packet/PacketReader.java:64-68 | `readBytes(out, n)` does one `read(out, 0, n)`, and throws "Not enough data available" unless it returns n; `ByteArrayInputStream.read` returns -1 at the end of the data even for n = 0 | a payload whose last field is `withBytes(new byte[0])`, e.g. that single field: its payload is empty and `readBytes(out, 0)` throws | a zero-length read always succeeds, so every `withBytes` field reads back | not executed | JavaPackets.EmptyBytesAtEndFails | JavaPackets.ReadBytesIntendedAt |
| src/main/kotlin/nl/pvdberg/pnet/packet/PacketReader.kt:51-53 | the check compares `dataRead` with itself, so a short read is never rejected and the array's tail stays zero | data 00 00 00 02 07: the `bytes` getter returns [7, 0] | fail with IllegalArgumentException "Not enough data available" when fewer than L bytes are left | not executed | KotlinPackets.ShortPayloadIsPadded | KotlinPackets.BytesIntendedExact |
| src/main/kotlin/nl/pvdberg/pnet/security/TLS.kt:51-53 | `getUsable` filters correctly, discards `toTypedArray()`'s result and returns `arrayOfNulls(size)` | available [TLSv1.2], supported [TLSv1.2]: the result is [null] | return the filtered list as an array | not executed | Tls.KotlinUsableLosesNames | Tls.GetUsable |
