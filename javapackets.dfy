/**
 * The Java payload dialect: PacketBuilder appends typed fields to a buffer
 * through a DataOutputStream, and PacketReader reads them back in the same
 * order through a DataInputStream over the packet's data.  Byte arrays are
 * written raw (no length) and read with a caller-supplied count; strings use
 * writeUTF / readUTF.  Floats and doubles are carried as their IEEE 754 bit
 * patterns, which is what writeFloat / writeDouble put on the wire.
 */
module JavaPackets {
  import opened Base
  import opened BigEndian
  import opened DataIO
  import opened Packets
  import ModifiedUtf8

  /** One value appended by a with* call. */
  datatype Field =
    | ByteField(b: int8)
    | BytesField(bytes: seq<uint8>)
    | IntField(i: int32)
    | StringField(s: JString)
    | BooleanField(z: bool)
    | FloatField(floatBits: int32)
    | DoubleField(doubleBits: int64)
    | LongField(l: int64)
    | ShortField(v: int16)

  /** A field that its with* call actually appends (writeUTF rejects long strings). */
  predicate Writable(f: Field)
  {
    f.StringField? ==> UtfBytes(f.s).Ok?
  }

  predicate AllWritable(fs: seq<Field>)
  {
    forall i :: 0 <= i < |fs| ==> Writable(fs[i])
  }

  /** The bytes a with* call appends. */
  function EncodeField(f: Field): (r: seq<uint8>)
    requires Writable(f)
    ensures r == [] <==> f == BytesField([])
  {
    match f
    case ByteField(b) => ByteBytes(b)
    case BytesField(bs) => bs
    case IntField(i) => IntBytes(i)
    case StringField(s) => UtfBytes(s).value
    case BooleanField(z) => BooleanBytes(z)
    case FloatField(bits) => IntBytes(bits)
    case DoubleField(bits) => LongBytes(bits)
    case LongField(l) => LongBytes(l)
    case ShortField(v) => ShortBytes(v)
  }

  /** The payload of a builder after the given with* calls, in call order. */
  function EncodeFields(fs: seq<Field>): seq<uint8>
    requires AllWritable(fs)
  {
    if fs == [] then [] else EncodeField(fs[0]) + EncodeFields(fs[1..])
  }

  lemma {:induction false} EncodeFieldsAppend(fs: seq<Field>, f: Field)
    requires AllWritable(fs) && Writable(f)
    ensures AllWritable(fs + [f])
    ensures EncodeFields(fs + [f]) == EncodeFields(fs) + EncodeField(f)
    decreases |fs|
  {
    var g := fs + [f];
    assert AllWritable(g) by {
      assert forall i :: 0 <= i < |g| ==> g[i] == if i < |fs| then fs[i] else f;
    }
    if fs == [] {
      assert g[1..] == [];
    } else {
      assert g[0] == fs[0] && g[1..] == fs[1..] + [f];
      assert EncodeFields(fs[1..] + [f]) == EncodeFields(fs[1..]) + EncodeField(f) by {
        EncodeFieldsAppend(fs[1..], f);
      }
    }
  }

  // ---------------------------------------------------------------------
  // PacketBuilder
  // ---------------------------------------------------------------------

  const BuiltMessage := "Packet already built"

  class PacketBuilder {
    const packetType: PacketType
    var packetID: int16
    var isBuilt: bool
    /** The DataOutputStream over the builder's ByteArrayOutputStream. */
    const out: DataOutputStream
    /** The fields appended so far. */
    ghost var fields: seq<Field>

    ghost predicate Valid()
      reads this, out
    {
      AllWritable(fields) && out.written == EncodeFields(fields) && |out.written| <= MaxArrayLength
    }

    /** A fresh builder: id 0, empty payload, not built. */
    constructor(packetType: PacketType)
      ensures Valid() && fresh(out)
      ensures this.packetType == packetType && packetID == 0 && !isBuilt && fields == []
    {
      this.packetType := packetType;
      packetID := 0;
      isBuilt := false;
      out := new DataOutputStream();
      fields := [];
    }

    /**
     * Appends one field, unless the builder is sealed (IllegalStateException)
     * or the buffer would outgrow the largest Java array (OutOfMemoryError).
     */
    method Append(f: Field) returns (o: Outcome)
      requires Valid() && Writable(f)
      modifies this, out
      ensures Valid() && packetID == old(packetID) && isBuilt == old(isBuilt)
      ensures old(isBuilt) ==> o == Throw(IllegalState(BuiltMessage))
      ensures !old(isBuilt) && |old(out.written)| + |EncodeField(f)| > MaxArrayLength ==> o == Throw(OutOfMemory)
      ensures o == Pass <==> !old(isBuilt) && |old(out.written)| + |EncodeField(f)| <= MaxArrayLength
      ensures o == Pass ==> fields == old(fields) + [f] && out.written == old(out.written) + EncodeField(f)
      ensures o != Pass ==> fields == old(fields) && out.written == old(out.written)
    {
      if isBuilt {
        return Throw(IllegalState(BuiltMessage));
      }
      if |out.written| + |EncodeField(f)| > MaxArrayLength {
        return Throw(OutOfMemory);
      }
      match f {
        case ByteField(b) => out.WriteByte(b);
        case BytesField(bs) => out.Write(bs);
        case IntField(i) => out.WriteInt(i);
        case StringField(s) => var _ := out.WriteUTF(s);
        case BooleanField(z) => out.WriteBoolean(z);
        case FloatField(bits) => out.WriteInt(bits);
        case DoubleField(bits) => out.WriteLong(bits);
        case LongField(l) => out.WriteLong(l);
        case ShortField(v) => out.WriteShort(v);
      }
      EncodeFieldsAppend(fields, f);
      fields := fields + [f];
      o := Pass;
    }

    method WithID(id: int16) returns (o: Outcome)
      requires Valid()
      modifies this
      ensures Valid() && fields == old(fields) && isBuilt == old(isBuilt)
      ensures old(isBuilt) ==> o == Throw(IllegalState(BuiltMessage)) && packetID == old(packetID)
      ensures !old(isBuilt) ==> o == Pass && packetID == id
    {
      if isBuilt {
        return Throw(IllegalState(BuiltMessage));
      }
      packetID := id;
      o := Pass;
    }

    method WithByte(b: int8) returns (o: Outcome)
      requires Valid()
      modifies this, out
      ensures Valid() && packetID == old(packetID) && isBuilt == old(isBuilt)
      ensures o == Pass <==> !old(isBuilt) && |old(out.written)| + 1 <= MaxArrayLength
      ensures old(isBuilt) ==> o == Throw(IllegalState(BuiltMessage))
      ensures !old(isBuilt) && o != Pass ==> o == Throw(OutOfMemory)
      ensures o == Pass ==> fields == old(fields) + [ByteField(b)]
      ensures o != Pass ==> fields == old(fields)
    {
      o := Append(ByteField(b));
    }

    /** withBytes: the raw bytes, with no length in front. */
    method WithBytes(bs: seq<uint8>) returns (o: Outcome)
      requires Valid()
      modifies this, out
      ensures Valid() && packetID == old(packetID) && isBuilt == old(isBuilt)
      ensures o == Pass <==> !old(isBuilt) && |old(out.written)| + |bs| <= MaxArrayLength
      ensures old(isBuilt) ==> o == Throw(IllegalState(BuiltMessage))
      ensures !old(isBuilt) && o != Pass ==> o == Throw(OutOfMemory)
      ensures o == Pass ==> fields == old(fields) + [BytesField(bs)] && out.written == old(out.written) + bs
      ensures o != Pass ==> fields == old(fields)
    {
      o := Append(BytesField(bs));
    }

    method WithInt(i: int32) returns (o: Outcome)
      requires Valid()
      modifies this, out
      ensures Valid() && packetID == old(packetID) && isBuilt == old(isBuilt)
      ensures o == Pass <==> !old(isBuilt) && |old(out.written)| + 4 <= MaxArrayLength
      ensures old(isBuilt) ==> o == Throw(IllegalState(BuiltMessage))
      ensures !old(isBuilt) && o != Pass ==> o == Throw(OutOfMemory)
      ensures o == Pass ==> fields == old(fields) + [IntField(i)]
      ensures o != Pass ==> fields == old(fields)
    {
      o := Append(IntField(i));
    }

    /**
     * withString: writeUTF.  A string whose encoding is too long makes
     * writeUTF throw; the builder logs that and appends nothing.
     */
    method WithString(s: JString) returns (o: Outcome)
      requires Valid()
      modifies this, out
      ensures Valid() && packetID == old(packetID) && isBuilt == old(isBuilt)
      ensures old(isBuilt) ==> o == Throw(IllegalState(BuiltMessage))
      ensures !old(isBuilt) && o != Pass ==> o == Throw(OutOfMemory)
      ensures !old(isBuilt) && UtfBytes(s).Fail? ==> o == Pass && fields == old(fields)
      ensures !old(isBuilt) && UtfBytes(s).Ok? ==>
        (o == Pass <==> |old(out.written)| + |UtfBytes(s).value| <= MaxArrayLength)
      ensures o == Pass && UtfBytes(s).Ok? ==> fields == old(fields) + [StringField(s)]
      ensures o != Pass ==> fields == old(fields)
    {
      if isBuilt {
        return Throw(IllegalState(BuiltMessage));
      }
      if UtfBytes(s).Fail? {
        return Pass;
      }
      o := Append(StringField(s));
    }

    method WithBoolean(z: bool) returns (o: Outcome)
      requires Valid()
      modifies this, out
      ensures Valid() && packetID == old(packetID) && isBuilt == old(isBuilt)
      ensures o == Pass <==> !old(isBuilt) && |old(out.written)| + 1 <= MaxArrayLength
      ensures old(isBuilt) ==> o == Throw(IllegalState(BuiltMessage))
      ensures !old(isBuilt) && o != Pass ==> o == Throw(OutOfMemory)
      ensures o == Pass ==> fields == old(fields) + [BooleanField(z)]
      ensures o != Pass ==> fields == old(fields)
    {
      o := Append(BooleanField(z));
    }

    method WithFloat(floatBits: int32) returns (o: Outcome)
      requires Valid()
      modifies this, out
      ensures Valid() && packetID == old(packetID) && isBuilt == old(isBuilt)
      ensures o == Pass <==> !old(isBuilt) && |old(out.written)| + 4 <= MaxArrayLength
      ensures old(isBuilt) ==> o == Throw(IllegalState(BuiltMessage))
      ensures !old(isBuilt) && o != Pass ==> o == Throw(OutOfMemory)
      ensures o == Pass ==> fields == old(fields) + [FloatField(floatBits)]
      ensures o != Pass ==> fields == old(fields)
    {
      o := Append(FloatField(floatBits));
    }

    method WithDouble(doubleBits: int64) returns (o: Outcome)
      requires Valid()
      modifies this, out
      ensures Valid() && packetID == old(packetID) && isBuilt == old(isBuilt)
      ensures o == Pass <==> !old(isBuilt) && |old(out.written)| + 8 <= MaxArrayLength
      ensures old(isBuilt) ==> o == Throw(IllegalState(BuiltMessage))
      ensures !old(isBuilt) && o != Pass ==> o == Throw(OutOfMemory)
      ensures o == Pass ==> fields == old(fields) + [DoubleField(doubleBits)]
      ensures o != Pass ==> fields == old(fields)
    {
      o := Append(DoubleField(doubleBits));
    }

    method WithLong(l: int64) returns (o: Outcome)
      requires Valid()
      modifies this, out
      ensures Valid() && packetID == old(packetID) && isBuilt == old(isBuilt)
      ensures o == Pass <==> !old(isBuilt) && |old(out.written)| + 8 <= MaxArrayLength
      ensures old(isBuilt) ==> o == Throw(IllegalState(BuiltMessage))
      ensures !old(isBuilt) && o != Pass ==> o == Throw(OutOfMemory)
      ensures o == Pass ==> fields == old(fields) + [LongField(l)]
      ensures o != Pass ==> fields == old(fields)
    {
      o := Append(LongField(l));
    }

    method WithShort(v: int16) returns (o: Outcome)
      requires Valid()
      modifies this, out
      ensures Valid() && packetID == old(packetID) && isBuilt == old(isBuilt)
      ensures o == Pass <==> !old(isBuilt) && |old(out.written)| + 2 <= MaxArrayLength
      ensures old(isBuilt) ==> o == Throw(IllegalState(BuiltMessage))
      ensures !old(isBuilt) && o != Pass ==> o == Throw(OutOfMemory)
      ensures o == Pass ==> fields == old(fields) + [ShortField(v)]
      ensures o != Pass ==> fields == old(fields)
    {
      o := Append(ShortField(v));
    }

    /** build: the packet of everything appended so far; the builder is then sealed. */
    method Build() returns (r: Result<Packet>)
      requires Valid()
      modifies this
      ensures Valid() && fields == old(fields) && packetID == old(packetID) && isBuilt
      ensures old(isBuilt) ==> r == Fail(IllegalState(BuiltMessage))
      ensures !old(isBuilt) ==> r == Ok(Packet(packetType, packetID, EncodeFields(fields)))
    {
      if isBuilt {
        return Fail(IllegalState(BuiltMessage));
      }
      isBuilt := true;
      r := Ok(Packet(packetType, packetID, out.written));
    }
  }

  // ---------------------------------------------------------------------
  // PacketReader
  // ---------------------------------------------------------------------

  const NotEnoughData := "Not enough data available"

  /**
   * readBytes(out, n) as written: one read(out, 0, n), which must return n.
   * At the end of the data that read returns -1 even for n = 0.
   */
  function ReadBytesStep(data: seq<uint8>, pos: nat, outLength: nat, n: int): (s: Step<seq<uint8>>)
    requires pos <= |data|
    ensures pos <= s.pos <= |data|
    ensures s.result.Ok? ==> 0 <= n && s.pos == pos + n && s.result.value == data[pos..pos + n]
  {
    match ReadCount(data, pos, outLength, 0, n)
    case Fail(e) => Step(Fail(e), pos)
    case Ok(c) =>
      if c != n then Step(Fail(IOError(NotEnoughData)), if c > 0 then pos + c else pos)
      else Step(Ok(data[pos..pos + n]), pos + n)
  }

  /**
   * What readBytes(out, n) leaves behind, given what its read(out, 0, n)
   * returned and did to the array and the cursor.
   */
  lemma ReadBytesOutcome(data: seq<uint8>, start: nat, n: int, c: Result<int>, before: seq<uint8>, after: seq<uint8>, posAfter: nat)
    requires start <= |data| && |after| == |before| && c == ReadCount(data, start, |before|, 0, n)
    requires c.Ok? && c.value > 0 ==> posAfter == start + c.value && after == before[..0] + data[start..posAfter] + before[c.value..]
    requires !(c.Ok? && c.value > 0) ==> posAfter == start && after == before
    ensures var s := ReadBytesStep(data, start, |before|, n);
      posAfter == s.pos && s.pos - start <= |before| &&
      after[..s.pos - start] == data[start..s.pos] && after[s.pos - start..] == before[s.pos - start..] &&
      (c.Fail? ==> s.result == Fail(c.error)) &&
      (c.Ok? && c.value != n ==> s.result == Fail(IOError(NotEnoughData))) &&
      (c.Ok? && c.value == n ==> s.result.Ok?)
  {
    if c.Ok? && c.value > 0 {
      var got := data[start..posAfter];
      assert [] + got == got;
      assert after == got + before[c.value..];
      assert after[..c.value] == got && after[c.value..] == before[c.value..];
    }
  }

  /** Which reader call reads a field back. */
  datatype ReadCall =
    | ReadByteCall
    | ReadBytesCall(outLength: nat, n: int)
    | ReadIntCall
    | ReadStringCall
    | ReadBooleanCall
    | ReadFloatCall
    | ReadDoubleCall
    | ReadLongCall
    | ReadShortCall

  /** The call that reads f back, with an array just large enough for raw bytes. */
  function CallFor(f: Field): ReadCall
  {
    match f
    case ByteField(_) => ReadByteCall
    case BytesField(bs) => ReadBytesCall(|bs|, |bs|)
    case IntField(_) => ReadIntCall
    case StringField(_) => ReadStringCall
    case BooleanField(_) => ReadBooleanCall
    case FloatField(_) => ReadFloatCall
    case DoubleField(_) => ReadDoubleCall
    case LongField(_) => ReadLongCall
    case ShortField(_) => ReadShortCall
  }

  function CallsFor(fs: seq<Field>): (cs: seq<ReadCall>)
    ensures |cs| == |fs|
  {
    if fs == [] then [] else [CallFor(fs[0])] + CallsFor(fs[1..])
  }

  /** One reader call at pos, its value seen as the field it reads. */
  function ReadStep(data: seq<uint8>, pos: nat, c: ReadCall): (s: Step<Field>)
    requires pos <= |data|
    ensures pos <= s.pos <= |data|
  {
    match c
    case ReadByteCall => MapStep(NextByte(data, pos), (v: int8) => ByteField(v))
    case ReadBytesCall(len, n) => MapStep(ReadBytesStep(data, pos, len, n), (v: seq<uint8>) => BytesField(v))
    case ReadIntCall => MapStep(NextInt(data, pos), (v: int32) => IntField(v))
    case ReadStringCall => MapStep(NextUTF(data, pos), (v: JString) => StringField(v))
    case ReadBooleanCall => MapStep(NextBoolean(data, pos), (v: bool) => BooleanField(v))
    case ReadFloatCall => MapStep(NextInt(data, pos), (v: int32) => FloatField(v))
    case ReadDoubleCall => MapStep(NextLong(data, pos), (v: int64) => DoubleField(v))
    case ReadLongCall => MapStep(NextLong(data, pos), (v: int64) => LongField(v))
    case ReadShortCall => MapStep(NextShort(data, pos), (v: int16) => ShortField(v))
  }

  /** A run of reader calls from pos: the values read, or the first exception. */
  function ReadAll(data: seq<uint8>, pos: nat, cs: seq<ReadCall>): Result<seq<Field>>
    requires pos <= |data|
    decreases |cs|
  {
    if cs == [] then Ok([])
    else
      var s := ReadStep(data, pos, cs[0]);
      match s.result
      case Fail(e) => Fail(e)
      case Ok(f) =>
        match ReadAll(data, s.pos, cs[1..])
        case Fail(e) => Fail(e)
        case Ok(rest) => Ok([f] + rest)
  }

  /** Every zero-length raw read in fs happens while data is still left. */
  predicate ZeroReadsInside(data: seq<uint8>, pos: nat, fs: seq<Field>)
    requires AllWritable(fs)
    decreases |fs|
  {
    fs == [] ||
    ((fs[0] == BytesField([]) ==> pos < |data|) && ZeroReadsInside(data, pos + |EncodeField(fs[0])|, fs[1..]))
  }

  /** Each single field is read back as written (raw bytes with the condition above). */
  lemma ReadStepAt(data: seq<uint8>, pos: nat, f: Field)
    requires Writable(f) && At(data, pos, EncodeField(f))
    requires f == BytesField([]) ==> pos < |data|
    ensures ReadStep(data, pos, CallFor(f)) == Step(Ok(f), pos + |EncodeField(f)|)
  {
    match f
    case ByteField(b) => ReadByteAt(data, pos, b);
    case BytesField(bs) => ReadRawAt(data, pos, bs);
    case IntField(i) => ReadIntAt(data, pos, i);
    case StringField(s) => ReadStringAt(data, pos, s);
    case BooleanField(z) => ReadBooleanAt(data, pos, z);
    case FloatField(bits) => ReadFloatAt(data, pos, bits);
    case DoubleField(bits) => ReadDoubleAt(data, pos, bits);
    case LongField(l) => ReadLongAt(data, pos, l);
    case ShortField(v) => ReadShortAt(data, pos, v);
  }

  lemma ReadByteAt(data: seq<uint8>, pos: nat, b: int8)
    requires At(data, pos, ByteBytes(b))
    ensures ReadStep(data, pos, ReadByteCall) == Step(Ok(ByteField(b)), pos + 1)
  {
    NextByteAt(data, pos, b);
  }

  lemma ReadRawAt(data: seq<uint8>, pos: nat, bs: seq<uint8>)
    requires At(data, pos, bs) && (bs == [] ==> pos < |data|)
    ensures ReadStep(data, pos, ReadBytesCall(|bs|, |bs|)) == Step(Ok(BytesField(bs)), pos + |bs|)
  {
  }

  lemma ReadIntAt(data: seq<uint8>, pos: nat, i: int32)
    requires At(data, pos, IntBytes(i))
    ensures ReadStep(data, pos, ReadIntCall) == Step(Ok(IntField(i)), pos + 4)
  {
    NextIntAt(data, pos, i);
  }

  lemma ReadStringAt(data: seq<uint8>, pos: nat, s: JString)
    requires UtfBytes(s).Ok? && At(data, pos, UtfBytes(s).value)
    ensures ReadStep(data, pos, ReadStringCall) == Step(Ok(StringField(s)), pos + |UtfBytes(s).value|)
  {
    NextUTFAt(data, pos, s);
  }

  lemma ReadBooleanAt(data: seq<uint8>, pos: nat, z: bool)
    requires At(data, pos, BooleanBytes(z))
    ensures ReadStep(data, pos, ReadBooleanCall) == Step(Ok(BooleanField(z)), pos + 1)
  {
    NextBooleanAt(data, pos, z);
  }

  lemma ReadFloatAt(data: seq<uint8>, pos: nat, bits: int32)
    requires At(data, pos, IntBytes(bits))
    ensures ReadStep(data, pos, ReadFloatCall) == Step(Ok(FloatField(bits)), pos + 4)
  {
    NextIntAt(data, pos, bits);
  }

  lemma ReadDoubleAt(data: seq<uint8>, pos: nat, bits: int64)
    requires At(data, pos, LongBytes(bits))
    ensures ReadStep(data, pos, ReadDoubleCall) == Step(Ok(DoubleField(bits)), pos + 8)
  {
    NextLongAt(data, pos, bits);
  }

  lemma ReadLongAt(data: seq<uint8>, pos: nat, l: int64)
    requires At(data, pos, LongBytes(l))
    ensures ReadStep(data, pos, ReadLongCall) == Step(Ok(LongField(l)), pos + 8)
  {
    NextLongAt(data, pos, l);
  }

  lemma ReadShortAt(data: seq<uint8>, pos: nat, v: int16)
    requires At(data, pos, ShortBytes(v))
    ensures ReadStep(data, pos, ReadShortCall) == Step(Ok(ShortField(v)), pos + 2)
  {
    NextShortAt(data, pos, v);
  }

  /**
   * The fields written by a builder are read back, in order, by the matching
   * reader calls, provided no empty raw byte array is read at the very end.
   */
  lemma {:induction false} ReadAllAt(data: seq<uint8>, pos: nat, fs: seq<Field>)
    requires AllWritable(fs) && At(data, pos, EncodeFields(fs))
    requires ZeroReadsInside(data, pos, fs)
    ensures ReadAll(data, pos, CallsFor(fs)) == Ok(fs)
    decreases |fs|
  {
    if fs != [] {
      var next := ReadFirstAt(data, pos, fs);
      ReadAllAt(data, next, fs[1..]);
      ReadAllCons(data, pos, fs);
    }
  }

  /** The first field of fs is read back at pos, leaving the rest to read at next. */
  lemma ReadFirstAt(data: seq<uint8>, pos: nat, fs: seq<Field>) returns (next: nat)
    requires AllWritable(fs) && fs != [] && At(data, pos, EncodeFields(fs))
    requires ZeroReadsInside(data, pos, fs)
    ensures AllWritable(fs[1..]) && At(data, next, EncodeFields(fs[1..]))
    ensures ZeroReadsInside(data, next, fs[1..])
    ensures ReadStep(data, pos, CallFor(fs[0])) == Step(Ok(fs[0]), next)
  {
    next := pos + |EncodeField(fs[0])|;
    AtFields(data, pos, fs);
    ZeroReadsTail(data, pos, fs);
    ReadStepAt(data, pos, fs[0]);
  }

  lemma ZeroReadsTail(data: seq<uint8>, pos: nat, fs: seq<Field>)
    requires AllWritable(fs) && fs != [] && ZeroReadsInside(data, pos, fs)
    ensures Writable(fs[0]) && AllWritable(fs[1..])
    ensures fs[0] == BytesField([]) ==> pos < |data|
    ensures ZeroReadsInside(data, pos + |EncodeField(fs[0])|, fs[1..])
  {
  }

  /** At(…, EncodeFields(fs)) splits into the first field and the rest. */
  lemma AtFields(data: seq<uint8>, pos: nat, fs: seq<Field>)
    requires AllWritable(fs) && fs != [] && At(data, pos, EncodeFields(fs))
    ensures AllWritable(fs[1..])
    ensures At(data, pos, EncodeField(fs[0]))
    ensures At(data, pos + |EncodeField(fs[0])|, EncodeFields(fs[1..]))
  {
    AtSplit(data, pos, EncodeField(fs[0]), EncodeFields(fs[1..]));
  }

  lemma ReadAllCons(data: seq<uint8>, pos: nat, fs: seq<Field>)
    requires pos <= |data| && fs != []
    requires ReadStep(data, pos, CallFor(fs[0])).result == Ok(fs[0])
    requires ReadAll(data, ReadStep(data, pos, CallFor(fs[0])).pos, CallsFor(fs[1..])) == Ok(fs[1..])
    ensures ReadAll(data, pos, CallsFor(fs)) == Ok(fs)
  {
    var cs := CallsFor(fs);
    assert cs[0] == CallFor(fs[0]) && cs[1..] == CallsFor(fs[1..]);
    assert [fs[0]] + fs[1..] == fs;
  }

  lemma {:induction false} ZeroReadsBeforeLast(data: seq<uint8>, pos: nat, fs: seq<Field>)
    requires AllWritable(fs) && At(data, pos, EncodeFields(fs))
    requires fs == [] || fs[|fs| - 1] != BytesField([])
    ensures ZeroReadsInside(data, pos, fs)
    decreases |fs|
  {
    if fs != [] {
      AtFields(data, pos, fs);
      if fs[0] == BytesField([]) {
        assert |fs| > 1;
        assert fs[1..][|fs| - 2] != BytesField([]);
        NonEmptyWhenLastIsNot(fs[1..]);
      }
      ZeroReadsBeforeLast(data, pos + |EncodeField(fs[0])|, fs[1..]);
    }
  }

  lemma {:induction false} NonEmptyWhenLastIsNot(fs: seq<Field>)
    requires AllWritable(fs) && fs != [] && fs[|fs| - 1] != BytesField([])
    ensures EncodeFields(fs) != []
  {
    if fs[0] == BytesField([]) {
      NonEmptyWhenLastIsNot(fs[1..]);
    }
  }

  /**
   * A whole packet payload is read back field by field, as the builder and
   * reader promise, whenever its last field is not an empty raw byte array.
   */
  lemma PayloadRoundTrip(fs: seq<Field>)
    requires AllWritable(fs)
    requires fs == [] || fs[|fs| - 1] != BytesField([])
    ensures ReadAll(EncodeFields(fs), 0, CallsFor(fs)) == Ok(fs)
  {
    var data := EncodeFields(fs);
    WholeAt(data);
    ZeroReadsBeforeLast(data, 0, fs);
    ReadAllAt(data, 0, fs);
  }

  /**
   * As written, reading an empty raw byte array at the end of a payload
   * throws: the one-field payload [withBytes(new byte[0])] cannot be read
   * back with readBytes(out, 0).
   */
  lemma EmptyBytesAtEndFails()
    ensures EncodeFields([BytesField([])]) == []
    ensures ReadAll([], 0, CallsFor([BytesField([])])) == Fail(IOError(NotEnoughData))
  {
    assert CallsFor([BytesField([])]) == [ReadBytesCall(0, 0)];
  }

  /** readBytes as evidently intended: succeed exactly when n bytes are left. */
  function ReadBytesIntended(data: seq<uint8>, pos: nat, outLength: nat, n: int): (s: Step<seq<uint8>>)
    requires pos <= |data|
    ensures pos <= s.pos <= |data|
  {
    if n < 0 || n > outLength then Step(Fail(IndexOutOfBounds), pos)
    else if pos + n <= |data| then Step(Ok(data[pos..pos + n]), pos + n)
    else Step(Fail(IOError(NotEnoughData)), |data|)
  }

  /** With the intended readBytes, every raw byte array is read back, empty or not. */
  lemma ReadBytesIntendedAt(data: seq<uint8>, pos: nat, bs: seq<uint8>)
    requires At(data, pos, bs)
    ensures ReadBytesIntended(data, pos, |bs|, |bs|) == Step(Ok(bs), pos + |bs|)
    ensures bs == [] ==> ReadBytesIntended(data, pos, 0, 0) == Step(Ok([]), pos)
  {
  }

  /** The intended readBytes agrees with the code whenever at least one byte is left or n > 0. */
  lemma ReadBytesAgree(data: seq<uint8>, pos: nat, outLength: nat, n: int)
    requires pos <= |data| && (pos < |data| || n != 0)
    ensures ReadBytesStep(data, pos, outLength, n).result.Ok?
        <==> ReadBytesIntended(data, pos, outLength, n).result.Ok?
    ensures ReadBytesStep(data, pos, outLength, n).result.Ok? ==>
        ReadBytesStep(data, pos, outLength, n) == ReadBytesIntended(data, pos, outLength, n)
  {
  }

  class PacketReader {
    const packet: Packet
    /** The DataInputStream over a ByteArrayInputStream of the packet's data. */
    const input: DataInputStream

    ghost predicate Valid()
      reads this, input
    {
      input.data == packet.data && input.Valid()
    }

    constructor(packet: Packet)
      ensures Valid() && this.packet == packet && input.pos == 0 && fresh(input)
    {
      this.packet := packet;
      input := new DataInputStream(packet.data);
    }

    /** getPacket: the constructor's argument, whatever has been read. */
    function GetPacket(): (p: Packet)
      reads this
      ensures p == packet
    {
      packet
    }

    method ReadByte() returns (r: Result<int8>)
      requires Valid()
      modifies input
      ensures Valid()
      ensures r == NextByte(packet.data, old(input.pos)).result && input.pos == NextByte(packet.data, old(input.pos)).pos
    {
      r := input.ReadByte();
    }

    /**
     * readBytes(out, n): fills out[0..n) from the data; the exceptions and
     * the cursor are those of ReadBytesStep.  On a short read the bytes that
     * were there have already been copied when the IOException is thrown.
     */
    method ReadBytes(out: array<uint8>, n: int) returns (o: Outcome)
      requires Valid()
      modifies input, out
      ensures Valid()
      ensures var start := old(input.pos); var s := ReadBytesStep(packet.data, start, out.Length, n);
        input.pos == s.pos &&
        (o == Pass <==> s.result.Ok?) &&
        (o.Throw? ==> o.error == s.result.error) &&
        s.pos - start <= out.Length &&
        out[..s.pos - start] == packet.data[start..s.pos] &&
        out[s.pos - start..] == old(out[..])[s.pos - start..]
    {
      ghost var start, before := input.pos, out[..];
      var c := input.Read(out, 0, n);
      ReadBytesOutcome(packet.data, start, n, c, before, out[..], input.pos);
      if c.Fail? {
        return Throw(c.error);
      }
      if c.value != n {
        return Throw(IOError(NotEnoughData));
      }
      o := Pass;
    }

    method ReadInt() returns (r: Result<int32>)
      requires Valid()
      modifies input
      ensures Valid()
      ensures r == NextInt(packet.data, old(input.pos)).result && input.pos == NextInt(packet.data, old(input.pos)).pos
    {
      r := input.ReadInt();
    }

    method ReadString() returns (r: Result<JString>)
      requires Valid()
      modifies input
      ensures Valid()
      ensures r == NextUTF(packet.data, old(input.pos)).result && input.pos == NextUTF(packet.data, old(input.pos)).pos
    {
      r := input.ReadUTF();
    }

    method ReadBoolean() returns (r: Result<bool>)
      requires Valid()
      modifies input
      ensures Valid()
      ensures r == NextBoolean(packet.data, old(input.pos)).result && input.pos == NextBoolean(packet.data, old(input.pos)).pos
    {
      r := input.ReadBoolean();
    }

    /** readFloat: the bit pattern of readInt. */
    method ReadFloat() returns (r: Result<int32>)
      requires Valid()
      modifies input
      ensures Valid()
      ensures r == NextInt(packet.data, old(input.pos)).result && input.pos == NextInt(packet.data, old(input.pos)).pos
    {
      r := input.ReadInt();
    }

    /** readDouble: the bit pattern of readLong. */
    method ReadDouble() returns (r: Result<int64>)
      requires Valid()
      modifies input
      ensures Valid()
      ensures r == NextLong(packet.data, old(input.pos)).result && input.pos == NextLong(packet.data, old(input.pos)).pos
    {
      r := input.ReadLong();
    }

    method ReadLong() returns (r: Result<int64>)
      requires Valid()
      modifies input
      ensures Valid()
      ensures r == NextLong(packet.data, old(input.pos)).result && input.pos == NextLong(packet.data, old(input.pos)).pos
    {
      r := input.ReadLong();
    }

    method ReadShort() returns (r: Result<int16>)
      requires Valid()
      modifies input
      ensures Valid()
      ensures r == NextShort(packet.data, old(input.pos)).result && input.pos == NextShort(packet.data, old(input.pos)).pos
    {
      r := input.ReadShort();
    }
  }
}
