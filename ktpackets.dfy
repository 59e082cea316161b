/**
 * The Kotlin payload dialect: PacketBuilder's `plus` overloads and
 * PacketReader's property getters.  Here a byte array is written with a
 * 4-byte big-endian length in front, and a string is the byte array of its
 * encoding under the builder's charset.  The charset itself is a parameter:
 * a pair of conversions whose only assumed property is the one a caller
 * states for the strings it uses.
 */
module KotlinPackets {
  import opened Base
  import opened BigEndian
  import opened DataIO
  import opened Packets

  /** java.nio.charset.Charset, as the two conversions the library uses. */
  datatype Charset = Charset(encode: JString -> ByteArray, decode: seq<uint8> -> JString)

  /** The charset round-trips s. */
  predicate RoundTrips(cs: Charset, s: JString)
  {
    cs.decode(cs.encode(s)) == s
  }

  /** One value appended by a `plus` call (a string is logged as its bytes). */
  datatype Field =
    | ByteField(b: int8)
    | BytesField(bytes: ByteArray)
    | IntField(i: int32)
    | BooleanField(z: bool)
    | FloatField(floatBits: int32)
    | DoubleField(doubleBits: int64)
    | LongField(l: int64)
    | ShortField(v: int16)

  /** The bytes a `plus` call appends. */
  function EncodeField(f: Field): (r: seq<uint8>)
    ensures |r| > 0
  {
    match f
    case ByteField(b) => ByteBytes(b)
    case BytesField(bs) => IntBytes(|bs|) + bs
    case IntField(i) => IntBytes(i)
    case BooleanField(z) => BooleanBytes(z)
    case FloatField(bits) => IntBytes(bits)
    case DoubleField(bits) => LongBytes(bits)
    case LongField(l) => LongBytes(l)
    case ShortField(v) => ShortBytes(v)
  }

  function EncodeFields(fs: seq<Field>): seq<uint8>
  {
    if fs == [] then [] else EncodeField(fs[0]) + EncodeFields(fs[1..])
  }

  lemma {:induction false} EncodeFieldsAppend(fs: seq<Field>, f: Field)
    ensures EncodeFields(fs + [f]) == EncodeFields(fs) + EncodeField(f)
    decreases |fs|
  {
    var g := fs + [f];
    if fs == [] {
      assert g[1..] == [];
    } else {
      assert g[0] == fs[0] && g[1..] == fs[1..] + [f];
      assert EncodeFields(fs[1..] + [f]) == EncodeFields(fs[1..]) + EncodeField(f) by {
        EncodeFieldsAppend(fs[1..], f);
      }
    }
  }

  /** The DataOutputStream calls behind one `plus` overload. */
  method WriteField(out: DataOutputStream, f: Field)
    modifies out
    ensures out.written == old(out.written) + EncodeField(f)
  {
    match f {
      case ByteField(b) => out.WriteByte(b);
      case BytesField(bs) =>
        out.WriteInt(|bs|);
        out.Write(bs);
        assert out.written == old(out.written) + (IntBytes(|bs|) + bs);
      case IntField(i) => out.WriteInt(i);
      case BooleanField(z) => out.WriteBoolean(z);
      case FloatField(bits) => out.WriteInt(bits);
      case DoubleField(bits) => out.WriteLong(bits);
      case LongField(l) => out.WriteLong(l);
      case ShortField(v) => out.WriteShort(v);
    }
  }

  /**
   * A failing plus(ByteArray) on a buffer of `size` bytes still writes its
   * 4-byte length: only write(b) outgrows the largest array.
   */
  predicate LengthWrittenAlone(f: Field, size: int)
  {
    f.BytesField? && size + 4 <= MaxArrayLength
  }

  // ---------------------------------------------------------------------
  // PacketBuilder
  // ---------------------------------------------------------------------

  class PacketBuilder {
    const packetType: PacketType
    const charset: Charset
    /** A plain property: defaults to 0, any value may be assigned. */
    var packetID: int16
    /** The DataOutputStream over the builder's ByteArrayOutputStream. */
    const out: DataOutputStream
    /** The fields appended in full so far. */
    ghost var fields: seq<Field>
    /**
     * False once a plus(ByteArray) has written its length and then failed
     * in write(b): from then on the buffer holds a length with no bytes
     * after it, and is no longer the encoding of the fields.
     */
    ghost var intact: bool

    ghost predicate Valid()
      reads this, out
    {
      |out.written| <= MaxArrayLength && (intact ==> out.written == EncodeFields(fields))
    }

    constructor(packetType: PacketType, charset: Charset)
      ensures Valid() && fresh(out)
      ensures this.packetType == packetType && this.charset == charset && packetID == 0 && fields == [] && intact
    {
      this.packetType := packetType;
      this.charset := charset;
      packetID := 0;
      out := new DataOutputStream();
      fields := [];
      intact := true;
    }

    /** The `bytes` getter: the payload so far. */
    function Bytes(): (bs: seq<uint8>)
      requires Valid()
      reads this, out
      ensures intact ==> bs == EncodeFields(fields)
    {
      out.written
    }

    /**
     * The `packet` getter: a snapshot of (type, id, payload so far).  It does
     * not seal the builder, so later `plus` calls extend what the next
     * snapshot holds.
     */
    function GetPacket(): (p: Packet)
      requires Valid()
      reads this, out
      ensures p.packetType == packetType && p.packetID == packetID
      ensures intact ==> p.data == EncodeFields(fields)
    {
      Packet(packetType, packetID, out.written)
    }

    method SetPacketID(id: int16)
      modifies this
      ensures packetID == id && fields == old(fields) && intact == old(intact)
    {
      packetID := id;
    }

    /**
     * Appends one field.  A stream call that would make the buffer outgrow
     * the largest Java array fails with OutOfMemoryError and writes nothing;
     * plus(ByteArray) makes two calls, so its length may already be in the
     * buffer when write(b) fails.
     */
    method Append(f: Field) returns (o: Outcome)
      requires Valid()
      modifies this, out
      ensures Valid() && packetID == old(packetID)
      ensures o == Pass <==> |old(out.written)| + |EncodeField(f)| <= MaxArrayLength
      ensures o == Pass ==> fields == old(fields) + [f] && out.written == old(out.written) + EncodeField(f)
      ensures o == Pass ==> intact == old(intact)
      ensures o != Pass ==> o == Throw(OutOfMemory) && fields == old(fields)
      ensures o != Pass && LengthWrittenAlone(f, |old(out.written)|) ==>
        out.written == old(out.written) + IntBytes(|f.bytes|) && !intact
      ensures o != Pass && !LengthWrittenAlone(f, |old(out.written)|) ==>
        out.written == old(out.written) && intact == old(intact)
    {
      if |out.written| + |EncodeField(f)| > MaxArrayLength {
        if LengthWrittenAlone(f, |out.written|) {
          out.WriteInt(|f.bytes|);
          intact := false;
        }
        return Throw(OutOfMemory);
      }
      WriteField(out, f);
      EncodeFieldsAppend(fields, f);
      fields := fields + [f];
      o := Pass;
    }

    method PlusByte(b: int8) returns (o: Outcome)
      requires Valid()
      modifies this, out
      ensures Valid() && packetID == old(packetID)
      ensures intact == old(intact)
      ensures o == Pass ==> fields == old(fields) + [ByteField(b)] && out.written == old(out.written) + ByteBytes(b)
      ensures o != Pass ==> o == Throw(OutOfMemory) && fields == old(fields) && out.written == old(out.written)
    {
      o := Append(ByteField(b));
    }

    /** plus(ByteArray): the length as four big-endian bytes, then the bytes. */
    method PlusBytes(bs: ByteArray) returns (o: Outcome)
      requires Valid()
      modifies this, out
      ensures Valid() && packetID == old(packetID)
      ensures o == Pass <==> |old(out.written)| + 4 + |bs| <= MaxArrayLength
      ensures o == Pass ==> fields == old(fields) + [BytesField(bs)] && out.written == old(out.written) + IntBytes(|bs|) + bs
      ensures o == Pass ==> intact == old(intact)
      ensures o != Pass ==> o == Throw(OutOfMemory) && fields == old(fields)
      ensures o != Pass && |old(out.written)| + 4 <= MaxArrayLength ==>
        out.written == old(out.written) + IntBytes(|bs|) && !intact
      ensures o != Pass && |old(out.written)| + 4 > MaxArrayLength ==>
        out.written == old(out.written) && intact == old(intact)
    {
      o := Append(BytesField(bs));
    }

    /** plus(String): exactly plus(ByteArray) of the charset's encoding. */
    method PlusString(s: JString) returns (o: Outcome)
      requires Valid()
      modifies this, out
      ensures Valid() && packetID == old(packetID)
      ensures o == Pass <==> |old(out.written)| + 4 + |charset.encode(s)| <= MaxArrayLength
      ensures o == Pass ==> fields == old(fields) + [BytesField(charset.encode(s))]
      ensures o == Pass ==> out.written == old(out.written) + IntBytes(|charset.encode(s)|) + charset.encode(s)
      ensures o == Pass ==> intact == old(intact)
      ensures o != Pass ==> o == Throw(OutOfMemory) && fields == old(fields)
      ensures o != Pass && |old(out.written)| + 4 <= MaxArrayLength ==>
        out.written == old(out.written) + IntBytes(|charset.encode(s)|) && !intact
      ensures o != Pass && |old(out.written)| + 4 > MaxArrayLength ==>
        out.written == old(out.written) && intact == old(intact)
    {
      o := PlusBytes(charset.encode(s));
    }

    method PlusInt(i: int32) returns (o: Outcome)
      requires Valid()
      modifies this, out
      ensures Valid() && packetID == old(packetID)
      ensures intact == old(intact)
      ensures o == Pass ==> fields == old(fields) + [IntField(i)] && out.written == old(out.written) + IntBytes(i)
      ensures o != Pass ==> o == Throw(OutOfMemory) && fields == old(fields) && out.written == old(out.written)
    {
      o := Append(IntField(i));
    }

    method PlusBoolean(z: bool) returns (o: Outcome)
      requires Valid()
      modifies this, out
      ensures Valid() && packetID == old(packetID)
      ensures intact == old(intact)
      ensures o == Pass ==> fields == old(fields) + [BooleanField(z)] && out.written == old(out.written) + BooleanBytes(z)
      ensures o != Pass ==> o == Throw(OutOfMemory) && fields == old(fields) && out.written == old(out.written)
    {
      o := Append(BooleanField(z));
    }

    method PlusFloat(floatBits: int32) returns (o: Outcome)
      requires Valid()
      modifies this, out
      ensures Valid() && packetID == old(packetID)
      ensures intact == old(intact)
      ensures o == Pass ==> fields == old(fields) + [FloatField(floatBits)] && out.written == old(out.written) + IntBytes(floatBits)
      ensures o != Pass ==> o == Throw(OutOfMemory) && fields == old(fields) && out.written == old(out.written)
    {
      o := Append(FloatField(floatBits));
    }

    method PlusDouble(doubleBits: int64) returns (o: Outcome)
      requires Valid()
      modifies this, out
      ensures Valid() && packetID == old(packetID)
      ensures intact == old(intact)
      ensures o == Pass ==> fields == old(fields) + [DoubleField(doubleBits)] && out.written == old(out.written) + LongBytes(doubleBits)
      ensures o != Pass ==> o == Throw(OutOfMemory) && fields == old(fields) && out.written == old(out.written)
    {
      o := Append(DoubleField(doubleBits));
    }

    method PlusLong(l: int64) returns (o: Outcome)
      requires Valid()
      modifies this, out
      ensures Valid() && packetID == old(packetID)
      ensures intact == old(intact)
      ensures o == Pass ==> fields == old(fields) + [LongField(l)] && out.written == old(out.written) + LongBytes(l)
      ensures o != Pass ==> o == Throw(OutOfMemory) && fields == old(fields) && out.written == old(out.written)
    {
      o := Append(LongField(l));
    }

    method PlusShort(v: int16) returns (o: Outcome)
      requires Valid()
      modifies this, out
      ensures Valid() && packetID == old(packetID)
      ensures intact == old(intact)
      ensures o == Pass ==> fields == old(fields) + [ShortField(v)] && out.written == old(out.written) + ShortBytes(v)
      ensures o != Pass ==> o == Throw(OutOfMemory) && fields == old(fields) && out.written == old(out.written)
    {
      o := Append(ShortField(v));
    }
  }

  /** Snapshots taken before and after more `plus` calls are prefix-ordered. */
  lemma SnapshotsArePrefixes(earlier: seq<Field>, later: seq<Field>)
    ensures EncodeFields(earlier) <= EncodeFields(earlier + later)
  {
    EncodeFieldsConcat(earlier, later);
  }

  lemma {:induction false} EncodeFieldsConcat(fs: seq<Field>, gs: seq<Field>)
    ensures EncodeFields(fs + gs) == EncodeFields(fs) + EncodeFields(gs)
    decreases |fs|
  {
    if fs == [] {
      assert fs + gs == gs;
    } else {
      assert (fs + gs)[0] == fs[0] && (fs + gs)[1..] == fs[1..] + gs;
      EncodeFieldsConcat(fs[1..], gs);
    }
  }

  // ---------------------------------------------------------------------
  // PacketReader
  // ---------------------------------------------------------------------

  function Zeros(n: nat): (z: seq<uint8>)
    ensures |z| == n && forall i :: 0 <= i < n ==> z[i] == 0
  {
    seq(n, _ => 0)
  }

  lemma ZerosSuffix(n: nat, k: nat)
    requires k <= n
    ensures Zeros(n)[..0] == [] && Zeros(n)[k..] == Zeros(n - k)
  {
  }

  /**
   * The `bytes` getter as written: a 4-byte length L, a fresh zero-filled
   * array of L bytes, and one read into it.  The read's count is compared
   * with itself, so a short read is never rejected: whatever was left is
   * copied and the rest of the array stays zero.  A negative L fails at
   * allocation.
   */
  function BytesStep(data: seq<uint8>, pos: nat): (s: Step<ByteArray>)
    requires pos <= |data|
    ensures pos <= s.pos <= |data|
  {
    var len := NextInt(data, pos);
    match len.result
    case Fail(e) => Step(Fail(e), len.pos)
    case Ok(n) =>
      if n < 0 then Step(Fail(NegativeArraySize), len.pos)
      else
        var k := if len.pos + n <= |data| then n else |data| - len.pos;
        Step(Ok(data[len.pos..len.pos + k] + Zeros(n - k)), len.pos + k)
  }

  /**
   * read(bytes) into a fresh zero-filled array of n bytes at start: the bytes
   * still there are copied and the rest stay zero.
   */
  lemma ReadIntoZeros(data: seq<uint8>, start: nat, n: nat, c: Result<int>, after: seq<uint8>, posAfter: nat)
    requires start <= |data| && c == ReadCount(data, start, n, 0, n)
    requires c.Ok? && c.value > 0 ==> posAfter == start + c.value && after == Zeros(n)[..0] + data[start..posAfter] + Zeros(n)[c.value..]
    requires !(c.Ok? && c.value > 0) ==> posAfter == start && after == Zeros(n)
    ensures var k := if start + n <= |data| then n else |data| - start;
      posAfter == start + k && after == data[start..start + k] + Zeros(n - k)
  {
    var k := if start + n <= |data| then n else |data| - start;
    if c.value > 0 {
      assert c.value == k;
      ZerosSuffix(n, k);
      var got := data[start..start + k];
      assert [] + got == got;
    } else {
      assert k == 0;
      assert data[start..start] + Zeros(n) == Zeros(n);
    }
  }

  /** BytesStep is what the `bytes` getter's readInt and read(bytes) leave behind. */
  lemma BytesStepRead(data: seq<uint8>, pos: nat, n: int32, c: Result<int>, after: seq<uint8>, posAfter: nat)
    requires pos <= |data| && NextInt(data, pos).result == Ok(n) && n >= 0
    requires var start := NextInt(data, pos).pos;
      c == ReadCount(data, start, n as nat, 0, n as int) &&
      (c.Ok? && c.value > 0 ==> posAfter == start + c.value && after == Zeros(n as nat)[..0] + data[start..posAfter] + Zeros(n as nat)[c.value..]) &&
      (!(c.Ok? && c.value > 0) ==> posAfter == start && after == Zeros(n as nat))
    ensures BytesStep(data, pos) == Step(Ok(after), posAfter)
  {
    ReadIntoZeros(data, NextInt(data, pos).pos, n as nat, c, after, posAfter);
  }

  /** The `bytes` getter always returns an array of exactly the length it read. */
  lemma BytesLength(data: seq<uint8>, pos: nat)
    requires pos <= |data| && BytesStep(data, pos).result.Ok?
    ensures pos + 4 <= |data|
    ensures |BytesStep(data, pos).result.value| == Signed(data[pos..pos + 4])
  {
  }

  /** plus(ByteArray) followed by the `bytes` getter returns the original array. */
  lemma BytesAt(data: seq<uint8>, pos: nat, bs: ByteArray)
    requires At(data, pos, IntBytes(|bs|) + bs)
    ensures BytesStep(data, pos) == Step(Ok(bs), pos + 4 + |bs|)
  {
    AtSplit(data, pos, IntBytes(|bs|), bs);
    NextIntAt(data, pos, |bs|);
    assert bs + Zeros(0) == bs;
  }

  /**
   * As written, a payload that announces two bytes but holds one is read as
   * that byte followed by a zero instead of failing.
   */
  lemma ShortPayloadIsPadded()
    ensures BytesStep([0, 0, 0, 2, 7], 0) == Step(Ok([7, 0]), 5)
  {
    var data: seq<uint8> := [0, 0, 0, 2, 7];
    assert IntBytes(2) == [0, 0, 0, 2];
    assert At(data, 0, IntBytes(2));
    NextIntAt(data, 0, 2);
    assert data[4..5] + Zeros(1) == [7, 0];
  }

  /**
   * The `bytes` getter as evidently intended: IllegalArgumentException
   * ("Not enough data available") when fewer than L bytes are left.
   */
  function BytesIntended(data: seq<uint8>, pos: nat): (s: Step<ByteArray>)
    requires pos <= |data|
    ensures pos <= s.pos <= |data|
  {
    var len := NextInt(data, pos);
    match len.result
    case Fail(e) => Step(Fail(e), len.pos)
    case Ok(n) =>
      if n < 0 then Step(Fail(NegativeArraySize), len.pos)
      else if len.pos + n <= |data| then Step(Ok(data[len.pos..len.pos + n]), len.pos + n)
      else Step(Fail(IllegalArgument("Not enough data available")), |data|)
  }

  /** The intended getter returns exactly the next L bytes, never padding. */
  lemma BytesIntendedExact(data: seq<uint8>, pos: nat)
    requires pos <= |data| && BytesIntended(data, pos).result.Ok?
    ensures var n := Signed(data[pos..pos + 4]);
      pos + 4 + n <= |data| && BytesIntended(data, pos) == Step(Ok(data[pos + 4..pos + 4 + n]), pos + 4 + n)
  {
  }

  /** The intended getter still reads back what plus(ByteArray) wrote. */
  lemma BytesIntendedAt(data: seq<uint8>, pos: nat, bs: ByteArray)
    requires At(data, pos, IntBytes(|bs|) + bs)
    ensures BytesIntended(data, pos) == Step(Ok(bs), pos + 4 + |bs|)
  {
    AtSplit(data, pos, IntBytes(|bs|), bs);
    NextIntAt(data, pos, |bs|);
  }

  /**
   * Where the intended getter succeeds the code agrees with it; where only
   * the code succeeds, its result is the bytes that were left plus zeros.
   */
  lemma BytesAgree(data: seq<uint8>, pos: nat)
    requires pos <= |data|
    ensures BytesIntended(data, pos).result.Ok? ==> BytesStep(data, pos) == BytesIntended(data, pos)
    ensures BytesStep(data, pos).result.Ok? && BytesIntended(data, pos).result.Fail? ==>
      BytesStep(data, pos).pos == |data| &&
      BytesStep(data, pos).result.value == data[pos + 4..] + Zeros(Signed(data[pos..pos + 4]) - (|data| - pos - 4))
  {
    if BytesIntended(data, pos).result.Ok? {
      var n := Signed(data[pos..pos + 4]);
      assert data[pos + 4..pos + 4 + n] + Zeros(0) == data[pos + 4..pos + 4 + n];
    }
  }

  /** Which getter reads a field back. */
  datatype Getter = ByteGetter | BytesGetter | IntGetter | BooleanGetter | FloatGetter | DoubleGetter | LongGetter | ShortGetter

  function GetterFor(f: Field): Getter
  {
    match f
    case ByteField(_) => ByteGetter
    case BytesField(_) => BytesGetter
    case IntField(_) => IntGetter
    case BooleanField(_) => BooleanGetter
    case FloatField(_) => FloatGetter
    case DoubleField(_) => DoubleGetter
    case LongField(_) => LongGetter
    case ShortField(_) => ShortGetter
  }

  function GettersFor(fs: seq<Field>): (gs: seq<Getter>)
    ensures |gs| == |fs|
  {
    if fs == [] then [] else [GetterFor(fs[0])] + GettersFor(fs[1..])
  }

  /** One getter access at pos, its value seen as the field it reads. */
  function GetStep(data: seq<uint8>, pos: nat, g: Getter): (s: Step<Field>)
    requires pos <= |data|
    ensures pos <= s.pos <= |data|
  {
    match g
    case ByteGetter => MapStep(NextByte(data, pos), (v: int8) => ByteField(v))
    case BytesGetter => MapStep(BytesStep(data, pos), (v: ByteArray) => BytesField(v))
    case IntGetter => MapStep(NextInt(data, pos), (v: int32) => IntField(v))
    case BooleanGetter => MapStep(NextBoolean(data, pos), (v: bool) => BooleanField(v))
    case FloatGetter => MapStep(NextInt(data, pos), (v: int32) => FloatField(v))
    case DoubleGetter => MapStep(NextLong(data, pos), (v: int64) => DoubleField(v))
    case LongGetter => MapStep(NextLong(data, pos), (v: int64) => LongField(v))
    case ShortGetter => MapStep(NextShort(data, pos), (v: int16) => ShortField(v))
  }

  function GetAll(data: seq<uint8>, pos: nat, gs: seq<Getter>): Result<seq<Field>>
    requires pos <= |data|
    decreases |gs|
  {
    if gs == [] then Ok([])
    else
      var s := GetStep(data, pos, gs[0]);
      match s.result
      case Fail(e) => Fail(e)
      case Ok(f) =>
        match GetAll(data, s.pos, gs[1..])
        case Fail(e) => Fail(e)
        case Ok(rest) => Ok([f] + rest)
  }

  lemma GetStepAt(data: seq<uint8>, pos: nat, f: Field)
    requires At(data, pos, EncodeField(f))
    ensures GetStep(data, pos, GetterFor(f)) == Step(Ok(f), pos + |EncodeField(f)|)
  {
    match f
    case ByteField(b) => GetByteAt(data, pos, b);
    case BytesField(bs) => GetBytesAt(data, pos, bs);
    case IntField(i) => GetIntAt(data, pos, i);
    case BooleanField(z) => GetBooleanAt(data, pos, z);
    case FloatField(bits) => GetFloatAt(data, pos, bits);
    case DoubleField(bits) => GetDoubleAt(data, pos, bits);
    case LongField(l) => GetLongAt(data, pos, l);
    case ShortField(v) => GetShortAt(data, pos, v);
  }

  lemma GetByteAt(data: seq<uint8>, pos: nat, b: int8)
    requires At(data, pos, ByteBytes(b))
    ensures GetStep(data, pos, ByteGetter) == Step(Ok(ByteField(b)), pos + 1)
  {
    NextByteAt(data, pos, b);
  }

  lemma GetBytesAt(data: seq<uint8>, pos: nat, bs: ByteArray)
    requires At(data, pos, IntBytes(|bs|) + bs)
    ensures GetStep(data, pos, BytesGetter) == Step(Ok(BytesField(bs)), pos + 4 + |bs|)
  {
    BytesAt(data, pos, bs);
  }

  lemma GetIntAt(data: seq<uint8>, pos: nat, i: int32)
    requires At(data, pos, IntBytes(i))
    ensures GetStep(data, pos, IntGetter) == Step(Ok(IntField(i)), pos + 4)
  {
    NextIntAt(data, pos, i);
  }

  lemma GetBooleanAt(data: seq<uint8>, pos: nat, z: bool)
    requires At(data, pos, BooleanBytes(z))
    ensures GetStep(data, pos, BooleanGetter) == Step(Ok(BooleanField(z)), pos + 1)
  {
    NextBooleanAt(data, pos, z);
  }

  lemma GetFloatAt(data: seq<uint8>, pos: nat, bits: int32)
    requires At(data, pos, IntBytes(bits))
    ensures GetStep(data, pos, FloatGetter) == Step(Ok(FloatField(bits)), pos + 4)
  {
    NextIntAt(data, pos, bits);
  }

  lemma GetDoubleAt(data: seq<uint8>, pos: nat, bits: int64)
    requires At(data, pos, LongBytes(bits))
    ensures GetStep(data, pos, DoubleGetter) == Step(Ok(DoubleField(bits)), pos + 8)
  {
    NextLongAt(data, pos, bits);
  }

  lemma GetLongAt(data: seq<uint8>, pos: nat, l: int64)
    requires At(data, pos, LongBytes(l))
    ensures GetStep(data, pos, LongGetter) == Step(Ok(LongField(l)), pos + 8)
  {
    NextLongAt(data, pos, l);
  }

  lemma GetShortAt(data: seq<uint8>, pos: nat, v: int16)
    requires At(data, pos, ShortBytes(v))
    ensures GetStep(data, pos, ShortGetter) == Step(Ok(ShortField(v)), pos + 2)
  {
    NextShortAt(data, pos, v);
  }

  lemma {:induction false} GetAllAt(data: seq<uint8>, pos: nat, fs: seq<Field>)
    requires At(data, pos, EncodeFields(fs))
    ensures GetAll(data, pos, GettersFor(fs)) == Ok(fs)
    decreases |fs|
  {
    if fs != [] {
      var next := GetFirstAt(data, pos, fs);
      GetAllAt(data, next, fs[1..]);
      GetAllCons(data, pos, fs);
    }
  }

  /** The first field of fs is read back at pos, leaving the rest to read at next. */
  lemma GetFirstAt(data: seq<uint8>, pos: nat, fs: seq<Field>) returns (next: nat)
    requires fs != [] && At(data, pos, EncodeFields(fs))
    ensures At(data, next, EncodeFields(fs[1..]))
    ensures GetStep(data, pos, GetterFor(fs[0])) == Step(Ok(fs[0]), next)
  {
    var f, rest := fs[0], fs[1..];
    next := pos + |EncodeField(f)|;
    assert EncodeFields(fs) == EncodeField(f) + EncodeFields(rest);
    AtSplit(data, pos, EncodeField(f), EncodeFields(rest));
    GetStepAt(data, pos, f);
  }

  lemma GetAllCons(data: seq<uint8>, pos: nat, fs: seq<Field>)
    requires pos <= |data| && fs != []
    requires GetStep(data, pos, GetterFor(fs[0])).result == Ok(fs[0])
    requires GetAll(data, GetStep(data, pos, GetterFor(fs[0])).pos, GettersFor(fs[1..])) == Ok(fs[1..])
    ensures GetAll(data, pos, GettersFor(fs)) == Ok(fs)
  {
    var gs := GettersFor(fs);
    assert gs[0] == GetterFor(fs[0]) && gs[1..] == GettersFor(fs[1..]);
    assert [fs[0]] + fs[1..] == fs;
  }

  /** Every payload a Kotlin builder produces is read back field by field by the matching getters. */
  lemma PayloadRoundTrip(fs: seq<Field>)
    ensures GetAll(EncodeFields(fs), 0, GettersFor(fs)) == Ok(fs)
  {
    var data := EncodeFields(fs);
    WholeAt(data);
    GetAllAt(data, 0, fs);
  }

  /** The `string` getter after plus(String) gives the charset's decoding of its encoding. */
  lemma StringAt(data: seq<uint8>, pos: nat, cs: Charset, s: JString)
    requires At(data, pos, EncodeField(BytesField(cs.encode(s))))
    ensures BytesStep(data, pos) == Step(Ok(cs.encode(s)), pos + 4 + |cs.encode(s)|)
    ensures RoundTrips(cs, s) ==> cs.decode(BytesStep(data, pos).result.value) == s
  {
    BytesAt(data, pos, cs.encode(s));
  }

  class PacketReader {
    const packet: Packet
    const charset: Charset
    /** The DataInputStream over a ByteArrayInputStream of the packet's data. */
    const input: DataInputStream

    ghost predicate Valid()
      reads this, input
    {
      input.data == packet.data && input.Valid()
    }

    constructor(packet: Packet, charset: Charset)
      ensures Valid() && this.packet == packet && this.charset == charset && input.pos == 0 && fresh(input)
    {
      this.packet := packet;
      this.charset := charset;
      input := new DataInputStream(packet.data);
    }

    method Byte() returns (r: Result<int8>)
      requires Valid()
      modifies input
      ensures Valid()
      ensures r == NextByte(packet.data, old(input.pos)).result && input.pos == NextByte(packet.data, old(input.pos)).pos
    {
      r := input.ReadByte();
    }

    /** The `bytes` getter; see BytesStep. */
    method Bytes() returns (r: Result<ByteArray>)
      requires Valid()
      modifies input
      ensures Valid()
      ensures r == BytesStep(packet.data, old(input.pos)).result && input.pos == BytesStep(packet.data, old(input.pos)).pos
    {
      ghost var pos0 := input.pos;
      var n := input.ReadInt();
      if n.Fail? {
        return Fail(n.error);
      }
      if n.value < 0 {
        return Fail(NegativeArraySize);
      }
      var a := new uint8[n.value](_ => 0);
      ghost var start := input.pos;
      assert a[..] == Zeros(n.value);
      var c := input.Read(a, 0, n.value);
      BytesStepRead(packet.data, pos0, n.value, c, a[..], input.pos);
      r := Ok(a[..]);
    }

    /** The `string` getter: the charset's decoding of the `bytes` getter. */
    method String() returns (r: Result<JString>)
      requires Valid()
      modifies input
      ensures Valid()
      ensures var s := BytesStep(packet.data, old(input.pos));
        input.pos == s.pos &&
        r == match s.result case Ok(bs) => Ok(charset.decode(bs)) case Fail(e) => Fail(e)
    {
      var bs := Bytes();
      if bs.Fail? {
        return Fail(bs.error);
      }
      r := Ok(charset.decode(bs.value));
    }

    method Int() returns (r: Result<int32>)
      requires Valid()
      modifies input
      ensures Valid()
      ensures r == NextInt(packet.data, old(input.pos)).result && input.pos == NextInt(packet.data, old(input.pos)).pos
    {
      r := input.ReadInt();
    }

    method Boolean() returns (r: Result<bool>)
      requires Valid()
      modifies input
      ensures Valid()
      ensures r == NextBoolean(packet.data, old(input.pos)).result && input.pos == NextBoolean(packet.data, old(input.pos)).pos
    {
      r := input.ReadBoolean();
    }

    /** The `float` getter: the bit pattern of readInt. */
    method Float() returns (r: Result<int32>)
      requires Valid()
      modifies input
      ensures Valid()
      ensures r == NextInt(packet.data, old(input.pos)).result && input.pos == NextInt(packet.data, old(input.pos)).pos
    {
      r := input.ReadInt();
    }

    /** The `double` getter: the bit pattern of readLong. */
    method Double() returns (r: Result<int64>)
      requires Valid()
      modifies input
      ensures Valid()
      ensures r == NextLong(packet.data, old(input.pos)).result && input.pos == NextLong(packet.data, old(input.pos)).pos
    {
      r := input.ReadLong();
    }

    method Long() returns (r: Result<int64>)
      requires Valid()
      modifies input
      ensures Valid()
      ensures r == NextLong(packet.data, old(input.pos)).result && input.pos == NextLong(packet.data, old(input.pos)).pos
    {
      r := input.ReadLong();
    }

    method Short() returns (r: Result<int16>)
      requires Valid()
      modifies input
      ensures Valid()
      ensures r == NextShort(packet.data, old(input.pos)).result && input.pos == NextShort(packet.data, old(input.pos)).pos
    {
      r := input.ReadShort();
    }
  }

  /**
   * Getters are not idempotent: reading `int` twice reads two successive
   * 4-byte words, not the same one.
   */
  lemma IntGetterAdvances(data: seq<uint8>, pos: nat)
    requires pos + 8 <= |data|
    ensures NextInt(data, pos) == Step(Ok(Signed(data[pos..pos + 4]) as int32), pos + 4)
    ensures NextInt(data, pos + 4) == Step(Ok(Signed(data[pos + 4..pos + 8]) as int32), pos + 8)
  {
  }
}
