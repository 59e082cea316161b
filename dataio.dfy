/**
 * The parts of java.io.DataOutputStream and java.io.DataInputStream that the
 * library uses, over an in-memory byte buffer (ByteArrayOutputStream and
 * ByteArrayInputStream).  Reads are given first as pure functions of the
 * buffer and a cursor, returning the value (or exception) and the new cursor;
 * the two stream classes are then proved to behave as those functions say.
 */
module DataIO {
  import opened Base
  import opened BigEndian
  import ModifiedUtf8

  // ---------------------------------------------------------------------
  // Reading, as functions of (buffer, cursor)
  // ---------------------------------------------------------------------

  /**
   * readFully of n bytes: the next n bytes, or EOFException once the buffer
   * runs out, in which case everything that was left has been consumed.
   * Every fixed-width read of DataInputStream behaves the same way.
   */
  function NextBytes(data: seq<uint8>, pos: nat, n: nat): (s: Step<seq<uint8>>)
    requires pos <= |data|
    ensures pos <= s.pos <= |data|
    ensures s.result.Ok? <==> pos + n <= |data|
    ensures s.result.Ok? ==> s.pos == pos + n && s.result.value == data[pos..pos + n]
    ensures s.result.Fail? ==> s.result == Fail(EOF) && s.pos == |data|
  {
    if pos + n <= |data| then Step(Ok(data[pos..pos + n]), pos + n)
    else Step(Fail(EOF), |data|)
  }

  /** A read whose value is passed through f; the cursor and any exception are kept. */
  function MapStep<T, U>(s: Step<T>, f: T -> U): (r: Step<U>)
    ensures r.pos == s.pos && r.result.Ok? == s.result.Ok?
    ensures s.result.Ok? ==> r.result.value == f(s.result.value)
    ensures s.result.Fail? ==> r.result.error == s.result.error
  {
    match s.result
    case Ok(v) => Step(Ok(f(v)), s.pos)
    case Fail(e) => Step(Fail(e), s.pos)
  }

  /** readByte, readShort, readInt, readLong: n big-endian bytes, signed. */
  function ReadSigned(data: seq<uint8>, pos: nat, n: nat): (s: Step<int>)
    requires pos <= |data| && n > 0
    ensures pos <= s.pos <= |data|
    ensures s.result.Ok? <==> pos + n <= |data|
    ensures s.result.Ok? ==> s.pos == pos + n && s.result.value == Signed(data[pos..pos + n])
    ensures s.result.Fail? ==> s.result.error == EOF && s.pos == |data|
    ensures s.result.Ok? ==> 0 <= s.result.value + Pow256(n) / 2 < Pow256(n)
  {
    var r := NextBytes(data, pos, n);
    match r.result
    case Ok(bs) => Step(Ok(Signed(bs)), r.pos)
    case Fail(e) => Step(Fail(e), r.pos)
  }

  function NextByte(data: seq<uint8>, pos: nat): (s: Step<int8>)
    requires pos <= |data|
    ensures pos <= s.pos <= |data|
    ensures s.result.Ok? <==> pos + 1 <= |data|
    ensures s.result.Ok? ==> s.pos == pos + 1 && s.result.value == Signed(data[pos..pos + 1])
    ensures s.result.Fail? ==> s.result.error == EOF && s.pos == |data|
  {
    Pow256Values();
    var r := ReadSigned(data, pos, 1);
    match r.result
    case Ok(x) => Step(Ok(x as int8), r.pos)
    case Fail(e) => Step(Fail(e), r.pos)
  }

  function NextShort(data: seq<uint8>, pos: nat): (s: Step<int16>)
    requires pos <= |data|
    ensures pos <= s.pos <= |data|
    ensures s.result.Ok? <==> pos + 2 <= |data|
    ensures s.result.Ok? ==> s.pos == pos + 2 && s.result.value == Signed(data[pos..pos + 2])
    ensures s.result.Fail? ==> s.result.error == EOF && s.pos == |data|
  {
    Pow256Values();
    var r := ReadSigned(data, pos, 2);
    match r.result
    case Ok(x) => Step(Ok(x as int16), r.pos)
    case Fail(e) => Step(Fail(e), r.pos)
  }

  function NextInt(data: seq<uint8>, pos: nat): (s: Step<int32>)
    requires pos <= |data|
    ensures pos <= s.pos <= |data|
    ensures s.result.Ok? <==> pos + 4 <= |data|
    ensures s.result.Ok? ==> s.pos == pos + 4 && s.result.value == Signed(data[pos..pos + 4])
    ensures s.result.Fail? ==> s.result.error == EOF && s.pos == |data|
  {
    Pow256Values();
    var r := ReadSigned(data, pos, 4);
    match r.result
    case Ok(x) => Step(Ok(x as int32), r.pos)
    case Fail(e) => Step(Fail(e), r.pos)
  }

  function NextLong(data: seq<uint8>, pos: nat): (s: Step<int64>)
    requires pos <= |data|
    ensures pos <= s.pos <= |data|
    ensures s.result.Ok? <==> pos + 8 <= |data|
    ensures s.result.Ok? ==> s.pos == pos + 8 && s.result.value == Signed(data[pos..pos + 8])
    ensures s.result.Fail? ==> s.result.error == EOF && s.pos == |data|
  {
    Pow256Values();
    var r := ReadSigned(data, pos, 8);
    match r.result
    case Ok(x) => Step(Ok(x as int64), r.pos)
    case Fail(e) => Step(Fail(e), r.pos)
  }

  /** readBoolean: one byte, true exactly when it is not zero. */
  function NextBoolean(data: seq<uint8>, pos: nat): (s: Step<bool>)
    requires pos <= |data|
    ensures pos <= s.pos <= |data|
    ensures s.result.Ok? <==> pos < |data|
    ensures s.result.Ok? ==> s.pos == pos + 1 && (s.result.value <==> data[pos] != 0)
    ensures s.result.Fail? ==> s.result.error == EOF && s.pos == pos
  {
    if pos < |data| then Step(Ok(data[pos] != 0), pos + 1) else Step(Fail(EOF), pos)
  }

  /**
   * readUTF: an unsigned 2-byte length, then that many bytes of modified
   * UTF-8.  A short buffer gives EOFException, a malformed group
   * UTFDataFormatException (after the bytes have been consumed).
   */
  function NextUTF(data: seq<uint8>, pos: nat): (s: Step<JString>)
    requires pos <= |data|
    ensures pos <= s.pos <= |data|
  {
    var len := NextBytes(data, pos, 2);
    match len.result
    case Fail(e) => Step(Fail(e), len.pos)
    case Ok(lb) =>
      var body := NextBytes(data, len.pos, FromBytes(lb));
      match body.result
      case Fail(e) => Step(Fail(e), body.pos)
      case Ok(bs) => Step(ModifiedUtf8.Decode(bs), body.pos)
  }

  /**
   * What ByteArrayInputStream.read(b, off, len) returns when pos bytes of
   * data have been consumed and b has blen elements: IndexOutOfBounds for a
   * bad range, -1 when nothing is left (even when len is 0), and otherwise
   * the number of bytes copied, which is len or whatever is left if less.
   */
  function ReadCount(data: seq<uint8>, pos: nat, blen: nat, off: int, len: int): (r: Result<int>)
    requires pos <= |data|
    ensures r.Fail? <==> off < 0 || len < 0 || len > blen - off
    ensures r.Fail? ==> r.error == IndexOutOfBounds
    ensures r.Ok? ==> (r.value == -1 <==> pos == |data|)
    ensures r.Ok? && pos < |data| ==> r.value == if len <= |data| - pos then len else |data| - pos
  {
    if off < 0 || len < 0 || len > blen - off then Fail(IndexOutOfBounds)
    else if pos >= |data| then Ok(-1)
    else if len <= |data| - pos then Ok(len)
    else Ok(|data| - pos)
  }

  // ---------------------------------------------------------------------
  // Writing, as functions of the value
  // ---------------------------------------------------------------------

  function BooleanBytes(b: bool): seq<uint8>
  {
    if b then [1] else [0]
  }

  /**
   * writeUTF: the 2-byte length of the modified UTF-8 form followed by that
   * form; a string whose form is longer than 65535 bytes is rejected with
   * UTFDataFormatException before anything is written.
   */
  function UtfBytes(s: JString): (r: Result<seq<uint8>>)
    ensures r.Ok? <==> |ModifiedUtf8.Encode(s)| <= 0xFFFF
    ensures r.Fail? ==> r.error == UTFDataFormat
  {
    var e := ModifiedUtf8.Encode(s);
    if |e| > 0xFFFF then Fail(UTFDataFormat) else Ok(ShortBytes(|e|) + e)
  }

  // ---------------------------------------------------------------------
  // Each write is read back by the matching read
  // ---------------------------------------------------------------------

  /** The bytes at [pos, pos + |e|) of data are e. */
  predicate At(data: seq<uint8>, pos: nat, e: seq<uint8>)
  {
    pos + |e| <= |data| && data[pos..pos + |e|] == e
  }

  lemma WholeAt(data: seq<uint8>)
    ensures At(data, 0, data)
  {
    assert data[0..|data|] == data;
  }

  lemma AtSplit(data: seq<uint8>, pos: nat, e1: seq<uint8>, e2: seq<uint8>)
    requires At(data, pos, e1 + e2)
    ensures At(data, pos, e1) && At(data, pos + |e1|, e2)
  {
    assert data[pos..pos + |e1|] == (e1 + e2)[..|e1|];
    assert data[pos + |e1|..pos + |e1| + |e2|] == (e1 + e2)[|e1|..];
  }

  lemma NextByteAt(data: seq<uint8>, pos: nat, x: int8)
    requires At(data, pos, ByteBytes(x))
    ensures NextByte(data, pos) == Step(Ok(x), pos + 1)
  {
    SignedByte(x);
  }

  lemma NextShortAt(data: seq<uint8>, pos: nat, x: int16)
    requires At(data, pos, ShortBytes(x))
    ensures NextShort(data, pos) == Step(Ok(x), pos + 2)
  {
    SignedShort(x);
  }

  lemma NextIntAt(data: seq<uint8>, pos: nat, x: int32)
    requires At(data, pos, IntBytes(x))
    ensures NextInt(data, pos) == Step(Ok(x), pos + 4)
  {
    SignedInt(x);
  }

  lemma NextLongAt(data: seq<uint8>, pos: nat, x: int64)
    requires At(data, pos, LongBytes(x))
    ensures NextLong(data, pos) == Step(Ok(x), pos + 8)
  {
    SignedLong(x);
  }

  lemma NextBooleanAt(data: seq<uint8>, pos: nat, b: bool)
    requires At(data, pos, BooleanBytes(b))
    ensures NextBoolean(data, pos) == Step(Ok(b), pos + 1)
  {
    assert data[pos] == BooleanBytes(b)[0];
  }

  /** readUTF reads back what writeUTF wrote, consuming exactly those bytes. */
  lemma NextUTFAt(data: seq<uint8>, pos: nat, s: JString)
    requires UtfBytes(s).Ok? && At(data, pos, UtfBytes(s).value)
    ensures NextUTF(data, pos) == Step(Ok(s), pos + |UtfBytes(s).value|)
  {
    var e := ModifiedUtf8.Encode(s);
    var h := ShortBytes(|e|);
    AtSplit(data, pos, h, e);
    assert h == ToBytes(|e|, 2) by {
      Pow256Values();
      ModBelow(|e|, 0x1_0000);
    }
    assert FromBytes(h) == |e| by {
      Pow256Values();
      FromToBytes(|e|, 2);
    }
    assert NextBytes(data, pos, 2) == Step(Ok(h), pos + 2);
    assert NextBytes(data, pos + 2, |e|) == Step(Ok(e), pos + 2 + |e|);
    ModifiedUtf8.DecodeEncode(s);
  }

  // ---------------------------------------------------------------------
  // The streams
  // ---------------------------------------------------------------------

  /** A DataOutputStream over a ByteArrayOutputStream; `written` is the buffer. */
  class DataOutputStream {
    var written: seq<uint8>

    constructor()
      ensures written == []
    {
      written := [];
    }

    method WriteByte(v: int)
      modifies this
      ensures written == old(written) + ByteBytes(v)
    {
      written := written + ByteBytes(v);
    }

    method WriteShort(v: int)
      modifies this
      ensures written == old(written) + ShortBytes(v)
    {
      written := written + ShortBytes(v);
    }

    method WriteInt(v: int)
      modifies this
      ensures written == old(written) + IntBytes(v)
    {
      written := written + IntBytes(v);
    }

    method WriteLong(v: int)
      modifies this
      ensures written == old(written) + LongBytes(v)
    {
      written := written + LongBytes(v);
    }

    method WriteBoolean(b: bool)
      modifies this
      ensures written == old(written) + BooleanBytes(b)
    {
      written := written + BooleanBytes(b);
    }

    /** write(byte[]): the bytes themselves, with no length. */
    method Write(bs: seq<uint8>)
      modifies this
      ensures written == old(written) + bs
    {
      written := written + bs;
    }

    method WriteUTF(s: JString) returns (o: Outcome)
      modifies this
      ensures UtfBytes(s).Ok? ==> o == Pass && written == old(written) + UtfBytes(s).value
      ensures UtfBytes(s).Fail? ==> o == Throw(UTFDataFormat) && written == old(written)
    {
      var r := UtfBytes(s);
      if r.Ok? {
        written := written + r.value;
        o := Pass;
      } else {
        o := Throw(UTFDataFormat);
      }
    }
  }

  /** A DataInputStream over a ByteArrayInputStream of `data`. */
  class DataInputStream {
    const data: seq<uint8>
    var pos: nat

    ghost predicate Valid()
      reads this
    {
      pos <= |data|
    }

    constructor(data: seq<uint8>)
      ensures this.data == data && pos == 0 && Valid()
    {
      this.data := data;
      pos := 0;
    }

    /** readFully into a fresh array of n bytes. */
    method ReadFully(n: nat) returns (r: Result<seq<uint8>>)
      requires Valid()
      modifies this
      ensures Valid()
      ensures r == NextBytes(data, old(pos), n).result && pos == NextBytes(data, old(pos), n).pos
    {
      var s := NextBytes(data, pos, n);
      r, pos := s.result, s.pos;
    }

    method ReadByte() returns (r: Result<int8>)
      requires Valid()
      modifies this
      ensures Valid()
      ensures r == NextByte(data, old(pos)).result && pos == NextByte(data, old(pos)).pos
    {
      var s := NextByte(data, pos);
      r, pos := s.result, s.pos;
    }

    method ReadShort() returns (r: Result<int16>)
      requires Valid()
      modifies this
      ensures Valid()
      ensures r == NextShort(data, old(pos)).result && pos == NextShort(data, old(pos)).pos
    {
      var s := NextShort(data, pos);
      r, pos := s.result, s.pos;
    }

    method ReadInt() returns (r: Result<int32>)
      requires Valid()
      modifies this
      ensures Valid()
      ensures r == NextInt(data, old(pos)).result && pos == NextInt(data, old(pos)).pos
    {
      var s := NextInt(data, pos);
      r, pos := s.result, s.pos;
    }

    method ReadLong() returns (r: Result<int64>)
      requires Valid()
      modifies this
      ensures Valid()
      ensures r == NextLong(data, old(pos)).result && pos == NextLong(data, old(pos)).pos
    {
      var s := NextLong(data, pos);
      r, pos := s.result, s.pos;
    }

    method ReadBoolean() returns (r: Result<bool>)
      requires Valid()
      modifies this
      ensures Valid()
      ensures r == NextBoolean(data, old(pos)).result && pos == NextBoolean(data, old(pos)).pos
    {
      var s := NextBoolean(data, pos);
      r, pos := s.result, s.pos;
    }

    method ReadUTF() returns (r: Result<JString>)
      requires Valid()
      modifies this
      ensures Valid()
      ensures r == NextUTF(data, old(pos)).result && pos == NextUTF(data, old(pos)).pos
    {
      var s := NextUTF(data, pos);
      r, pos := s.result, s.pos;
    }

    /**
     * read(b, off, len): copies the bytes it counts into b[off..], leaves
     * the rest of b alone and advances the cursor past them.
     */
    method Read(b: array<uint8>, off: int, len: int) returns (r: Result<int>)
      requires Valid()
      modifies this, b
      ensures Valid()
      ensures r == ReadCount(data, old(pos), b.Length, off, len)
      ensures r.Ok? && r.value > 0 ==>
        pos == old(pos) + r.value &&
        b[..] == old(b[..off]) + data[old(pos)..pos] + old(b[off + r.value..])
      ensures !(r.Ok? && r.value > 0) ==> pos == old(pos) && b[..] == old(b[..])
    {
      r := ReadCount(data, pos, b.Length, off, len);
      if r.Ok? && r.value > 0 {
        var n := r.value;
        assert 0 <= off && off + n <= b.Length && pos + n <= |data|;
        ghost var before := b[..];
        var i := 0;
        while i < n
          modifies b
          invariant 0 <= i <= n
          invariant forall j :: 0 <= j < b.Length ==>
            b[j] == if off <= j < off + i then data[pos + j - off] else before[j]
        {
          b[off + i] := data[pos + i];
          i := i + 1;
        }
        assert b[..] == before[..off] + data[pos..pos + n] + before[off + n..];
        pos := pos + n;
      }
    }
  }
}
