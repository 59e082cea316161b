/**
 * The "modified UTF-8" encoding of java.io.DataInput / DataOutput, which
 * DataOutputStream.writeUTF and DataInputStream.readUTF use for strings.
 * A string is a sequence of UTF-16 code units; each unit is encoded on
 * its own (supplementary characters therefore take two 3-byte groups):
 *   0x0001..0x007F          -> 0xxxxxxx
 *   0x0000, 0x0080..0x07FF  -> 110xxxxx 10xxxxxx
 *   0x0800..0xFFFF          -> 1110xxxx 10xxxxxx 10xxxxxx
 */
module ModifiedUtf8 {
  import opened Base

  function EncodeChar(c: Char16): (r: seq<uint8>)
    ensures 1 <= |r| <= 3
    ensures |r| == 1 <==> 1 <= c <= 0x7F
    ensures |r| == 3 <==> c >= 0x800
  {
    if 1 <= c <= 0x7F then [c]
    else if c <= 0x7FF then [0xC0 + c / 64, 0x80 + c % 64]
    else [0xE0 + c / 4096, 0x80 + (c / 64) % 64, 0x80 + c % 64]
  }

  /** The modified UTF-8 bytes of s, without the length prefix. */
  function Encode(s: JString): seq<uint8>
  {
    if s == [] then [] else EncodeChar(s[0]) + Encode(s[1..])
  }

  predicate IsContinuation(b: uint8)
  {
    0x80 <= b < 0xC0
  }

  function Prepend(c: Char16, r: Result<JString>): Result<JString>
  {
    match r
    case Ok(s) => Ok([c] + s)
    case Fail(e) => Fail(e)
  }

  /**
   * How readUTF decodes the bytes it has read: a lead byte 0xxxxxxx is one
   * unit, 110xxxxx and 1110xxxx need one or two continuation bytes
   * 10xxxxxx; anything else, or a group cut short by the end, is malformed.
   */
  function Decode(bs: seq<uint8>): Result<JString>
    decreases |bs|
  {
    if bs == [] then Ok([])
    else
      var b: int := bs[0];
      if b < 0x80 then Prepend(b, Decode(bs[1..]))
      else if 0xC0 <= b < 0xE0 then
        if |bs| < 2 || !IsContinuation(bs[1]) then Fail(UTFDataFormat)
        else Prepend((b - 0xC0) * 64 + (bs[1] as int - 0x80), Decode(bs[2..]))
      else if 0xE0 <= b < 0xF0 then
        if |bs| < 3 || !IsContinuation(bs[1]) || !IsContinuation(bs[2]) then Fail(UTFDataFormat)
        else Prepend((b - 0xE0) * 4096 + (bs[1] as int - 0x80) * 64 + (bs[2] as int - 0x80), Decode(bs[3..]))
      else Fail(UTFDataFormat)
  }

  lemma DecodeChar(c: Char16, rest: seq<uint8>)
    ensures Decode(EncodeChar(c) + rest) == Prepend(c, Decode(rest))
  {
    if 1 <= c <= 0x7F {
      DecodeOneByte(c, rest);
    } else if c <= 0x7FF {
      DecodeTwoBytes(c, rest);
    } else {
      DecodeThreeBytes(c, rest);
    }
  }

  lemma DecodeOneByte(c: Char16, rest: seq<uint8>)
    requires 1 <= c <= 0x7F
    ensures Decode(EncodeChar(c) + rest) == Prepend(c, Decode(rest))
  {
    var e := [c as uint8] + rest;
    assert EncodeChar(c) + rest == e;
    assert e[1..] == rest;
  }

  lemma DecodeTwoBytes(c: Char16, rest: seq<uint8>)
    requires (c == 0 || 0x80 <= c) && c <= 0x7FF
    ensures Decode(EncodeChar(c) + rest) == Prepend(c, Decode(rest))
  {
    var hi, lo := c / 64, c % 64;
    assert hi * 64 + lo == c && 0 <= hi < 32 && 0 <= lo < 64;
    var e := [(0xC0 + hi) as uint8, (0x80 + lo) as uint8] + rest;
    assert EncodeChar(c) + rest == e;
    assert e[2..] == rest;
  }

  lemma DecodeThreeBytes(c: Char16, rest: seq<uint8>)
    requires 0x800 <= c
    ensures Decode(EncodeChar(c) + rest) == Prepend(c, Decode(rest))
  {
    var top, mid, lo := c / 4096, (c / 64) % 64, c % 64;
    assert top * 4096 + mid * 64 + lo == c && 0 <= top < 16 && 0 <= mid < 64 && 0 <= lo < 64 by {
      Digits64(c);
    }
    var e := [(0xE0 + top) as uint8, (0x80 + mid) as uint8, (0x80 + lo) as uint8] + rest;
    assert EncodeChar(c) + rest == e;
    assert e[3..] == rest;
  }

  /** c in base 64: its three digits for a 16-bit code unit. */
  lemma Digits64(c: int)
    requires 0 <= c < 0x10000
    ensures c / 4096 * 4096 + (c / 64) % 64 * 64 + c % 64 == c
    ensures 0 <= c / 4096 < 16 && 0 <= (c / 64) % 64 < 64 && 0 <= c % 64 < 64
  {
    var q := c / 64;
    assert q * 64 + c % 64 == c;
    assert q / 64 == c / 4096;
    assert (q / 64) * 64 + q % 64 == q;
  }

  /** Decoding undoes encoding for every string. */
  lemma {:induction false} DecodeEncode(s: JString)
    ensures Decode(Encode(s)) == Ok(s)
  {
    if s != [] {
      DecodeChar(s[0], Encode(s[1..]));
      DecodeEncode(s[1..]);
      assert [s[0]] + s[1..] == s;
    }
  }

  /** The encoding takes between one and three bytes per code unit. */
  lemma {:induction false} EncodeLength(s: JString)
    ensures |s| <= |Encode(s)| <= 3 * |s|
  {
    if s != [] {
      EncodeLength(s[1..]);
    }
  }

  lemma {:induction false} EncodeAppend(s: JString, t: JString)
    ensures Encode(s + t) == Encode(s) + Encode(t)
  {
    if s != [] {
      assert (s + t)[1..] == s[1..] + t;
      EncodeAppend(s[1..], t);
    } else {
      assert s + t == t;
    }
  }
}
