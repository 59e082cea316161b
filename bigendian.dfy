/**
 * Big-endian two's-complement integers, as java.io.DataOutputStream writes
 * them and java.io.DataInputStream reads them back.
 */
module BigEndian {
  import opened Base

  function Pow256(n: nat): (p: nat)
    ensures p >= 1
  {
    if n == 0 then 1 else 256 * Pow256(n - 1)
  }

  lemma Pow256Values()
    ensures Pow256(1) == 0x100 && Pow256(2) == 0x1_0000
    ensures Pow256(4) == 0x1_0000_0000 && Pow256(8) == 0x1_0000_0000_0000_0000
  {
  }

  /** The n-byte big-endian representation of the unsigned value u. */
  function ToBytes(u: nat, n: nat): (r: seq<uint8>)
    requires u < Pow256(n)
    ensures |r| == n
  {
    if n == 0 then [] else ToBytes(u / 256, n - 1) + [u % 256]
  }

  /** The unsigned value of a big-endian byte sequence. */
  function FromBytes(bs: seq<uint8>): (u: nat)
    ensures u < Pow256(|bs|)
  {
    if bs == [] then 0 else FromBytes(bs[..|bs| - 1]) * 256 + bs[|bs| - 1]
  }

  lemma {:induction false} FromToBytes(u: nat, n: nat)
    requires u < Pow256(n)
    ensures FromBytes(ToBytes(u, n)) == u
  {
    if n > 0 {
      var r := ToBytes(u, n);
      assert r[..n - 1] == ToBytes(u / 256, n - 1);
      FromToBytes(u / 256, n - 1);
    }
  }

  lemma {:induction false} ToFromBytes(bs: seq<uint8>)
    ensures ToBytes(FromBytes(bs), |bs|) == bs
  {
    if bs != [] {
      var n := |bs|;
      var u := FromBytes(bs);
      assert u / 256 == FromBytes(bs[..n - 1]) && u % 256 == bs[n - 1];
      ToFromBytes(bs[..n - 1]);
    }
  }

  /** The two's-complement value of a non-empty big-endian byte sequence. */
  function Signed(bs: seq<uint8>): (x: int)
    requires bs != []
    ensures 0 <= x + Pow256(|bs|) / 2 < Pow256(|bs|)
  {
    Pow256Even(|bs|);
    var u := FromBytes(bs);
    if u >= Pow256(|bs|) / 2 then u - Pow256(|bs|) else u
  }

  lemma Pow256Even(n: nat)
    requires n > 0
    ensures Pow256(n) == 2 * (Pow256(n) / 2)
  {
    var k := Pow256(n - 1);
    assert Pow256(n) == 256 * k;
  }

  /** The leading byte carries the weight 256^(n-1). */
  lemma {:induction false} FromBytesFront(bs: seq<uint8>)
    requires bs != []
    ensures FromBytes(bs) == bs[0] * Pow256(|bs| - 1) + FromBytes(bs[1..])
  {
    var n := |bs|;
    if n == 1 {
      assert bs[..0] == [] && bs[1..] == [];
    } else {
      var init := bs[..n - 1];
      FromBytesFront(init);
      var tail := bs[1..];
      assert init[0] == bs[0] && init[1..] == tail[..n - 2] && tail[n - 2] == bs[n - 1];
      var a, p, x, b := bs[0], Pow256(n - 2), FromBytes(init[1..]), bs[n - 1];
      assert FromBytes(init) == a * p + x;
      assert FromBytes(bs) == FromBytes(init) * 256 + b;
      assert FromBytes(tail) == x * 256 + b;
      assert Pow256(n - 1) == 256 * p;
      Regroup(a, p, x, b);
    }
  }

  lemma Regroup(a: int, p: int, x: int, b: int)
    ensures (a * p + x) * 256 + b == a * (256 * p) + (x * 256 + b)
  {
  }

  lemma LeadingDigit(a: int, q: int, r: int)
    requires q > 0 && 0 <= r < q
    ensures a * q + r >= 128 * q <==> a >= 128
  {
    if a >= 128 {
      assert (a - 128) * q >= 0;
    } else {
      assert (127 - a) * q >= 0;
    }
  }

  /** A two's-complement value is negative exactly when its top bit is set. */
  lemma SignedNegative(bs: seq<uint8>)
    requires bs != []
    ensures Signed(bs) < 0 <==> bs[0] >= 0x80
  {
    var q := Pow256(|bs| - 1);
    FromBytesFront(bs);
    assert Pow256(|bs|) == 256 * q;
    LeadingDigit(bs[0], q, FromBytes(bs[1..]));
  }

  // What DataOutputStream writes: the low 1, 2, 4 or 8 bytes of the argument.

  function ByteBytes(v: int): seq<uint8>
  {
    [v % 0x100]
  }

  function ShortBytes(v: int): (r: seq<uint8>)
    ensures |r| == 2
  {
    Pow256Values();
    ToBytes(v % 0x1_0000, 2)
  }

  function IntBytes(v: int): (r: seq<uint8>)
    ensures |r| == 4
  {
    Pow256Values();
    ToBytes(v % 0x1_0000_0000, 4)
  }

  function LongBytes(v: int): (r: seq<uint8>)
    ensures |r| == 8
  {
    Pow256Values();
    ToBytes(v % 0x1_0000_0000_0000_0000, 8)
  }

  /** Reading back a value written at its own width returns it unchanged. */
  lemma {:induction false} SignedOfBytes(x: int, n: nat)
    requires n in {1, 2, 4, 8}
    requires 0 <= x + Pow256(n) / 2 < Pow256(n)
    ensures Pow256(n) == 0x100 ==> Signed(ByteBytes(x)) == x
    ensures Pow256(n) == 0x1_0000 ==> Signed(ShortBytes(x)) == x
    ensures Pow256(n) == 0x1_0000_0000 ==> Signed(IntBytes(x)) == x
    ensures Pow256(n) == 0x1_0000_0000_0000_0000 ==> Signed(LongBytes(x)) == x
  {
    Pow256Values();
    var p := Pow256(n);
    var u := if x < 0 then x + p else x;
    assert x % p == u;
    FromToBytes(u, n);
    assert n == 1 ==> ByteBytes(x) == ToBytes(u, 1);
  }

  lemma SignedByte(x: int8)
    ensures Signed(ByteBytes(x)) == x
  {
    Pow256Values();
    SignedOfBytes(x, 1);
  }

  lemma SignedShort(x: int16)
    ensures Signed(ShortBytes(x)) == x
  {
    Pow256Values();
    SignedOfBytes(x, 2);
  }

  lemma SignedInt(x: int32)
    ensures Signed(IntBytes(x)) == x
  {
    Pow256Values();
    SignedOfBytes(x, 4);
  }

  lemma SignedLong(x: int64)
    ensures Signed(LongBytes(x)) == x
  {
    Pow256Values();
    SignedOfBytes(x, 8);
  }

  /** Conversely, every byte is the encoding of its signed value. */
  lemma ByteOfSigned(bs: seq<uint8>)
    requires |bs| == 1
    ensures ByteBytes(Signed(bs)) == bs
  {
    Pow256Values();
    SignedMod(bs);
    assert FromBytes(bs) == bs[0];
  }

  /** Conversely, every 2-byte sequence is the encoding of its signed value. */
  lemma {:induction false} ShortOfSigned(bs: seq<uint8>)
    requires |bs| == 2
    ensures ShortBytes(Signed(bs)) == bs
  {
    Pow256Values();
    SignedMod(bs);
    ToFromBytes(bs);
  }

  lemma {:induction false} IntOfSigned(bs: seq<uint8>)
    requires |bs| == 4
    ensures IntBytes(Signed(bs)) == bs
  {
    Pow256Values();
    SignedMod(bs);
    ToFromBytes(bs);
  }

  /** Reducing a two's-complement value modulo 256^n gives back the unsigned value. */
  lemma SignedMod(bs: seq<uint8>)
    requires bs != []
    ensures Signed(bs) % Pow256(|bs|) == FromBytes(bs)
  {
    var p, u := Pow256(|bs|), FromBytes(bs);
    ModBelow(u, p);
    if u >= p / 2 {
      assert Signed(bs) == u as int - p;
    } else {
      assert Signed(bs) == u;
    }
  }

  lemma ModBelow(u: int, p: int)
    requires 0 <= u < p
    ensures u % p == u && (u - p) % p == u
  {
  }
}
