/**
 * Basic value types shared by the whole model: octets, the fixed-width Java
 * integer types, Java arrays and strings, and the failure-carrying wrappers
 * used wherever the library throws or catches an exception.
 */
module Base {

  /** One octet on the wire or in a byte array (the unsigned view). */
  type uint8 = x: int | 0 <= x < 0x100

  /** Java's signed integer types. */
  type int8 = x: int | -0x80 <= x < 0x80
  type int16 = x: int | -0x8000 <= x < 0x8000
  type int32 = x: int | -0x8000_0000 <= x < 0x8000_0000
  type int64 = x: int | -0x8000_0000_0000_0000 <= x < 0x8000_0000_0000_0000

  /** The largest length a Java array can have (and the largest int32). */
  const MaxArrayLength: nat := 0x7FFF_FFFF

  /** A Java `byte[]`: its length always fits the signed 32-bit length field. */
  type ByteArray = s: seq<uint8> | |s| <= MaxArrayLength

  /** A Java `char`, one UTF-16 code unit, and a Java `String`. */
  type Char16 = c: int | 0 <= c < 0x1_0000
  type JString = seq<Char16>

  /** The exceptions of the library and of the JDK calls it makes, by kind. */
  datatype JavaException =
    | EOF                      // java.io.EOFException: the stream ended early
    | IOError(message: string) // java.io.IOException thrown by the library itself
    | IndexOutOfBounds         // ArrayIndexOutOfBoundsException / IndexOutOfBoundsException
    | NegativeArraySize        // NegativeArraySizeException
    | UTFDataFormat            // java.io.UTFDataFormatException
    | IllegalState(message: string)
    | IllegalArgument(message: string)
    | OutOfMemory              // OutOfMemoryError: a buffer cannot grow past the largest array
    | KeyStoreFailure          // KeyStoreException, CertificateException and the other key store errors

  datatype Option<+T> = None | Some(value: T)

  /** The value of a call that returns normally, or the exception it throws. */
  datatype Result<+T> = Ok(value: T) | Fail(error: JavaException)

  /** A call that returns nothing, or the exception it throws. */
  datatype Outcome = Pass | Throw(error: JavaException)

  /** The result of one read from a stream together with the cursor after it. */
  datatype Step<+T> = Step(result: Result<T>, pos: nat)

  /** Integer.toString / Short.toString: optional minus sign, then decimal digits. */
  function DecimalString(i: int): (r: string)
    ensures |r| > 0
  {
    if i < 0 then "-" + NatString(-i) else NatString(i)
  }

  function NatString(n: nat): (r: string)
    ensures |r| > 0 && (forall k :: 0 <= k < |r| ==> '0' <= r[k] <= '9')
    decreases n
  {
    var d := ['0', '1', '2', '3', '4', '5', '6', '7', '8', '9'];
    if n < 10 then [d[n]] else NatString(n / 10) + [d[n % 10]]
  }

  // Sequence identities, stated once so that proofs over large contexts
  // can cite them instead of rediscovering them.

  lemma Assoc4<T>(a: seq<T>, b: seq<T>, c: seq<T>, d: seq<T>)
    ensures a + b + c + d == a + (b + (c + d))
  {
  }

  lemma Slice4<T>(s: seq<T>, a: nat, b: nat, c: nat, d: nat, e: nat)
    requires a <= b <= c <= d <= e <= |s|
    ensures s[a..e] == s[a..b] + s[b..c] + s[c..d] + s[d..e]
  {
    assert s[a..e] == s[a..b] + s[b..e];
    assert s[b..e] == s[b..c] + s[c..e];
    assert s[c..e] == s[c..d] + s[d..e];
  }

  lemma ConsConcat<T>(ps: seq<T>, t: seq<T>)
    requires ps != []
    ensures [ps[0]] + (ps[1..] + t) == ps + t
  {
    assert ps == [ps[0]] + ps[1..];
  }

  lemma SnocSplit<T>(ps: seq<T>, x: T)
    ensures (ps + [x])[0] == if ps == [] then x else ps[0]
    ensures (ps + [x])[1..] == if ps == [] then [] else ps[1..] + [x]
  {
  }
}
