/**
 * The TLS policy: the pinned protocol and cipher suite lists, getUsable
 * (the pinned entries a socket supports, in pinned order), and the socket
 * creators, which enable exactly those.  The key store, trust manager and
 * socket factory calls of the JDK are represented by the values they are
 * given and the outcome they have.
 */
module Tls {
  import opened Base

  /** The protocol every custom SSLContext is created for. */
  const ContextProtocol: string := "TLSv1.2"

  /** The Java class's strong protocols, best first. */
  const JavaProtocols: seq<string> := ["TLSv1.2", "TLSv1.1"]

  /** The key exchange and authentication part of a suite name. */
  datatype KeyExchange = EcdheRsa | DheRsa | EcdheEcdsa

  /** The bulk cipher part of a suite name. */
  datatype BulkCipher = ChaCha20Poly1305 | Aes256Gcm | Aes128Gcm | Aes256Cbc | Aes128Cbc

  /** The trailing hash of a suite name, if it has one. */
  datatype SuiteHash = NoHash | Sha256 | Sha384

  /** A cipher suite, named TLS_<exchange>_WITH_<cipher>[_<hash>]. */
  datatype CipherSuite = CipherSuite(exchange: KeyExchange, cipher: BulkCipher, hash: SuiteHash)

  function ExchangeName(k: KeyExchange): string
  {
    match k
    case EcdheRsa => "ECDHE_RSA"
    case DheRsa => "DHE_RSA"
    case EcdheEcdsa => "ECDHE_ECDSA"
  }

  function CipherName(b: BulkCipher): string
  {
    match b
    case ChaCha20Poly1305 => "CHACHA20_POLY1305"
    case Aes256Gcm => "AES_256_GCM"
    case Aes128Gcm => "AES_128_GCM"
    case Aes256Cbc => "AES_256_CBC"
    case Aes128Cbc => "AES_128_CBC"
  }

  function HashSuffix(h: SuiteHash): string
  {
    match h
    case NoHash => ""
    case Sha256 => "_SHA256"
    case Sha384 => "_SHA384"
  }

  /**
   * The name TLS.java or TLS.kt writes for a suite.  For the two Java
   * ChaCha20 entries, which carry no hash, this is not the standard name
   * (which ends in _SHA256), so a JDK's supported list never holds it and
   * Usable drops them.
   */
  function SuiteName(c: CipherSuite): string
  {
    "TLS_" + ExchangeName(c.exchange) + "_WITH_" + CipherName(c.cipher) + HashSuffix(c.hash)
  }

  function SuiteNames(cs: seq<CipherSuite>): (names: seq<string>)
    ensures |names| == |cs| && forall i :: 0 <= i < |cs| ==> names[i] == SuiteName(cs[i])
  {
    seq(|cs|, i requires 0 <= i < |cs| => SuiteName(cs[i]))
  }

  /** How strong the bulk cipher family is: ChaCha20 first, then GCM, then CBC. */
  function CipherRank(b: BulkCipher): nat
  {
    match b
    case ChaCha20Poly1305 => 0
    case Aes256Gcm => 1
    case Aes128Gcm => 1
    case Aes256Cbc => 2
    case Aes128Cbc => 2
  }

  /** A list is ordered best to worst when no suite is stronger than the one before it. */
  predicate BestFirst(cs: seq<CipherSuite>)
  {
    forall i :: 0 < i < |cs| ==> CipherRank(cs[i - 1].cipher) <= CipherRank(cs[i].cipher)
  }

  /** The Java class's strong cipher suites, best to worst. */
  const JavaSuites: seq<CipherSuite> := [
    CipherSuite(EcdheRsa, ChaCha20Poly1305, NoHash),
    CipherSuite(DheRsa, ChaCha20Poly1305, NoHash),
    CipherSuite(EcdheRsa, Aes256Gcm, Sha384),
    CipherSuite(EcdheRsa, Aes128Gcm, Sha256),
    CipherSuite(DheRsa, Aes256Gcm, Sha384),
    CipherSuite(DheRsa, Aes128Gcm, Sha256),
    CipherSuite(EcdheRsa, Aes256Cbc, Sha384),
    CipherSuite(EcdheRsa, Aes128Cbc, Sha256),
    CipherSuite(DheRsa, Aes256Cbc, Sha384),
    CipherSuite(DheRsa, Aes128Cbc, Sha256)
  ]

  const JavaCipherSuites: seq<string> := SuiteNames(JavaSuites)

  /** The Kotlin object's protocols once its initialiser has run. */
  const KotlinProtocols: seq<string> := ["TLSv1.2"]

  /** The Kotlin object's cipher suites once its initialiser has run. */
  const KotlinSuites: seq<CipherSuite> := [
    CipherSuite(EcdheEcdsa, ChaCha20Poly1305, Sha256),
    CipherSuite(EcdheRsa, ChaCha20Poly1305, Sha256),
    CipherSuite(EcdheEcdsa, Aes256Gcm, Sha384),
    CipherSuite(EcdheRsa, Aes256Gcm, Sha384),
    CipherSuite(EcdheEcdsa, Aes128Gcm, Sha256),
    CipherSuite(EcdheRsa, Aes128Gcm, Sha256),
    CipherSuite(DheRsa, Aes256Gcm, Sha384),
    CipherSuite(DheRsa, Aes128Gcm, Sha256)
  ]

  const KotlinCipherSuites: seq<string> := SuiteNames(KotlinSuites)

  /** The Java list: ten suites, the two ChaCha20 ones, then four GCM, then four CBC. */
  lemma JavaSuitesRanked()
    ensures |JavaSuites| == 10 && BestFirst(JavaSuites)
    ensures forall i :: 0 <= i < 10 ==>
      CipherRank(JavaSuites[i].cipher) == if i < 2 then 0 else if i < 6 then 1 else 2
  {
    var s := JavaSuites;
    assert |s| == 10;
    assert CipherRank(s[0].cipher) == 0 && CipherRank(s[1].cipher) == 0;
    assert CipherRank(s[2].cipher) == 1 && CipherRank(s[3].cipher) == 1;
    assert CipherRank(s[4].cipher) == 1 && CipherRank(s[5].cipher) == 1;
    assert CipherRank(s[6].cipher) == 2 && CipherRank(s[7].cipher) == 2;
    assert CipherRank(s[8].cipher) == 2 && CipherRank(s[9].cipher) == 2;
  }

  /** The Kotlin list: eight suites, the two ChaCha20 ones, then six GCM. */
  lemma KotlinSuitesRanked()
    ensures |KotlinSuites| == 8 && BestFirst(KotlinSuites)
    ensures forall i :: 0 <= i < 8 ==> CipherRank(KotlinSuites[i].cipher) == if i < 2 then 0 else 1
  {
    var s := KotlinSuites;
    assert |s| == 8;
    assert CipherRank(s[0].cipher) == 0 && CipherRank(s[1].cipher) == 0;
    assert CipherRank(s[2].cipher) == 1 && CipherRank(s[3].cipher) == 1;
    assert CipherRank(s[4].cipher) == 1 && CipherRank(s[5].cipher) == 1;
    assert CipherRank(s[6].cipher) == 1 && CipherRank(s[7].cipher) == 1;
  }

  /**
   * The Kotlin TLS object: its initialiser fills the two mutable lists
   * one entry at a time.  Suites are kept by their parts; the list of
   * names getUsable sees is SuiteNames(cipherSuites).
   */
  class KotlinTls {
    var contextProtocol: string
    var protocols: seq<string>
    var cipherSuites: seq<CipherSuite>

    constructor()
      ensures contextProtocol == ContextProtocol
      ensures protocols == KotlinProtocols && cipherSuites == KotlinSuites
    {
      contextProtocol := "TLSv1.2";
      protocols := [];
      cipherSuites := [];
      protocols := protocols + ["TLSv1.2"];
      cipherSuites := cipherSuites + [CipherSuite(EcdheEcdsa, ChaCha20Poly1305, Sha256)];
      cipherSuites := cipherSuites + [CipherSuite(EcdheRsa, ChaCha20Poly1305, Sha256)];
      cipherSuites := cipherSuites + [CipherSuite(EcdheEcdsa, Aes256Gcm, Sha384)];
      cipherSuites := cipherSuites + [CipherSuite(EcdheRsa, Aes256Gcm, Sha384)];
      cipherSuites := cipherSuites + [CipherSuite(EcdheEcdsa, Aes128Gcm, Sha256)];
      cipherSuites := cipherSuites + [CipherSuite(EcdheRsa, Aes128Gcm, Sha256)];
      cipherSuites := cipherSuites + [CipherSuite(DheRsa, Aes256Gcm, Sha384)];
      cipherSuites := cipherSuites + [CipherSuite(DheRsa, Aes128Gcm, Sha256)];
    }
  }

  // ---------------------------------------------------------------------
  // getUsable
  // ---------------------------------------------------------------------

  /** The entries of available that supported contains, in available's order. */
  function Usable(available: seq<string>, supported: seq<string>): seq<string>
  {
    if available == [] then []
    else
      var last := available[|available| - 1];
      Usable(available[..|available| - 1], supported) + (if last in supported then [last] else [])
  }

  lemma UsableSnoc(available: seq<string>, supported: seq<string>, i: nat)
    requires i < |available|
    ensures available[..i + 1][..i] == available[..i]
    ensures Usable(available[..i + 1], supported) ==
      Usable(available[..i], supported) + (if available[i] in supported then [available[i]] else [])
  {
    assert available[..i + 1][..i] == available[..i];
  }

  /** An entry is usable exactly when it is pinned and supported. */
  lemma {:induction false} UsableMembership(available: seq<string>, supported: seq<string>, x: string)
    ensures x in Usable(available, supported) <==> x in available && x in supported
  {
    if available != [] {
      var init := available[..|available| - 1];
      UsableMembership(init, supported, x);
      assert available == init + [available[|available| - 1]];
    }
  }

  /** Each entry is kept once per occurrence in available, or not at all. */
  lemma {:induction false} UsableCounts(available: seq<string>, supported: seq<string>, x: string)
    ensures multiset(Usable(available, supported))[x] == if x in supported then multiset(available)[x] else 0
  {
    if available != [] {
      var init := available[..|available| - 1];
      UsableCounts(init, supported, x);
      assert available == init + [available[|available| - 1]];
    }
  }

  /**
   * The result is a subsequence of available: its entries sit at strictly
   * increasing positions of available, each of them supported.
   */
  lemma {:induction false} UsableSubsequence(available: seq<string>, supported: seq<string>) returns (idx: seq<nat>)
    ensures var u := Usable(available, supported);
      |idx| == |u| &&
      (forall k :: 0 <= k < |idx| ==> idx[k] < |available| && u[k] == available[idx[k]] && u[k] in supported) &&
      (forall k, l :: 0 <= k < l < |idx| ==> idx[k] < idx[l])
  {
    if available == [] {
      return [];
    }
    var n := |available| - 1;
    var init := available[..n];
    var idx' := UsableSubsequence(init, supported);
    if available[n] in supported {
      idx := idx' + [n];
    } else {
      idx := idx';
    }
  }

  /** A list whose entries are all supported is kept as it is. */
  lemma {:induction false} UsableKeepsSupported(available: seq<string>, supported: seq<string>)
    requires forall k :: 0 <= k < |available| ==> available[k] in supported
    ensures Usable(available, supported) == available
  {
    if available != [] {
      var n := |available| - 1;
      UsableKeepsSupported(available[..n], supported);
      assert available == available[..n] + [available[n]];
    }
  }

  /** Filtering twice against the same supported set changes nothing more. */
  lemma UsableIdempotent(available: seq<string>, supported: seq<string>)
    ensures Usable(Usable(available, supported), supported) == Usable(available, supported)
  {
    var u := Usable(available, supported);
    forall k | 0 <= k < |u|
      ensures u[k] in supported
    {
      UsableMembership(available, supported, u[k]);
    }
    UsableKeepsSupported(u, supported);
  }

  /** getUsable (Java): the for loop that collects the supported entries. */
  method GetUsable(available: seq<string>, supported: seq<string>) returns (usable: seq<string>)
    ensures usable == Usable(available, supported)
  {
    var filtered: seq<string> := [];
    var i := 0;
    while i < |available|
      invariant 0 <= i <= |available|
      invariant filtered == Usable(available[..i], supported)
    {
      UsableSnoc(available, supported, i);
      if available[i] in supported {
        filtered := filtered + [available[i]];
      }
      i := i + 1;
    }
    assert available[..i] == available;
    usable := filtered;
  }

  /**
   * getUsable as the Kotlin object writes it: the same loop, but the
   * returned array is a fresh array of nulls of the filtered size; the
   * converted copy of the list is thrown away.
   */
  function KotlinUsable(available: seq<string>, supported: seq<string>): (r: seq<Option<string>>)
    ensures |r| == |Usable(available, supported)|
    ensures forall k :: 0 <= k < |r| ==> r[k] == None
  {
    seq(|Usable(available, supported)|, _ => None)
  }

  method GetUsableKotlin(available: seq<string>, supported: seq<string>) returns (usable: seq<Option<string>>)
    ensures usable == KotlinUsable(available, supported)
  {
    var filtered: seq<string> := [];
    var i := 0;
    while i < |available|
      invariant 0 <= i <= |available|
      invariant filtered == Usable(available[..i], supported)
    {
      UsableSnoc(available, supported, i);
      if available[i] in supported {
        filtered := filtered + [available[i]];
      }
      i := i + 1;
    }
    assert available[..i] == available;
    usable := seq(|filtered|, _ => None);
  }

  /** A socket that supports TLSv1.2 gets no protocol name from the Kotlin copy. */
  lemma KotlinUsableLosesNames()
    ensures Usable(KotlinProtocols, ["TLSv1.2"]) == ["TLSv1.2"]
    ensures KotlinUsable(KotlinProtocols, ["TLSv1.2"]) == [None]
  {
    assert Usable(KotlinProtocols[..0], ["TLSv1.2"]) == [];
  }

  // ---------------------------------------------------------------------
  // Socket creators
  // ---------------------------------------------------------------------

  /**
   * A key or trust store as passed in: type, stream (by identity),
   * password, and whether the JDK can load it with that password.
   */
  datatype KeyStore = KeyStore(storeType: string, stream: nat, password: string, loads: bool)

  /** Where an SSLContext's keys come from. */
  datatype ContextSource =
    | PlatformDefault                                        // SSLContext.getDefault()
    | Custom(protocol: string, store: KeyStore, trustsStore: bool)  // init with the store's key (and trust) managers

  /** An SSLContext with the session timeouts set on its two session contexts. */
  datatype Context = Context(source: ContextSource, clientTimeout: Option<int32>, serverTimeout: Option<int32>)

  /** What the JDK socket reports it supports. */
  datatype Supported = Supported(protocols: seq<string>, cipherSuites: seq<string>)

  /** A created SSLSocket or SSLServerSocket and the settings the library gave it. */
  datatype SecureSocket = SecureSocket(
    host: Option<string>,      // None for a server socket
    port: int32,
    context: Context,
    enabledProtocols: seq<string>,
    enabledCipherSuites: seq<string>,
    needClientAuth: Option<bool>)  // None: left at the socket's default

  /** The custom context made from a store, or the store's load failure. */
  function StoreContext(store: KeyStore, trustsStore: bool): (r: Result<Context>)
    ensures r.Fail? <==> !store.loads
    ensures r.Fail? ==> r.error == KeyStoreFailure
    ensures r.Ok? ==> r.value == Context(Custom(ContextProtocol, store, trustsStore), None, None)
  {
    if store.loads then Ok(Context(Custom(ContextProtocol, store, trustsStore), None, None)) else Fail(KeyStoreFailure)
  }

  /**
   * The enabled sets the socket creators install: the pinned lists
   * filtered against what the socket supports.
   */
  method EnablePinned(ctx: Context, host: Option<string>, port: int32, supported: Supported,
                      pinnedProtocols: seq<string>, pinnedSuites: seq<string>, needClientAuth: Option<bool>)
    returns (s: SecureSocket)
    ensures s == SecureSocket(host, port, ctx, Usable(pinnedProtocols, supported.protocols),
                              Usable(pinnedSuites, supported.cipherSuites), needClientAuth)
  {
    var protocols := GetUsable(pinnedProtocols, supported.protocols);
    var suites := GetUsable(pinnedSuites, supported.cipherSuites);
    s := SecureSocket(host, port, ctx, protocols, suites, needClientAuth);
  }

  /**
   * createTLSSocket with a trust store: a store that does not load throws;
   * then the socket made from the custom context over that store (whose
   * connect may throw) gets the pinned sets.
   */
  method CreateTlsSocketWithStore(host: string, port: int32, store: KeyStore, supported: Supported, connect: Outcome)
    returns (r: Result<SecureSocket>)
    ensures !store.loads ==> r == Fail(KeyStoreFailure)
    ensures store.loads && connect.Throw? ==> r == Fail(connect.error)
    ensures store.loads && connect.Pass? ==> (r.Ok? &&
      r.value == SecureSocket(Some(host), port, Context(Custom(ContextProtocol, store, true), None, None),
                              Usable(JavaProtocols, supported.protocols),
                              Usable(JavaCipherSuites, supported.cipherSuites), None))
  {
    var ctx := StoreContext(store, true);
    if ctx.Fail? {
      return Fail(ctx.error);
    }
    if connect.Throw? {
      return Fail(connect.error);
    }
    var s := EnablePinned(ctx.value, Some(host), port, supported, JavaProtocols, JavaCipherSuites, None);
    r := Ok(s);
  }

  /** createTLSSocket with the default context. */
  method CreateTlsSocket(host: string, port: int32, supported: Supported, connect: Outcome)
    returns (r: Result<SecureSocket>)
    ensures connect.Throw? ==> r == Fail(connect.error)
    ensures connect.Pass? ==> (r.Ok? &&
      r.value == SecureSocket(Some(host), port, Context(PlatformDefault, None, None),
                              Usable(JavaProtocols, supported.protocols),
                              Usable(JavaCipherSuites, supported.cipherSuites), None))
  {
    if connect.Throw? {
      return Fail(connect.error);
    }
    var s := EnablePinned(Context(PlatformDefault, None, None), Some(host), port, supported,
                          JavaProtocols, JavaCipherSuites, None);
    r := Ok(s);
  }

  /**
   * createTLSServerSocket: the custom context has key managers only, and
   * client authentication is switched off.
   */
  method CreateTlsServerSocket(port: int32, store: KeyStore, supported: Supported, bind: Outcome)
    returns (r: Result<SecureSocket>)
    ensures !store.loads ==> r == Fail(KeyStoreFailure)
    ensures store.loads && bind.Throw? ==> r == Fail(bind.error)
    ensures store.loads && bind.Pass? ==> (r.Ok? &&
      r.value == SecureSocket(None, port, Context(Custom(ContextProtocol, store, false), None, None),
                              Usable(JavaProtocols, supported.protocols),
                              Usable(JavaCipherSuites, supported.cipherSuites), Some(false)))
  {
    var ctx := StoreContext(store, false);
    if ctx.Fail? {
      return Fail(ctx.error);
    }
    if bind.Throw? {
      return Fail(bind.error);
    }
    var s := EnablePinned(ctx.value, None, port, supported, JavaProtocols, JavaCipherSuites, Some(false));
    r := Ok(s);
  }

  /**
   * Whatever the socket supports, the Java creators enable only pinned
   * protocols, and TLSv1.1 only when TLSv1.2 is also offered or not
   * supported: the enabled list is the pinned one with unsupported entries
   * dropped.
   */
  lemma EnabledProtocolsPinned(supported: seq<string>)
    ensures var e := Usable(JavaProtocols, supported);
      (forall p :: p in e <==> p in JavaProtocols && p in supported) &&
      ("TLSv1.2" in supported && "TLSv1.1" in supported ==> e == JavaProtocols)
  {
    var e := Usable(JavaProtocols, supported);
    forall p
      ensures p in e <==> p in JavaProtocols && p in supported
    {
      UsableMembership(JavaProtocols, supported, p);
    }
    if "TLSv1.2" in supported && "TLSv1.1" in supported {
      UsableKeepsSupported(JavaProtocols, supported);
    }
  }
}
