/**
 * TLSBuilder: fluent setters for host, port, key store and session
 * timeout, and the two build operations.  build picks a custom context
 * exactly when a key store was given and sets both session timeouts
 * exactly when a timeout was given; a client socket needs a host, a server
 * socket does not.  The Java and Kotlin classes differ only in the pinned
 * lists they filter and in Kotlin's non-null host.
 */
module TlsBuilders {
  import opened Base
  import opened Tls

  datatype Dialect = JavaBuilder | KotlinBuilder

  const NoHostMessage: string := "Cannot create socket without host"

  /** SSLSessionContext.setSessionTimeout rejects a negative timeout with an IllegalArgumentException that carries no message. */
  const NegativeTimeout: JavaException := IllegalArgument("")

  class TlsBuilder {
    const dialect: Dialect
    var host: Option<string>
    var port: int32
    var customKeyStore: bool
    /** keyStoreType, keyStoreStream and keyStorePassword, unset until a store is given. */
    var keyStore: Option<KeyStore>
    var customTimeout: bool
    var sslTimeout: int32

    ghost predicate Valid()
      reads this
    {
      customKeyStore <==> keyStore.Some?
    }

    constructor(dialect: Dialect)
      ensures Valid() && this.dialect == dialect
      ensures host == None && port == 0 && !customKeyStore && keyStore == None
      ensures !customTimeout && sslTimeout == 0
    {
      this.dialect := dialect;
      host := None;
      port := 0;
      customKeyStore := false;
      keyStore := None;
      customTimeout := false;
      sslTimeout := 0;
    }

    method WithPort(p: int32) returns (b: TlsBuilder)
      requires Valid()
      modifies this
      ensures b == this && Valid() && port == p
      ensures host == old(host) && customKeyStore == old(customKeyStore) && keyStore == old(keyStore)
      ensures customTimeout == old(customTimeout) && sslTimeout == old(sslTimeout)
    {
      port := p;
      b := this;
    }

    /** withHost: the Kotlin parameter is non-null, the Java one may be null. */
    method WithHost(h: Option<string>) returns (b: TlsBuilder)
      requires Valid() && (dialect == KotlinBuilder ==> h.Some?)
      modifies this
      ensures b == this && Valid() && host == h
      ensures port == old(port) && customKeyStore == old(customKeyStore) && keyStore == old(keyStore)
      ensures customTimeout == old(customTimeout) && sslTimeout == old(sslTimeout)
    {
      host := h;
      b := this;
    }

    /** withKeyStore: sets the flag and replaces any store given before. */
    method WithKeyStore(store: KeyStore) returns (b: TlsBuilder)
      requires Valid()
      modifies this
      ensures b == this && Valid() && customKeyStore && keyStore == Some(store)
      ensures host == old(host) && port == old(port)
      ensures customTimeout == old(customTimeout) && sslTimeout == old(sslTimeout)
    {
      customKeyStore := true;
      keyStore := Some(store);
      b := this;
    }

    /** withTrustStore is withKeyStore under another name. */
    method WithTrustStore(store: KeyStore) returns (b: TlsBuilder)
      requires Valid()
      modifies this
      ensures b == this && Valid() && customKeyStore && keyStore == Some(store)
      ensures host == old(host) && port == old(port)
      ensures customTimeout == old(customTimeout) && sslTimeout == old(sslTimeout)
    {
      b := WithKeyStore(store);
    }

    method WithTimeout(t: int32) returns (b: TlsBuilder)
      requires Valid()
      modifies this
      ensures b == this && Valid() && customTimeout && sslTimeout == t
      ensures host == old(host) && port == old(port)
      ensures customKeyStore == old(customKeyStore) && keyStore == old(keyStore)
    {
      customTimeout := true;
      sslTimeout := t;
      b := this;
    }

    /**
     * build: the custom context over the given store (whose loading may
     * fail) or the platform default, then the timeout on both session
     * contexts if one was given; setSessionTimeout rejects a negative one.
     */
    function Build(): (r: Result<Context>)
      requires Valid()
      reads this
      ensures r.Fail? <==> (customKeyStore && !keyStore.value.loads) || (customTimeout && sslTimeout < 0)
      ensures customKeyStore && !keyStore.value.loads ==> r == Fail(KeyStoreFailure)
      ensures !(customKeyStore && !keyStore.value.loads) && customTimeout && sslTimeout < 0 ==> r == Fail(NegativeTimeout)
      ensures r.Ok? ==> (r.value.source.Custom? <==> customKeyStore)
      ensures r.Ok? && customKeyStore ==> r.value.source == Custom(ContextProtocol, keyStore.value, true)
      ensures r.Ok? ==> (r.value.clientTimeout.Some? <==> customTimeout) && r.value.serverTimeout == r.value.clientTimeout
      ensures r.Ok? && customTimeout ==> r.value.clientTimeout == Some(sslTimeout)
    {
      var base := if customKeyStore then StoreContext(keyStore.value, true) else Ok(Context(PlatformDefault, None, None));
      if base.Fail? then base
      else if customTimeout && sslTimeout < 0 then Fail(NegativeTimeout)
      else if customTimeout then Ok(base.value.(clientTimeout := Some(sslTimeout), serverTimeout := Some(sslTimeout)))
      else base
    }

    /** The protocol list the builder's dialect filters. */
    function PinnedProtocols(): seq<string>
    {
      match dialect
      case JavaBuilder => JavaProtocols
      case KotlinBuilder => KotlinProtocols
    }

    /** The cipher suite list the builder's dialect filters. */
    function PinnedSuites(): seq<string>
    {
      match dialect
      case JavaBuilder => JavaCipherSuites
      case KotlinBuilder => KotlinCipherSuites
    }

    /**
     * buildSocket: without a host it throws IllegalStateException before
     * any context is built; otherwise the context's failure, then the
     * connection's, propagates, and a created socket gets the pinned sets.
     */
    method BuildSocket(supported: Supported, connect: Outcome) returns (r: Result<SecureSocket>)
      requires Valid()
      ensures host.None? ==> r == Fail(IllegalState(NoHostMessage))
      ensures host.Some? && Build().Fail? ==> r == Fail(Build().error)
      ensures host.Some? && Build().Ok? && connect.Throw? ==> r == Fail(connect.error)
      ensures host.Some? && Build().Ok? && connect.Pass? ==>
        r == Ok(SecureSocket(host, port, Build().value, Usable(PinnedProtocols(), supported.protocols),
                             Usable(PinnedSuites(), supported.cipherSuites), None))
    {
      if host.None? {
        return Fail(IllegalState(NoHostMessage));
      }
      var ctx := Build();
      if ctx.Fail? {
        return Fail(ctx.error);
      }
      if connect.Throw? {
        return Fail(connect.error);
      }
      var s := EnablePinned(ctx.value, host, port, supported, PinnedProtocols(), PinnedSuites(), None);
      r := Ok(s);
    }

    /** buildServerSocket: the same without a host, bound to the port. */
    method BuildServerSocket(supported: Supported, bind: Outcome) returns (r: Result<SecureSocket>)
      requires Valid()
      ensures Build().Fail? ==> r == Fail(Build().error)
      ensures Build().Ok? && bind.Throw? ==> r == Fail(bind.error)
      ensures Build().Ok? && bind.Pass? ==>
        r == Ok(SecureSocket(None, port, Build().value, Usable(PinnedProtocols(), supported.protocols),
                             Usable(PinnedSuites(), supported.cipherSuites), None))
    {
      var ctx := Build();
      if ctx.Fail? {
        return Fail(ctx.error);
      }
      if bind.Throw? {
        return Fail(bind.error);
      }
      var s := EnablePinned(ctx.value, None, port, supported, PinnedProtocols(), PinnedSuites(), None);
      r := Ok(s);
    }
  }
}
