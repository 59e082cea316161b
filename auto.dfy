/**
 * AutoClient: a client decorator that connects on demand.  A send on a
 * client that is not connected first connects to the host and port fixed
 * at construction, runs the onReconnect callback once if that worked, and
 * then sends.  Three copies exist and differ in what an explicit connect
 * does: the early Java copy only delegates, while the later Java and the
 * Kotlin copies run onReconnect after every successful connect.
 */
module AutoClients {
  import opened Base
  import opened Packets
  import opened Clients

  /** An application's Runnable, by identity. */
  type RunnableId = nat

  datatype Variant =
    | EarlyJava   // src/nl/…/AutoClient.java: implements Client itself
    | Java        // src/main/java/…/AutoClient.java: extends the decorator
    | Kotlin      // src/main/kotlin/…/AutoClient.kt: setOnReconnect takes a non-null Runnable

  /** Whether an explicit connect runs onReconnect when it succeeds. */
  predicate ConnectRunsCallback(v: Variant)
  {
    v != EarlyJava
  }

  /** The callbacks one successful (re)connect runs: the slot's Runnable, if set. */
  function RunOnce(slot: Option<RunnableId>): (runs: seq<RunnableId>)
    ensures |runs| <= 1
    ensures runs == [] <==> slot.None?
    ensures slot.Some? ==> runs == [slot.value]
  {
    match slot
    case None => []
    case Some(r) => [r]
  }

  class AutoClient {
    const variant: Variant
    const client: ClientImpl
    const host: string
    const port: int
    var onReconnect: Option<RunnableId>
    /** The onReconnect callbacks run so far, in order. */
    var runs: seq<RunnableId>

    ghost predicate Valid()
      reads this, client
    {
      client.Valid()
    }

    constructor(variant: Variant, client: ClientImpl, host: string, port: int)
      requires client.Valid()
      ensures Valid()
      ensures this.variant == variant && this.client == client && this.host == host && this.port == port
      ensures onReconnect == None && runs == []
    {
      this.variant := variant;
      this.client := client;
      this.host := host;
      this.port := port;
      onReconnect := None;
      runs := [];
    }

    /** setOnReconnect replaces the slot; the Kotlin parameter is non-null. */
    method SetOnReconnect(r: Option<RunnableId>)
      requires variant == Kotlin ==> r.Some?
      modifies this
      ensures onReconnect == r && runs == old(runs)
    {
      onReconnect := r;
    }

    /**
     * connect(host, port): the wrapped client's connect, with its
     * IllegalStateException; the later copies then run onReconnect once
     * if it returned true.
     */
    method Connect(h: string, p: int, attempt: Result<Socket>) returns (r: Result<bool>)
      requires Valid()
      modifies client, this
      ensures Valid() && onReconnect == old(onReconnect)
      ensures r.Ok? <==> !old(client.IsOpen()) && h != "" && p != -1
      ensures r.Ok? ==> (r.value <==> attempt.Ok?)
      ensures r.Fail? ==> r.error.IllegalState?
      ensures r == Ok(true) && ConnectRunsCallback(variant) ==> runs == old(runs) + RunOnce(onReconnect)
      ensures !(r == Ok(true) && ConnectRunsCallback(variant)) ==> runs == old(runs)
      ensures r == Ok(true) ==>
        (client.socket == Some(attempt.value.(keepAlive := false)) && client.sentPackets == [] &&
         client.events == old(client.events) + Notify(client.clientListener, Connected))
      ensures r != Ok(true) ==>
        (client.socket == old(client.socket) && client.events == old(client.events) &&
         client.sentPackets == old(client.sentPackets))
    {
      r := client.Connect(h, p, attempt);
      if r == Ok(true) && ConnectRunsCallback(variant) {
        runs := runs + RunOnce(onReconnect);
      }
    }

    /**
     * send: a connected client only delegates.  Otherwise it connects once
     * to the fixed host and port: an exception from connect propagates, a
     * failed connect answers false with nothing sent and nothing run, and
     * a successful one runs onReconnect once and then sends.
     */
    method Send(pk: Packet, attempt: Result<Socket>) returns (r: Result<bool>)
      requires Valid()
      modifies client, this
      ensures Valid() && onReconnect == old(onReconnect)
      ensures old(client.IsConnected()) ==>
        (r == Ok(old(client.CanSend())) && runs == old(runs) && client.socket == old(client.socket) &&
         client.events == old(client.events) &&
         client.sentPackets == old(client.sentPackets) + (if old(client.CanSend()) then [pk] else []))
      ensures !old(client.IsConnected()) && (old(client.IsOpen()) || host == "" || port == -1) ==>
        (r.Fail? && r.error.IllegalState? && runs == old(runs) &&
         client.socket == old(client.socket) && client.sentPackets == old(client.sentPackets))
      ensures !old(client.IsConnected()) && !old(client.IsOpen()) && host != "" && port != -1 && attempt.Fail? ==>
        (r == Ok(false) && runs == old(runs) &&
         client.socket == old(client.socket) && client.sentPackets == old(client.sentPackets))
      ensures !old(client.IsConnected()) && !old(client.IsOpen()) && host != "" && port != -1 && attempt.Ok? ==>
        (var s := attempt.value;
         var sends := s.connected && !s.closed && !s.writeFails;
         r == Ok(sends) && runs == old(runs) + RunOnce(onReconnect) &&
         client.socket == Some(s.(keepAlive := false)) &&
         client.sentPackets == (if sends then [pk] else []) &&
         client.events == old(client.events) + Notify(client.clientListener, Connected))
    {
      if !client.IsConnected() {
        var c := client.Connect(host, port, attempt);
        if c.Fail? {
          return Fail(c.error);
        }
        if !c.value {
          return Ok(false);
        }
        runs := runs + RunOnce(onReconnect);
      }
      var ok := client.Send(pk);
      r := Ok(ok);
    }
  }
}
