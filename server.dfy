/**
 * ServerImpl: the bookkeeping around accepted clients.  Each accepted
 * client gets a relay listener that adds it to the client list when it
 * connects, removes it when it disconnects and forwards every event to the
 * server listener.  stop detaches and closes every tracked client, empties
 * the list and closes the server socket.  The Java and Kotlin classes do
 * the same; one class models both.
 */
module Servers {
  import opened Base
  import opened Packets
  import opened Clients

  /** The listening socket, as far as the server uses it. */
  datatype ServerSocket = ServerSocket(port: int, closed: bool)

  /** A callback of the server listener: the event and the client it is about. */
  datatype ServerNotification = ServerNotification(listener: ListenerId, event: Event, client: ClientImpl)

  function Forward(l: Option<ListenerId>, e: Event, c: ClientImpl): (ns: seq<ServerNotification>)
    ensures l.None? ==> ns == []
    ensures l.Some? ==> ns == [ServerNotification(l.value, e, c)]
  {
    match l
    case None => []
    case Some(id) => [ServerNotification(id, e, c)]
  }

  /** onConnect forwarded for each client, in order. */
  function ForwardConnects(l: Option<ListenerId>, cs: seq<ClientImpl>): (ns: seq<ServerNotification>)
    ensures l.None? ==> ns == []
    ensures l.Some? ==> |ns| == |cs| && forall i :: 0 <= i < |cs| ==> ns[i] == ServerNotification(l.value, Connected, cs[i])
  {
    if cs == [] then [] else ForwardConnects(l, cs[..|cs| - 1]) + Forward(l, Connected, cs[|cs| - 1])
  }

  lemma ForwardConnectsSnoc(l: Option<ListenerId>, cs: seq<ClientImpl>, i: nat)
    requires i < |cs|
    ensures cs[..i + 1] == cs[..i] + [cs[i]]
    ensures ForwardConnects(l, cs[..i + 1]) == ForwardConnects(l, cs[..i]) + Forward(l, Connected, cs[i])
  {
    assert cs[..i + 1][..i] == cs[..i];
  }

  /** The socket after close(): a missing socket stays missing, any other is closed. */
  function Closed(s: Option<Socket>): (r: Option<Socket>)
    ensures r.Some? <==> s.Some?
    ensures r.Some? ==> r.value.closed && r.value == s.value.(closed := true)
  {
    match s
    case None => None
    case Some(x) => Some(x.(closed := true))
  }

  lemma ClosedIdempotent(s: Option<Socket>)
    ensures Closed(Closed(s)) == Closed(s)
  {
  }

  /** The server socket after stop: closed if there is one. */
  function ClosedServer(s: Option<ServerSocket>): (r: Option<ServerSocket>)
    ensures r.Some? <==> s.Some?
    ensures r.Some? ==> r.value == s.value.(closed := true)
  {
    match s
    case None => None
    case Some(x) => Some(x.(closed := true))
  }

  // ---------------------------------------------------------------------
  // List.remove(Object): the first occurrence goes, the rest stay in order
  // ---------------------------------------------------------------------

  function RemoveFirst<T(==)>(s: seq<T>, x: T): (r: seq<T>)
    ensures x !in s ==> r == s
    ensures x in s ==> |r| == |s| - 1
  {
    if s == [] then []
    else if s[0] == x then s[1..]
    else [s[0]] + RemoveFirst(s[1..], x)
  }

  /** The index of the first occurrence of x. */
  function FirstIndex<T(==)>(s: seq<T>, x: T): (k: nat)
    requires x in s
    ensures k < |s| && s[k] == x && x !in s[..k]
  {
    if s[0] == x then 0
    else
      var k := FirstIndex(s[1..], x) + 1;
      assert s[..k] == [s[0]] + s[1..][..k - 1];
      k
  }

  /** remove cuts out exactly the first occurrence. */
  lemma {:induction false} RemoveFirstAt<T>(s: seq<T>, x: T)
    requires x in s
    ensures var k := FirstIndex(s, x); RemoveFirst(s, x) == s[..k] + s[k + 1..]
  {
    if s[0] != x {
      var t := s[1..];
      var k' := FirstIndex(t, x);
      RemoveFirstAt(t, x);
      assert FirstIndex(s, x) == k' + 1;
      assert RemoveFirst(s, x) == [s[0]] + (t[..k'] + t[k' + 1..]);
      assert t[..k'] == s[1..k' + 1] && t[k' + 1..] == s[k' + 2..];
      assert s[..k' + 1] == [s[0]] + s[1..k' + 1];
    } else {
      assert FirstIndex(s, x) == 0 && s[..0] + s[1..] == s[1..];
    }
  }

  /** remove takes away one copy of x and nothing else. */
  lemma {:induction false} RemoveFirstMultiset<T>(s: seq<T>, x: T)
    ensures x in s ==> multiset(RemoveFirst(s, x)) == multiset(s) - multiset{x}
    ensures x !in s ==> multiset(RemoveFirst(s, x)) == multiset(s)
  {
    if s != [] && s[0] != x {
      RemoveFirstMultiset(s[1..], x);
      assert s == [s[0]] + s[1..];
    } else if s != [] {
      assert s == [s[0]] + s[1..];
    }
  }

  /** Adding a client on connect and removing it on disconnect restores the list. */
  lemma {:induction false} ConnectThenDisconnect<T>(s: seq<T>, x: T)
    requires x !in s
    ensures RemoveFirst(s + [x], x) == s
  {
    if s != [] {
      ConnectThenDisconnect(s[1..], x);
      assert (s + [x])[1..] == s[1..] + [x];
      assert s == [s[0]] + s[1..];
    }
  }

  // ---------------------------------------------------------------------
  // ServerImpl
  // ---------------------------------------------------------------------

  class ServerImpl {
    /** The listener installed on every accepted client. */
    const relay: ListenerId
    var server: Option<ServerSocket>
    var clients: seq<ClientImpl>
    var serverListener: Option<ListenerId>
    var acceptorsLaunched: nat
    /** The callbacks the server listener received, in order. */
    var events: seq<ServerNotification>

    ghost predicate Valid()
      reads this, clients
    {
      forall c :: c in clients ==> c.Valid()
    }

    constructor(relay: ListenerId)
      ensures Valid() && this.relay == relay
      ensures server == None && clients == [] && serverListener == None
      ensures acceptorsLaunched == 0 && events == []
    {
      this.relay := relay;
      server := None;
      clients := [];
      serverListener := None;
      acceptorsLaunched := 0;
      events := [];
    }

    method SetListener(l: Option<ListenerId>)
      modifies this
      ensures serverListener == l
      ensures server == old(server) && clients == old(clients) && events == old(events)
      ensures acceptorsLaunched == old(acceptorsLaunched)
    {
      serverListener := l;
    }

    /**
     * start: false if the server socket factory throws, with nothing
     * changed; otherwise the new socket is kept, one acceptor thread is
     * launched and the answer is true.
     */
    method Start(port: int, attempt: Result<ServerSocket>) returns (ok: bool)
      modifies this
      ensures ok <==> attempt.Ok?
      ensures ok ==> server == Some(attempt.value) && acceptorsLaunched == old(acceptorsLaunched) + 1
      ensures !ok ==> server == old(server) && acceptorsLaunched == old(acceptorsLaunched)
      ensures clients == old(clients) && serverListener == old(serverListener) && events == old(events)
    {
      if attempt.Fail? {
        return false;
      }
      server := Some(attempt.value);
      acceptorsLaunched := acceptorsLaunched + 1;
      ok := true;
    }

    /** The relay's onConnect: track the client, then forward. */
    method OnConnect(c: ClientImpl)
      requires Valid() && c.Valid()
      modifies this
      ensures Valid()
      ensures clients == old(clients) + [c]
      ensures events == old(events) + Forward(serverListener, Connected, c)
      ensures server == old(server) && serverListener == old(serverListener)
      ensures acceptorsLaunched == old(acceptorsLaunched)
    {
      clients := clients + [c];
      events := events + Forward(serverListener, Connected, c);
    }

    /** The relay's onDisconnect: drop the client's first entry, then forward. */
    method OnDisconnect(c: ClientImpl)
      requires Valid()
      modifies this
      ensures Valid()
      ensures clients == RemoveFirst(old(clients), c)
      ensures events == old(events) + Forward(serverListener, Disconnected, c)
      ensures server == old(server) && serverListener == old(serverListener)
      ensures acceptorsLaunched == old(acceptorsLaunched)
    {
      RemoveFirstKeeps(clients, c);
      clients := RemoveFirst(clients, c);
      events := events + Forward(serverListener, Disconnected, c);
    }

    /** The relay's onReceive: forwarded as it is. */
    method OnReceive(p: Packet, c: ClientImpl)
      modifies this
      ensures events == old(events) + Forward(serverListener, Received(p), c)
      ensures clients == old(clients) && server == old(server) && serverListener == old(serverListener)
      ensures acceptorsLaunched == old(acceptorsLaunched)
    {
      events := events + Forward(serverListener, Received(p), c);
    }

    /**
     * One pass of the acceptor loop: the client from the factory gets the
     * relay as its listener and adopts the accepted socket, whose onConnect
     * reaches the relay.
     */
    method AcceptOne(c: ClientImpl, s: Socket)
      requires Valid() && c.Valid() && c.socket.None?
      modifies this, c
      ensures Valid()
      ensures clients == old(clients) + [c]
      ensures events == old(events) + Forward(serverListener, Connected, c)
      ensures c.clientListener == Some(relay) && c.socket == Some(s.(keepAlive := false))
      ensures c.events == old(c.events) + [Notification(relay, Connected)]
      ensures c.sentPackets == [] && c.Valid()
      ensures server == old(server) && serverListener == old(serverListener)
      ensures acceptorsLaunched == old(acceptorsLaunched)
    {
      c.SetClientListener(Some(relay));
      var o := c.SetSocket(s);
      OnConnect(c);
    }

    /**
     * The acceptor loop while accept succeeds: each connection, in order,
     * goes to a new client from the factory.
     */
    /** The acceptor loop's state after accepting the first i connections. */
    ghost predicate AcceptedFirst(newClients: seq<ClientImpl>, sockets: seq<Socket>, i: nat,
                                  clients0: seq<ClientImpl>, events0: seq<ServerNotification>)
      requires |newClients| == |sockets| && i <= |newClients|
      reads this, clients, newClients
    {
      Valid() && clients == clients0 + newClients[..i] &&
      events == events0 + ForwardConnects(serverListener, newClients[..i]) &&
      (forall j :: 0 <= j < i ==> Adopted(newClients[j], relay, sockets[j])) &&
      (forall j :: i <= j < |newClients| ==> newClients[j].Valid() && newClients[j].socket.None?)
    }

    /** One turn of the acceptor loop. */
    method AcceptNext(newClients: seq<ClientImpl>, sockets: seq<Socket>, i: nat,
                      ghost clients0: seq<ClientImpl>, ghost events0: seq<ServerNotification>)
      requires |newClients| == |sockets| && i < |newClients|
      requires forall j, k :: 0 <= j < k < |newClients| ==> newClients[j] != newClients[k]
      requires AcceptedFirst(newClients, sockets, i, clients0, events0)
      modifies this, newClients[i]
      ensures AcceptedFirst(newClients, sockets, i + 1, clients0, events0)
      ensures server == old(server) && serverListener == old(serverListener)
      ensures acceptorsLaunched == old(acceptorsLaunched)
    {
      ForwardConnectsSnoc(serverListener, newClients, i);
      AcceptOne(newClients[i], sockets[i]);
    }

    method AcceptAll(newClients: seq<ClientImpl>, sockets: seq<Socket>)
      requires Valid() && |newClients| == |sockets|
      requires forall j :: 0 <= j < |newClients| ==> newClients[j].Valid() && newClients[j].socket.None?
      requires forall j, k :: 0 <= j < k < |newClients| ==> newClients[j] != newClients[k]
      modifies this, newClients
      ensures Valid() && server == old(server) && serverListener == old(serverListener)
      ensures acceptorsLaunched == old(acceptorsLaunched)
      ensures clients == old(clients) + newClients
      ensures events == old(events) + ForwardConnects(serverListener, newClients)
      ensures forall j :: 0 <= j < |newClients| ==> Adopted(newClients[j], relay, sockets[j])
    {
      var i := 0;
      assert newClients[..0] == [];
      while i < |newClients|
        invariant 0 <= i <= |newClients|
        invariant AcceptedFirst(newClients, sockets, i, old(clients), old(events))
        invariant serverListener == old(serverListener) && server == old(server)
        invariant acceptorsLaunched == old(acceptorsLaunched)
      {
        AcceptNext(newClients, sockets, i, old(clients), old(events));
        i := i + 1;
      }
      assert newClients[..i] == newClients;
    }

    /**
     * The acceptor thread: it accepts the given connections and then, when
     * accept throws (failsAfter), stops the server and ends.
     */
    method AcceptorThread(newClients: seq<ClientImpl>, sockets: seq<Socket>, failsAfter: bool)
      requires Valid() && |newClients| == |sockets|
      requires forall j :: 0 <= j < |newClients| ==> newClients[j].Valid() && newClients[j].socket.None?
      requires forall j, k :: 0 <= j < k < |newClients| ==> newClients[j] != newClients[k]
      modifies this, newClients, clients
      ensures Valid() && serverListener == old(serverListener) && acceptorsLaunched == old(acceptorsLaunched)
      ensures events == old(events) + ForwardConnects(serverListener, newClients)
      ensures !failsAfter ==> clients == old(clients) + newClients && server == old(server)
      ensures !failsAfter ==> forall j :: 0 <= j < |newClients| ==>
        newClients[j].clientListener == Some(relay) && newClients[j].socket == Some(sockets[j].(keepAlive := false))
      ensures failsAfter ==> clients == [] && server == ClosedServer(old(server))
      ensures failsAfter ==> forall j :: 0 <= j < |newClients| ==>
        newClients[j].clientListener == None && !newClients[j].IsOpen()
    {
      AcceptAll(newClients, sockets);
      if failsAfter {
        ghost var cs := clients;
        assert forall j :: 0 <= j < |newClients| ==> newClients[j] in cs by {
          assert forall j :: 0 <= j < |newClients| ==> cs[|old(clients)| + j] == newClients[j];
        }
        Stop();
      }
    }

    /**
     * stop: each tracked client first loses its listener, so that closing
     * it reports to nobody and cannot change the list, and is then closed;
     * the list is emptied and the server socket, if any, is closed.
     */
    method Stop()
      requires Valid()
      modifies this, clients
      ensures Valid() && clients == [] && server == ClosedServer(old(server))
      ensures serverListener == old(serverListener) && events == old(events)
      ensures acceptorsLaunched == old(acceptorsLaunched)
      ensures forall c :: c in old(clients) ==>
        c.clientListener == None && c.socket == Closed(old(c.socket)) && !c.IsOpen() &&
        c.events == old(c.events) && c.sentPackets == old(c.sentPackets) && c.Valid()
    {
      var cs := clients;
      var i := 0;
      while i < |cs|
        modifies cs
        invariant 0 <= i <= |cs|
        invariant forall c :: c in cs ==>
          c.Valid() && Closed(c.socket) == Closed(old(c.socket)) &&
          c.events == old(c.events) && c.sentPackets == old(c.sentPackets)
        invariant forall j :: 0 <= j < i ==> cs[j].clientListener == None && cs[j].socket == Closed(old(cs[j].socket))
      {
        Detach(cs[i]);
        i := i + 1;
      }
      clients := [];
      server := ClosedServer(server);
    }
  }

  /** A client the acceptor has set up: the relay listens on it and it holds the socket. */
  ghost predicate Adopted(c: ClientImpl, relay: ListenerId, s: Socket)
    reads c
  {
    c.clientListener == Some(relay) && c.socket == Some(s.(keepAlive := false))
  }

  /** One client in stop: listener cleared first, then closed, so nothing is reported. */
  method Detach(c: ClientImpl)
    requires c.Valid()
    modifies c
    ensures c.Valid() && c.clientListener == None && c.socket == Closed(old(c.socket))
    ensures c.events == old(c.events) && c.sentPackets == old(c.sentPackets)
  {
    c.SetClientListener(None);
    c.Close();
  }

  /** Every client left after remove was in the list before. */
  lemma {:induction false} RemoveFirstKeeps<T>(s: seq<T>, x: T)
    ensures forall y :: y in RemoveFirst(s, x) ==> y in s
  {
    if s != [] && s[0] != x {
      RemoveFirstKeeps(s[1..], x);
    }
  }
}
