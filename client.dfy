/**
 * ClientImpl: one connection to a peer.  The Java and the Kotlin classes
 * have the same state and the same branches, so both are this module.
 *
 * The socket is a value: whether it is connected and closed, its keep-alive
 * flag, the bytes the peer sends before the stream ends, and whether writes
 * to it fail.  The socket factory is the `attempt` argument of Connect.  The
 * listener thread that setSocket launches is the method ListenerThread,
 * which reads the socket's input to its end.  The client listener is an
 * opaque identifier; every callback it receives is appended to `events`.
 */
module Clients {
  import opened Base
  import opened DataIO
  import opened Packets

  /** An application's PNetListener, by identity. */
  type ListenerId = nat

  datatype Event = Connected | Disconnected | Received(packet: Packet)

  /** One callback: onConnect, onDisconnect or onReceive of a listener. */
  datatype Notification = Notification(listener: ListenerId, event: Event)

  datatype Socket = Socket(connected: bool, closed: bool, keepAlive: bool, input: seq<uint8>, writeFails: bool)

  const NotClosedMessage := "Client not closed"
  const NotSetMessage := "Host and port are not set"

  /** The exceptions the listener thread's catch blocks handle (IOException and its subclasses). */
  predicate IsIOException(e: JavaException)
  {
    e.EOF? || e.IOError? || e.UTFDataFormat?
  }

  /** The callback that a listener slot receives, if it is set. */
  function Notify(l: Option<ListenerId>, e: Event): (ns: seq<Notification>)
    ensures l.None? ==> ns == []
    ensures l.Some? ==> ns == [Notification(l.value, e)]
  {
    match l
    case None => []
    case Some(id) => [Notification(id, e)]
  }

  /** onReceive for each packet, in order. */
  function NotifyReceived(l: Option<ListenerId>, ps: seq<Packet>): (ns: seq<Notification>)
    ensures l.None? ==> ns == []
    ensures l.Some? ==> |ns| == |ps| && forall i :: 0 <= i < |ps| ==> ns[i] == Notification(l.value, Received(ps[i]))
  {
    if ps == [] then [] else Notify(l, Received(ps[0])) + NotifyReceived(l, ps[1..])
  }

  lemma {:induction false} NotifyReceivedAppend(l: Option<ListenerId>, ps: seq<Packet>, p: Packet)
    ensures NotifyReceived(l, ps + [p]) == NotifyReceived(l, ps) + Notify(l, Received(p))
    decreases |ps|
  {
    if ps == [] {
      assert [p][1..] == [];
    } else {
      assert (ps + [p])[0] == ps[0] && (ps + [p])[1..] == ps[1..] + [p];
      NotifyReceivedAppend(l, ps[1..], p);
    }
  }

  // ---------------------------------------------------------------------
  // The packet stream
  // ---------------------------------------------------------------------

  /** What a run of fromStream calls yields: the packets, the exception that ends it, and the cursor. */
  datatype Drain = Drain(packets: seq<Packet>, stop: JavaException, pos: nat)

  /** fromStream repeated from pos until it throws. */
  function DecodeAll(data: seq<uint8>, pos: nat): (d: Drain)
    requires pos <= |data|
    ensures pos <= d.pos <= |data|
    decreases |data| - pos
  {
    var s := DecodePacket(data, pos);
    match s.result
    case Fail(e) => Drain([], e, s.pos)
    case Ok(p) =>
      var rest := DecodeAll(data, s.pos);
      Drain([p] + rest.packets, rest.stop, rest.pos)
  }

  /** The bytes of a sequence of packet writes. */
  function EncodeAll(ps: seq<Packet>): seq<uint8>
  {
    if ps == [] then [] else Encode(ps[0]) + EncodeAll(ps[1..])
  }

  lemma {:induction false} EncodeAllAppend(ps: seq<Packet>, p: Packet)
    ensures EncodeAll(ps + [p]) == EncodeAll(ps) + Encode(p)
    decreases |ps|
  {
    if ps == [] {
      assert [p][1..] == [];
    } else {
      assert (ps + [p])[0] == ps[0] && (ps + [p])[1..] == ps[1..] + [p];
      EncodeAllAppend(ps[1..], p);
    }
  }

  /**
   * A stream holding exactly the writes of ps is read back as ps, and the
   * reader then stops with EOFException at the end of the stream.
   */
  lemma {:induction false} DecodeAllEncodings(data: seq<uint8>, pos: nat, ps: seq<Packet>)
    requires At(data, pos, EncodeAll(ps)) && pos + |EncodeAll(ps)| == |data|
    ensures DecodeAll(data, pos) == Drain(ps, EOF, |data|)
    decreases |ps|
  {
    if ps == [] {
      assert pos == |data|;
      assert DecodePacket(data, pos) == Step(Fail(EOF), pos);
    } else {
      var next := pos + |Encode(ps[0])|;
      assert At(data, pos, Encode(ps[0])) && At(data, next, EncodeAll(ps[1..])) by {
        AtSplit(data, pos, Encode(ps[0]), EncodeAll(ps[1..]));
      }
      assert DecodePacket(data, pos) == Step(Ok(ps[0]), next) by {
        DecodeEncode(data, pos, ps[0]);
      }
      assert DecodeAll(data, next) == Drain(ps[1..], EOF, |data|) by {
        DecodeAllEncodings(data, next, ps[1..]);
      }
      DecodeAllCons(data, pos);
      assert [ps[0]] + ps[1..] == ps;
    }
  }

  /** One successful fromStream, then the rest of the run. */
  lemma DecodeAllCons(data: seq<uint8>, pos: nat)
    requires pos <= |data| && DecodePacket(data, pos).result.Ok?
    ensures var s := DecodePacket(data, pos); var rest := DecodeAll(data, s.pos);
      DecodeAll(data, pos) == Drain([s.result.value] + rest.packets, rest.stop, rest.pos)
  {
  }

  /** One fromStream call, then the rest of the run: either it throws and ends the run, or it yields the run's first packet. */
  lemma DrainStep(data: seq<uint8>, pos: nat, s: Step<Packet>)
    requires pos <= |data| && s == DecodePacket(data, pos)
    ensures s.result.Fail? ==> DecodeAll(data, pos) == Drain([], s.result.error, s.pos)
    ensures s.result.Ok? ==>
      (var rest := DecodeAll(data, s.pos);
       DecodeAll(data, pos) == Drain([s.result.value] + rest.packets, rest.stop, rest.pos))
  {
  }

  /** fromStream repeated from a yields exactly ps, without throwing, and stops at b. */
  ghost predicate DecodesTo(data: seq<uint8>, a: nat, ps: seq<Packet>, b: nat)
    requires a <= |data|
    decreases |ps|
  {
    if ps == [] then a == b
    else
      var s := DecodePacket(data, a);
      s.result == Ok(ps[0]) && DecodesTo(data, s.pos, ps[1..], b)
  }

  /** A run that has read ps so far continues as the run from b. */
  lemma {:induction false} DecodesToDrain(data: seq<uint8>, a: nat, ps: seq<Packet>, b: nat)
    requires a <= |data| && b <= |data| && DecodesTo(data, a, ps, b)
    ensures DecodeAll(data, a) == Drain(ps + DecodeAll(data, b).packets, DecodeAll(data, b).stop, DecodeAll(data, b).pos)
    decreases |ps|
  {
    var last := DecodeAll(data, b);
    if ps == [] {
      assert ps + last.packets == last.packets;
    } else {
      var s := DecodePacket(data, a);
      assert s.result == Ok(ps[0]) && DecodesTo(data, s.pos, ps[1..], b);
      DecodesToDrain(data, s.pos, ps[1..], b);
      var mid := DecodeAll(data, s.pos);
      assert mid.packets == ps[1..] + last.packets && mid.stop == last.stop && mid.pos == last.pos;
      DrainStep(data, a, s);
      assert DecodeAll(data, a) == Drain([ps[0]] + mid.packets, mid.stop, mid.pos);
      ConsConcat(ps, last.packets);
    }
  }

  /** One more successful fromStream extends a run by its packet. */
  lemma {:induction false} DecodesToExtend(data: seq<uint8>, a: nat, ps: seq<Packet>, b: nat)
    requires a <= |data| && b <= |data| && DecodesTo(data, a, ps, b) && DecodePacket(data, b).result.Ok?
    ensures DecodesTo(data, a, ps + [DecodePacket(data, b).result.value], DecodePacket(data, b).pos)
    decreases |ps|
  {
    var s := DecodePacket(data, b);
    var x := s.result.value;
    SnocSplit(ps, x);
    if ps != [] {
      var t := DecodePacket(data, a);
      DecodesToExtend(data, t.pos, ps[1..], b);
    }
  }

  /** Everything a client sent since it connected is, to its peer, exactly those packets. */
  lemma SentStreamDecodes(ps: seq<Packet>)
    ensures DecodeAll(EncodeAll(ps), 0) == Drain(ps, EOF, |EncodeAll(ps)|)
  {
    var data := EncodeAll(ps);
    assert data[0..|data|] == data;
    DecodeAllEncodings(data, 0, ps);
  }

  /**
   * The listener thread's loop on the socket's input from pos0: fromStream
   * until it throws, with onReceive for each packet read.
   */
  method ReadLoop(input: seq<uint8>, pos0: nat, l: Option<ListenerId>) returns (d: Drain, evs: seq<Notification>)
    requires pos0 <= |input|
    ensures d == DecodeAll(input, pos0)
    ensures evs == NotifyReceived(l, d.packets)
  {
    var pos := pos0;
    var got: seq<Packet> := [];
    evs := [];
    var s := DecodePacket(input, pos);
    while s.result.Ok?
      invariant pos <= |input| && s == DecodePacket(input, pos)
      invariant DecodesTo(input, pos0, got, pos)
      invariant evs == NotifyReceived(l, got)
      decreases |input| - pos
    {
      var p := s.result.value;
      DecodesToExtend(input, pos0, got, pos);
      NotifyReceivedAppend(l, got, p);
      evs := evs + Notify(l, Received(p));
      got, pos := got + [p], s.pos;
      s := DecodePacket(input, pos);
    }
    DecodesToDrain(input, pos0, got, pos);
    DrainStep(input, pos, s);
    assert got + [] == got;
    d := Drain(got, s.result.error, s.pos);
  }

  // ---------------------------------------------------------------------
  // ClientImpl
  // ---------------------------------------------------------------------

  class ClientImpl {
    var socket: Option<Socket>
    var clientListener: Option<ListenerId>
    /** How much of the current socket's input the listener thread has consumed. */
    var readPos: nat
    /** The packets written and flushed to the current socket's output stream, in order. */
    var sentPackets: seq<Packet>
    /** Listener threads launched so far (one per setSocket). */
    var threadsLaunched: nat
    var events: seq<Notification>

    ghost predicate Valid()
      reads this
    {
      socket.Some? ==> readPos <= |socket.value.input|
    }

    /** The bytes on the current socket's output stream: each sent packet's encoding. */
    function Sent(): seq<uint8>
      reads this
    {
      EncodeAll(sentPackets)
    }

    constructor()
      ensures Valid()
      ensures socket == None && clientListener == None && sentPackets == []
      ensures threadsLaunched == 0 && events == []
    {
      socket := None;
      clientListener := None;
      readPos := 0;
      sentPackets := [];
      threadsLaunched := 0;
      events := [];
    }

    /** The current socket exists and is not closed. */
    predicate IsOpen()
      reads this
    {
      socket.Some? && !socket.value.closed
    }

    /** isConnected: a socket that is connected and not closed. */
    function IsConnected(): (b: bool)
      reads this
      ensures b ==> IsOpen()
      ensures b <==> socket.Some? && socket.value.connected && !socket.value.closed
    {
      match socket
      case None => false
      case Some(s) => s.connected && !s.closed
    }

    /** Whether a send would reach the socket: connected, and writes do not fail. */
    predicate CanSend()
      reads this
    {
      IsConnected() && !socket.value.writeFails
    }

    method SetClientListener(l: Option<ListenerId>)
      requires Valid()
      modifies this
      ensures Valid() && clientListener == l
      ensures socket == old(socket) && events == old(events) && sentPackets == old(sentPackets) && readPos == old(readPos)
      ensures threadsLaunched == old(threadsLaunched) && sentPackets == old(sentPackets)
    {
      clientListener := l;
    }

    /**
     * setSocket: refused while a socket is open; otherwise adopts s with
     * keep-alive off and fresh streams, launches one listener thread and
     * fires onConnect once.
     */
    method SetSocket(s: Socket) returns (o: Outcome)
      requires Valid()
      modifies this
      ensures Valid() && clientListener == old(clientListener)
      ensures old(IsOpen()) ==> (o == Throw(IllegalState(NotClosedMessage)) &&
        socket == old(socket) && events == old(events) && threadsLaunched == old(threadsLaunched) &&
        sentPackets == old(sentPackets) && readPos == old(readPos))
      ensures !old(IsOpen()) ==> (o == Pass &&
        socket == Some(s.(keepAlive := false)) && readPos == 0 && sentPackets == [] &&
        threadsLaunched == old(threadsLaunched) + 1 &&
        events == old(events) + Notify(clientListener, Connected))
    {
      if IsOpen() {
        return Throw(IllegalState(NotClosedMessage));
      }
      socket := Some(s.(keepAlive := false));
      readPos := 0;
      sentPackets := [];
      threadsLaunched := threadsLaunched + 1;
      events := events + Notify(clientListener, Connected);
      o := Pass;
    }

    /**
     * connect: IllegalStateException while a socket is open, or for an
     * empty host or port -1; false when the factory fails (nothing else
     * changes); true once the new socket has been adopted.
     */
    method Connect(host: string, port: int, attempt: Result<Socket>) returns (r: Result<bool>)
      requires Valid()
      modifies this
      ensures Valid() && clientListener == old(clientListener)
      ensures old(IsOpen()) ==> r == Fail(IllegalState(NotClosedMessage))
      ensures !old(IsOpen()) && (host == "" || port == -1) ==> r == Fail(IllegalState(NotSetMessage))
      ensures r.Fail? || attempt.Fail? ==>
        (socket == old(socket) && events == old(events) && threadsLaunched == old(threadsLaunched) && sentPackets == old(sentPackets))
      ensures r.Ok? <==> !old(IsOpen()) && host != "" && port != -1
      ensures r.Ok? ==> (r.value <==> attempt.Ok?)
      ensures r == Ok(true) ==>
        (socket == Some(attempt.value.(keepAlive := false)) && readPos == 0 && sentPackets == [] &&
        threadsLaunched == old(threadsLaunched) + 1 && events == old(events) + Notify(clientListener, Connected))
    {
      if IsOpen() {
        return Fail(IllegalState(NotClosedMessage));
      }
      if host == "" || port == -1 {
        return Fail(IllegalState(NotSetMessage));
      }
      if attempt.Fail? {
        return Ok(false);
      }
      var o := SetSocket(attempt.value);
      r := Ok(o == Pass);
    }

    /**
     * send: false without writing when not connected; false on a write
     * error, without closing; otherwise the packet's bytes are written and
     * flushed and the result is true.
     */
    method Send(p: Packet) returns (ok: bool)
      requires Valid()
      modifies this
      ensures Valid()
      ensures ok <==> old(IsConnected()) && !old(socket).value.writeFails
      ensures ok <==> old(CanSend())
      ensures ok ==> sentPackets == old(sentPackets) + [p] && Sent() == old(Sent()) + Encode(p)
      ensures !ok ==> sentPackets == old(sentPackets)
      ensures socket == old(socket) && events == old(events) && readPos == old(readPos)
      ensures clientListener == old(clientListener) && threadsLaunched == old(threadsLaunched)
    {
      if !IsConnected() {
        return false;
      }
      if socket.value.writeFails {
        return false;
      }
      EncodeAllAppend(sentPackets, p);
      sentPackets := sentPackets + [p];
      ok := true;
    }

    /** close: nothing for a missing or closed socket; otherwise close it and fire onDisconnect. */
    method Close()
      requires Valid()
      modifies this
      ensures Valid()
      ensures !old(IsOpen()) ==> socket == old(socket) && events == old(events)
      ensures old(IsOpen()) ==> (socket == Some(old(socket).value.(closed := true)) &&
        events == old(events) + Notify(clientListener, Disconnected))
      ensures !IsOpen() && !IsConnected()
      ensures clientListener == old(clientListener) && sentPackets == old(sentPackets)
      ensures readPos == old(readPos) && threadsLaunched == old(threadsLaunched)
    {
      if socket.None? {
        return;
      }
      if socket.value.closed {
        return;
      }
      socket := Some(socket.value.(closed := true));
      events := events + Notify(clientListener, Disconnected);
    }

    /**
     * The listener thread: read packets with fromStream and hand each to
     * the listener's onReceive until a read throws.  An IOException
     * (EOFException and SocketException included) closes the client; an
     * index or array-size exception from a malformed header is not caught
     * there and ends the thread without closing.  Exceptions thrown by the
     * listener itself are caught and the loop goes on, so they change
     * nothing here.
     */
    method ListenerThread() returns (stop: JavaException)
      requires Valid() && socket.Some?
      modifies this
      ensures Valid()
      ensures var d := DecodeAll(old(socket).value.input, old(readPos));
        stop == d.stop && readPos == d.pos &&
        (IsIOException(stop) && old(IsOpen()) ==>
          (socket == Some(old(socket).value.(closed := true)) &&
           events == old(events) + NotifyReceived(clientListener, d.packets) + Notify(clientListener, Disconnected))) &&
        (!(IsIOException(stop) && old(IsOpen())) ==>
          (socket == old(socket) &&
           events == old(events) + NotifyReceived(clientListener, d.packets)))
      ensures clientListener == old(clientListener) && sentPackets == old(sentPackets)
      ensures threadsLaunched == old(threadsLaunched)
    {
      stop := ReadPackets();
      if IsIOException(stop) {
        Close();
      }
    }

    /** The read loop of the listener thread, up to the exception that ends it. */
    method ReadPackets() returns (stop: JavaException)
      requires Valid() && socket.Some?
      modifies this
      ensures socket == old(socket) && clientListener == old(clientListener)
      ensures sentPackets == old(sentPackets) && threadsLaunched == old(threadsLaunched)
      ensures Valid()
      ensures var d := DecodeAll(socket.value.input, old(readPos));
        stop == d.stop && readPos == d.pos && events == old(events) + NotifyReceived(clientListener, d.packets)
    {
      var d, evs := ReadLoop(socket.value.input, readPos, clientListener);
      stop := d.stop;
      readPos := d.pos;
      events := events + evs;
    }
  }
}
