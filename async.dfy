/**
 * AsyncClient: a client decorator that sends packets from a queue on a
 * worker thread and reports each result to a completion listener.  The Java
 * and the Kotlin classes differ in where entries go and where the worker
 * takes them from; `kotlin` selects the dialect.
 *
 * Threads are sequential here: launching the worker sets the future to
 * Running, and RunWorker is that worker running until the queue is empty.
 * The connector thread of connectAsync runs inside ConnectAsync.  Completion listeners are opaque identifiers; each
 * onCompletion call is appended to `completions`.
 */
module AsyncClients {
  import opened Base
  import opened Packets
  import opened Clients

  /** An application's AsyncListener, by identity. */
  type AsyncListenerId = nat

  /** An AsyncPacket: a packet and its nullable completion listener. */
  datatype AsyncPacket = AsyncPacket(packet: Packet, listener: Option<AsyncListenerId>)

  datatype Completion = Completion(listener: AsyncListenerId, result: bool)

  /** The worker's future: none yet, running, finished, or cancelled. */
  datatype FutureState = NoFuture | Running | Done | Cancelled
  {
    /** Future.isDone: a cancelled future counts as done. */
    predicate IsDone()
    {
      this == Done || this == Cancelled
    }
  }

  function Reverse<T>(q: seq<T>): (r: seq<T>)
    ensures |r| == |q|
  {
    if q == [] then [] else [q[|q| - 1]] + Reverse(q[..|q| - 1])
  }

  lemma {:induction false} ReverseCons<T>(e: T, q: seq<T>)
    ensures Reverse([e] + q) == Reverse(q) + [e]
    decreases |q|
  {
    if q == [] {
      assert [e] + q == [e];
      assert Reverse([e]) == [e] + Reverse([e][..0]);
    } else {
      var eq := [e] + q;
      assert eq[..|eq| - 1] == [e] + q[..|q| - 1];
      ReverseCons(e, q[..|q| - 1]);
    }
  }

  /**
   * sendAsync's insertion: Java pushes at the head; Kotlin adds at the head
   * for a top-priority entry and at the tail otherwise.
   */
  function Enqueue(q: seq<AsyncPacket>, e: AsyncPacket, kotlin: bool, topPriority: bool): (r: seq<AsyncPacket>)
    ensures |r| == |q| + 1
  {
    if kotlin && !topPriority then q + [e] else [e] + q
  }

  /** The order in which the worker takes a queue's entries: Java from the tail, Kotlin from the head. */
  function TakeOrder(q: seq<AsyncPacket>, kotlin: bool): seq<AsyncPacket>
  {
    if kotlin then q else Reverse(q)
  }

  /** The worker serves every queued entry exactly once. */
  lemma TakeOrderPermutes(q: seq<AsyncPacket>, kotlin: bool)
    ensures multiset(TakeOrder(q, kotlin)) == multiset(q)
  {
    if !kotlin {
      ReverseMultiset(q);
    }
  }

  lemma {:induction false} ReverseMultiset<T>(q: seq<T>)
    ensures multiset(Reverse(q)) == multiset(q)
    decreases |q|
  {
    if q != [] {
      ReverseMultiset(q[..|q| - 1]);
      assert q == q[..|q| - 1] + [q[|q| - 1]];
    }
  }

  /** Ordinary entries are served first in, first out, in both dialects. */
  lemma EnqueueIsFifo(q: seq<AsyncPacket>, e: AsyncPacket, kotlin: bool)
    ensures TakeOrder(Enqueue(q, e, kotlin, false), kotlin) == TakeOrder(q, kotlin) + [e]
  {
    if !kotlin {
      ReverseCons(e, q);
    }
  }

  /** A Kotlin top-priority entry is served before everything already queued. */
  lemma PriorityJumpsAhead(q: seq<AsyncPacket>, e: AsyncPacket)
    ensures TakeOrder(Enqueue(q, e, true, true), true) == [e] + TakeOrder(q, true)
  {
  }

  /** The onCompletion calls for served entries and their send results, in order. */
  function CompletionsOf(served: seq<AsyncPacket>, results: seq<bool>): (cs: seq<Completion>)
    requires |served| == |results|
    ensures |cs| <= |served|
  {
    if served == [] then []
    else
      var n := |served| - 1;
      CompletionsOf(served[..n], results[..n]) +
        (match served[n].listener
         case Some(l) => [Completion(l, results[n])]
         case None => [])
  }

  /** The packets of a run of entries, in order. */
  function PacketsOf(served: seq<AsyncPacket>): (ps: seq<Packet>)
    ensures |ps| == |served|
  {
    if served == [] then [] else PacketsOf(served[..|served| - 1]) + [served[|served| - 1].packet]
  }

  lemma CompletionsAppend(served: seq<AsyncPacket>, results: seq<bool>, e: AsyncPacket, ok: bool)
    requires |served| == |results|
    ensures CompletionsOf(served + [e], results + [ok]) ==
      CompletionsOf(served, results) + (if e.listener.Some? then [Completion(e.listener.value, ok)] else [])
  {
    assert (served + [e])[..|served|] == served && (results + [ok])[..|results|] == results;
  }

  /** Serving entry number i of the order adds its packet to those served before. */
  lemma ServeIndex(order: seq<AsyncPacket>, i: nat, b: bool)
    requires i < |order|
    ensures PacketsOf(order[..i + 1]) == PacketsOf(order[..i]) + [order[i].packet]
    ensures Repeat(b, i + 1) == Repeat(b, i) + [b]
  {
    assert order[..i + 1][..i] == order[..i];
  }

  /** n copies of b. */
  function Repeat(b: bool, n: nat): (r: seq<bool>)
    ensures |r| == n
  {
    if n == 0 then [] else Repeat(b, n - 1) + [b]
  }

  /**
   * The worker's loop: while the queue is not empty, take the next entry in
   * the worker's order (the i-th one taken is TakeOrder(q0, kotlin)[i]) and
   * send it through the client.
   */
  method ServeQueue(client: ClientImpl, q0: seq<AsyncPacket>, kotlin: bool) returns (results: seq<bool>)
    requires client.Valid()
    modifies client
    ensures client.Valid() && client.socket == old(client.socket) && client.events == old(client.events)
    ensures results == Repeat(old(client.CanSend()), |q0|)
    ensures client.sentPackets == old(client.sentPackets) + (if old(client.CanSend()) then PacketsOf(TakeOrder(q0, kotlin)) else [])
  {
    var order := TakeOrder(q0, kotlin);
    ghost var canSend := client.CanSend();
    var i := 0;
    results := [];
    while i < |order|
      invariant client.Valid() && client.socket == old(client.socket) && client.events == old(client.events)
      invariant i <= |order| && results == Repeat(canSend, i)
      invariant client.sentPackets == old(client.sentPackets) + (if canSend then PacketsOf(order[..i]) else [])
    {
      var ok := client.Send(order[i].packet);
      ServeIndex(order, i, canSend);
      results := results + [ok];
      i := i + 1;
    }
    assert order[..i] == order;
  }

  class AsyncClient {
    const kotlin: bool
    const client: ClientImpl
    /** The LinkedBlockingDeque; index 0 is its head. */
    var queue: seq<AsyncPacket>
    var future: FutureState
    var workersLaunched: nat
    var completions: seq<Completion>

    ghost predicate Valid()
      reads this, client
    {
      client.Valid()
    }

    constructor(kotlin: bool, client: ClientImpl)
      requires client.Valid()
      ensures Valid() && this.kotlin == kotlin && this.client == client
      ensures queue == [] && future == NoFuture && workersLaunched == 0 && completions == []
    {
      this.kotlin := kotlin;
      this.client := client;
      queue := [];
      future := NoFuture;
      workersLaunched := 0;
      completions := [];
    }

    /**
     * sendAsync: enqueue the entry, then start a worker if there is none
     * or the last one is done.  topPriority exists only in Kotlin; the
     * two-argument Kotlin form passes false, and Java always uses the head.
     */
    method SendAsync(p: Packet, l: Option<AsyncListenerId>, topPriority: bool)
      requires Valid() && (topPriority ==> kotlin) && (kotlin ==> l.Some?)
      modifies this
      ensures Valid() && completions == old(completions)
      ensures queue == Enqueue(old(queue), AsyncPacket(p, l), kotlin, topPriority)
      ensures old(future == NoFuture || future.IsDone()) ==> future == Running && workersLaunched == old(workersLaunched) + 1
      ensures !old(future == NoFuture || future.IsDone()) ==> future == old(future) && workersLaunched == old(workersLaunched)
    {
      var e := AsyncPacket(p, l);
      if kotlin && !topPriority {
        queue := queue + [e];
      } else {
        queue := [e] + queue;
      }
      if future == NoFuture || future.IsDone() {
        future := Running;
        workersLaunched := workersLaunched + 1;
      }
    }

    /**
     * send.  In Java it only enqueues, with no completion listener, and
     * answers true at once; the Kotlin class inherits the decorator's
     * send, which is the wrapped client's.
     */
    method Send(p: Packet) returns (ok: bool)
      requires Valid()
      modifies this, client
      ensures Valid() && completions == old(completions)
      ensures client.socket == old(client.socket) && client.events == old(client.events)
      ensures !kotlin ==> (ok && queue == [AsyncPacket(p, None)] + old(queue) &&
        client.sentPackets == old(client.sentPackets))
      ensures !kotlin && old(future == NoFuture || future.IsDone()) ==>
        future == Running && workersLaunched == old(workersLaunched) + 1
      ensures !kotlin && !old(future == NoFuture || future.IsDone()) ==>
        future == old(future) && workersLaunched == old(workersLaunched)
      ensures kotlin ==> ((ok <==> old(client.CanSend())) && queue == old(queue) &&
        future == old(future) && workersLaunched == old(workersLaunched))
      ensures kotlin && ok ==> client.sentPackets == old(client.sentPackets) + [p]
      ensures kotlin && !ok ==> client.sentPackets == old(client.sentPackets)
    {
      if kotlin {
        ok := client.Send(p);
      } else {
        SendAsync(p, None, false);
        ok := true;
      }
    }

    /**
     * The worker: while the queue is not empty, take an entry (Java from
     * the tail, Kotlin from the head), send it through the wrapped client
     * and pass the result to its listener, if any.  Cancelling the future
     * does not stop it: it goes on while it finds entries, and a cancelled
     * future stays cancelled.
     */
    method RunWorker() returns (results: seq<bool>)
      requires Valid() && (future == Running || future == Cancelled)
      modifies this, client
      ensures Valid() && queue == []
      ensures future == if old(future) == Running then Done else Cancelled
      ensures var order := TakeOrder(old(queue), kotlin);
        results == Repeat(old(client.CanSend()), |order|) &&
        completions == old(completions) + CompletionsOf(order, results) &&
        client.sentPackets == old(client.sentPackets) + (if old(client.CanSend()) then PacketsOf(order) else [])
      ensures client.socket == old(client.socket) && client.events == old(client.events)
      ensures workersLaunched == old(workersLaunched)
    {
      var order := TakeOrder(queue, kotlin);
      results := ServeQueue(client, queue, kotlin);
      queue, completions := [], completions + CompletionsOf(order, results);
      if future == Running {
        future := Done;
      }
    }

    /**
     * connectAsync: with a connected client and a listener, complete false
     * at once and do not connect.  Otherwise the connector thread calls
     * connect and passes its result to the listener, if any; an
     * IllegalStateException from connect ends that thread with no
     * completion.
     */
    method ConnectAsync(host: string, port: int, l: Option<AsyncListenerId>, attempt: Result<Socket>)
      requires Valid()
      modifies this, client
      ensures Valid() && queue == old(queue) && future == old(future)
      ensures old(client.IsConnected()) && l.Some? ==>
        completions == old(completions) + [Completion(l.value, false)] &&
        client.socket == old(client.socket) && client.events == old(client.events)
      ensures !(old(client.IsConnected()) && l.Some?) ==>
        (var ok := !old(client.IsOpen()) && host != "" && port != -1 && attempt.Ok?;
         completions == old(completions) + (if l.Some? && !old(client.IsOpen()) && host != "" && port != -1 then [Completion(l.value, ok)] else []) &&
         (ok ==> (client.socket == Some(attempt.value.(keepAlive := false)) &&
           client.events == old(client.events) + Notify(client.clientListener, Connected))) &&
         (!ok ==> client.socket == old(client.socket) && client.events == old(client.events)))
    {
      if client.IsConnected() && l.Some? {
        completions := completions + [Completion(l.value, false)];
        return;
      }
      var r := client.Connect(host, port, attempt);
      if r.Ok? && l.Some? {
        completions := completions + [Completion(l.value, r.value)];
      }
    }

    /** close: close the wrapped client, then cancel the worker, if there is one. */
    method Close()
      requires Valid()
      modifies this, client
      ensures Valid() && queue == old(queue) && completions == old(completions)
      ensures !client.IsOpen()
      ensures old(client.IsOpen()) ==> client.events == old(client.events) + Notify(client.clientListener, Disconnected)
      ensures old(future) == NoFuture ==> future == NoFuture
      ensures old(future) == Done ==> future == Done
      ensures old(future) == Running || old(future) == Cancelled ==> future == Cancelled
      ensures future.IsDone() || future == NoFuture
    {
      client.Close();
      if future == Running {
        future := Cancelled;
      }
    }
  }
}
