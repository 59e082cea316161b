/**
 * PacketDistributer: routes each received packet to the handler registered
 * for its id, or else to the default handler.  Handlers are opaque objects
 * supplied by the application; the model names them by an identifier and
 * records which one a packet is delivered to.
 */
module Handlers {
  import opened Base

  /** An application's PacketHandler, by identity. */
  type HandlerId = nat

  /** The message of the IllegalArgumentException addHandler throws. */
  function DuplicateMessage(id: int16): string
  {
    "Handler for ID: " + DecimalString(id) + " already exists"
  }
}

/** The Java PacketDistributer: the registry may hold null handlers. */
module JavaEvents {
  import opened Base
  import opened Packets
  import opened Handlers

  /**
   * The handler a packet with this id goes to: a non-null registered
   * handler, else the default handler if there is one, else none.
   */
  function Dispatch(registry: map<int16, Option<HandlerId>>, default: Option<HandlerId>, id: int16): (h: Option<HandlerId>)
    ensures id in registry && registry[id].Some? ==> h == registry[id]
    ensures !(id in registry && registry[id].Some?) ==> h == default
  {
    if id in registry && registry[id].Some? then registry[id] else default
  }

  /** Once a handler is added for an id, packets with that id go to it and not to the default. */
  lemma DispatchAfterAdd(registry: map<int16, Option<HandlerId>>, default: Option<HandlerId>, id: int16, h: HandlerId, other: int16)
    ensures Dispatch(registry[id := Some(h)], default, id) == Some(h)
    ensures other != id ==> Dispatch(registry[id := Some(h)], default, other) == Dispatch(registry, default, other)
  {
  }

  /** After clearHandlers every packet goes to the default handler, if any. */
  lemma DispatchAfterClear(default: Option<HandlerId>, id: int16)
    ensures Dispatch(map[], default, id) == default
  {
  }

  class PacketDistributer {
    var defaultHandler: Option<HandlerId>
    var registry: map<int16, Option<HandlerId>>

    constructor()
      ensures defaultHandler == None && registry == map[]
    {
      defaultHandler := None;
      registry := map[];
    }

    /** setDefaultHandler: replaces the slot; None (null) clears it. */
    method SetDefaultHandler(h: Option<HandlerId>)
      modifies this
      ensures defaultHandler == h && registry == old(registry)
    {
      defaultHandler := h;
    }

    /** onReceive: the one handler the packet is delivered to, if any. */
    function OnReceive(p: Packet): (invoked: Option<HandlerId>)
      reads this
      ensures invoked == Dispatch(registry, defaultHandler, p.packetID)
    {
      var h := if p.packetID in registry then registry[p.packetID] else None;
      if h.None? then defaultHandler else h
    }

    /** addHandler: a registered id (even one mapped to null) is rejected. */
    method AddHandler(id: int16, h: Option<HandlerId>) returns (o: Outcome)
      modifies this
      ensures defaultHandler == old(defaultHandler)
      ensures id in old(registry) ==> o == Throw(IllegalArgument(DuplicateMessage(id))) && registry == old(registry)
      ensures id !in old(registry) ==> o == Pass && registry == old(registry)[id := h]
      ensures o.Pass? ==> GetHandler(id) == h
      ensures forall x :: x != id || o.Throw? ==> GetHandler(x) == old(GetHandler(x))
    {
      if id in registry {
        return Throw(IllegalArgument(DuplicateMessage(id)));
      }
      registry := registry[id := h];
      o := Pass;
    }

    /** getHandler: the registered handler, or None (null) when there is none. */
    function GetHandler(id: int16): (h: Option<HandlerId>)
      reads this
      ensures id in registry ==> h == registry[id]
      ensures id !in registry ==> h == None
    {
      if id in registry then registry[id] else None
    }

    /** clearHandlers: empties the registry and keeps the default handler. */
    method ClearHandlers()
      modifies this
      ensures registry == map[] && defaultHandler == old(defaultHandler)
      ensures forall x :: GetHandler(x) == None
    {
      registry := map[];
    }
  }
}

/**
 * The Kotlin PacketDistributer: handlers are non-null, and a distributer may
 * name a global handler, another distributer that sees every packet first.
 */
module KotlinEvents {
  import opened Base
  import opened Packets
  import opened Handlers

  /** The local part of onReceive: the registered handler, else the default, else nothing. */
  function LocalDispatch(registry: map<int16, HandlerId>, default: Option<HandlerId>, id: int16): (hs: seq<HandlerId>)
    ensures |hs| <= 1
    ensures id in registry ==> hs == [registry[id]]
    ensures id !in registry ==> hs == if default.Some? then [default.value] else []
  {
    if id in registry then [registry[id]]
    else match default
      case Some(d) => [d]
      case None => []
  }

  /** Once a handler is added for an id, the local part sends that id to it alone; other ids are unaffected. */
  lemma LocalDispatchAfterAdd(registry: map<int16, HandlerId>, default: Option<HandlerId>, id: int16, h: HandlerId, other: int16)
    ensures LocalDispatch(registry[id := h], default, id) == [h]
    ensures other != id ==> LocalDispatch(registry[id := h], default, other) == LocalDispatch(registry, default, other)
  {
  }

  /** After clearHandlers the local part sends every packet to the default handler, if any. */
  lemma LocalDispatchAfterClear(default: Option<HandlerId>, id: int16)
    ensures LocalDispatch(map[], default, id) == if default.Some? then [default.value] else []
  {
  }

  class PacketDistributer {
    var globalHandler: PacketDistributer?
    var defaultHandler: Option<HandlerId>
    var registry: map<int16, HandlerId>
    /** This distributer and the chain of global handlers behind it. */
    ghost var Repr: set<object>

    /** The chain of global handlers is acyclic (what makes onReceive terminate). */
    ghost predicate Valid()
      reads this, Repr
      decreases Repr
    {
      this in Repr &&
      (globalHandler == null ==> Repr == {this}) &&
      (globalHandler != null ==>
        globalHandler in Repr && globalHandler.Repr <= Repr && this !in globalHandler.Repr &&
        Repr == {this} + globalHandler.Repr && globalHandler.Valid())
    }

    constructor()
      ensures Valid() && fresh(Repr)
      ensures globalHandler == null && defaultHandler == None && registry == map[]
    {
      globalHandler := null;
      defaultHandler := None;
      registry := map[];
      Repr := {this};
    }

    /**
     * onReceive: the handlers the packet is delivered to, in order: those
     * of the global handler's onReceive first, then the local one.  Each
     * distributer along the chain delivers at most once.
     */
    function OnReceive(p: Packet): (invoked: seq<HandlerId>)
      requires Valid()
      reads Repr
      decreases Repr
      ensures |invoked| <= |Repr|
      ensures globalHandler == null ==> invoked == LocalDispatch(registry, defaultHandler, p.packetID)
      ensures globalHandler != null ==>
        |invoked| >= |globalHandler.OnReceive(p)| &&
        invoked[..|globalHandler.OnReceive(p)|] == globalHandler.OnReceive(p) &&
        invoked[|globalHandler.OnReceive(p)|..] == LocalDispatch(registry, defaultHandler, p.packetID)
    {
      var local := LocalDispatch(registry, defaultHandler, p.packetID);
      if globalHandler == null then local
      else
        var global := globalHandler.OnReceive(p);
        assert |Repr| == 1 + |globalHandler.Repr| by {
          assert Repr == {this} + globalHandler.Repr;
        }
        global + local
    }

    /**
     * setGlobalHandler.  Only a handler whose own chain does not lead back
     * here is modelled: a cycle would make onReceive recurse forever.
     */
    method SetGlobalHandler(g: PacketDistributer?)
      requires Valid()
      requires g != null ==> g.Valid() && this !in g.Repr
      modifies this
      ensures Valid()
      ensures globalHandler == g && defaultHandler == old(defaultHandler) && registry == old(registry)
      ensures Repr == {this} + (if g == null then {} else g.Repr)
    {
      globalHandler := g;
      Repr := {this} + (if g == null then {} else g.Repr);
    }

    /** setDefaultHandler: the parameter is non-null in Kotlin. */
    method SetDefaultHandler(h: HandlerId)
      requires Valid()
      modifies this
      ensures Valid()
      ensures defaultHandler == Some(h) && registry == old(registry)
      ensures globalHandler == old(globalHandler) && Repr == old(Repr)
    {
      defaultHandler := Some(h);
    }

    method AddHandler(id: int16, h: HandlerId) returns (o: Outcome)
      requires Valid()
      modifies this
      ensures Valid()
      ensures defaultHandler == old(defaultHandler) && globalHandler == old(globalHandler) && Repr == old(Repr)
      ensures id in old(registry) ==> o == Throw(IllegalArgument(DuplicateMessage(id))) && registry == old(registry)
      ensures id !in old(registry) ==> o == Pass && registry == old(registry)[id := h]
      ensures o.Pass? ==> GetHandler(id) == Some(h)
      ensures forall x :: x != id || o.Throw? ==> GetHandler(x) == old(GetHandler(x))
    {
      if id in registry {
        return Throw(IllegalArgument(DuplicateMessage(id)));
      }
      registry := registry[id := h];
      o := Pass;
    }

    /** getHandler: the registered handler, or None for an unregistered id. */
    function GetHandler(id: int16): (h: Option<HandlerId>)
      reads this
      ensures id in registry ==> h == Some(registry[id])
      ensures id !in registry ==> h == None
    {
      if id in registry then Some(registry[id]) else None
    }

    /** clearHandlers: only the registry, not the default or the global slot. */
    method ClearHandlers()
      requires Valid()
      modifies this
      ensures Valid()
      ensures registry == map[] && defaultHandler == old(defaultHandler)
      ensures globalHandler == old(globalHandler) && Repr == old(Repr)
      ensures forall x :: GetHandler(x) == None
    {
      registry := map[];
    }
  }

  /**
   * A distributer with a per-id handler, whose global handler has only a
   * default, delivers a packet with that id twice: globally, then locally.
   */
  lemma GlobalAndLocal(d: PacketDistributer, p: Packet)
    requires d.Valid() && d.globalHandler != null && d.globalHandler.globalHandler == null
    requires d.globalHandler.defaultHandler.Some? && p.packetID !in d.globalHandler.registry
    requires p.packetID in d.registry
    ensures d.OnReceive(p) == [d.globalHandler.defaultHandler.value, d.registry[p.packetID]]
  {
    var g := d.globalHandler;
    assert g.OnReceive(p) == [g.defaultHandler.value];
    var r := d.OnReceive(p);
    assert r[..1] == [g.defaultHandler.value] && r[1..] == [d.registry[p.packetID]];
    assert r == r[..1] + r[1..];
  }
}
