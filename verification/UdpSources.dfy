/**
 The client's UDP side as a whole: the proxy, the connections it opens for its sources, and the calls each
 makes on the other (src/udp_pipe.cpp with src/client.cpp). The proxy calls a connection's `write` and
 `close`; a connection calls the proxy under the address it was opened for, and no more exactly than that.
 */
module UdpSources {
  import opened Common
  import F = Framing
  import C = ClientModel
  import Q = ClientProofs
  import O = PreOpen
  import T = Tunnel
  import U = UdpProxies

  /** `source` remembers the address each connection was opened for (`client_id`). */
  datatype System = System(client: C.Client, proxy: U.Proxy, source: map<nat, U.Address>)

  function Created(): System { System(C.Created(), U.Listening(), map[]) }

  datatype Event =
    | Comes(addr: U.Address, data: Bytes, dialed: bool, ok: bool)   // what a dial, and a write, would answer
    | At(id: nat, e: C.LinkEvent)                                  // hyperdht calls a connection back
    | Destroys

  predicate Enabled(s: System, e: Event)
  {
    match e
    case Comes(_, _, _, _) => s.proxy.sock
    case At(id, l) =>
      && id in s.client.links && id in s.source && C.LinkEnabled(s.client.links[id], l)
      && !l.Writes? && !l.ProxyCloses?
    case Destroys => true
  }

  /** Whether `write` on a connection answers anything but an error. */
  predicate Takes(c: C.Client, id: nat, ok: bool)
  {
    id in c.links && C.Indebted(c.links[id]) && (c.links[id].box.isOpen ==> ok)
  }

  function Try(c: C.Client, e: C.Event): C.Client { if C.Enabled(c, e) then C.Step(c, e) else c }

  function Write(c: C.Client, id: nat, data: Bytes, ok: bool): C.Client
  {
    Try(c, C.At(id, C.Writes(F.Frame(data), ok)))
  }

  function Under(addr: U.Address, id: nat, call: C.ProxyCall): U.Event
  {
    match call
    case ProxyData(data) => U.Arrives(addr, id, data)
    case ProxyEnd => U.Ends(addr, id)
  }

  /** The callbacks of the proxy that an event runs: one at most. */
  function Calls(s: System, e: Event): seq<U.Event>
    requires Enabled(s, e)
  {
    match e
    case Comes(addr, data, dialed, ok) =>
      if addr in s.proxy.clients then [U.Datagram(addr, data, None, Takes(s.client, s.proxy.clients[addr].stream, ok))]
      else [U.Datagram(addr, data, if dialed then Some(s.client.nextId) else None, true)]
    case At(id, l) =>
      var calls := Q.CallsNow(s.client.links[id], s.client.destroyed, l);
      if calls == [] then [] else [Under(s.source[id], id, calls[0])]
    case Destroys => []
  }

  function ProxyAfter(s: System, e: Event): U.Proxy
    requires Enabled(s, e)
  {
    if e.Destroys? then U.Shut(s.proxy) else U.Run(s.proxy, Calls(s, e))
  }

  function ClientAfter(s: System, e: Event): C.Client
    requires Enabled(s, e)
  {
    match e
    case Comes(addr, data, dialed, ok) =>
      if addr in s.proxy.clients then Write(s.client, s.proxy.clients[addr].stream, data, ok)
      else
        var c := C.Step(s.client, C.Begins(true, dialed));
        if dialed then Write(c, s.client.nextId, data, ok) else c
    case At(id, l) => C.Step(s.client, C.At(id, l))
    case Destroys => C.Step(s.client, C.Destroys)
  }

  /** A stream the proxy has given up is asked to close. */
  function GiveUp(c: C.Client, was: seq<nat>, asked: seq<nat>): C.Client
  {
    if |asked| > |was| then Try(c, C.At(asked[|was|], C.ProxyCloses)) else c
  }

  function Step(s: System, e: Event): System
    requires Enabled(s, e)
  {
    var p := ProxyAfter(s, e);
    System(GiveUp(ClientAfter(s, e), s.proxy.asked, p.asked), p,
           if e.Comes? && e.addr !in s.proxy.clients then s.source[s.client.nextId := e.addr] else s.source)
  }

  function Run(s: System, es: seq<Event>): System
    decreases |es|
  {
    if es == [] then s else Run(if Enabled(s, es[0]) then Step(s, es[0]) else s, es[1..])
  }

  // ---- invariants --------------------------------------------------------------------------

  /** A connection opened for the address, that has not told the proxy of its end. */
  predicate Owns(s: System, addr: U.Address, id: nat)
  {
    id in s.client.links && id in s.source && s.source[id] == addr && C.ProxyEnd !in s.client.links[id].told
  }

  ghost predicate AllOwned(s: System)
  {
    forall addr | addr in s.proxy.clients :: Owns(s, addr, s.proxy.clients[addr].stream)
  }

  ghost predicate AllUdp(c: C.Client)
  {
    forall id | id in c.links :: c.links[id].udp
  }

  ghost predicate Inv(s: System)
  {
    && C.Inv(s.client) && s.source.Keys == s.client.links.Keys && AllUdp(s.client)
    && s.client.destroyed == !s.proxy.sock && (!s.proxy.sock ==> s.proxy.clients == map[])
    && (forall addr | addr in s.proxy.clients :: F.Incomplete(s.proxy.clients[addr].buffer))
    && AllOwned(s)
  }

  /** Nothing that the proxy or a settlement depends on has changed. */
  ghost predicate Alike(c: C.Client, d: C.Client)
  {
    && C.Inv(d) && d.nextId == c.nextId && d.destroyed == c.destroyed && d.links.Keys == c.links.Keys
    && forall id | id in c.links :: SameLink(c.links[id], d.links[id])
  }

  predicate SameLink(l: C.Link, k: C.Link)
  {
    k.udp == l.udp && k.told == l.told && C.Indebted(k) == C.Indebted(l)
  }

  lemma TryAlike(c: C.Client, id: nat, e: C.LinkEvent)
    requires C.Inv(c) && (e.Writes? || e.ProxyCloses?)
    ensures Alike(c, Try(c, C.At(id, e)))
  {
    if C.Enabled(c, C.At(id, e)) {
      Q.StepInv(c, C.At(id, e));
      LinkAlike(c.links[id], c.destroyed, e);
      assert forall k | k in c.links :: SameLink(c.links[k], c.links[k]);
    }
  }

  lemma LinkAlike(l: C.Link, destroyed: bool, e: C.LinkEvent)
    requires C.LinkEnabled(l, e) && (e.Writes? || e.ProxyCloses?)
    ensures SameLink(l, C.LinkStep(l, destroyed, e))
  {
  }

  lemma AlikeTwice(a: C.Client, b: C.Client, c: C.Client)
    requires Alike(a, b) && Alike(b, c)
    ensures Alike(a, c)
  {
    forall id | id in a.links ensures SameLink(a.links[id], c.links[id]) {
      assert SameLink(a.links[id], b.links[id]) && SameLink(b.links[id], c.links[id]);
    }
  }

  lemma GiveUpAlike(c: C.Client, was: seq<nat>, asked: seq<nat>)
    requires C.Inv(c)
    ensures Alike(c, GiveUp(c, was, asked))
  {
    if |asked| > |was| {
      TryAlike(c, asked[|was|], C.ProxyCloses);
    }
  }

  /** The proxy's entries after one callback: a new one is the stream offered to a datagram. */
  lemma EntriesAfter(p: U.Proxy, e: U.Event)
    requires p.sock && forall addr | addr in p.clients :: F.Incomplete(p.clients[addr].buffer)
    ensures var q := U.Step(p, e);
            && q.sock && (forall addr | addr in q.clients :: F.Incomplete(q.clients[addr].buffer))
            && (e.Ends? ==> q.clients == p.clients - {e.addr})
            && (forall addr | addr in q.clients ::
                  if addr in p.clients then q.clients[addr].stream == p.clients[addr].stream
                  else e.Datagram? && addr == e.addr && e.offered == Some(q.clients[addr].stream))
  {
    if e.Arrives? && e.addr in p.clients {
      F.Leftover(p.clients[e.addr].buffer + e.data);
    }
  }

  /** The stream a callback gives up, if any, is that of the entry it drops. */
  lemma AskedBy(p: U.Proxy, e: U.Event)
    requires e.Datagram? && e.addr !in p.clients ==> e.ok
    ensures var q := U.Step(p, e);
            || q.asked == p.asked
            || (e.addr in p.clients && e.addr !in q.clients && q.asked == p.asked + [p.clients[e.addr].stream])
    ensures e.Datagram? && e.addr in p.clients && !e.ok ==>
              U.Step(p, e).asked == p.asked + [p.clients[e.addr].stream]
    ensures e.Arrives? && p.sock && e.addr in p.clients && e.data != [] &&
            !F.Decode(p.clients[e.addr].buffer + e.data).ok ==>
              U.Step(p, e).asked == p.asked + [p.clients[e.addr].stream]
  {
  }

  lemma OneCall(p: U.Proxy, e: U.Event)
    ensures U.Run(p, [e]) == U.Step(p, e)
  {
    assert [e][1..] == [];
  }

  /** Entries keep their owners when nothing they depend on changes. */
  lemma AlikeInv(s: System, d: C.Client)
    requires Inv(s) && Alike(s.client, d)
    ensures Inv(s.(client := d))
  {
    forall id | id in d.links ensures d.links[id].udp {
      assert SameLink(s.client.links[id], d.links[id]);
    }
    forall addr | addr in s.proxy.clients ensures Owns(s.(client := d), addr, s.proxy.clients[addr].stream) {
      var id := s.proxy.clients[addr].stream;
      assert Owns(s, addr, id) && SameLink(s.client.links[id], d.links[id]);
    }
  }

  /** The proxy has lost entries, or changed their buffers, and gained none. */
  ghost predicate Shrinks(p: U.Proxy, q: U.Proxy)
  {
    && q.sock == p.sock
    && forall addr | addr in q.clients ::
         && F.Incomplete(q.clients[addr].buffer)
         && addr in p.clients && q.clients[addr].stream == p.clients[addr].stream
  }

  lemma ShrinksInv(s: System, q: U.Proxy)
    requires Inv(s) && Shrinks(s.proxy, q)
    ensures Inv(s.(proxy := q))
  {
    assert !q.sock ==> q.clients.Keys == {};
  }

  lemma AgainInv(s: System, addr: U.Address, data: Bytes, dialed: bool, ok: bool)
    requires Inv(s) && Enabled(s, Comes(addr, data, dialed, ok)) && addr in s.proxy.clients
    ensures var t := Step(s, Comes(addr, data, dialed, ok));
            Inv(t) && t.source == s.source && Alike(s.client, t.client)
  {
    var e := Comes(addr, data, dialed, ok);
    var p, c := ProxyAfter(s, e), ClientAfter(s, e);
    OneCall(s.proxy, Calls(s, e)[0]);
    EntriesAfter(s.proxy, Calls(s, e)[0]);
    TryAlike(s.client, s.proxy.clients[addr].stream, C.Writes(F.Frame(data), ok));
    GiveUpAlike(c, s.proxy.asked, p.asked);
    AlikeTwice(s.client, c, Step(s, e).client);
    AlikeInv(s, Step(s, e).client);
    ShrinksInv(s.(client := Step(s, e).client), p);
  }

  /** The system when a new connection has begun for a source, before anything is written. */
  function Opening(s: System, addr: U.Address, dialed: bool): System
  {
    var id := s.client.nextId;
    System(C.Step(s.client, C.Begins(true, dialed)),
           if dialed then s.proxy.(clients := s.proxy.clients[addr := U.Client(id, [])]) else s.proxy,
           s.source[id := addr])
  }

  lemma BegunTells(dialed: bool)
    ensures var l := C.Begun(true, dialed); l.udp && (dialed ==> l.told == [] && C.Indebted(l))
  {
  }

  lemma OpeningInv(s: System, addr: U.Address, dialed: bool)
    requires Inv(s) && s.proxy.sock
    ensures Inv(Opening(s, addr, dialed))
  {
    BegunTells(dialed);
    Q.StepInv(s.client, C.Begins(true, dialed));
    OpeningOwned(s, addr, dialed);
  }

  lemma OpeningOwned(s: System, addr: U.Address, dialed: bool)
    requires Inv(s) && s.proxy.sock
    ensures AllOwned(Opening(s, addr, dialed))
  {
    var t := Opening(s, addr, dialed);
    BegunTells(dialed);
    forall a | a in t.proxy.clients ensures Owns(t, a, t.proxy.clients[a].stream) {
      if a in s.proxy.clients && !(dialed && a == addr) {
        OldOwner(s, t, a, s.proxy.clients[a].stream);
      }
    }
  }

  lemma OldOwner(s: System, t: System, a: U.Address, id: nat)
    requires Owns(s, a, id) && id in t.client.links && id in t.source
    requires t.client.links[id] == s.client.links[id] && t.source[id] == s.source[id]
    ensures Owns(t, a, id)
  {
  }

  /** A datagram of an address without an entry: its connection is new, and no older entry's. */
  lemma OpensInv(s: System, addr: U.Address, data: Bytes, dialed: bool, ok: bool)
    requires Inv(s) && Enabled(s, Comes(addr, data, dialed, ok)) && addr !in s.proxy.clients
    ensures var t, o := Step(s, Comes(addr, data, dialed, ok)), Opening(s, addr, dialed);
            && Inv(t) && t.source == o.source && Alike(o.client, t.client)
            && t.proxy.clients == o.proxy.clients
  {
    var e := Comes(addr, data, dialed, ok);
    var t, o := Step(s, e), Opening(s, addr, dialed);
    OpeningInv(s, addr, dialed);
    OneCall(s.proxy, Calls(s, e)[0]);
    if dialed {
      TryAlike(o.client, s.client.nextId, C.Writes(F.Frame(data), ok));
    }
    AlikeInv(o, t.client);
    ShrinksInv(o.(client := t.client), t.proxy);
  }

  /** Every entry but those of `addr` keeps its owner when a connection of `addr` moves; and those of `addr`
      do if it does not tell of its end. */
  lemma MovedInv(s: System, id: nat, l: C.LinkEvent, q: U.Proxy)
    requires Inv(s) && Enabled(s, At(id, l)) && Shrinks(s.proxy, q)
    requires C.ProxyEnd in Q.CallsNow(s.client.links[id], s.client.destroyed, l) ==> s.source[id] !in q.clients
    ensures Inv(System(C.Step(s.client, C.At(id, l)), q, s.source))
  {
    var l' := C.LinkStep(s.client.links[id], s.client.destroyed, l);
    Q.StepInv(s.client, C.At(id, l));
    Q.ToldLink(s.client.links[id], s.client.destroyed, l);
    Q.UdpStays(s.client.links[id], s.client.destroyed, l);
    ShrinksInv(s, q);
    MovedOwned(s, id, l', q);
  }

  lemma MovedOwned(s: System, id: nat, l: C.Link, q: U.Proxy)
    requires AllOwned(s) && id in s.client.links && id in s.source && Shrinks(s.proxy, q)
    requires C.ProxyEnd in l.told && C.ProxyEnd !in s.client.links[id].told ==> s.source[id] !in q.clients
    ensures AllOwned(System(s.client.(links := s.client.links[id := l]), q, s.source))
  {
    var t := System(s.client.(links := s.client.links[id := l]), q, s.source);
    forall a | a in q.clients ensures Owns(t, a, q.clients[a].stream) {
      var k := q.clients[a].stream;
      assert Owns(s, a, k);
      if k != id {
        OldOwner(s, t, a, k);
      }
    }
  }

  lemma CallbackShrinks(s: System, id: nat, l: C.LinkEvent)
    requires Inv(s) && Enabled(s, At(id, l))
    ensures var q := ProxyAfter(s, At(id, l));
            && Shrinks(s.proxy, q)
            && (C.ProxyEnd in Q.CallsNow(s.client.links[id], s.client.destroyed, l) ==> s.source[id] !in q.clients)
  {
    var calls := Calls(s, At(id, l));
    if calls != [] {
      OneCall(s.proxy, calls[0]);
      if s.proxy.sock {
        EntriesAfter(s.proxy, calls[0]);
      }
    }
  }

  /** A callback of hyperdht: after the end of its stream an entry is gone. */
  lemma CallbackInv(s: System, id: nat, l: C.LinkEvent)
    requires Inv(s) && Enabled(s, At(id, l))
    ensures var t := Step(s, At(id, l));
            Inv(t) && t.source == s.source && Alike(C.Step(s.client, C.At(id, l)), t.client)
  {
    var e := At(id, l);
    var q, c := ProxyAfter(s, e), C.Step(s.client, C.At(id, l));
    CallbackShrinks(s, id, l);
    MovedInv(s, id, l, q);
    GiveUpAlike(c, s.proxy.asked, q.asked);
    AlikeInv(System(c, q, s.source), Step(s, e).client);
  }

  lemma DestroysInv(s: System)
    requires Inv(s)
    ensures Inv(Step(s, Destroys))
  {
    Q.StepInv(s.client, C.Destroys);
    forall id | id in s.client.links ensures C.ShutDown(s.client.links[id]).udp {
      assert s.client.links[id].udp;
    }
  }

  lemma StepInv(s: System, e: Event)
    requires Inv(s) && Enabled(s, e)
    ensures Inv(Step(s, e))
  {
    match e
    case Comes(addr, data, dialed, ok) =>
      if addr in s.proxy.clients {
        AgainInv(s, addr, data, dialed, ok);
      } else {
        OpensInv(s, addr, data, dialed, ok);
      }
    case At(id, l) => CallbackInv(s, id, l);
    case Destroys => DestroysInv(s);
  }

  lemma {:induction false} RunInv(s: System, es: seq<Event>)
    requires Inv(s)
    ensures Inv(Run(s, es))
    decreases |es|
  {
    if es == [] {
    } else {
      if Enabled(s, es[0]) {
        StepInv(s, es[0]);
      }
      RunInv(if Enabled(s, es[0]) then Step(s, es[0]) else s, es[1..]);
    }
  }

  lemma Reachable(es: seq<Event>)
    ensures Inv(Run(Created(), es))
  {
    RunInv(Created(), es);
  }

  // ---- no entry outlives its stream --------------------------------------------------------

  /** Over every run: an entry's stream was opened for its address, is no other address's, and has not
      settled, so a write for the entry fails only when its own open stream fails it. */
  lemma EntriesLive(es: seq<Event>, addr: U.Address)
    requires addr in Run(Created(), es).proxy.clients
    ensures var s := Run(Created(), es);
            var id := s.proxy.clients[addr].stream;
            && id in s.client.links && id in s.source && s.source[id] == addr && C.Indebted(s.client.links[id])
            && (forall other | other in s.proxy.clients && s.proxy.clients[other].stream == id :: other == addr)
            && (forall ok :: Takes(s.client, id, ok) <==> (s.client.links[id].box.isOpen ==> ok))
  {
    var s := Run(Created(), es);
    Reachable(es);
    var id := s.proxy.clients[addr].stream;
    assert Owns(s, addr, id) && C.LinkInv(s.client.links[id], s.client.destroyed);
    forall other | other in s.proxy.clients && s.proxy.clients[other].stream == id ensures other == addr {
      assert Owns(s, other, id);
    }
  }

  // ---- whose calls reach an entry ----------------------------------------------------------

  /** Every other connection ever opened for the address has settled. */
  predicate Alone(s: System, addr: U.Address, id: nat)
  {
    forall k | k in s.client.links && k in s.source && s.source[k] == addr && k != id ::
      !C.Indebted(s.client.links[k])
  }

  /** Neither a datagram of the address, nor a callback of this connection, nor the end of it all. */
  predicate Foreign(e: Event, addr: U.Address, id: nat)
  {
    match e
    case Comes(a, _, _, _) => a != addr
    case At(k, _) => k != id
    case Destroys => false
  }

  predicate AllForeign(es: seq<Event>, addr: U.Address, id: nat)
  {
    forall e | e in es :: Foreign(e, addr, id)
  }

  /** A settled connection is not called back, so calls no one. */
  lemma SettledIsQuiet(l: C.Link, destroyed: bool, e: C.LinkEvent)
    requires C.LinkInv(l, destroyed) && l.udp && C.LinkEnabled(l, e) && !e.Writes? && !e.ProxyCloses?
    ensures C.Indebted(l)
  {
  }

  lemma AlikeAlone(s: System, t: System, addr: U.Address, id: nat)
    requires Alike(s.client, t.client) && t.source == s.source
    ensures Alone(s, addr, id) <==> Alone(t, addr, id)
  {
    forall k | k in s.client.links ensures C.Indebted(t.client.links[k]) == C.Indebted(s.client.links[k]) {
      assert SameLink(s.client.links[k], t.client.links[k]);
    }
  }

  lemma CallbackAlone(s: System, k: nat, l: C.LinkEvent, addr: U.Address, id: nat)
    requires Inv(s) && Enabled(s, At(k, l)) && Alone(s, addr, id)
    ensures s.source[k] == addr ==> k == id
    ensures Alone(Step(s, At(k, l)), addr, id)
  {
    var t, c := Step(s, At(k, l)), C.Step(s.client, C.At(k, l));
    CallbackInv(s, k, l);
    SettledIsQuiet(s.client.links[k], s.client.destroyed, l);
    MovedAlone(s, k, C.LinkStep(s.client.links[k], s.client.destroyed, l), addr, id);
    AlikeAlone(System(c, s.proxy, s.source), t, addr, id);
  }

  lemma MovedAlone(s: System, k: nat, l: C.Link, addr: U.Address, id: nat)
    requires k in s.client.links && k in s.source && Alone(s, addr, id)
    requires s.source[k] == addr ==> k == id
    ensures Alone(s.(client := s.client.(links := s.client.links[k := l])), addr, id)
  {
  }

  lemma OpeningOther(s: System, a: U.Address, dialed: bool, addr: U.Address, id: nat)
    requires Inv(s) && s.proxy.sock && a != addr && Alone(s, addr, id)
    ensures Alone(Opening(s, a, dialed), addr, id)
  {
  }

  /** No connection begins for an address that has an entry. */
  lemma ComesAlone(s: System, e: Event, addr: U.Address, id: nat)
    requires Inv(s) && Enabled(s, e) && e.Comes? && Alone(s, addr, id)
    requires addr in s.proxy.clients || e.addr != addr
    ensures Alone(Step(s, e), addr, id)
  {
    if e.addr in s.proxy.clients {
      AgainInv(s, e.addr, e.data, e.dialed, e.ok);
      AlikeAlone(s, Step(s, e), addr, id);
    } else {
      OpensInv(s, e.addr, e.data, e.dialed, e.ok);
      OpeningOther(s, e.addr, e.dialed, addr, id);
      AlikeAlone(Opening(s, e.addr, e.dialed), Step(s, e), addr, id);
    }
  }

  lemma AloneStep(s: System, e: Event, addr: U.Address, id: nat)
    requires Inv(s) && Enabled(s, e) && !e.Destroys? && Alone(s, addr, id)
    requires addr in s.proxy.clients || (e.Comes? ==> e.addr != addr)
    ensures Alone(Step(s, e), addr, id)
    ensures forall u | u in Calls(s, e) :: u.addr == addr && u.Arrives? ==> u.from == id
  {
    match e
    case Comes(_, _, _, _) => ComesAlone(s, e, addr, id);
    case At(k, l) => CallbackAlone(s, k, l, addr, id);
  }

  lemma ForeignStep(s: System, e: Event, addr: U.Address, id: nat)
    requires Inv(s) && Enabled(s, e) && Foreign(e, addr, id) && Alone(s, addr, id)
    ensures U.ViewOf(Step(s, e).proxy, addr) == U.ViewOf(s.proxy, addr) && Alone(Step(s, e), addr, id)
  {
    var calls := Calls(s, e);
    AloneStep(s, e, addr, id);
    if e.At? {
      CallbackAlone(s, e.id, e.e, addr, id);
    }
    if calls != [] {
      OneCall(s.proxy, calls[0]);
      U.ViewStep(s.proxy, s.proxy, calls[0], addr);
    }
  }

  lemma {:induction false} ForeignRun(s: System, es: seq<Event>, addr: U.Address, id: nat)
    requires Inv(s) && AllForeign(es, addr, id) && Alone(s, addr, id)
    ensures U.ViewOf(Run(s, es).proxy, addr) == U.ViewOf(s.proxy, addr)
    decreases |es|
  {
    if es == [] {
    } else {
      var t := if Enabled(s, es[0]) then Step(s, es[0]) else s;
      assert es[0] in es && forall e | e in es[1..] :: e in es;
      if Enabled(s, es[0]) {
        StepInv(s, es[0]);
        ForeignStep(s, es[0], addr, id);
      }
      ForeignRun(t, es[1..], addr, id);
    }
  }

  /** A connection that has not settled has one more call to make on the proxy: that it has ended. */
  lemma EndComes(s: System, k: nat) returns (e: Event)
    requires Inv(s) && k in s.client.links && C.Indebted(s.client.links[k])
    ensures e.At? && e.id == k && Enabled(s, e) && s.source[k] !in Step(s, e).proxy.clients
  {
    var l := s.client.links[k];
    assert l.udp && C.LinkInv(l, s.client.destroyed);
    e := At(k, if l.dialing then C.ConnectDone(C.Refused) else C.Closes);
    OneCall(s.proxy, Calls(s, e)[0]);
  }

  /** An entry is out of reach of every callback but those of its own stream exactly when all the connections
      opened for its address before have settled: if one has not, its end will take the entry away. */
  lemma OwnCallsOnlyExactly(es: seq<Event>, addr: U.Address)
    requires addr in Run(Created(), es).proxy.clients
    ensures var s := Run(Created(), es);
            var id := s.proxy.clients[addr].stream;
            (forall more | AllForeign(more, addr, id) :: U.ViewOf(Run(s, more).proxy, addr) == U.ViewOf(s.proxy, addr))
            <==> Alone(s, addr, id)
  {
    var s := Run(Created(), es);
    var id := s.proxy.clients[addr].stream;
    Reachable(es);
    if Alone(s, addr, id) {
      forall more | AllForeign(more, addr, id)
        ensures U.ViewOf(Run(s, more).proxy, addr) == U.ViewOf(s.proxy, addr)
      {
        ForeignRun(s, more, addr, id);
      }
    } else {
      var k :| k in s.client.links && k in s.source && s.source[k] == addr && k != id && C.Indebted(s.client.links[k]);
      var e := EndComes(s, k);
      assert Run(Step(s, e), []) == Step(s, e) && [e][1..] == [];
      assert AllForeign([e], addr, id);
      assert U.ViewOf(Run(s, [e]).proxy, addr).client == None;
    }
  }

  /** No connection of the address is left unsettled. */
  predicate AllSettled(s: System, addr: U.Address)
  {
    forall k | k in s.client.links && k in s.source && s.source[k] == addr :: !C.Indebted(s.client.links[k])
  }

  /** Which can be read off before a stream is opened: the new entry is out of reach exactly when no connection
      of the address is left unsettled. */
  lemma OpensAloneExactly(es: seq<Event>, addr: U.Address, data: Bytes, ok: bool)
    requires Enabled(Run(Created(), es), Comes(addr, data, true, ok)) && addr !in Run(Created(), es).proxy.clients
    ensures var s := Run(Created(), es);
            var t := Step(s, Comes(addr, data, true, ok));
            && addr in t.proxy.clients && t.proxy.clients[addr].stream == s.client.nextId
            && (Alone(t, addr, s.client.nextId) <==> AllSettled(s, addr))
  {
    var s := Run(Created(), es);
    Reachable(es);
    OpensAlone(s, addr, data, ok);
  }

  lemma OpensAlone(s: System, addr: U.Address, data: Bytes, ok: bool)
    requires Inv(s) && s.proxy.sock && addr !in s.proxy.clients
    ensures var t := Step(s, Comes(addr, data, true, ok));
            && addr in t.proxy.clients && t.proxy.clients[addr].stream == s.client.nextId
            && (Alone(t, addr, s.client.nextId) <==> AllSettled(s, addr))
  {
    OpensInv(s, addr, data, true, ok);
    OpeningAlone(s, addr);
    AlikeAlone(Opening(s, addr, true), Step(s, Comes(addr, data, true, ok)), addr, s.client.nextId);
  }

  lemma OpeningAlone(s: System, addr: U.Address)
    requires Inv(s) && s.proxy.sock
    ensures Alone(Opening(s, addr, true), addr, s.client.nextId) <==> AllSettled(s, addr)
  {
    var id, o := s.client.nextId, Opening(s, addr, true);
    assert id !in s.client.links && o.client.links == s.client.links[id := C.Begun(true, true)];
    assert forall k | k in s.client.links :: o.client.links[k] == s.client.links[k] && o.source[k] == s.source[k];
  }

  // ---- an entry out of reach is served by its own stream -----------------------------------

  /** The callbacks of the proxy that a run makes. */
  function Trace(s: System, es: seq<Event>): seq<U.Event>
    decreases |es|
  {
    if es == [] then []
    else if !Enabled(s, es[0]) then Trace(s, es[1..])
    else Calls(s, es[0]) + Trace(Step(s, es[0]), es[1..])
  }

  predicate NoneDestroys(es: seq<Event>) { forall e | e in es :: !e.Destroys? }

  lemma {:induction false} TraceRun(s: System, es: seq<Event>)
    requires NoneDestroys(es)
    ensures Run(s, es).proxy == U.Run(s.proxy, Trace(s, es))
    decreases |es|
  {
    if es == [] {
    } else {
      assert es[0] in es && forall e | e in es[1..] :: e in es;
      if Enabled(s, es[0]) {
        TraceRun(Step(s, es[0]), es[1..]);
        U.RunAppend(s.proxy, Calls(s, es[0]), Trace(Step(s, es[0]), es[1..]));
      } else {
        TraceRun(s, es[1..]);
      }
    }
  }

  lemma StaysAfter(s: System, e: Event, addr: U.Address, more: seq<U.Event>)
    requires Enabled(s, e) && !e.Destroys? && U.Stays(s.proxy, Calls(s, e) + more, addr)
    ensures addr in s.proxy.clients && U.Stays(Step(s, e).proxy, more, addr)
  {
    var calls := Calls(s, e);
    if calls == [] {
      assert calls + more == more;
    } else {
      OneCall(s.proxy, calls[0]);
      assert (calls + more)[0] == calls[0] && (calls + more)[1..] == more;
    }
  }

  lemma {:induction false} OwnSpeaksOnly(s: System, es: seq<Event>, addr: U.Address, id: nat)
    requires Inv(s) && NoneDestroys(es) && Alone(s, addr, id) && U.Stays(s.proxy, Trace(s, es), addr)
    ensures forall u | u in Trace(s, es) :: u.addr == addr && u.Arrives? ==> u.from == id
    decreases |es|
  {
    if es == [] {
    } else {
      assert es[0] in es && forall e | e in es[1..] :: e in es;
      if Enabled(s, es[0]) {
        var t := Step(s, es[0]);
        StepInv(s, es[0]);
        StaysAfter(s, es[0], addr, Trace(t, es[1..]));
        AloneStep(s, es[0], addr, id);
        OwnSpeaksOnly(t, es[1..], addr, id);
      } else {
        OwnSpeaksOnly(s, es[1..], addr, id);
      }
    }
  }

  /** For as long as such an entry stays, its source is sent exactly what the bytes of the entry's own stream
      decode to, and each datagram of the source goes to that stream as one frame. */
  lemma OwnStreamServes(before: seq<Event>, es: seq<Event>, addr: U.Address)
    requires var s := Run(Created(), before);
             && addr in s.proxy.clients && Alone(s, addr, s.proxy.clients[addr].stream)
             && NoneDestroys(es) && U.Stays(s.proxy, Trace(s, es), addr)
    ensures var s := Run(Created(), before);
            var c, calls := s.proxy.clients[addr], Trace(s, es);
            U.ViewOf(Run(s, es).proxy, addr)
            == U.Served(U.ViewOf(s.proxy, addr), c.stream,
                        F.Decode(c.buffer + U.BackFrom(calls, addr, c.stream)), U.Out(calls, addr))
  {
    var s := Run(Created(), before);
    var c, calls := s.proxy.clients[addr], Trace(s, es);
    Reachable(before);
    assert Owns(s, addr, c.stream);
    U.StaysExactly(s.proxy, calls, addr, c.stream, c.buffer);
    TraceRun(s, es);
    OwnSpeaksOnly(s, es, addr, c.stream);
    U.BackIsOwn(calls, addr, c.stream);
    U.EntryServes(s.proxy, calls, addr, c.stream, c.buffer);
  }

  /** Every stream the proxy gives up, for a failed write or a frame too large, is asked to close there and then
      if it exists; a connection still dialing has none to ask. */
  lemma GivenUpAsked(s: System, e: Event)
    requires Inv(s) && Enabled(s, e)
    ensures var t := Step(s, e);
            && s.proxy.asked <= t.proxy.asked && |t.proxy.asked| <= |s.proxy.asked| + 1
            && (t.proxy.asked != s.proxy.asked ==>
                  var id := t.proxy.asked[|s.proxy.asked|];
                  && id in t.client.links
                  && (C.StreamLives(t.client.links[id]) ==> t.client.links[id].asked))
  {
    var p := ProxyAfter(s, e);
    if Calls(s, e) != [] {
      OneCall(s.proxy, Calls(s, e)[0]);
      AskedBy(s.proxy, Calls(s, e)[0]);
    }
    if p.asked != s.proxy.asked {
      var id := p.asked[|s.proxy.asked|];
      assert Owns(s, Calls(s, e)[0].addr, id);
      AfterInv(s, e);
      AfterKeeps(s, e, id);
      AsksClose(ClientAfter(s, e), id);
    }
  }

  lemma AfterKeeps(s: System, e: Event, id: nat)
    requires Inv(s) && Enabled(s, e) && id in s.client.links
    ensures id in ClientAfter(s, e).links
  {
    MovesRun(s, e);
    Q.RunExtends(s.client, Moves(s, e));
  }

  lemma AsksClose(c: C.Client, id: nat)
    requires id in c.links && c.links[id].udp
    ensures var d := Try(c, C.At(id, C.ProxyCloses));
            id in d.links && (C.StreamLives(d.links[id]) ==> d.links[id].asked)
  {
  }

  /** The way into reach: a write that the open stream of an entry fails, and the source's next datagram. The
      stream is asked to close, and may still speak. */
  lemma FailedWriteExposes(es: seq<Event>, addr: U.Address, data: Bytes, next: Bytes, dialed: bool, ok: bool)
    requires var s := Run(Created(), es);
             && s.proxy.sock && addr in s.proxy.clients && s.proxy.clients[addr].stream in s.client.links
             && s.client.links[s.proxy.clients[addr].stream].stream == C.Open
    ensures var s := Run(Created(), es);
            var id, t := s.proxy.clients[addr].stream, Step(s, Comes(addr, data, dialed, false));
            && addr !in t.proxy.clients && t.proxy.asked == s.proxy.asked + [id] && t.proxy.sock
            && id in t.client.links && t.client.links[id].stream == C.Open && t.client.links[id].asked
            && var u := Step(t, Comes(addr, next, true, ok));
               && addr in u.proxy.clients && u.proxy.clients[addr].stream == s.client.nextId
               && !Alone(u, addr, s.client.nextId)
  {
    var s := Run(Created(), es);
    Reachable(es);
    FailedWrite(s, addr, data, dialed);
    var t := Step(s, Comes(addr, data, dialed, false));
    StepInv(s, Comes(addr, data, dialed, false));
    OpensAlone(t, addr, next, ok);
  }

  lemma FailedWrite(s: System, addr: U.Address, data: Bytes, dialed: bool)
    requires Inv(s) && addr in s.proxy.clients && s.proxy.clients[addr].stream in s.client.links
    requires s.client.links[s.proxy.clients[addr].stream].stream == C.Open
    ensures var id, t := s.proxy.clients[addr].stream, Step(s, Comes(addr, data, dialed, false));
            && addr !in t.proxy.clients && t.proxy.asked == s.proxy.asked + [id] && t.proxy.sock
            && id in t.client.links && t.client.links[id].stream == C.Open && t.client.links[id].asked
            && t.client.nextId == s.client.nextId && !AllSettled(t, addr)
  {
    var id, e := s.proxy.clients[addr].stream, Comes(addr, data, dialed, false);
    var t := Step(s, e);
    assert Owns(s, addr, id) && C.LinkInv(s.client.links[id], s.client.destroyed);
    OneCall(s.proxy, Calls(s, e)[0]);
    AskedBy(s.proxy, Calls(s, e)[0]);
    AgainInv(s, addr, data, dialed, false);
    GivenUpAsked(s, e);
    assert SameLink(s.client.links[id], t.client.links[id]);
    StreamStays(s.client, id, data, ProxyAfter(s, e).asked, s.proxy.asked);
  }

  lemma StreamStays(c: C.Client, id: nat, data: Bytes, asked: seq<nat>, was: seq<nat>)
    requires id in c.links
    ensures var d := GiveUp(Write(c, id, data, false), was, asked);
            id in d.links && d.links[id].stream == c.links[id].stream
  {
  }

  /** Any source without an entry may come to have one with an open stream. */
  lemma OpenEntryReached(es: seq<Event>, addr: U.Address, data: Bytes)
    requires Run(Created(), es).proxy.sock && addr !in Run(Created(), es).proxy.clients
    ensures var s := Run(Created(), es);
            var id := s.client.nextId;
            var t := Run(s, [Comes(addr, data, true, true), At(id, C.ConnectDone(C.Streaming)), At(id, C.Opens(true))]);
            && addr in t.proxy.clients && t.proxy.clients[addr] == U.Client(id, [])
            && id in t.client.links && t.client.links[id].stream == C.Open
  {
    var s := Run(Created(), es);
    var id, e := s.client.nextId, Comes(addr, data, true, true);
    var rest := [At(id, C.ConnectDone(C.Streaming)), At(id, C.Opens(true))];
    Reachable(es);
    OpensInv(s, addr, data, true, true);
    NewDials(s, addr, data);
    DialedOpens(Step(s, e), id);
    assert [e, rest[0], rest[1]][1..] == rest;
  }

  lemma DialedOpens(s: System, id: nat)
    requires id in s.client.links && id in s.source && s.client.links[id].dialing && s.client.links[id].udp
    requires !s.client.destroyed
    ensures var t := Run(s, [At(id, C.ConnectDone(C.Streaming)), At(id, C.Opens(true))]);
            t.proxy == s.proxy && id in t.client.links && t.client.links[id].stream == C.Open
  {
    var e1, e2 := At(id, C.ConnectDone(C.Streaming)), At(id, C.Opens(true));
    var t := Step(s, e1);
    assert Calls(s, e1) == [] && t.proxy == s.proxy && Calls(t, e2) == [];
    assert [e1, e2][1..] == [e2] && [e2][1..] == [];
    assert Run(t, [e2]) == Step(t, e2);
  }

  lemma NewDials(s: System, addr: U.Address, data: Bytes)
    requires Inv(s) && s.proxy.sock && addr !in s.proxy.clients
    ensures var id, t := s.client.nextId, Step(s, Comes(addr, data, true, true));
            && id in t.client.links && id in t.source && t.client.links[id].dialing && t.client.links[id].udp
            && !t.client.destroyed
  {
    OneCall(s.proxy, Calls(s, Comes(addr, data, true, true))[0]);
  }

  // ---- from a source to the far end --------------------------------------------------------

  function WriteOf(id: nat, e: Event): C.Event
    requires e.Comes?
  {
    C.At(id, C.Writes(F.Frame(e.data), e.ok))
  }

  /** What an event makes of the client's own events. */
  function Moves(s: System, e: Event): seq<C.Event>
  {
    match e
    case Comes(addr, data, dialed, ok) =>
      if addr in s.proxy.clients then [WriteOf(s.proxy.clients[addr].stream, e)]
      else [C.Begins(true, dialed)] + if dialed then [WriteOf(s.client.nextId, e)] else []
    case At(id, l) => [C.At(id, l)]
    case Destroys => [C.Destroys]
  }

  function GivesUp(was: seq<nat>, asked: seq<nat>): seq<C.Event>
  {
    if |asked| > |was| then [C.At(asked[|was|], C.ProxyCloses)] else []
  }

  function AllMoves(s: System, e: Event): seq<C.Event>
    requires Enabled(s, e)
  {
    Moves(s, e) + GivesUp(s.proxy.asked, ProxyAfter(s, e).asked)
  }

  lemma OneMove(c: C.Client, e: C.Event)
    ensures C.Run(c, [e]) == Try(c, e)
  {
    assert [e][1..] == [];
  }

  lemma MovesRun(s: System, e: Event)
    requires Enabled(s, e)
    ensures C.Run(s.client, Moves(s, e)) == ClientAfter(s, e)
  {
    match e
    case Comes(addr, data, dialed, ok) =>
      if addr in s.proxy.clients {
        OneMove(s.client, WriteOf(s.proxy.clients[addr].stream, e));
      } else {
        var c := C.Step(s.client, C.Begins(true, dialed));
        OneMove(s.client, C.Begins(true, dialed));
        if dialed {
          Q.RunAppend(s.client, [C.Begins(true, dialed)], [WriteOf(s.client.nextId, e)]);
          OneMove(c, WriteOf(s.client.nextId, e));
        } else {
          assert Moves(s, e) == [C.Begins(true, dialed)];
        }
      }
    case At(id, l) => OneMove(s.client, C.At(id, l));
    case Destroys => OneMove(s.client, C.Destroys);
  }

  lemma AllMovesRun(s: System, e: Event)
    requires Enabled(s, e)
    ensures C.Run(s.client, AllMoves(s, e)) == Step(s, e).client
  {
    var asked := ProxyAfter(s, e).asked;
    MovesRun(s, e);
    Q.RunAppend(s.client, Moves(s, e), GivesUp(s.proxy.asked, asked));
    if |asked| > |s.proxy.asked| {
      OneMove(ClientAfter(s, e), C.At(asked[|s.proxy.asked|], C.ProxyCloses));
    }
  }

  /** A run of the system is one of the client. */
  function ClientTrace(s: System, es: seq<Event>): seq<C.Event>
    decreases |es|
  {
    if es == [] then []
    else if !Enabled(s, es[0]) then ClientTrace(s, es[1..])
    else AllMoves(s, es[0]) + ClientTrace(Step(s, es[0]), es[1..])
  }

  lemma {:induction false} ClientTraceRun(s: System, es: seq<Event>)
    ensures Run(s, es).client == C.Run(s.client, ClientTrace(s, es))
    decreases |es|
  {
    if es == [] {
    } else if Enabled(s, es[0]) {
      var t := Step(s, es[0]);
      AllMovesRun(s, es[0]);
      ClientTraceRun(t, es[1..]);
      Q.RunAppend(s.client, AllMoves(s, es[0]), ClientTrace(t, es[1..]));
    } else {
      ClientTraceRun(s, es[1..]);
    }
  }

  /** The datagram, if any, that an event gives a connection. */
  function GivenNow(s: System, e: Event, id: nat): seq<Bytes>
  {
    if e.Comes? && (if e.addr in s.proxy.clients then s.proxy.clients[e.addr].stream == id
                    else e.dialed && s.client.nextId == id)
    then [e.data] else []
  }

  function Given(s: System, es: seq<Event>, id: nat): seq<Bytes>
    decreases |es|
  {
    if es == [] then []
    else if !Enabled(s, es[0]) then Given(s, es[1..], id)
    else GivenNow(s, es[0], id) + Given(Step(s, es[0]), es[1..], id)
  }

  /** The datagrams an address sends over a run. */
  function Sent(s: System, es: seq<Event>, addr: U.Address): seq<Bytes>
    decreases |es|
  {
    if es == [] then []
    else if !Enabled(s, es[0]) then Sent(s, es[1..], addr)
    else (if es[0].Comes? && es[0].addr == addr then [es[0].data] else []) + Sent(Step(s, es[0]), es[1..], addr)
  }

  lemma OneWrite(c: C.Client, k: nat, data: Bytes, ok: bool, id: nat)
    requires C.Enabled(c, C.At(k, C.Writes(F.Frame(data), ok)))
    ensures O.Writes(Q.BufferOps(c, [C.At(k, C.Writes(F.Frame(data), ok))], id))
            == if k == id then [F.Frame(data)] else []
  {
    var e := C.At(k, C.Writes(F.Frame(data), ok));
    assert [e][1..] == [];
    if k == id {
      var ops := Q.LinkOps(c.links[id], e.e);
      assert ops + [] == ops && ops[1..] == [];
    }
  }

  /** Events of a client that write nothing. */
  lemma NoWrite(c: C.Client, e: C.Event, id: nat)
    requires C.Inv(c) && (forall k | k in c.links :: c.links[k].udp) && (e.At? ==> !e.e.Writes?)
    ensures O.Writes(Q.BufferOps(c, [e], id)) == []
  {
    assert [e][1..] == [];
    if C.Enabled(c, e) && e.At? && e.id == id {
      var ops := Q.LinkOps(c.links[id], e.e);
      assert ops + [] == ops;
      if e.e.Opens? {
        assert ops[1..] == [];
      }
    }
  }

  lemma MovesWrite(s: System, e: Event, id: nat)
    requires Inv(s) && Enabled(s, e)
    ensures O.Writes(Q.BufferOps(s.client, Moves(s, e), id)) == T.Framed(GivenNow(s, e, id))
  {
    match e
    case Comes(addr, data, dialed, ok) =>
      if addr in s.proxy.clients {
        assert Owns(s, addr, s.proxy.clients[addr].stream);
        OneWrite(s.client, s.proxy.clients[addr].stream, data, ok, id);
      } else {
        var begins := C.Begins(true, dialed);
        NoWrite(s.client, begins, id);
        if dialed {
          var c := C.Step(s.client, begins);
          OneMove(s.client, begins);
          BegunTells(dialed);
          OneWrite(c, s.client.nextId, data, ok, id);
          Q.BufferOpsAppend(s.client, [begins], [WriteOf(s.client.nextId, e)], id);
          O.WritesAppend(Q.BufferOps(s.client, [begins], id), Q.BufferOps(c, [WriteOf(s.client.nextId, e)], id));
        } else {
          assert Moves(s, e) == [begins];
        }
      }
    case At(k, l) => NoWrite(s.client, C.At(k, l), id);
    case Destroys => NoWrite(s.client, C.Destroys, id);
  }

  lemma AllMovesWrite(s: System, e: Event, id: nat)
    requires Inv(s) && Enabled(s, e)
    ensures O.Writes(Q.BufferOps(s.client, AllMoves(s, e), id)) == T.Framed(GivenNow(s, e, id))
  {
    var c, gives := ClientAfter(s, e), GivesUp(s.proxy.asked, ProxyAfter(s, e).asked);
    MovesWrite(s, e, id);
    MovesRun(s, e);
    Q.BufferOpsAppend(s.client, Moves(s, e), gives, id);
    O.WritesAppend(Q.BufferOps(s.client, Moves(s, e), id), Q.BufferOps(c, gives, id));
    if gives != [] {
      AfterInv(s, e);
      NoWrite(c, gives[0], id);
    }
  }

  /** Before any stream is given up, too, all the connections are sources'. */
  lemma AfterInv(s: System, e: Event)
    requires Inv(s) && Enabled(s, e)
    ensures C.Inv(ClientAfter(s, e)) && forall k | k in ClientAfter(s, e).links :: ClientAfter(s, e).links[k].udp
  {
    MovesRun(s, e);
    Q.RunInv(s.client, Moves(s, e));
    StepInv(s, e);
    GiveUpAlike(ClientAfter(s, e), s.proxy.asked, ProxyAfter(s, e).asked);
    forall k | k in ClientAfter(s, e).links ensures ClientAfter(s, e).links[k].udp {
      assert SameLink(ClientAfter(s, e).links[k], Step(s, e).client.links[k]);
    }
  }

  lemma FramedJoins(a: seq<Bytes>, b: seq<Bytes>)
    ensures T.Framed(a + b) == T.Framed(a) + T.Framed(b)
  {
  }

  /** The writes on a connection are the frames of what it was given. */
  lemma {:induction false} TraceWrites(s: System, es: seq<Event>, id: nat)
    requires Inv(s)
    ensures O.Writes(Q.BufferOps(s.client, ClientTrace(s, es), id)) == T.Framed(Given(s, es, id))
    decreases |es|
  {
    if es == [] {
    } else if Enabled(s, es[0]) {
      var t, rest := Step(s, es[0]), ClientTrace(Step(s, es[0]), es[1..]);
      StepInv(s, es[0]);
      TraceWrites(t, es[1..], id);
      AllMovesRun(s, es[0]);
      AllMovesWrite(s, es[0], id);
      Q.BufferOpsAppend(s.client, AllMoves(s, es[0]), rest, id);
      O.WritesAppend(Q.BufferOps(s.client, AllMoves(s, es[0]), id), Q.BufferOps(t.client, rest, id));
      FramedJoins(GivenNow(s, es[0], id), Given(t, es[1..], id));
    } else {
      TraceWrites(s, es[1..], id);
    }
  }

  lemma SourceStep(s: System, e: Event, id: nat)
    requires Inv(s) && Enabled(s, e)
    ensures var t := Step(s, e).source;
            && (id in s.source ==> id in t && t[id] == s.source[id])
            && (GivenNow(s, e, id) != [] ==> id in t && t[id] == e.addr)
  {
    if e.Comes? && e.addr in s.proxy.clients {
      assert Owns(s, e.addr, s.proxy.clients[e.addr].stream);
    }
  }

  lemma {:induction false} SourceStays(s: System, es: seq<Event>, id: nat)
    requires Inv(s) && id in s.source
    ensures id in Run(s, es).source && Run(s, es).source[id] == s.source[id]
    decreases |es|
  {
    if es == [] {
    } else if Enabled(s, es[0]) {
      StepInv(s, es[0]);
      SourceStep(s, es[0], id);
      SourceStays(Step(s, es[0]), es[1..], id);
    } else {
      SourceStays(s, es[1..], id);
    }
  }

  /** A connection is given none but its own source's datagrams. */
  lemma {:induction false} GivenIsSent(s: System, es: seq<Event>, id: nat)
    requires Inv(s) && id in Run(s, es).source
    ensures O.Subsequence(Given(s, es, id), Sent(s, es, Run(s, es).source[id]))
    decreases |es|
  {
    if es == [] {
    } else if Enabled(s, es[0]) {
      var t := Step(s, es[0]);
      StepInv(s, es[0]);
      SourceStep(s, es[0], id);
      GivenIsSent(t, es[1..], id);
      if GivenNow(s, es[0], id) != [] {
        SourceStays(t, es[1..], id);
        assert Given(s, es, id)[1..] == Given(t, es[1..], id);
      } else {
        assert Given(s, es, id) == Given(t, es[1..], id);
      }
      SentGrows(s, es, Run(s, es).source[id]);
    } else {
      GivenIsSent(s, es[1..], id);
    }
  }

  lemma SentGrows(s: System, es: seq<Event>, addr: U.Address)
    requires es != [] && Enabled(s, es[0])
    ensures var rest := Sent(Step(s, es[0]), es[1..], addr);
            if es[0].Comes? && es[0].addr == addr
            then Sent(s, es, addr)[0] == es[0].data && Sent(s, es, addr)[1..] == rest
            else Sent(s, es, addr) == rest
  {
  }

  /** From a source to the far end, over every run of the client: each stream opened for an address has been
      given whole datagrams that the address sent, some left out and none changed, in order; and however its
      bytes arrive, the far end puts out a first part of those, all of them once every byte is there. */
  lemma SourceReachesFarEnd(es: seq<Event>, id: nat, chunks: seq<Bytes>) returns (kept: seq<Bytes>)
    requires var s := Run(Created(), es);
             && id in s.client.links && id in s.source
             && F.Legal(Sent(Created(), es, s.source[id])) && Concat(chunks) <= s.client.links[id].box.wire
    ensures var s, far := Run(Created(), es), F.PushAll([], chunks);
            var wire := s.client.links[id].box.wire;
            && wire == F.Wire(kept) && O.Subsequence(kept, Sent(Created(), es, s.source[id]))
            && far.ok && far.frames <= kept
            && (Concat(chunks) == wire ==> far.frames == kept && far.rest == [])
  {
    var sent, given := Sent(Created(), es, Run(Created(), es).source[id]), Given(Created(), es, id);
    GivenIsSent(Created(), es, id);
    T.SubsequenceLegal(given, sent);
    ClientTraceRun(Created(), es);
    TraceWrites(Created(), es, id);
    kept := Q.UdpLinkDelivers(ClientTrace(Created(), es), id, given, chunks);
    O.SubsequenceTwice(kept, given, sent);
  }
}
