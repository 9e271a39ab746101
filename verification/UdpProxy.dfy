/**
 The client's UDP proxy (`UdpProxy` in src/udp_pipe.cpp): one entry for each source address, holding the
 stream opened for it and the decoder of what comes back. Callbacks of a stream name it by the address
 alone; events here also say which stream they come from, which the code never learns.
 */
module UdpProxies {
  import opened Common
  import opened Framing

  type Address = string

  /** A stream opened for an address, and the decoder's buffer. */
  datatype Client = Client(stream: nat, buffer: Bytes)

  datatype Proxy = Proxy(
    sock: bool,
    clients: map<Address, Client>,
    sent: seq<(Address, Bytes)>,            // datagrams sent back
    written: seq<(Address, nat, Bytes)>,    // frames given to streams
    asked: seq<nat>)                        // streams asked to close

  datatype Event =
    | Datagram(addr: Address, data: Bytes, offered: Option<nat>, ok: bool)
    | Arrives(addr: Address, from: nat, data: Bytes)
    | Ends(addr: Address, from: nat)

  // ---- the callbacks -----------------------------------------------------------------------

  function Tagged(addr: Address, frames: seq<Bytes>): seq<(Address, Bytes)>
  {
    seq(|frames|, i requires 0 <= i < |frames| => (addr, frames[i]))
  }

  function Forward(p: Proxy, addr: Address, data: Bytes, ok: bool): Proxy
    requires addr in p.clients
  {
    var s := p.clients[addr].stream;
    if ok then p.(written := p.written + [(addr, s, Frame(data))])
    else p.(clients := p.clients - {addr}, asked := p.asked + [s])
  }

  /** `recv_cb`: `offered` is the stream to be had for a new address, if any. */
  function Receive(p: Proxy, addr: Address, data: Bytes, offered: Option<nat>, ok: bool): Proxy
  {
    if addr in p.clients then Forward(p, addr, data, ok)
    else if offered == None then p
    else Forward(p.(clients := p.clients[addr := Client(offered.value, [])]), addr, data, ok)
  }

  function StreamData(p: Proxy, addr: Address, data: Bytes): Proxy
  {
    if !p.sock || data == [] || addr !in p.clients then p
    else
      var c := p.clients[addr];
      var r := Decode(c.buffer + data);
      var q := p.(sent := p.sent + Tagged(addr, r.frames));
      if r.ok then q.(clients := p.clients[addr := c.(buffer := r.rest)])
      else q.(clients := p.clients - {addr}, asked := p.asked + [c.stream])
  }

  /** `close`: the streams are the caller's to close. */
  function Shut(p: Proxy): Proxy { p.(sock := false, clients := map[]) }

  function Step(p: Proxy, e: Event): Proxy
  {
    match e
    case Datagram(addr, data, offered, ok) => Receive(p, addr, data, offered, ok)
    case Arrives(addr, _, data) => StreamData(p, addr, data)
    case Ends(addr, _) => p.(clients := p.clients - {addr})
  }

  function Run(p: Proxy, es: seq<Event>): Proxy
    decreases |es|
  {
    if es == [] then p else Run(Step(p, es[0]), es[1..])
  }

  // ---- one address does not touch another --------------------------------------------------

  function SentTo(sent: seq<(Address, Bytes)>, addr: Address): seq<Bytes>
  {
    if sent == [] then []
    else (if sent[0].0 == addr then [sent[0].1] else []) + SentTo(sent[1..], addr)
  }

  function WrittenFor(written: seq<(Address, nat, Bytes)>, addr: Address): seq<(nat, Bytes)>
  {
    if written == [] then []
    else (if written[0].0 == addr then [(written[0].1, written[0].2)] else []) + WrittenFor(written[1..], addr)
  }

  /** All there is about one address. */
  datatype View = View(sock: bool, client: Option<Client>, sent: seq<Bytes>, written: seq<(nat, Bytes)>)

  function ViewOf(p: Proxy, addr: Address): View
  {
    View(p.sock, if addr in p.clients then Some(p.clients[addr]) else None,
         SentTo(p.sent, addr), WrittenFor(p.written, addr))
  }

  function About(es: seq<Event>, addr: Address): seq<Event>
  {
    if es == [] then []
    else (if es[0].addr == addr then [es[0]] else []) + About(es[1..], addr)
  }

  lemma {:induction false} SentToAppend(a: seq<(Address, Bytes)>, b: seq<(Address, Bytes)>, addr: Address)
    ensures SentTo(a + b, addr) == SentTo(a, addr) + SentTo(b, addr)
  {
    if a == [] {
      assert a + b == b;
    } else {
      assert (a + b)[0] == a[0] && (a + b)[1..] == a[1..] + b;
      SentToAppend(a[1..], b, addr);
      Regroup(if a[0].0 == addr then [a[0].1] else [], SentTo(a[1..], addr), SentTo(b, addr));
    }
  }

  lemma {:induction false} WrittenForSnoc(a: seq<(Address, nat, Bytes)>, w: (Address, nat, Bytes), addr: Address)
    ensures WrittenFor(a + [w], addr)
            == WrittenFor(a, addr) + if w.0 == addr then [(w.1, w.2)] else []
  {
    if a == [] {
      assert a + [w] == [w];
    } else {
      assert (a + [w])[0] == a[0] && (a + [w])[1..] == a[1..] + [w];
      WrittenForSnoc(a[1..], w, addr);
      Regroup(if a[0].0 == addr then [(a[0].1, a[0].2)] else [], WrittenFor(a[1..], addr),
              if w.0 == addr then [(w.1, w.2)] else []);
    }
  }

  lemma {:induction false} TaggedTo(addr: Address, frames: seq<Bytes>, other: Address)
    ensures SentTo(Tagged(addr, frames), other) == if addr == other then frames else []
    decreases |frames|
  {
    if frames == [] {
    } else {
      assert Tagged(addr, frames)[1..] == Tagged(addr, frames[1..]);
      TaggedTo(addr, frames[1..], other);
    }
  }

  /** What a step does to one address's view: nothing for another's event; for its own, only what that
      view and the event say. */
  lemma ViewStep(p: Proxy, q: Proxy, e: Event, addr: Address)
    requires ViewOf(p, addr) == ViewOf(q, addr)
    ensures e.addr != addr ==> ViewOf(Step(p, e), addr) == ViewOf(p, addr)
    ensures e.addr == addr ==> ViewOf(Step(p, e), addr) == ViewOf(Step(q, e), addr)
  {
    match e
    case Datagram(a, data, offered, _) =>
      DatagramView(p, e, addr);
      DatagramView(q, e, addr);
    case Arrives(a, _, data) =>
      ArrivesView(p, a, data, addr);
      ArrivesView(q, a, data, addr);
    case Ends(_, _) =>
  }

  lemma DatagramView(p: Proxy, e: Event, addr: Address)
    requires e.Datagram?
    ensures var v, w := ViewOf(p, addr), ViewOf(Step(p, e), addr);
            if e.addr != addr then w == v
            else
              var c := if v.client == None && e.offered != None then Some(Client(e.offered.value, [])) else v.client;
              if c == None then w == v
              else if e.ok then w == v.(client := c, written := v.written + [(c.value.stream, Frame(e.data))])
              else w == v.(client := None)
  {
    if e.addr in p.clients {
      WrittenForSnoc(p.written, (e.addr, p.clients[e.addr].stream, Frame(e.data)), addr);
    } else if e.offered.Some? {
      WrittenForSnoc(p.written, (e.addr, e.offered.value, Frame(e.data)), addr);
    }
  }

  lemma ArrivesView(p: Proxy, a: Address, data: Bytes, addr: Address)
    ensures var v, w := ViewOf(p, addr), ViewOf(StreamData(p, a, data), addr);
            if a != addr || !v.sock || data == [] || v.client == None then w == v
            else
              var r := Decode(v.client.value.buffer + data);
              w == v.(sent := v.sent + r.frames,
                      client := if r.ok then Some(v.client.value.(buffer := r.rest)) else None)
  {
    if p.sock && data != [] && a in p.clients {
      var frames := Decode(p.clients[a].buffer + data).frames;
      SentToAppend(p.sent, Tagged(a, frames), addr);
      TaggedTo(a, frames, addr);
    }
  }

  /** Whatever the other addresses do, an address's entry, the datagrams sent back to it and the frames
      written for it are those of a run that never heard of them. */
  lemma {:induction false} AddressesApart(p: Proxy, es: seq<Event>, addr: Address)
    ensures ViewOf(Run(p, es), addr) == ViewOf(Run(p, About(es, addr)), addr)
  {
    SameViewRun(p, p, es, addr);
  }

  lemma {:induction false} SameViewRun(p: Proxy, q: Proxy, es: seq<Event>, addr: Address)
    requires ViewOf(p, addr) == ViewOf(q, addr)
    ensures ViewOf(Run(p, es), addr) == ViewOf(Run(q, About(es, addr)), addr)
    decreases |es|
  {
    if es == [] {
    } else {
      var e, rest := es[0], About(es[1..], addr);
      ViewStep(p, q, e, addr);
      if e.addr == addr {
        assert About(es, addr)[1..] == rest;
        SameViewRun(Step(p, e), Step(q, e), es[1..], addr);
      } else {
        assert About(es, addr) == rest;
        SameViewRun(Step(p, e), q, es[1..], addr);
      }
    }
  }

  // ---- one entry ---------------------------------------------------------------------------

  function Listening(): Proxy { Proxy(true, map[], [], [], []) }

  function BackNow(e: Event, addr: Address): Bytes
  {
    if e.addr == addr && e.Arrives? then e.data else []
  }

  function OutNow(e: Event, addr: Address): seq<Bytes>
  {
    if e.addr == addr && e.Datagram? then [e.data] else []
  }

  /** All the bytes that come back under an address, whichever streams they come from. */
  function Back(es: seq<Event>, addr: Address): Bytes
  {
    if es == [] then [] else BackNow(es[0], addr) + Back(es[1..], addr)
  }

  /** All the datagrams an address sends. */
  function Out(es: seq<Event>, addr: Address): seq<Bytes>
  {
    if es == [] then [] else OutNow(es[0], addr) + Out(es[1..], addr)
  }

  function Frames(s: nat, ds: seq<Bytes>): seq<(nat, Bytes)>
  {
    seq(|ds|, i requires 0 <= i < |ds| => (s, Frame(ds[i])))
  }

  /** The end of a stream opened for the address, or a write that fails. */
  predicate Drops(e: Event, addr: Address)
  {
    e.addr == addr && (e.Ends? || (e.Datagram? && !e.ok))
  }

  predicate NoneDrops(es: seq<Event>, addr: Address)
  {
    forall e | e in es :: !Drops(e, addr)
  }

  /** Every decoder waits for the rest of a frame. */
  ghost predicate Waiting(p: Proxy)
  {
    p.sock && forall addr | addr in p.clients :: Incomplete(p.clients[addr].buffer)
  }

  lemma WaitingStep(p: Proxy, e: Event)
    requires Waiting(p)
    ensures Waiting(Step(p, e))
  {
    if e.Arrives? && e.addr in p.clients {
      Leftover(p.clients[e.addr].buffer + e.data);
    }
  }

  lemma {:induction false} WaitingRun(p: Proxy, es: seq<Event>)
    requires Waiting(p)
    ensures Waiting(Run(p, es))
    decreases |es|
  {
    if es == [] {
    } else {
      WaitingStep(p, es[0]);
      WaitingRun(Step(p, es[0]), es[1..]);
    }
  }

  /** An entry that has had these bytes decoded and these datagrams forwarded. */
  function Served(v: View, s: nat, r: Scan, ds: seq<Bytes>): View
  {
    v.(sent := v.sent + r.frames, written := v.written + Frames(s, ds), client := Some(Client(s, r.rest)))
  }

  lemma ServedNone(v: View, s: nat, b: Bytes)
    requires v.client == Some(Client(s, b)) && Incomplete(b)
    ensures Decode(b + []) == Scan([], b, true) && Served(v, s, Scan([], b, true), []) == v
  {
    assert b + [] == b && v.sent + [] == v.sent && v.written + Frames(s, []) == v.written;
  }

  lemma ServedTwice(v: View, s: nat, r: Scan, ds: seq<Bytes>, r': Scan, ds': seq<Bytes>)
    ensures Served(Served(v, s, r, ds), s, r', ds') == Served(v, s, Ahead(r.frames, r'), ds + ds')
  {
    Regroup(v.sent, r.frames, r'.frames);
    assert Frames(s, ds + ds') == Frames(s, ds) + Frames(s, ds');
    Regroup(v.written, Frames(s, ds), Frames(s, ds'));
  }

  /** One event that does not drop the entry, nor brings a header that is rejected. */
  lemma EntryStep(p: Proxy, e: Event, addr: Address, s: nat, b: Bytes)
    requires p.sock && ViewOf(p, addr).client == Some(Client(s, b)) && Incomplete(b) && !Drops(e, addr)
    requires Decode(b + BackNow(e, addr)).ok
    ensures ViewOf(Step(p, e), addr) == Served(ViewOf(p, addr), s, Decode(b + BackNow(e, addr)), OutNow(e, addr))
  {
    var v := ViewOf(p, addr);
    ServedNone(v, s, b);
    ViewStep(p, p, e, addr);
    if e.addr == addr {
      match e
      case Datagram(_, data, _, _) =>
        DatagramView(p, e, addr);
        assert Frames(s, [data]) == [(s, Frame(data))] && v.sent + [] == v.sent;
      case Arrives(_, _, data) =>
        ArrivesView(p, addr, data, addr);
        assert v.written + Frames(s, []) == v.written;
      case Ends(_, _) =>
    }
  }

  /** Replies and requests in any interleaving, other addresses doing anything: while nothing drops the entry,
      each of its source's datagrams goes to its stream as one frame, in order, and what is sent back is the
      decoding of all the bytes that came under the address, however they were cut. */
  lemma {:induction false} EntryServes(p: Proxy, es: seq<Event>, addr: Address, s: nat, b: Bytes)
    requires p.sock && ViewOf(p, addr).client == Some(Client(s, b)) && Incomplete(b)
    requires NoneDrops(es, addr) && Decode(b + Back(es, addr)).ok
    ensures ViewOf(Run(p, es), addr)
            == Served(ViewOf(p, addr), s, Decode(b + Back(es, addr)), Out(es, addr))
    decreases |es|
  {
    var v := ViewOf(p, addr);
    if es == [] {
      ServedNone(v, s, b);
    } else {
      var e, more := es[0], Back(es[1..], addr);
      assert e in es && forall x | x in es[1..] :: x in es;
      Regroup(b, BackNow(e, addr), more);
      ReadOn(b + BackNow(e, addr), more);
      var r := Decode(b + BackNow(e, addr));
      EntryStep(p, e, addr, s, b);
      EntryServes(Step(p, e), es[1..], addr, s, r.rest);
      ServedTwice(v, s, r, OutNow(e, addr), Decode(r.rest + more), Out(es[1..], addr));
    }
  }

  /** The entry is there from first to last. */
  predicate Stays(p: Proxy, es: seq<Event>, addr: Address)
    decreases |es|
  {
    addr in p.clients && (es == [] || Stays(Step(p, es[0]), es[1..], addr))
  }

  lemma DroppedStep(p: Proxy, e: Event, addr: Address, s: nat, b: Bytes)
    requires p.sock && ViewOf(p, addr).client == Some(Client(s, b)) && Incomplete(b)
    requires Drops(e, addr) || !Decode(b + BackNow(e, addr)).ok
    ensures addr !in Step(p, e).clients
  {
    ServedNone(ViewOf(p, addr), s, b);
  }

  lemma {:induction false} StaysExactly(p: Proxy, es: seq<Event>, addr: Address, s: nat, b: Bytes)
    requires p.sock && ViewOf(p, addr).client == Some(Client(s, b)) && Incomplete(b)
    ensures Stays(p, es, addr) <==> NoneDrops(es, addr) && Decode(b + Back(es, addr)).ok
    decreases |es|
  {
    if es == [] {
      ServedNone(ViewOf(p, addr), s, b);
    } else {
      var e, more := es[0], Back(es[1..], addr);
      var r := Decode(b + BackNow(e, addr));
      NoneDropsFrom(es, addr);
      Regroup(b, BackNow(e, addr), more);
      DecodeAppend(b + BackNow(e, addr), more);
      RestSettles(b + BackNow(e, addr));
      Leftover(b + BackNow(e, addr));
      if Drops(e, addr) {
        DroppedStep(p, e, addr, s, b);
      } else if !r.ok {
        DroppedStep(p, e, addr, s, b);
        StuckStays(r.rest, more);
      } else {
        EntryStep(p, e, addr, s, b);
        StaysExactly(Step(p, e), es[1..], addr, s, r.rest);
      }
    }
  }

  lemma NoneDropsFrom(es: seq<Event>, addr: Address)
    requires es != []
    ensures NoneDrops(es, addr) <==> !Drops(es[0], addr) && NoneDrops(es[1..], addr)
  {
    assert es == [es[0]] + es[1..];
  }

  lemma {:induction false} StaysThroughout(p: Proxy, es: seq<Event>, addr: Address)
    ensures Stays(p, es, addr) <==> forall k | 0 <= k <= |es| :: addr in Run(p, es[..k]).clients
    decreases |es|
  {
    assert es[..0] == [];
    if es == [] {
    } else {
      var q := Step(p, es[0]);
      StaysThroughout(q, es[1..], addr);
      forall k | 1 <= k <= |es| ensures Run(p, es[..k]) == Run(q, es[1..][..k - 1]) {
        assert es[..k][0] == es[0] && es[..k][1..] == es[1..][..k - 1];
      }
      if forall k | 0 <= k <= |es| :: addr in Run(p, es[..k]).clients {
        forall k | 0 <= k <= |es[1..]| ensures addr in Run(q, es[1..][..k]).clients {
          assert Run(p, es[..k + 1]) == Run(q, es[1..][..k]);
        }
      }
    }
  }

  /** An entry, however it was come by, lasts exactly as long as no write for it fails, no stream ever opened
      for its address ends, and the bytes that come under the address, whichever of those streams sends them,
      decode as one. */
  lemma EntryStaysExactly(before: seq<Event>, es: seq<Event>, addr: Address)
    requires addr in Run(Listening(), before).clients
    ensures var p := Run(Listening(), before);
            (forall k | 0 <= k <= |es| :: addr in Run(p, es[..k]).clients)
            <==> NoneDrops(es, addr) && Decode(p.clients[addr].buffer + Back(es, addr)).ok
  {
    var p := Run(Listening(), before);
    WaitingRun(Listening(), before);
    StaysThroughout(p, es, addr);
    StaysExactly(p, es, addr, p.clients[addr].stream, p.clients[addr].buffer);
  }

  /** From the datagram that opens it: under those conditions all that its source sends goes to its stream,
      the first datagram included, and all that comes back is decoded. */
  lemma NewEntryServes(before: seq<Event>, es: seq<Event>, addr: Address, s: nat, first: Bytes)
    requires addr !in Run(Listening(), before).clients
    requires NoneDrops(es, addr) && Decode(Back(es, addr)).ok
    ensures var p := Run(Listening(), before);
            var v := ViewOf(p, addr);
            ViewOf(Run(p, [Datagram(addr, first, Some(s), true)] + es), addr)
            == Served(v, s, Decode(Back(es, addr)), [first] + Out(es, addr))
  {
    var p, e := Run(Listening(), before), Datagram(addr, first, Some(s), true);
    var v, q := ViewOf(p, addr), Step(p, e);
    WaitingRun(Listening(), before);
    DatagramView(p, e, addr);
    assert Frames(s, [first]) == [(s, Frame(first))] && v.sent + [] == v.sent;
    assert ViewOf(q, addr) == Served(v, s, Scan([], [], true), [first]);
    assert ([e] + es)[1..] == es && [] + Back(es, addr) == Back(es, addr);
    EntryServes(q, es, addr, s, []);
    ServedTwice(v, s, Scan([], [], true), [first], Decode(Back(es, addr)), Out(es, addr));
    AheadNone(Decode(Back(es, addr)));
  }

  /** The bytes of one stream. */
  function BackFrom(es: seq<Event>, addr: Address, s: nat): Bytes
  {
    if es == [] then []
    else (if es[0].Arrives? && es[0].from == s then BackNow(es[0], addr) else []) + BackFrom(es[1..], addr, s)
  }

  lemma {:induction false} BackIsOwn(es: seq<Event>, addr: Address, s: nat)
    requires forall e | e in es :: e.addr == addr && e.Arrives? ==> e.from == s
    ensures Back(es, addr) == BackFrom(es, addr, s)
  {
    if es == [] {
    } else {
      assert es[0] in es && forall e | e in es[1..] :: e in es;
      BackIsOwn(es[1..], addr, s);
    }
  }

  /** So when no other stream speaks under the address, and the far end puts whole datagrams on the entry's
      own stream, the entry stays and the source gets back those datagrams and no others, in order, all of
      them once the stream's bytes are in. */
  lemma RepliesReturn(before: seq<Event>, es: seq<Event>, addr: Address, s: nat, first: Bytes, replies: seq<Bytes>)
    requires addr !in Run(Listening(), before).clients && NoneDrops(es, addr) && Legal(replies)
    requires forall e | e in es :: e.addr == addr && e.Arrives? ==> e.from == s
    requires BackFrom(es, addr, s) <= Wire(replies)
    ensures var p := Run(Listening(), before);
            var v, w := ViewOf(p, addr), ViewOf(Run(p, [Datagram(addr, first, Some(s), true)] + es), addr);
            && w.client.Some? && w.written == v.written + Frames(s, [first] + Out(es, addr))
            && v.sent <= w.sent && w.sent[|v.sent|..] <= replies
            && (BackFrom(es, addr, s) == Wire(replies) ==> w.sent == v.sent + replies)
  {
    BackIsOwn(es, addr, s);
    PrefixDecodes(replies, Back(es, addr));
    NewEntryServes(before, es, addr, s, first);
  }

  // ---- the streams an address had before ---------------------------------------------------

  lemma {:induction false} RunAppend(p: Proxy, a: seq<Event>, b: seq<Event>)
    ensures Run(p, a + b) == Run(Run(p, a), b)
    decreases |a|
  {
    if a == [] {
      assert a + b == b;
    } else {
      assert (a + b)[1..] == a[1..] + b;
      RunAppend(Step(p, a[0]), a[1..], b);
    }
  }

  /** Stream 1 serves an address until one of its writes fails; the next datagram is given stream 2. */
  function Replaced(addr: Address, data: Bytes): seq<Event>
  {
    [Datagram(addr, data, Some(1), true), Datagram(addr, data, None, false), Datagram(addr, data, Some(2), true)]
  }

  lemma ReplacedRun(addr: Address, data: Bytes)
    ensures var p := Run(Listening(), Replaced(addr, data));
            p.sock && p.clients == map[addr := Client(2, [])] && p.sent == [] && p.asked == [1]
  {
    var es := Replaced(addr, data);
    var p1 := Step(Listening(), es[0]);
    var p2 := Step(p1, es[1]);
    assert p1.clients == map[addr := Client(1, [])] && p2.clients == map[];
    assert es[1..][0] == es[1] && es[1..][1..] == [es[2]] && [es[2]][1..] == [];
    assert Run(p2, [es[2]]) == Step(p2, es[2]);
    assert Run(p1, es[1..]) == Step(p2, es[2]);
  }

  /** Then the end of stream 1 takes away the entry of stream 2, which goes on, unasked to close, and whose
      replies are dropped. */
  lemma StaleEndTakesNewer(addr: Address, data: Bytes, reply: Bytes)
    ensures var p := Run(Listening(), Replaced(addr, data) + [Ends(addr, 1), Arrives(addr, 2, Frame(reply))]);
            p.clients == map[] && p.sent == [] && 2 !in p.asked
  {
    var p3 := Run(Listening(), Replaced(addr, data));
    var ends, arrives := Ends(addr, 1), Arrives(addr, 2, Frame(reply));
    ReplacedRun(addr, data);
    RunAppend(Listening(), Replaced(addr, data), [ends, arrives]);
    assert [ends, arrives][1..] == [arrives] && [arrives][1..] == [];
    assert Step(p3, ends).clients == map[];
    assert Run(Step(p3, ends), [arrives]) == Step(Step(p3, ends), arrives) == Step(p3, ends);
  }

  /** And a byte that still comes from stream 1 is taken for one of stream 2's, whose next reply is then
      refused as oversized and costs it its entry. */
  lemma StaleBytesSpoil(addr: Address, data: Bytes, reply: Bytes)
    ensures var p := Run(Listening(), Replaced(addr, data) + [Arrives(addr, 1, [255]), Arrives(addr, 2, Frame(reply))]);
            p.clients == map[] && p.sent == [] && 2 in p.asked
  {
    var p3 := Run(Listening(), Replaced(addr, data));
    var stale: Bytes, late, arrives := [255], Arrives(addr, 1, [255]), Arrives(addr, 2, Frame(reply));
    ReplacedRun(addr, data);
    RunAppend(Listening(), Replaced(addr, data), [late, arrives]);
    assert [late, arrives][1..] == [arrives] && [arrives][1..] == [];
    assert [] + stale == stale && Decode(stale) == Scan([], stale, true);
    var p4 := Step(p3, late);
    assert Tagged(addr, []) == [] && p4.clients == map[addr := Client(2, stale)] && p4.sent == [];
    Oversized(stale, reply);
    assert Run(p4, [arrives]) == Step(p4, arrives);
  }

  lemma Oversized(stale: Bytes, reply: Bytes)
    requires stale == [255]
    ensures Decode(stale + Frame(reply)) == Scan([], stale + Frame(reply), false)
  {
    var b := stale + Frame(reply);
    assert |b| >= 4 && b[0] == 255;
    assert Length(b) >= 255 * 16777216;
  }

  // ---- the code ----------------------------------------------------------------------------

  class UdpProxy {
    var sock: bool
    var clients: map<Address, Client>
    // traces left outside
    var sent: seq<(Address, Bytes)>
    var written: seq<(Address, nat, Bytes)>
    var asked: seq<nat>

    function State(): Proxy
      reads this
    {
      Proxy(sock, clients, sent, written, asked)
    }

    constructor ()
      ensures State() == Listening()
    {
      sock, clients, sent, written, asked := true, map[], [], [], [];
    }

    method RecvCb(addr: Address, data: Bytes, offered: Option<nat>, ok: bool)
      modifies this
      ensures State() == Receive(old(State()), addr, data, offered, ok)
    {
      if addr !in clients {
        if offered == None { return; }
        clients := clients[addr := Client(offered.value, [])];
      }
      var stream := clients[addr].stream;
      if !ok {
        clients := clients - {addr};
        asked := asked + [stream];
        return;
      }
      written := written + [(addr, stream, Frame(data))];
    }

    method OnStreamData(addr: Address, data: Bytes)
      modifies this
      ensures State() == StreamData(old(State()), addr, data)
    {
      if !sock || |data| == 0 || addr !in clients { return; }
      var client := clients[addr];
      var decoder := new FrameDecoder();
      decoder.buffer := client.buffer;
      var frames, ok := decoder.Push(data);
      sent := sent + Tagged(addr, frames);
      if ok {
        clients := clients[addr := client.(buffer := decoder.buffer)];
      } else {
        clients := clients - {addr};
        asked := asked + [client.stream];
      }
    }

    /** The end of any stream opened for the address. */
    method OnStreamClose(addr: Address)
      modifies this
      ensures forall s :: State() == Step(old(State()), Ends(addr, s))
      ensures addr !in clients && forall other | other != addr :: ViewOf(State(), other) == ViewOf(old(State()), other)
    {
      clients := clients - {addr};
    }

    method Close()
      modifies this
      ensures State() == Shut(old(State()))
    {
      clients := map[];
      sock := false;
    }

    method Play(es: seq<Event>)
      modifies this
      ensures State() == Run(old(State()), es)
    {
      var i := 0;
      while i < |es|
        invariant 0 <= i <= |es| && Run(State(), es[i..]) == Run(old(State()), es)
      {
        assert es[i..][0] == es[i] && es[i..][1..] == es[i + 1..];
        match es[i] {
          case Datagram(addr, data, offered, ok) => RecvCb(addr, data, offered, ok);
          case Arrives(addr, _, data) => OnStreamData(addr, data);
          case Ends(addr, _) => OnStreamClose(addr);
        }
        i := i + 1;
      }
    }
  }
}
