/**
 The client's connection map as it is written (src/client.cpp): flags on each `Conn`, set by one callback
 after another, and a `reap` that looks at them. Nothing in the code counts debts; `Exact` says that the
 map holds a connection exactly while a debt is outstanding.

 A `Conn` is a value under its id, since every callback finds it by a weak reference that expires when the
 map lets go. Its pipe is the abstract one, which TcpPipes proves the code to follow.
 */
module HolesailClients {
  import opened Common
  import O = PreOpen
  import M = PipeModel
  import C = ClientModel
  import Q = ClientProofs

  datatype Conn = Conn(
    udp: bool,
    connectPending: bool,
    stream: bool,                 // conn->stream is not null
    streamOpen: bool,
    streamClosed: bool,
    tcp: bool,                    // the accepted socket, until the pipe adopts it
    pipe: Option<M.Pipe>,
    pipeDone: bool,
    pending: Bytes,
    // traces left outside
    closeAsked: bool,             // hyperdht_stream_close was called
    socketCloses: nat,            // uv_close calls on the accepted socket
    wire: Bytes,                  // what the stream has accepted
    contexts: set<nat>,           // DrainCtx objects alive, by the chunk they were made for
    told: seq<C.ProxyCall>)       // calls on the UDP proxy, under the source's address

  /** The flags say what the history says. */
  predicate Agrees(c: Conn, l: C.Link)
  {
    && c.udp == l.udp
    && c.connectPending == l.dialing
    && c.stream == C.StreamLives(l)
    && c.streamOpen == l.box.isOpen
    && c.streamClosed == (l.stream == C.Ended)
    && c.tcp == l.held
    && c.pipe == l.pipe
    && c.pipeDone == (l.pipe.Some? && l.pipe.value.notices > 0)
    && l.box.cap == O.MAX_PENDING && c.pending == l.box.pending && c.wire == l.box.wire
    && c.closeAsked == l.asked && c.socketCloses == l.shuts && c.told == l.told
    && c.contexts == l.contexts
  }

  /** One id: in the map exactly while its link is owed something, and then with the right flags. */
  predicate Tracked(conns: map<nat, Conn>, links: map<nat, C.Link>, id: nat)
  {
    && (id in conns <==> id in links && C.Indebted(links[id]))
    && (id in conns ==> Agrees(conns[id], links[id]))
  }

  ghost predicate TracksBut(conns: map<nat, Conn>, links: map<nat, C.Link>, busy: nat)
  {
    forall id | id != busy :: Tracked(conns, links, id)
  }

  ghost predicate Tracks(conns: map<nat, Conn>, links: map<nat, C.Link>)
  {
    forall id: nat :: Tracked(conns, links, id)
  }

  lemma OthersTracked(conns: map<nat, Conn>, links: map<nat, C.Link>, conns': map<nat, Conn>,
                      links': map<nat, C.Link>, busy: nat)
    requires TracksBut(conns, links, busy)
    requires conns' - {busy} == conns - {busy} && links' - {busy} == links - {busy}
    ensures TracksBut(conns', links', busy)
  {
    forall id | id != busy ensures Tracked(conns', links', id) {
      assert Tracked(conns, links, id);
      assert id in conns' <==> id in conns' - {busy};
      assert id in conns <==> id in conns - {busy};
      assert id in links' <==> id in links' - {busy};
      assert id in links <==> id in links - {busy};
    }
  }

  lemma AllTracked(conns: map<nat, Conn>, links: map<nat, C.Link>, busy: nat)
    requires TracksBut(conns, links, busy) && Tracked(conns, links, busy)
    ensures Tracks(conns, links)
  {
  }

  lemma PipeCalledAgrees(c: Conn, l: C.Link, p: M.Pipe)
    requires Agrees(c, l) && C.PipeLives(l)
    ensures Agrees(PipeCalled(c, p), C.WithPipe(l, p))
  {
    PipeSetAgrees(c, l, p);
    CloseAgrees(c.(pipe := Some(p), pipeDone := c.pipeDone || p.notices > 0), l.(pipe := Some(p)));
  }

  lemma PipeSetAgrees(c: Conn, l: C.Link, p: M.Pipe)
    requires Agrees(c, l) && C.PipeLives(l)
    ensures Agrees(c.(pipe := Some(p), pipeDone := c.pipeDone || p.notices > 0), l.(pipe := Some(p)))
  {
  }

  lemma CloseAgrees(c: Conn, l: C.Link)
    requires Agrees(c, l)
    ensures Agrees(CloseStream(c), C.AskClose(l))
  {
  }

  /** What `shutdown_conn` does to the pipe, or to the stream without one. */
  method CloseSides(conn: Conn, ghost l: C.Link) returns (c: Conn)
    requires Agrees(conn, l)
    ensures Agrees(c, C.CloseSides(l))
  {
    c := conn;
    if c.pipe.Some? && !c.pipeDone {
      var p := M.Destroy(c.pipe.value, M.Torn);
      PipeCalledAgrees(c, l, p);
      c := PipeCalled(c, p);
    } else if c.stream && !c.streamClosed {
      CloseAgrees(c, l);
      c := CloseStream(c);
    }
  }

  /** And to the socket no pipe has adopted. */
  method CloseSocket(conn: Conn, ghost l: C.Link) returns (c: Conn)
    requires Agrees(conn, l)
    ensures Agrees(c, C.CloseSocket(l))
  {
    c := conn;
    if c.tcp {
      c := c.(tcp := false, socketCloses := c.socketCloses + 1);
    }
  }

  /** What the end of a stream comes to, for each kind of connection. */
  lemma ClosingAs(l: C.Link, destroyed: bool, d: C.Link)
    requires C.LinkInv(l, destroyed) && C.StreamLives(l) && d == l.(stream := C.Ended)
    ensures C.LinkStep(l, destroyed, C.Closes)
            == if l.udp then C.TellProxy(d, C.ProxyEnd)
               else if C.PipeLives(l) then C.WithPipe(d, M.StreamClose(d.pipe.value))
               else if l.held then C.ShutDown(d)
               else d
  {
  }

  /** What was kept goes out in one write. */
  method Flush(conn: Conn, ghost l: C.Link, ok: bool) returns (c: Conn, flushed: bool)
    requires conn.streamOpen && Agrees(conn.(streamOpen := false), l) && l.stream == C.Opening
    ensures flushed <==> l.box.pending == [] || ok
    ensures Agrees(c, l.(stream := C.Open, box :=
              if flushed then O.Open(l.box) else l.box.(isOpen := true, pending := [])))
  {
    c, flushed := conn, true;
    if c.pending != [] {
      var buffered := c.pending;
      c := c.(pending := []);
      if !ok { return c, false; }
      c := c.(wire := c.wire + buffered);
    }
  }

  /** The accepted socket, if there is one, passes to a pipe. */
  method AdoptSocket(conn: Conn, ghost l: C.Link) returns (c: Conn)
    requires Agrees(conn, l) && l.pipe == None && (l.held ==> !l.udp)
    ensures Agrees(c, C.Adopt(l))
  {
    c := conn;
    if !c.udp && c.tcp {
      c := c.(tcp := false, pipe := Some(M.Start(M.Initial(), M.Adopted)), pipeDone := false);
    }
  }

  /** The `write` closure of `make_side`, called by a pipe with a drain to keep. */
  method WriteChunk(conn: Conn, ghost l: C.Link, data: Bytes, ok: bool, acks: seq<nat>)
    returns (c: Conn, answer: M.Answer)
    requires Agrees(conn, l) && conn.pipe.Some? && l.box.isOpen && (ok ==> !conn.streamClosed)
    ensures answer == if ok then M.Accepted(acks) else M.Rejected
    ensures Agrees(c, C.Submit(l, data, ok, acks))
  {
    c := conn;
    if c.streamClosed { return c, M.Rejected; }
    var chunk := c.pipe.value.up.nextId;
    if !ok { return c, M.Rejected; }
    c := c.(contexts := c.contexts + {chunk} - Ids(acks), wire := c.wire + data);
    return c, M.Accepted(acks);
  }

  /** A call on the proxy, for the stream of a UDP source. */
  method TellProxy(conn: Conn, ghost l: C.Link, call: C.ProxyCall) returns (c: Conn)
    requires Agrees(conn, l)
    ensures Agrees(c, C.TellProxy(l, call))
  {
    c := conn;
    if c.udp {
      c := c.(told := c.told + [call]);
    }
  }

  class HolesailClient {
    ghost var m: C.Client

    var conns: map<nat, Conn>
    var nextId: nat
    var destroyed: bool
    var turnedAway: nat             // sockets closed as soon as they were accepted

    ghost predicate Exact()
      reads this
    {
      && nextId == m.nextId && destroyed == m.destroyed && turnedAway == m.turnedAway
      && Tracks(conns, m.links)
    }

    /** As it stands while the connection `busy` is being dealt with: it is in the map, and settled or not. */
    ghost predicate ExactBut(busy: nat)
      reads this
    {
      && nextId == m.nextId && destroyed == m.destroyed && turnedAway == m.turnedAway
      && TracksBut(conns, m.links, busy)
      && busy in conns && busy in m.links && Agrees(conns[busy], m.links[busy])
    }

    ghost predicate Valid()
      reads this
    {
      Exact() && C.Inv(m)
    }

    constructor ()
      ensures Valid() && m == C.Created()
    {
      conns, nextId, destroyed, turnedAway := map[], C.FIRST_ID, false, 0;
      m := C.Created();
    }

    // ---- private routines ------------------------------------------------------------------

    /** Store a connection, and what has become of it. */
    method Update(id: nat, c: Conn, ghost l: C.Link)
      requires nextId == m.nextId && destroyed == m.destroyed && turnedAway == m.turnedAway
      requires TracksBut(conns, m.links, id)
      requires Agrees(c, l)
      modifies this`m, this`conns
      ensures ExactBut(id) && conns[id] == c && m == old(m).(links := old(m).links[id := l])
    {
      ghost var conns0, links0 := conns, m.links;
      conns := conns[id := c];
      m := m.(links := m.links[id := l]);
      OthersTracked(conns0, links0, conns, m.links, id);
    }

    /** Store a connection that is still owed something. */
    method Keep(id: nat, c: Conn, ghost l: C.Link)
      requires Exact() && Agrees(c, l) && C.Indebted(l)
      modifies this`m, this`conns
      ensures Exact() && m == old(m).(links := old(m).links[id := l])
    {
      Update(id, c, l);
      AllTracked(conns, m.links, id);
    }

    /** Store a connection whose pipe has been called. */
    method StoreCalled(id: nat, c: Conn, p: M.Pipe, ghost l: C.Link)
      requires nextId == m.nextId && destroyed == m.destroyed && turnedAway == m.turnedAway
      requires TracksBut(conns, m.links, id) && Agrees(c, l) && C.PipeLives(l)
      modifies this`m, this`conns
      ensures ExactBut(id) && m == old(m).(links := old(m).links[id := C.WithPipe(l, p)])
    {
      PipeCalledAgrees(c, l, p);
      Update(id, PipeCalled(c, p), C.WithPipe(l, p));
    }

    method Reap(id: nat)
      requires ExactBut(id)
      modifies this`conns
      ensures Exact()
    {
      ghost var conns0 := conns;
      if id !in conns { return; }
      var c := conns[id];
      if !c.connectPending && !(c.stream && !c.streamClosed) && !(c.pipe.Some? && !c.pipeDone) {
        conns := conns - {id};
      }
      OthersTracked(conns0, m.links, conns, m.links, id);
      AllTracked(conns, m.links, id);
    }

    method ShutdownConn(id: nat)
      requires ExactBut(id)
      modifies this`m, this`conns
      ensures Exact() && m == old(m).(links := old(m).links[id := C.ShutDown(old(m).links[id])])
    {
      ghost var l := C.CloseSocket(m.links[id]);
      var c := CloseSocket(conns[id], m.links[id]);
      c := TellProxy(c, l, C.ProxyEnd);
      c := CloseSides(c, C.TellProxy(l, C.ProxyEnd));
      Update(id, c, C.ShutDown(m.links[id]));
      Reap(id);
    }

    /** Store a connection and shut it down. */
    method StoreAndShut(id: nat, c: Conn, ghost l: C.Link)
      requires nextId == m.nextId && destroyed == m.destroyed && turnedAway == m.turnedAway
      requires TracksBut(conns, m.links, id) && Agrees(c, l)
      modifies this`m, this`conns
      ensures Exact() && m == old(m).(links := old(m).links[id := C.ShutDown(l)])
    {
      Update(id, c, l);
      ShutdownConn(id);
    }

    /** Store a connection that may have settled. */
    method StoreAndReap(id: nat, c: Conn, ghost l: C.Link)
      requires nextId == m.nextId && destroyed == m.destroyed && turnedAway == m.turnedAway
      requires TracksBut(conns, m.links, id) && Agrees(c, l)
      modifies this`m, this`conns
      ensures Exact() && m == old(m).(links := old(m).links[id := l])
    {
      Update(id, c, l);
      Reap(id);
    }

    // ---- local side ------------------------------------------------------------------------

    method OnLocalConnection(rc: int)
      requires Exact()
      modifies this
      ensures Exact() && m == C.Step(old(m), C.Begins(false, rc >= 0))
    {
      if destroyed {
        turnedAway := turnedAway + 1;
        m := m.(turnedAway := turnedAway);
        return;
      }
      var c := Conn(false, true, false, false, false, true, None, false, [], false, 0, [], {}, []);
      var dialed := BeginDhtConnect(c, rc);
    }

    method OpenUdpStream(rc: int) returns (side: bool)
      requires Exact()
      modifies this
      ensures Exact() && m == C.Step(old(m), C.Begins(true, rc >= 0))
      ensures side == (!old(destroyed) && rc >= 0)
    {
      if destroyed { return false; }
      var c := Conn(true, true, false, false, false, false, None, false, [], false, 0, [], {}, []);
      side := BeginDhtConnect(c, rc);
    }

    /** The new connection enters the map and is dialed; `rc` is what the dial returns. */
    method BeginDhtConnect(c: Conn, rc: int) returns (dialed: bool)
      requires Exact() && !destroyed && Agrees(c, C.Dialed(c.udp))
      modifies this
      ensures Exact() && m == C.Step(old(m), C.Begins(c.udp, rc >= 0))
      ensures dialed == (rc >= 0)
    {
      var id := nextId;
      nextId := nextId + 1;
      m := m.(nextId := nextId);
      Update(id, c, C.Dialed(c.udp));
      dialed := rc >= 0;
      if rc < 0 {
        StoreAndShut(id, c.(connectPending := false), C.Dialed(c.udp).(dialing := false));
      } else {
        AllTracked(conns, m.links, id);
      }
    }

    /** The `write` closure of `make_side`, called by the UDP proxy. */
    method SideWrite(id: nat, data: Bytes, ok: bool) returns (rc: int)
      requires Valid() && C.Enabled(m, C.At(id, C.Writes(data, ok)))
      modifies this
      ensures Exact() && m == C.Step(old(m), C.At(id, C.Writes(data, ok)))
      ensures rc < 0 <==> !C.Indebted(old(m).links[id]) || (old(m).links[id].box.isOpen && !ok)
    {
      assert Tracked(conns, m.links, id);
      assert C.LinkInv(m.links[id], destroyed);
      ghost var l := C.Written(m.links[id], data, ok);
      if id !in conns || conns[id].streamClosed {
        assert m.links[id := l] == m.links;
        return -1;
      }
      var c := conns[id];
      if !c.stream || !c.streamOpen {
        rc := 1;
        if |c.pending| + |data| <= O.MAX_PENDING {
          c := c.(pending := c.pending + data);
        }
      } else if ok {
        rc := 0;
        c := c.(wire := c.wire + data);
      } else {
        rc := -1;
      }
      Keep(id, c, l);
    }

    /** The `close` closure of `make_side`, called by the UDP proxy. */
    method SideClose(id: nat)
      requires Exact() && C.Enabled(m, C.At(id, C.ProxyCloses))
      modifies this
      ensures Exact() && m == C.Step(old(m), C.At(id, C.ProxyCloses))
    {
      assert Tracked(conns, m.links, id);
      ghost var l := C.AskClose(m.links[id]);
      if id !in conns {
        assert m.links[id := l] == m.links;
        return;
      }
      Keep(id, CloseStream(conns[id]), l);
    }

    // ---- callbacks -------------------------------------------------------------------------

    /** `rc` is the dial's error, and `stream` whether a wrapper for the stream could be had. */
    method ConnectCb(id: nat, error: int, stream: bool)
      requires Exact() && id in m.links && m.links[id].dialing && !C.StreamLives(m.links[id])
      modifies this
      ensures Exact()
      ensures m == C.Step(old(m), C.At(id, C.ConnectDone(
        if error != 0 then C.Refused else if !stream then C.NoWrapper else C.Streaming)))
    {
      assert Tracked(conns, m.links, id);
      var c := conns[id].(connectPending := false);
      ghost var l := m.links[id].(dialing := false);
      if destroyed || error != 0 || !stream {
        StoreAndShut(id, c, l);
        return;
      }
      Keep(id, c.(stream := true, streamClosed := false), l.(stream := C.Opening));
    }

    /** `stream_open_cb`; `ok` is whether the stream takes what was kept for it. */
    method StreamOpenCb(id: nat, ok: bool)
      requires Valid() && C.Enabled(m, C.At(id, C.Opens(ok)))
      modifies this
      ensures Exact() && m == C.Step(old(m), C.At(id, C.Opens(ok)))
    {
      assert Tracked(conns, m.links, id);
      assert C.LinkInv(m.links[id], destroyed);
      ghost var l := m.links[id].(stream := C.Open);
      var c, flushed := Flush(conns[id].(streamOpen := true), m.links[id], ok);
      if !flushed {
        StoreAndShut(id, c, l.(box := l.box.(isOpen := true, pending := [])));
        return;
      }
      l := l.(box := O.Open(l.box));
      c := AdoptSocket(c, l);
      Keep(id, c, C.Adopt(l));
    }

    /** Bytes for a UDP source. */
    method PassOn(id: nat, data: Bytes)
      requires Exact() && id in m.links && id in conns && conns[id].udp
      modifies this
      ensures Exact()
      ensures m == old(m).(links := old(m).links[id :=
                if data == [] then old(m).links[id] else C.TellProxy(old(m).links[id], C.ProxyData(data))])
    {
      assert Tracked(conns, m.links, id);
      if data == [] {
        assert m.links[id := m.links[id]] == m.links;
        return;
      }
      var c := TellProxy(conns[id], m.links[id], C.ProxyData(data));
      Keep(id, c, C.TellProxy(m.links[id], C.ProxyData(data)));
    }

    method StreamDataCb(id: nat, data: Bytes, rc: int)
      requires Exact() && C.Enabled(m, C.At(id, C.Receives(data, rc == 0)))
      modifies this
      ensures Exact() && m == C.Step(old(m), C.At(id, C.Receives(data, rc == 0)))
    {
      assert Tracked(conns, m.links, id);
      var c := conns[id];
      if c.udp {
        PassOn(id, data);
        return;
      }
      if !c.pipe.Some? || c.pipeDone {
        assert m.links[id := m.links[id]] == m.links;
        return;
      }
      var p := M.Data(c.pipe.value, data, rc == 0);
      StoreCalled(id, c, p, m.links[id]);
      AllTracked(conns, m.links, id);
    }

    method StreamCloseCb(id: nat)
      requires Valid() && C.Enabled(m, C.At(id, C.Closes))
      modifies this
      ensures Exact() && m == C.Step(old(m), C.At(id, C.Closes))
    {
      assert Tracked(conns, m.links, id);
      assert C.LinkInv(m.links[id], destroyed);
      var c := conns[id].(streamClosed := true, stream := false);
      ghost var l := m.links[id].(stream := C.Ended);
      ClosingAs(m.links[id], destroyed, l);
      if c.udp {
        c := TellProxy(c, l, C.ProxyEnd);
        StoreAndReap(id, c, C.TellProxy(l, C.ProxyEnd));
      } else if c.pipe.Some? && !c.pipeDone {
        var p := M.StreamClose(c.pipe.value);
        StoreCalled(id, c, p, l);
        Reap(id);
      } else if c.pipe == None && c.tcp {
        StoreAndShut(id, c, l);
      } else {
        StoreAndReap(id, c, l);
      }
    }

    /** What libuv does to the pipe; at its end `on_destroy` finds the connection by its id. */
    method PipeCb(id: nat, e: M.Event)
      requires Exact() && C.Enabled(m, C.At(id, C.PipeDoes(e)))
      modifies this
      ensures Exact() && m == C.Step(old(m), C.At(id, C.PipeDoes(e)))
    {
      assert Tracked(conns, m.links, id);
      var c := conns[id];
      var p := M.Step(c.pipe.value, e);
      StoreCalled(id, c, p, m.links[id]);
      if p.notices > 0 {
        Reap(id);
      } else {
        AllTracked(conns, m.links, id);
      }
    }

    /** The pipe reads its socket, and writes what it reads to the stream. */
    method LocalRead(id: nat, data: Bytes, ok: bool, acks: seq<nat>)
      requires Valid() && C.Enabled(m, C.At(id, C.Reads(data, ok, acks)))
      modifies this
      ensures Exact() && m == C.Step(old(m), C.At(id, C.Reads(data, ok, acks)))
    {
      assert Tracked(conns, m.links, id);
      assert C.LinkInv(m.links[id], destroyed);
      ghost var l := C.Submit(m.links[id], data, ok, acks);
      var c, answer := WriteChunk(conns[id], m.links[id], data, ok, acks);
      var p := M.Read(c.pipe.value, |data|, answer);
      StoreCalled(id, c, p, l);
      AllTracked(conns, m.links, id);
    }

    /** `drain_cb`: the context goes; its closure runs only if the pipe is still there. */
    method DrainCb(id: nat, chunk: nat)
      requires Valid() && C.Enabled(m, C.At(id, C.Acked(chunk)))
      modifies this
      ensures Exact() && m == C.Step(old(m), C.At(id, C.Acked(chunk)))
    {
      assert Tracked(conns, m.links, id);
      assert C.LinkInv(m.links[id], destroyed);
      var c := conns[id].(contexts := conns[id].contexts - {chunk});
      ghost var l := m.links[id].(contexts := m.links[id].contexts - {chunk});
      if c.streamClosed || c.pipeDone {
        Update(id, c, l);
      } else {
        var p := M.Drain(c.pipe.value, chunk);
        StoreCalled(id, c, p, l);
      }
      AllTracked(conns, m.links, id);
    }

    // ---- teardown --------------------------------------------------------------------------

    /** `destroy` shuts down every connection of a snapshot of the map, which shrinks meanwhile. */
    method Destroy()
      requires Exact()
      modifies this
      ensures Exact() && m == C.Step(old(m), C.Destroys)
    {
      if destroyed { return; }
      destroyed := true;
      ghost var links := m.links;
      MapHoldsDebtors(conns, links);
      var live := conns.Keys;
      m := m.(destroyed := true);
      ShutNone(links, live);
      while live != {}
        invariant Exact() && live <= conns.Keys && destroyed
        invariant forall id | id in live :: id in links && C.Indebted(links[id])
        invariant m == old(m).(destroyed := true, links := ShutBut(links, live))
        decreases |live|
      {
        var id :| id in live;
        assert Tracked(conns, m.links, id);
        ShutOne(links, live, id);
        ShutdownConn(id);
        live := live - {id};
        MapHoldsDebtors(conns, m.links);
      }
    }

    // ---- whole runs ------------------------------------------------------------------------

    /** Whatever can happen next keeps the map exact. */
    method Handle(e: C.Event)
      requires Valid() && C.Enabled(m, e)
      modifies this
      ensures Valid() && m == C.Step(old(m), e)
    {
      Q.StepInv(m, e);
      match e
      case Begins(udp, dialed) =>
        if udp {
          var side := OpenUdpStream(if dialed then 0 else -1);
        } else {
          OnLocalConnection(if dialed then 0 else -1);
        }
      case Destroys => Destroy();
      case At(id, l) => HandleAt(id, l);
    }

    method HandleAt(id: nat, e: C.LinkEvent)
      requires Valid() && C.Enabled(m, C.At(id, e))
      modifies this
      ensures Exact() && m == C.Step(old(m), C.At(id, e))
    {
      assert C.LinkInv(m.links[id], destroyed);
      match e
      case ConnectDone(outcome) => ConnectCb(id, if outcome.Refused? then -1 else 0, outcome.Streaming?);
      case Opens(ok) => StreamOpenCb(id, ok);
      case Closes => StreamCloseCb(id);
      case PipeDoes(p) => PipeCb(id, p);
      case Reads(data, ok, acks) => LocalRead(id, data, ok, acks);
      case Acked(chunk) => DrainCb(id, chunk);
      case Receives(data, ok) => StreamDataCb(id, data, if ok then 0 else -1);
      case Writes(data, ok) => var rc := SideWrite(id, data, ok);
      case ProxyCloses => SideClose(id);
    }

    /** Over every run the map holds exactly the connections still owed a callback. */
    method Play(es: seq<C.Event>)
      requires Valid() && C.Feasible(m, es)
      modifies this
      ensures Valid() && m == C.Run(old(m), es)
      ensures conns.Keys == set id | id in m.links && C.Indebted(m.links[id])
    {
      var i := 0;
      while i < |es|
        invariant 0 <= i <= |es| && Valid() && C.Feasible(m, es[i..])
        invariant C.Run(m, es[i..]) == C.Run(old(m), es)
      {
        assert es[i..][0] == es[i] && es[i..][1..] == es[i + 1..];
        Handle(es[i]);
        i := i + 1;
      }
      MapHoldsDebtors(conns, m.links);
    }
  }

  lemma MapHoldsDebtors(conns: map<nat, Conn>, links: map<nat, C.Link>)
    requires Tracks(conns, links)
    ensures conns.Keys == set id | id in links && C.Indebted(links[id])
  {
    forall id: nat ensures id in conns <==> id in links && C.Indebted(links[id]) {
      assert Tracked(conns, links, id);
    }
  }

  /** All the connections owed something have been shut down, but these. */
  ghost function ShutBut(links: map<nat, C.Link>, todo: set<nat>): map<nat, C.Link>
  {
    map id | id in links :: if C.Indebted(links[id]) && id !in todo then C.ShutDown(links[id]) else links[id]
  }

  lemma ShutNone(links: map<nat, C.Link>, todo: set<nat>)
    requires todo == set id | id in links && C.Indebted(links[id])
    ensures ShutBut(links, todo) == links
  {
  }

  lemma ShutOne(links: map<nat, C.Link>, todo: set<nat>, id: nat)
    requires id in todo && id in links && C.Indebted(links[id])
    ensures var now := ShutBut(links, todo);
            now[id := C.ShutDown(now[id])] == ShutBut(links, todo - {id})
  {
  }

  /** The `close` closure of `make_side`, and `hyperdht_stream_close`. */
  function CloseStream(c: Conn): Conn
  {
    if c.stream && !c.streamClosed then c.(closeAsked := true) else c
  }

  /** What a call into the pipe leaves behind: a half-close reaches the stream, and `on_destroy` sets
      `pipe_done`. */
  function PipeCalled(c: Conn, p: M.Pipe): Conn
    requires c.pipe.Some?
  {
    var d := c.(pipe := Some(p), pipeDone := c.pipeDone || p.notices > 0);
    if p.halfCloses > c.pipe.value.halfCloses then CloseStream(d) else d
  }
}
