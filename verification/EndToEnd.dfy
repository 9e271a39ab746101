/**
 A TCP connection from one local socket to the other: the client's pipe, an encrypted stream that hands over,
 in order, bytes it was given, and the server's pipe; and back (src/client.cpp, src/server.cpp, src/pipe.cpp).
 */
module EndToEnd {
  import opened Common
  import O = PreOpen
  import M = PipeModel
  import P = PipeProofs
  import S = ServerModel
  import R = ServerProofs
  import C = ClientModel
  import Q = ClientProofs

  /** Short of being torn down, a pipe has delivered a first part of what it was handed; all of it, if it
      ended by flushing and had a socket. */
  lemma DeliversInOrder(p: M.Pipe)
    requires M.Inv(p) && p.cause != Some(M.Torn)
    ensures p.down.delivered <= p.down.offered
    ensures p.cause == Some(M.Flushed) && p.handle != M.Absent ==> p.down.delivered == p.down.offered
  {
    match p.cause
    case None =>
      assert p.handle == M.Absent || p.down.offered == p.down.delivered + Concat(p.down.owed);
    case Some(why) =>
      assert why == M.Flushed;
      assert p.handle == M.Absent || p.down.offered == p.down.delivered + [];
  }

  // ---- what a stream hands over ------------------------------------------------------------

  function ServerHandedNow(c: S.Conn, e: S.Event): Bytes
  {
    if e.Receives? && c.pipe.cause == None then e.data else []
  }

  /** The bytes the stream hands the server's pipe over a run, while the pipe lives. */
  function ServerHanded(c: S.Conn, es: seq<S.Event>): Bytes
    decreases |es|
  {
    if es == [] then []
    else if !S.Enabled(c, es[0]) then ServerHanded(c, es[1..])
    else ServerHandedNow(c, es[0]) + ServerHanded(S.Step(c, es[0]), es[1..])
  }

  lemma ServerOffered(c: S.Conn, e: S.Event)
    requires S.Enabled(c, e)
    ensures S.Step(c, e).pipe.down.offered == c.pipe.down.offered + ServerHandedNow(c, e)
  {
    assert c.pipe.down.offered + [] == c.pipe.down.offered;
    match e
    case Local(l) => PipeOffered(c, l, c);
    case Reads(data, ok, acks) => ReadsOffered(c, data, ok, acks);
    case Opens(ok) => OpensOffered(c, ok);
    case Receives(data, ok) => PipeOffered(c, M.StreamData(data, ok), c);
    case Acked(id) => AckOffered(c, id);
    case Closes => PipeOffered(c, M.StreamClosed, c.(stream := false, refA := false));
  }

  lemma ReadsOffered(c: S.Conn, data: Bytes, ok: bool, acks: seq<nat>)
    requires S.Enabled(c, S.Reads(data, ok, acks))
    ensures S.LocalRead(c, data, ok, acks).pipe.down.offered == c.pipe.down.offered
  {
    var (d, answer) := S.SideWrite(c, data, ok, acks);
    PipeOffered(c, M.LocalRead(|data|, answer), d);
  }

  lemma OpensOffered(c: S.Conn, ok: bool)
    ensures S.StreamOpens(c, ok).pipe.down == c.pipe.down
  {
    R.OnlyUp(c.pipe, M.Abandon(c.pipe.up));
    R.OnlyUp(c.pipe, M.FireAll(c.pipe.up, M.Alive(c.pipe), c.withheld));
  }

  lemma AckOffered(c: S.Conn, id: nat)
    ensures S.Ack(c, id).pipe.down == c.pipe.down
  {
  }

  lemma PipeOffered(c: S.Conn, e: M.Event, d: S.Conn)
    requires M.Enabled(c.pipe, e)
    ensures S.WithPipe(d, M.Step(c.pipe, e)).pipe.down.offered
            == c.pipe.down.offered + if e.StreamData? && c.pipe.cause == None then e.data else []
  {
    P.StepMoves(c.pipe, e);
  }

  lemma {:induction false} ServerOfferedRun(c: S.Conn, es: seq<S.Event>)
    ensures S.Run(c, es).pipe.down.offered == c.pipe.down.offered + ServerHanded(c, es)
    decreases |es|
  {
    if es == [] {
    } else if S.Enabled(c, es[0]) {
      var d := S.Step(c, es[0]);
      ServerOffered(c, es[0]);
      ServerOfferedRun(d, es[1..]);
      Regroup(c.pipe.down.offered, ServerHandedNow(c, es[0]), ServerHanded(d, es[1..]));
    } else {
      ServerOfferedRun(c, es[1..]);
    }
  }

  function Offered(l: C.Link): Bytes { if l.pipe.Some? then l.pipe.value.down.offered else [] }

  function LinkHandedNow(l: C.Link, e: C.LinkEvent): Bytes
  {
    if e.Receives? && C.PipeLives(l) && l.pipe.value.cause == None then e.data else []
  }

  /** The bytes the stream hands the pipe of one of the client's connections. */
  function ClientHanded(c: C.Client, es: seq<C.Event>, id: nat): Bytes
    decreases |es|
  {
    if es == [] then []
    else if !C.Enabled(c, es[0]) then ClientHanded(c, es[1..], id)
    else
      (if es[0].At? && es[0].id == id then LinkHandedNow(c.links[id], es[0].e) else [])
      + ClientHanded(C.Step(c, es[0]), es[1..], id)
  }

  lemma LinkOffered(l: C.Link, destroyed: bool, e: C.LinkEvent)
    requires C.LinkInv(l, destroyed) && C.LinkEnabled(l, e)
    ensures Offered(C.LinkStep(l, destroyed, e)) == Offered(l) + LinkHandedNow(l, e)
  {
    assert Offered(l) + [] == Offered(l);
    match e
    case ConnectDone(_) =>
    case Opens(ok) => OpenedOffered(l, ok);
    case Closes => if C.PipeLives(l) { MovedOffered(l.(stream := C.Ended), l.pipe.value, M.StreamClosed); }
    case PipeDoes(p) => MovedOffered(l, l.pipe.value, p);
    case Reads(data, ok, acks) =>
      MovedOffered(C.Submit(l, data, ok, acks), l.pipe.value,
                   M.LocalRead(|data|, if ok then M.Accepted(acks) else M.Rejected));
    case Acked(chunk) =>
      if C.PipeLives(l) { MovedOffered(l.(contexts := l.contexts - {chunk}), l.pipe.value, M.Drained(chunk)); }
    case Receives(data, ok) => if C.PipeLives(l) { MovedOffered(l, l.pipe.value, M.StreamData(data, ok)); }
    case Writes(_, _) =>
    case ProxyCloses =>
  }

  lemma OpenedOffered(l: C.Link, ok: bool)
    requires l.pipe == None
    ensures Offered(C.Opened(l, ok)) == []
  {
    assert Offered(C.Adopt(l)) == [];
  }

  lemma MovedOffered(l: C.Link, p: M.Pipe, e: M.Event)
    requires l.pipe == Some(p) && M.Enabled(p, e)
    ensures Offered(C.WithPipe(l, M.Step(p, e)))
            == Offered(l) + if e.StreamData? && p.cause == None then e.data else []
  {
    P.StepMoves(p, e);
  }

  function OfferedAt(c: C.Client, id: nat): Bytes { if id in c.links then Offered(c.links[id]) else [] }

  lemma ClientOffered(c: C.Client, e: C.Event, id: nat)
    requires C.Inv(c) && C.Enabled(c, e)
    ensures OfferedAt(C.Step(c, e), id)
            == OfferedAt(c, id) + if e.At? && e.id == id then LinkHandedNow(c.links[id], e.e) else []
  {
    assert OfferedAt(c, id) + [] == OfferedAt(c, id);
    match e
    case Begins(udp, dialed) => NoneOffered(udp, dialed);
    case At(k, l) => if k == id { LinkOffered(c.links[id], c.destroyed, l); }
    case Destroys => if id in c.links { ShutOffered(c.links[id]); }
  }

  lemma NoneOffered(udp: bool, dialed: bool)
    ensures Offered(C.Begun(udp, dialed)) == []
  {
  }

  lemma ShutOffered(l: C.Link)
    ensures Offered(C.ShutDown(l)) == Offered(l)
  {
    SidesOffered(C.TellProxy(C.CloseSocket(l), C.ProxyEnd));
  }

  lemma SidesOffered(l: C.Link)
    ensures Offered(C.CloseSides(l)) == Offered(l)
  {
    if l.pipe.Some? {
      P.DestroyWinds(l.pipe.value, M.Torn);
    }
  }

  lemma {:induction false} ClientOfferedRun(c: C.Client, es: seq<C.Event>, id: nat)
    requires C.Inv(c)
    ensures OfferedAt(C.Run(c, es), id) == OfferedAt(c, id) + ClientHanded(c, es, id)
    decreases |es|
  {
    if es == [] {
    } else if C.Enabled(c, es[0]) {
      var d := C.Step(c, es[0]);
      Q.StepInv(c, es[0]);
      ClientOffered(c, es[0], id);
      ClientOfferedRun(d, es[1..], id);
      Regroup(OfferedAt(c, id), if es[0].At? && es[0].id == id then LinkHandedNow(c.links[id], es[0].e) else [],
              ClientHanded(d, es[1..], id));
    } else {
      ClientOfferedRun(c, es[1..], id);
    }
  }

  // ---- from socket to socket ---------------------------------------------------------------

  /** Whatever happens at either end, when what the stream has handed the server is a first part of what the
      client's stream was given, the server's local socket has received, in order and with nothing between, a
      first part of what the client's was read for; and when the server's pipe has ended by flushing and all
      of it was handed over, everything that was read, but for a last chunk that tore the client's pipe down. */
  lemma ClientToServer(es: seq<C.Event>, id: nat, fs: seq<S.Event>)
    requires id in C.Run(C.Created(), es).links && !C.Run(C.Created(), es).links[id].udp
    requires ServerHanded(S.Accepted(O.MAX_PENDING), fs) <= C.Run(C.Created(), es).links[id].box.wire
    requires S.Run(S.Accepted(O.MAX_PENDING), fs).pipe.cause != Some(M.Torn)
    ensures var l, far := C.Run(C.Created(), es).links[id], S.Run(S.Accepted(O.MAX_PENDING), fs).pipe;
            var read := Q.BytesRead(C.Created(), es, id);
            && far.down.delivered <= read
            && (far.cause == Some(M.Flushed) && far.handle != M.Absent
                && ServerHanded(S.Accepted(O.MAX_PENDING), fs) == l.box.wire ==>
                  && far.down.delivered == l.box.wire
                  && (l.pipe.Some? && l.pipe.value.cause != Some(M.Torn) ==> far.down.delivered == read))
  {
    var c := S.Accepted(O.MAX_PENDING);
    Q.StreamGetsReads(es, id);
    R.Reachable(O.MAX_PENDING, fs);
    ServerOfferedRun(c, fs);
    assert [] + ServerHanded(c, fs) == ServerHanded(c, fs);
    DeliversInOrder(S.Run(c, fs).pipe);
  }

  /** When the stream ends, having handed over all it was given, to a server whose pipe is alive, the server's
      local socket gets everything once libuv has completed what it holds. */
  lemma ClientToServerEnds(es: seq<C.Event>, id: nat, fs: seq<S.Event>)
    requires id in C.Run(C.Created(), es).links && !C.Run(C.Created(), es).links[id].udp
    requires ServerHanded(S.Accepted(O.MAX_PENDING), fs) == C.Run(C.Created(), es).links[id].box.wire
    requires var c := S.Run(S.Accepted(O.MAX_PENDING), fs); c.stream && M.Alive(c.pipe)
    ensures var l, c := C.Run(C.Created(), es).links[id], S.Run(S.Accepted(O.MAX_PENDING), fs);
            var far := S.Run(c, [S.Closes] + R.Flushes(|c.pipe.down.owed|)).pipe;
            && far.cause == Some(M.Flushed) && far.down.delivered == l.box.wire
            && (l.pipe.Some? && l.pipe.value.cause != Some(M.Torn) ==>
                  far.down.delivered == Q.BytesRead(C.Created(), es, id))
  {
    var c := S.Accepted(O.MAX_PENDING);
    Q.StreamGetsReads(es, id);
    R.StreamEndDelivers(O.MAX_PENDING, fs);
    ServerOfferedRun(c, fs);
    assert [] + ServerHanded(c, fs) == ServerHanded(c, fs);
  }

  /** And back: what the client's local socket has received is a first part of what the server's was read for,
      refused chunks left out. */
  lemma ServerToClient(es: seq<S.Event>, fs: seq<C.Event>, id: nat)
    requires !S.Run(S.Accepted(O.MAX_PENDING), es).flushFailed
    requires id in C.Run(C.Created(), fs).links && C.Run(C.Created(), fs).links[id].pipe.Some?
    requires ClientHanded(C.Created(), fs, id) <= S.Run(S.Accepted(O.MAX_PENDING), es).box.wire
    requires C.Run(C.Created(), fs).links[id].pipe.value.cause != Some(M.Torn)
    ensures var c, far := S.Run(S.Accepted(O.MAX_PENDING), es), C.Run(C.Created(), fs).links[id].pipe.value;
            var kept := R.Kept(S.Accepted(O.MAX_PENDING), es);
            && far.down.delivered <= kept
            && (far.cause == Some(M.Flushed) && ClientHanded(C.Created(), fs, id) == c.box.wire ==>
                  far.down.delivered == c.box.wire && (c.box.isOpen ==> far.down.delivered == kept))
  {
    R.OrderAcrossOpen(O.MAX_PENDING, es);
    Q.Reachable(fs);
    ClientOfferedRun(C.Created(), fs, id);
    assert [] + ClientHanded(C.Created(), fs, id) == ClientHanded(C.Created(), fs, id);
    DeliversInOrder(C.Run(C.Created(), fs).links[id].pipe.value);
  }

  /** So too at the other end. */
  lemma ServerToClientEnds(es: seq<S.Event>, fs: seq<C.Event>, id: nat)
    requires !S.Run(S.Accepted(O.MAX_PENDING), es).flushFailed
    requires id in C.Run(C.Created(), fs).links
    requires var l := C.Run(C.Created(), fs).links[id];
             C.StreamLives(l) && l.pipe.Some? && M.Alive(l.pipe.value)
    requires ClientHanded(C.Created(), fs, id) == S.Run(S.Accepted(O.MAX_PENDING), es).box.wire
    ensures var c, near := S.Run(S.Accepted(O.MAX_PENDING), es), C.Run(C.Created(), fs);
            var n := |near.links[id].pipe.value.down.owed|;
            var d := C.Run(near, Q.Ats(id, [C.Closes] + Q.Flushes(n)));
            && id in d.links && d.links[id].pipe.Some?
            && d.links[id].pipe.value.cause == Some(M.Flushed)
            && d.links[id].pipe.value.down.delivered == c.box.wire
            && (c.box.isOpen ==> c.box.wire == R.Kept(S.Accepted(O.MAX_PENDING), es))
  {
    R.OrderAcrossOpen(O.MAX_PENDING, es);
    Q.StreamEndDelivers(fs, id);
    Q.Reachable(fs);
    ClientOfferedRun(C.Created(), fs, id);
    assert [] + ClientHanded(C.Created(), fs, id) == ClientHanded(C.Created(), fs, id);
  }
}
