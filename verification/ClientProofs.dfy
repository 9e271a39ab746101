/** What the client promises of every connection, over every run. */
module ClientProofs {
  import opened Common
  import opened ClientModel
  import O = PreOpen
  import M = PipeModel
  import P = PipeProofs
  import F = Framing
  import T = Tunnel

  // ---- one link ----------------------------------------------------------------------------

  lemma ShutDownInv(l: Link, destroyed: bool)
    requires LinkInv(l, destroyed)
    ensures LinkInv(ShutDown(l), true)
    ensures Indebted(ShutDown(l)) == Indebted(l)
  {
    if PipeLives(l) {
      P.DestroyInv(l.pipe.value, M.Torn);
    }
  }

  /** The half-closes and the cause of a pipe only advance, together, and no chunk is lost to the count. */
  predicate Advances(p: M.Pipe, q: M.Pipe)
  {
    && q.started && q.handle != M.Absent && !q.connectOwed && q.up.lost == 0
    && q.halfCloses >= p.halfCloses
    && (p.cause != None ==> q.cause == p.cause)
    && (p.cause == None && q.cause != None ==> q.halfCloses > p.halfCloses)
    && (p.streamClosed ==> q.streamClosed)
  }

  predicate Advancing(p: M.Pipe)
  {
    p.started && p.handle != M.Absent && !p.connectOwed && p.up.lost == 0
  }

  /** A callback that is neither a chunk nor an acknowledgement. */
  lemma PipeAdvances(p: M.Pipe, e: M.Event)
    requires M.Inv(p) && M.Enabled(p, e) && Advancing(p) && !e.LocalRead? && !e.Drained?
    ensures var q := M.Step(p, e);
            && Advances(p, q) && q.up.unacked == p.up.unacked
            && (e.StreamClosed? ==> q.streamClosed || q.cause != None)
  {
    P.LocalNeverRestarts(p, e);
  }

  lemma ReadAdvances(p: M.Pipe, len: nat, ok: bool, acks: seq<nat>)
    requires M.Inv(p) && Advancing(p) && p.up.reading
    ensures var q := M.Read(p, len, if ok then M.Accepted(acks) else M.Rejected);
            && Advances(p, q)
            && q.up.unacked.Keys
               == if ok then p.up.unacked.Keys + {p.up.nextId} - Ids(acks) else p.up.unacked.Keys
  {
    if ok {
      P.ReadAccepted(p, len, acks);
    }
  }

  lemma DrainAdvances(p: M.Pipe, chunk: nat)
    requires M.Inv(p) && Advancing(p) && chunk in p.up.unacked
    ensures var q := M.Drain(p, chunk); Advances(p, q) && q.up.unacked.Keys == p.up.unacked.Keys - {chunk}
  {
  }

  /** The pipe of a link moves on, with the accounts already brought up to date. */
  lemma PipeMoved(l: Link, destroyed: bool, q: M.Pipe, box: O.Outbox, contexts: set<nat>)
    requires LinkInv(l, destroyed) && PipeLives(l) && M.Inv(q) && Advances(l.pipe.value, q)
    requires contexts == q.up.unacked.Keys
    requires box.isOpen && box.pending == [] && box.cap == l.box.cap
    ensures LinkInv(WithPipe(l.(box := box, contexts := contexts), q), destroyed)
  {
  }

  lemma WithPipeInv(l: Link, destroyed: bool, e: M.Event)
    requires LinkInv(l, destroyed) && PipeLives(l) && M.Enabled(l.pipe.value, e)
    requires !e.LocalRead? && !e.Drained?
    ensures LinkInv(WithPipe(l, M.Step(l.pipe.value, e)), destroyed)
  {
    P.StepInv(l.pipe.value, e);
    PipeAdvances(l.pipe.value, e);
    PipeMoved(l, destroyed, M.Step(l.pipe.value, e), l.box, l.contexts);
  }

  lemma ReadOnInv(l: Link, destroyed: bool, data: Bytes, ok: bool, acks: seq<nat>)
    requires LinkInv(l, destroyed) && LinkEnabled(l, Reads(data, ok, acks))
    ensures LinkInv(ReadOn(l, data, ok, acks), destroyed)
  {
    var p, answer := l.pipe.value, if ok then M.Accepted(acks) else M.Rejected;
    P.ReadInv(p, |data|, answer);
    ReadAdvances(p, |data|, ok, acks);
    PipeMoved(l, destroyed, M.Read(p, |data|, answer), O.Step(l.box, O.Write(data, ok)),
              if ok then l.contexts + {p.up.nextId} - Ids(acks) else l.contexts);
  }

  lemma AckInv(l: Link, destroyed: bool, chunk: nat)
    requires LinkInv(l, destroyed) && LinkEnabled(l, Acked(chunk))
    ensures LinkInv(Ack(l, chunk), destroyed)
  {
    if PipeLives(l) {
      var p := l.pipe.value;
      P.DrainInv(p, chunk);
      DrainAdvances(p, chunk);
      PipeMoved(l, destroyed, M.Drain(p, chunk), l.box, l.contexts - {chunk});
    }
  }

  lemma AdoptedInv(p: M.Pipe)
    requires p == M.Start(M.Initial(), M.Adopted)
    ensures M.Inv(p) && p.started && M.Alive(p) && !p.connectOwed && p.up.lost == 0 && p.up.unacked.Keys == {}
    ensures p.halfCloses == 0 && p.connected && p.up.reading
  {
    P.InitialInv();
    AdoptedFrom(M.Initial(), p);
  }

  lemma AdoptedFrom(i: M.Pipe, p: M.Pipe)
    requires M.Inv(i) && !i.started && i.up.lost == 0 && i.halfCloses == 0 && p == M.Start(i, M.Adopted)
    ensures M.Inv(p) && p.started && M.Alive(p) && !p.connectOwed && p.up.lost == 0 && p.up.unacked.Keys == {}
    ensures p.halfCloses == 0 && p.connected && p.up.reading
  {
    P.StepInv(i, M.Started(M.Adopted));
  }

  lemma PipedInv(l: Link, destroyed: bool, p: M.Pipe)
    requires LinkInv(l, destroyed) && l.stream == Opening && l.held
    requires M.Inv(p) && p.started && M.Alive(p) && !p.connectOwed && p.up.lost == 0 && p.up.unacked.Keys == {}
    requires p.halfCloses == 0
    ensures LinkInv(l.(stream := Open, box := O.Open(l.box), held := false, pipe := Some(p)), destroyed)
  {
  }

  lemma OpenedInv(l: Link, destroyed: bool, ok: bool)
    requires LinkInv(l, destroyed) && l.stream == Opening
    ensures LinkInv(Opened(l, ok), destroyed)
  {
    if l.box.pending != [] && !ok {
      ShutDownInv(l.(stream := Open, box := l.box.(isOpen := true, pending := [])), destroyed);
    } else if l.held {
      var p := M.Start(M.Initial(), M.Adopted);
      AdoptedInv(p);
      PipedInv(l, destroyed, p);
    }
  }

  lemma ClosesInv(l: Link, destroyed: bool)
    requires LinkInv(l, destroyed) && StreamLives(l)
    ensures LinkInv(LinkStep(l, destroyed, Closes), destroyed)
  {
    if PipeLives(l) {
      P.StepInv(l.pipe.value, M.StreamClosed);
      PipeAdvances(l.pipe.value, M.StreamClosed);
    }
  }

  lemma UndialedInv(l: Link, destroyed: bool)
    requires LinkInv(l, destroyed) && l.dialing
    ensures LinkInv(ShutDown(l.(dialing := false)), destroyed)
  {
  }

  lemma LinkStepInv(l: Link, destroyed: bool, e: LinkEvent)
    requires LinkInv(l, destroyed) && LinkEnabled(l, e)
    ensures LinkInv(LinkStep(l, destroyed, e), destroyed)
  {
    match e
    case ConnectDone(_) =>
      if destroyed || !e.outcome.Streaming? {
        UndialedInv(l, destroyed);
      }
    case Opens(ok) => OpenedInv(l, destroyed, ok);
    case Closes => ClosesInv(l, destroyed);
    case PipeDoes(p) => WithPipeInv(l, destroyed, p);
    case Reads(data, ok, acks) => ReadOnInv(l, destroyed, data, ok, acks);
    case Acked(chunk) => AckInv(l, destroyed, chunk);
    case Receives(data, ok) =>
      if PipeLives(l) {
        WithPipeInv(l, destroyed, M.StreamData(data, ok));
      }
    case Writes(_, _) =>
    case ProxyCloses =>
  }

  /** A dial that fails, or ends after `destroy`, leaves nothing owed and no socket open; a flush that fails
      leaves no pipe and a stream asked to close. */
  lemma FailureShutsDown(l: Link, destroyed: bool, e: LinkEvent)
    requires LinkInv(l, destroyed) && LinkEnabled(l, e)
    requires (e.ConnectDone? && (destroyed || !e.outcome.Streaming?)) || (e == Opens(false) && l.box.pending != [])
    ensures var d := LinkStep(l, destroyed, e);
            && !d.held && d.pipe == None
            && (if e.ConnectDone? then !Indebted(d) && (!l.udp ==> SocketCloses(d) == 1) else d.asked)
  {
    LinkStepInv(l, destroyed, e);
  }

  // ---- the whole client --------------------------------------------------------------------

  lemma BegunInv(udp: bool, dialed: bool)
    ensures LinkInv(Begun(udp, dialed), false)
    ensures Indebted(Begun(udp, dialed)) == dialed
  {
  }

  lemma StepInv(c: Client, e: Event)
    requires Inv(c) && Enabled(c, e)
    ensures Inv(Step(c, e))
  {
    match e
    case Begins(udp, dialed) => BegunInv(udp, dialed);
    case At(id, l) => LinkStepInv(c.links[id], c.destroyed, l);
    case Destroys =>
      forall id | id in c.links && !c.destroyed
        ensures LinkInv(Step(c, e).links[id], true)
      {
        if Indebted(c.links[id]) {
          ShutDownInv(c.links[id], false);
        }
      }
  }

  lemma {:induction false} RunInv(c: Client, es: seq<Event>)
    requires Inv(c)
    ensures Inv(Run(c, es))
    decreases |es|
  {
    if es == [] {
    } else {
      if Enabled(c, es[0]) {
        StepInv(c, es[0]);
      }
      RunInv(if Enabled(c, es[0]) then Step(c, es[0]) else c, es[1..]);
    }
  }

  lemma Reachable(es: seq<Event>)
    ensures Inv(Run(Created(), es))
  {
    RunInv(Created(), es);
  }

  /** No callback is left that could change a settled link. */
  lemma SettledStays(l: Link, destroyed: bool, e: LinkEvent)
    requires LinkInv(l, destroyed) && LinkEnabled(l, e) && !Indebted(l)
    ensures LinkStep(l, destroyed, e) == l
  {
  }

  ghost predicate Extends(c: Client, d: Client)
  {
    && c.nextId <= d.nextId
    && (forall id | id in d.links :: id in c.links || id >= c.nextId)
    && forall id | id in c.links :: id in d.links && (!Indebted(c.links[id]) ==> d.links[id] == c.links[id])
  }

  lemma StepExtends(c: Client, e: Event)
    requires Inv(c) && Enabled(c, e)
    ensures Extends(c, Step(c, e))
  {
    if e.At? && !Indebted(c.links[e.id]) {
      SettledStays(c.links[e.id], c.destroyed, e.e);
    }
  }

  lemma {:induction false} RunExtends(c: Client, es: seq<Event>)
    requires Inv(c)
    ensures Extends(c, Run(c, es))
    decreases |es|
  {
    if es == [] {
    } else {
      var d := if Enabled(c, es[0]) then Step(c, es[0]) else c;
      if Enabled(c, es[0]) {
        StepInv(c, es[0]);
        StepExtends(c, es[0]);
      }
      RunExtends(d, es[1..]);
    }
  }

  /** Ids are never reused, and what has settled stays settled, unchanged, whatever happens after. */
  lemma SettledForGood(a: seq<Event>, b: seq<Event>)
    ensures Extends(Run(Created(), a), Run(Run(Created(), a), b))
  {
    Reachable(a);
    RunExtends(Run(Created(), a), b);
  }

  /** The socket of a local connection is closed at most once, whether by the client, for want of a stream,
      or by its pipe; and by the time the connection has settled it has been closed. */
  lemma SocketClosedOnce(es: seq<Event>, id: nat)
    requires id in Run(Created(), es).links
    ensures var l := Run(Created(), es).links[id];
            && SocketCloses(l) <= 1
            && (l.udp ==> SocketCloses(l) == 0)
            && (!l.udp && !Indebted(l) ==> SocketCloses(l) == 1)
  {
    Reachable(es);
  }

  /** A connection does not hang by one side: a stream left without its pipe has been asked to close, as it has
      by the end of the local socket; a stream with a pipe has been exactly when the pipe asked; and a pipe left
      without its stream has been told, or is going anyway. */
  lemma NeitherSideHangs(es: seq<Event>, id: nat)
    requires id in Run(Created(), es).links
    ensures var l := Run(Created(), es).links[id];
            && (!l.udp && l.stream == Open && !(PipeLives(l) && l.pipe.value.cause == None) ==> l.asked)
            && (l.stream == Open && l.pipe.Some? ==> (l.asked <==> l.pipe.value.halfCloses > 0))
            && (l.stream == Open && l.pipe.Some? && l.pipe.value.ended ==> l.asked)
            && (PipeLives(l) && l.stream != Open ==> l.pipe.value.streamClosed || l.pipe.value.cause != None)
  {
    Reachable(es);
  }

  // ---- teardown ----------------------------------------------------------------------------

  /** Answers still to come for a link. */
  function Awaited(l: Link): nat
  {
    (if l.dialing then 1 else 0) + (if StreamLives(l) then 1 else 0)
    + if PipeLives(l) then |l.pipe.value.down.owed| + 1 else 0
  }

  predicate Answers(e: LinkEvent)
  {
    e.ConnectDone? || e.Closes? || (e.PipeDoes? && (e.e.Written? || e.e.Closed?))
  }

  /** After `destroy` nothing new is ever awaited, and every answer brings the end closer. */
  lemma TeardownShrinks(l: Link, e: LinkEvent)
    requires LinkInv(l, true) && LinkEnabled(l, e)
    ensures Awaited(LinkStep(l, true, e)) <= Awaited(l)
    ensures Answers(e) ==> Awaited(LinkStep(l, true, e)) < Awaited(l)
  {
  }

  /** And until a link has settled an answer to it is due: it cannot be stuck. The same holds of any link
      that is done dialing and whose stream has closed. */
  lemma AnswerDue(l: Link, destroyed: bool) returns (e: LinkEvent)
    requires LinkInv(l, destroyed) && Indebted(l)
    requires destroyed || l.stream == Ended
    ensures Answers(e) && LinkEnabled(l, e)
  {
    if l.dialing {
      e := ConnectDone(Refused);
    } else if StreamLives(l) {
      e := Closes;
    } else if l.pipe.value.down.owed != [] {
      e := PipeDoes(M.Written(false));
    } else {
      e := PipeDoes(M.Closed);
    }
  }

  /** So answers alone settle every link of a destroyed client. */
  lemma {:induction false} TeardownSettles(l: Link) returns (es: seq<LinkEvent>)
    requires LinkInv(l, true)
    ensures (forall e | e in es :: Answers(e)) && !Indebted(LinkRun(l, true, es))
    decreases Awaited(l)
  {
    es := [];
    if !Indebted(l) {
    } else {
      var e := AnswerDue(l, true);
      LinkStepInv(l, true, e);
      TeardownShrinks(l, e);
      var rest := TeardownSettles(LinkStep(l, true, e));
      es := [e] + rest;
      assert es[1..] == rest;
    }
  }

  // ---- reading a local socket --------------------------------------------------------------

  function Drains(ids: seq<nat>): seq<LinkEvent>
  {
    seq(|ids|, i requires 0 <= i < |ids| => Acked(ids[i]))
  }

  lemma FirstDrain(l: Link, destroyed: bool, ids: seq<nat>) returns (d: Link)
    requires PipeLives(l) && l.contexts <= l.pipe.value.up.unacked.Keys
    requires l.stream == Open && ids != [] && ids[0] in l.contexts
    ensures PipeLives(d) && d.contexts <= d.pipe.value.up.unacked.Keys
    ensures d.stream == Open && d.contexts == l.contexts - {ids[0]}
    ensures LinkRun(l, destroyed, Drains(ids)) == LinkRun(d, destroyed, Drains(ids[1..]))
    ensures P.DrainAll(l.pipe.value, ids) == P.DrainAll(d.pipe.value, ids[1..])
  {
    d := Ack(l, ids[0]);
    assert Drains(ids)[1..] == Drains(ids[1..]) && ids[0..] == ids;
    P.DrainNext(l.pipe.value, ids, 0);
  }

  lemma {:induction false} DrainsRun(l: Link, destroyed: bool, ids: seq<nat>)
    requires PipeLives(l) && l.contexts <= l.pipe.value.up.unacked.Keys
    requires l.stream == Open && Distinct(ids) && forall id | id in ids :: id in l.contexts
    ensures LinkRun(l, destroyed, Drains(ids)).pipe == Some(P.DrainAll(l.pipe.value, ids))
    decreases |ids|
  {
    if ids == [] {
      P.DrainNone(l.pipe.value, ids);
    } else {
      var d := FirstDrain(l, destroyed, ids);
      assert forall i | 1 <= i < |ids| :: ids[i] != ids[0] && ids[i] in ids;
      DrainsRun(d, destroyed, ids[1..]);
    }
  }

  /** The client swallows no chunk: so a connection whose socket has not ended, and is not being read, has an
      acknowledgement to wait for, and while its stream is open its acknowledgements, in whatever order they
      come, read the socket again. */
  lemma ClientNeverWedges(es: seq<Event>, id: nat, ids: seq<nat>)
    requires id in Run(Created(), es).links
    requires var l := Run(Created(), es).links[id];
             l.pipe.Some? && M.Alive(l.pipe.value) && !l.pipe.value.ended
    ensures var c := Run(Created(), es);
            var l := c.links[id];
            && l.pipe.value.up.lost == 0
            && (!l.pipe.value.up.reading ==> l.pipe.value.up.unacked.Keys != {})
            && (l.stream == Open && Distinct(ids) && Ids(ids) == l.pipe.value.up.unacked.Keys ==>
                  var d := LinkRun(l, c.destroyed, Drains(ids)); d.pipe.Some? && d.pipe.value.up.reading)
  {
    var c := Run(Created(), es);
    var l := c.links[id];
    var u := l.pipe.value.up;
    Reachable(es);
    SumBelowEmpty(u.unacked, u.nextId);
    if l.stream == Open && Distinct(ids) && Ids(ids) == u.unacked.Keys {
      assert forall k | k in ids :: k in Ids(ids);
      DrainsRun(l, c.destroyed, ids);
      P.FireAllFrame(u, true, ids);
      P.DrainsRestart(u, ids);
    }
  }

  /** A socket whose stream opens goes to a pipe that reads it at once; so does no other. */
  lemma OpeningAdopts(es: seq<Event>, id: nat)
    requires Enabled(Run(Created(), es), At(id, Opens(true)))
    ensures var c := Run(Created(), es);
            var l, d := c.links[id], Step(c, At(id, Opens(true))).links[id];
            && l.pipe == None && d.stream == Open && !d.held
            && (l.held <==> d.pipe.Some?) && (!l.udp && !c.destroyed && !l.asked ==> l.held)
            && (l.held ==> M.Alive(d.pipe.value) && d.pipe.value.connected && d.pipe.value.up.reading)
  {
    Reachable(es);
    var p := M.Start(M.Initial(), M.Adopted);
    AdoptedInv(p);
    var l := Run(Created(), es).links[id];
    var d := OpenedWith(l, Run(Created(), es).destroyed, p);
  }

  lemma OpenedWith(l: Link, destroyed: bool, p: M.Pipe) returns (d: Link)
    requires LinkInv(l, destroyed) && l.stream == Opening && p == M.Start(M.Initial(), M.Adopted)
    ensures d == LinkStep(l, destroyed, Opens(true)) && d.stream == Open && !d.held && l.pipe == None
    ensures d.pipe == if l.held then Some(p) else None
  {
    d := LinkStep(l, destroyed, Opens(true));
  }

  /** Sockets accepted in a run. */
  function Accepts(es: seq<Event>): nat
  {
    if es == [] then 0 else (if es[0].Begins? && !es[0].udp then 1 else 0) + Accepts(es[1..])
  }

  ghost function TcpIds(c: Client): set<nat> { set id | id in c.links && !c.links[id].udp }

  lemma SocketsStep(c: Client, e: Event)
    requires Inv(c) && Enabled(c, e)
    ensures var d, now := Step(c, e), if e.Begins? && !e.udp then 1 else 0;
            && |TcpIds(d)| + d.turnedAway == |TcpIds(c)| + c.turnedAway + now
            && (if c.destroyed then d.turnedAway == c.turnedAway + now else d.turnedAway == c.turnedAway)
  {
    match e
    case Begins(udp, dialed) => if !c.destroyed { SocketsBegin(c, udp, dialed); }
    case At(id, l) =>
      UdpStays(c.links[id], c.destroyed, l);
      SameSockets(c, Step(c, e));
    case Destroys => SocketsDestroyed(c);
  }

  lemma SocketsDestroyed(c: Client)
    ensures var d := Step(c, Destroys); TcpIds(d) == TcpIds(c) && d.turnedAway == c.turnedAway
  {
    forall id | id in c.links ensures Step(c, Destroys).links[id].udp == c.links[id].udp {
      UdpShut(c.links[id]);
    }
    SameSockets(c, Step(c, Destroys));
  }

  lemma SocketsBegin(c: Client, udp: bool, dialed: bool)
    requires Inv(c) && !c.destroyed
    ensures |TcpIds(Step(c, Begins(udp, dialed)))| == |TcpIds(c)| + if udp then 0 else 1
  {
    BegunIs(udp, dialed);
    NewSocket(c, Step(c, Begins(udp, dialed)), c.nextId, Begun(udp, dialed));
  }

  lemma NewSocket(c: Client, d: Client, id: nat, l: Link)
    requires id !in c.links && d.links == c.links[id := l]
    ensures |TcpIds(d)| == |TcpIds(c)| + if l.udp then 0 else 1
  {
    assert TcpIds(d) == TcpIds(c) + if l.udp then {} else {id};
  }

  lemma SameSockets(c: Client, d: Client)
    requires d.links.Keys == c.links.Keys && forall id | id in c.links :: d.links[id].udp == c.links[id].udp
    ensures TcpIds(d) == TcpIds(c)
  {
  }

  lemma BegunIs(udp: bool, dialed: bool)
    ensures Begun(udp, dialed).udp == udp
  {
  }

  lemma UdpShut(l: Link)
    ensures ShutDown(l).udp == l.udp
  {
  }

  /** Every socket accepted has become a connection or been closed at once, and none is closed at once before
      `destroy`. */
  lemma {:induction false} EverySocketCounted(c: Client, es: seq<Event>)
    requires Inv(c)
    ensures var d := Run(c, es);
            && |TcpIds(d)| + d.turnedAway == |TcpIds(c)| + c.turnedAway + Accepts(es)
            && (!d.destroyed ==> d.turnedAway == c.turnedAway)
            && (c.destroyed ==> d.turnedAway == c.turnedAway + Accepts(es))
    decreases |es|
  {
    if es == [] {
    } else if Enabled(c, es[0]) {
      StepInv(c, es[0]);
      SocketsStep(c, es[0]);
      EverySocketCounted(Step(c, es[0]), es[1..]);
      StaysDestroyed(Step(c, es[0]), es[1..]);
    } else {
      EverySocketCounted(c, es[1..]);
    }
  }

  lemma {:induction false} StaysDestroyed(c: Client, es: seq<Event>)
    ensures c.destroyed ==> Run(c, es).destroyed
    decreases |es|
  {
    if es == [] {
    } else {
      StaysDestroyed(if Enabled(c, es[0]) then Step(c, es[0]) else c, es[1..]);
    }
  }

  /** A second `destroy` does nothing, whatever happens between the two. */
  lemma DestroyTwice(c: Client, es: seq<Event>)
    ensures var d := Run(Step(c, Destroys), es);
            Step(d, Destroys) == d
  {
    StaysDestroyed(Step(c, Destroys), es);
  }

  // ---- a graceful end ----------------------------------------------------------------------

  /** libuv completes `n` writes to the local socket. */
  function Flushes(n: nat): seq<LinkEvent> { seq(n, _ => PipeDoes(M.Written(true))) }

  lemma Flush(l: Link, destroyed: bool) returns (d: Link)
    requires l.pipe.Some? && M.Inv(l.pipe.value)
    ensures var e := PipeDoes(M.Written(true)); d == if LinkEnabled(l, e) then LinkStep(l, destroyed, e) else l
    ensures d.pipe.Some? && M.Inv(d.pipe.value)
    ensures d.pipe.value == if M.Enabled(l.pipe.value, M.Written(true)) then M.Step(l.pipe.value, M.Written(true))
                            else l.pipe.value
  {
    var e := M.Written(true);
    d := l;
    if M.Enabled(l.pipe.value, e) {
      P.StepInv(l.pipe.value, e);
      d := LinkStep(l, destroyed, PipeDoes(e));
    }
  }

  lemma {:induction false} FlushesRun(l: Link, destroyed: bool, n: nat)
    requires l.pipe.Some? && M.Inv(l.pipe.value)
    ensures LinkRun(l, destroyed, Flushes(n)).pipe == Some(M.Run(l.pipe.value, P.Completions(n)))
    decreases n
  {
    if n > 0 {
      assert Flushes(n)[1..] == Flushes(n - 1) && P.Completions(n)[1..] == P.Completions(n - 1);
      var d := Flush(l, destroyed);
      FlushesRun(d, destroyed, n - 1);
    }
  }

  /** The end of a stream loses nothing that it handed to a live pipe: once libuv has completed what it
      holds, the local socket has received it all, and the pipe has ended as flushed. */
  lemma StreamEndDelivers(es: seq<Event>, id: nat)
    requires id in Run(Created(), es).links
    requires var l := Run(Created(), es).links[id]; StreamLives(l) && l.pipe.Some? && M.Alive(l.pipe.value)
    ensures var c := Run(Created(), es);
            var p := c.links[id].pipe.value;
            var d := Run(c, Ats(id, [Closes] + Flushes(|p.down.owed|)));
            && id in d.links && d.links[id].pipe.Some?
            && d.links[id].pipe.value.cause == Some(M.Flushed)
            && d.links[id].pipe.value.down.delivered == p.down.offered
  {
    var c := Run(Created(), es);
    var l := c.links[id];
    var n := |l.pipe.value.down.owed|;
    Reachable(es);
    LinkRuns(c, id, [Closes] + Flushes(n));
    assert ([Closes] + Flushes(n))[1..] == Flushes(n);
    P.StepInv(l.pipe.value, M.StreamClosed);
    FlushesRun(LinkStep(l, c.destroyed, Closes), c.destroyed, n);
    P.ClosedDelivers(l.pipe.value);
  }

  // ---- drain contexts ----------------------------------------------------------------------

  lemma ContextsStay(l: Link, destroyed: bool, e: LinkEvent)
    requires LinkInv(l, destroyed) && LinkEnabled(l, e) && l.stream == Ended
    ensures var d := LinkStep(l, destroyed, e); d.stream == Ended && d.contexts == l.contexts
  {
  }

  lemma ContextsStep(c: Client, e: Event, id: nat)
    requires Inv(c) && Enabled(c, e) && id in c.links && c.links[id].stream == Ended
    ensures var d := Step(c, e);
            id in d.links && d.links[id].stream == Ended && d.links[id].contexts == c.links[id].contexts
  {
    match e
    case Begins(_, _) =>
    case At(k, l) => if k == id { ContextsStay(c.links[id], c.destroyed, l); }
    case Destroys => ContextsShut(c.links[id]);
  }

  lemma ContextsShut(l: Link)
    ensures ShutDown(l).contexts == l.contexts && ShutDown(l).stream == l.stream
  {
  }

  lemma {:induction false} ContextsRun(c: Client, es: seq<Event>, id: nat)
    requires Inv(c) && id in c.links && c.links[id].stream == Ended
    ensures id in Run(c, es).links && Run(c, es).links[id].contexts == c.links[id].contexts
    decreases |es|
  {
    if es == [] {
    } else if Enabled(c, es[0]) {
      StepInv(c, es[0]);
      ContextsStep(c, es[0], id);
      ContextsRun(Step(c, es[0]), es[1..], id);
    } else {
      ContextsRun(c, es[1..], id);
    }
  }

  /** The contexts alive when a stream closes are never deleted; and while the pipe lives they are exactly
      those of the chunks not acknowledged. */
  lemma LeaksExactly(before: seq<Event>, after: seq<Event>, id: nat)
    requires Enabled(Run(Created(), before), At(id, Closes))
    ensures var c := Run(Created(), before);
            var d := Run(Step(c, At(id, Closes)), after);
            && id in d.links && d.links[id].contexts == c.links[id].contexts
            && (PipeLives(c.links[id]) ==> c.links[id].contexts == c.links[id].pipe.value.up.unacked.Keys)
  {
    var c := Run(Created(), before);
    Reachable(before);
    StepInv(c, At(id, Closes));
    ClosingKeeps(c.links[id], c.destroyed);
    ContextsRun(Step(c, At(id, Closes)), after, id);
  }

  lemma ClosingKeeps(l: Link, destroyed: bool)
    requires LinkInv(l, destroyed) && StreamLives(l)
    ensures var d := LinkStep(l, destroyed, Closes); d.stream == Ended && d.contexts == l.contexts
  {
  }

  /** An open connection that has read `k` chunks of one byte, none of them acknowledged. */
  predicate Flooded(l: Link, k: nat)
  {
    && LinkInv(l, false) && l.stream == Open && l.pipe.Some? && |l.contexts| == k
    && M.Alive(l.pipe.value) && M.Pending(l.pipe.value.up) == k
    && (k < M.STREAM_HIGH_WATER ==> l.pipe.value.up.reading)
  }

  function Gulp(data: Bytes): LinkEvent { Reads(data, true, []) }

  lemma GulpCounts(p: M.Pipe, len: nat)
    requires M.Inv(p) && M.Alive(p) && p.up.reading && 0 < len <= M.READ_MAX
    ensures var q := M.Read(p, len, M.Accepted([]));
            && M.Alive(q) && M.Pending(q.up) == M.Pending(p.up) + len
            && (M.Pending(q.up) < M.STREAM_HIGH_WATER ==> q.up.reading)
            && p.up.nextId !in p.up.unacked
  {
    SumBelowAdd(p.up.unacked, p.up.nextId, len);
  }

  lemma Floods(l: Link, k: nat, data: Bytes)
    requires Flooded(l, k) && k < M.STREAM_HIGH_WATER && |data| == 1
    ensures LinkEnabled(l, Gulp(data)) && Flooded(LinkStep(l, false, Gulp(data)), k + 1)
  {
    assert Ids([]) == {};
    ReadOnInv(l, false, data, true, []);
    GulpCounts(l.pipe.value, 1);
  }

  function Gulps(n: nat, data: Bytes): seq<LinkEvent> { seq(n, _ => Gulp(data)) }

  lemma FirstGulp(l: Link, k: nat, n: nat, data: Bytes) returns (d: Link)
    requires Flooded(l, k) && k < M.STREAM_HIGH_WATER && n > 0 && |data| == 1
    ensures Flooded(d, k + 1) && LinkRun(l, false, Gulps(n, data)) == LinkRun(d, false, Gulps(n - 1, data))
  {
    d := LinkStep(l, false, Gulp(data));
    Floods(l, k, data);
    assert Gulps(n, data)[0] == Gulp(data) && Gulps(n, data)[1..] == Gulps(n - 1, data);
  }

  lemma {:induction false} FloodRun(l: Link, k: nat, n: nat, data: Bytes) returns (d: Link)
    requires Flooded(l, k) && k + n <= M.STREAM_HIGH_WATER && |data| == 1
    ensures d == LinkRun(l, false, Gulps(n, data)) && Flooded(d, k + n)
    decreases n
  {
    if n == 0 {
      d := l;
    } else {
      d := FirstGulp(l, k, n, data);
      d := FloodRun(d, k + 1, n - 1, data);
    }
  }

  function Ats(id: nat, es: seq<LinkEvent>): seq<Event>
  {
    seq(|es|, i requires 0 <= i < |es| => At(id, es[i]))
  }

  lemma {:induction false} LinkRuns(c: Client, id: nat, es: seq<LinkEvent>)
    requires id in c.links
    ensures var d := Run(c, Ats(id, es)); id in d.links && d.links[id] == LinkRun(c.links[id], c.destroyed, es)
    decreases |es|
  {
    if es == [] {
    } else {
      assert Ats(id, es)[1..] == Ats(id, es[1..]);
      LinkRuns(if LinkEnabled(c.links[id], es[0]) then Step(c, At(id, es[0])) else c, id, es[1..]);
    }
  }

  /** A socket accepted, dialed, and adopted by its pipe. */
  lemma OpensFlooded(l: Link)
    requires l == Dialed(false)
    ensures LinkEnabled(l, ConnectDone(Streaming))
    ensures LinkEnabled(LinkStep(l, false, ConnectDone(Streaming)), Opens(true))
    ensures Flooded(LinkStep(LinkStep(l, false, ConnectDone(Streaming)), false, Opens(true)), 0)
  {
    var l1 := LinkStep(l, false, ConnectDone(Streaming));
    var p := M.Start(M.Initial(), M.Adopted);
    AdoptedInv(p);
    SumBelowEmpty(p.up.unacked, p.up.nextId);
    LinkStepInv(l1, false, Opens(true));
  }

  /** Far from one at most, any number of contexts up to 262144 may be left behind by one stream. */
  lemma ContextsLeak(n: nat) returns (es: seq<Event>)
    requires n <= 262144
    ensures var c := Run(Created(), es);
            && Enabled(c, At(FIRST_ID, Closes)) && |c.links[FIRST_ID].contexts| == n
  {
    var data: Bytes := [0];
    var gulps := Gulps(n, data);
    var l := Dialed(false);
    var dial, opens := ConnectDone(Streaming), Opens(true);
    OpensFlooded(l);
    var open := LinkStep(LinkStep(l, false, dial), false, opens);
    var flooded := FloodRun(open, 0, n, data);
    var all := [dial, opens] + gulps;
    assert all[1..][0] == opens && all[1..][1..] == gulps;
    assert LinkRun(l, false, all) == LinkRun(open, false, gulps);
    var c := Step(Created(), Begins(false, true));
    LinkRuns(c, FIRST_ID, all);
    es := [Begins(false, true)] + Ats(FIRST_ID, all);
    assert es[1..] == Ats(FIRST_ID, all);
  }

  // ---- the bytes of a local socket ---------------------------------------------------------

  function ReadNow(e: LinkEvent): Bytes { if e.Reads? then e.data else [] }

  /** Everything a run reads from one connection's socket. */
  function BytesRead(c: Client, es: seq<Event>, id: nat): Bytes
    decreases |es|
  {
    if es == [] then []
    else if !Enabled(c, es[0]) then BytesRead(c, es[1..], id)
    else (if es[0].At? && es[0].id == id then ReadNow(es[0].e) else []) + BytesRead(Step(c, es[0]), es[1..], id)
  }

  /** The stream has been given all that was read, but what failed, and that was the last of it. */
  predicate Carries(l: Link, read: Bytes)
  {
    !l.udp ==>
      && l.box.wire <= read && |read| <= |l.box.wire| + M.READ_MAX
      && (l.box.wire != read ==> l.pipe.Some? && l.pipe.value.cause == Some(M.Torn))
  }

  lemma CauseStays(l: Link, destroyed: bool, e: LinkEvent)
    requires LinkInv(l, destroyed) && LinkEnabled(l, e) && l.pipe.Some? && l.pipe.value.cause != None
    ensures var d := LinkStep(l, destroyed, e); d.pipe.Some? && d.pipe.value.cause == l.pipe.value.cause
  {
    match e
    case ConnectDone(_) =>
    case Opens(_) =>
    case Closes => if PipeLives(l) { P.StepMoves(l.pipe.value, M.StreamClosed); }
    case PipeDoes(p) => P.StepMoves(l.pipe.value, p);
    case Reads(_, _, _) =>
    case Acked(_) =>
    case Receives(data, ok) => if PipeLives(l) { P.StepMoves(l.pipe.value, M.StreamData(data, ok)); }
    case Writes(_, _) =>
    case ProxyCloses =>
  }

  lemma WireStays(l: Link, destroyed: bool, e: LinkEvent)
    requires LinkInv(l, destroyed) && LinkEnabled(l, e) && !l.udp && !e.Reads?
    ensures LinkStep(l, destroyed, e).box.wire == l.box.wire
  {
    LinkBoxStep(l, destroyed, e);
    if e.Opens? {
      assert [O.Opens(e.ok)][1..] == [] && l.box.wire + [] == l.box.wire;
    }
  }

  lemma CarriesStep(l: Link, destroyed: bool, e: LinkEvent, read: Bytes)
    requires LinkInv(l, destroyed) && LinkEnabled(l, e) && Carries(l, read)
    ensures Carries(LinkStep(l, destroyed, e), read + ReadNow(e))
  {
    UdpStays(l, destroyed, e);
    assert read + [] == read;
    if !l.udp && !e.Reads? {
      WireStays(l, destroyed, e);
      if l.box.wire != read {
        CauseStays(l, destroyed, e);
      }
    }
  }

  lemma UdpStays(l: Link, destroyed: bool, e: LinkEvent)
    requires LinkInv(l, destroyed) && LinkEnabled(l, e)
    ensures LinkStep(l, destroyed, e).udp == l.udp
  {
  }

  lemma CarriesDestroy(l: Link, read: Bytes)
    requires Carries(l, read)
    ensures Carries(ShutDown(l), read)
  {
  }

  lemma CarriesAll(c: Client, e: Event, id: nat, read: Bytes)
    requires Inv(c) && Enabled(c, e) && (if id in c.links then Carries(c.links[id], read) else read == [])
    ensures var d, now := Step(c, e), read + if e.At? && e.id == id then ReadNow(e.e) else [];
            if id in d.links then Carries(d.links[id], now) else now == []
  {
    assert read + [] == read;
    match e
    case Begins(_, _) =>
    case At(k, l) => if k == id { CarriesStep(c.links[id], c.destroyed, l, read); }
    case Destroys => if id in c.links { CarriesDestroy(c.links[id], read); }
  }

  lemma {:induction false} CarriesRun(c: Client, es: seq<Event>, id: nat, read: Bytes)
    requires Inv(c) && (if id in c.links then Carries(c.links[id], read) else read == [])
    ensures var d, now := Run(c, es), read + BytesRead(c, es, id);
            if id in d.links then Carries(d.links[id], now) else now == []
    decreases |es|
  {
    if es == [] {
      assert read + [] == read;
    } else if Enabled(c, es[0]) {
      var now := if es[0].At? && es[0].id == id then ReadNow(es[0].e) else [];
      StepInv(c, es[0]);
      CarriesAll(c, es[0], id, read);
      Regroup(read, now, BytesRead(Step(c, es[0]), es[1..], id));
      CarriesRun(Step(c, es[0]), es[1..], id, read + now);
    } else {
      CarriesRun(c, es[1..], id, read);
    }
  }

  /** Over every run, the stream of a local connection has been given, in order, exactly what its socket has
      been read for; save for one last chunk if the write of it failed, which has torn the pipe down. */
  lemma StreamGetsReads(es: seq<Event>, id: nat)
    requires id in Run(Created(), es).links && !Run(Created(), es).links[id].udp
    ensures var l, read := Run(Created(), es).links[id], BytesRead(Created(), es, id);
            && l.box.wire <= read && |read| <= |l.box.wire| + 65536
            && (l.box.wire != read ==> l.pipe.Some? && l.pipe.value.cause == Some(M.Torn))
  {
    CarriesRun(Created(), es, id, []);
    assert [] + BytesRead(Created(), es, id) == BytesRead(Created(), es, id);
  }

  // ---- the stream of a UDP source ----------------------------------------------------------

  /** What the writes and the opening of a link are to its buffer. */
  function LinkOps(l: Link, e: LinkEvent): seq<O.Op>
  {
    if e.Opens? then [O.Opens(e.ok)]
    else if e.Reads? then [O.Write(e.data, e.ok)]
    else if !e.Writes? then []
    else if l.dialing || StreamLives(l) then [O.Write(e.data, e.ok)]
    else [O.Late(e.data)]
  }

  /** And those of one connection in a run of the client. */
  function BufferOps(c: Client, es: seq<Event>, id: nat): seq<O.Op>
    decreases |es|
  {
    if es == [] then []
    else if !Enabled(c, es[0]) then BufferOps(c, es[1..], id)
    else
      (if es[0].At? && es[0].id == id then LinkOps(c.links[id], es[0].e) else [])
      + BufferOps(Step(c, es[0]), es[1..], id)
  }

  function Box(c: Client, id: nat): O.Outbox
  {
    if id in c.links then c.links[id].box else O.Fresh(O.MAX_PENDING)
  }

  lemma LinkBoxStep(l: Link, destroyed: bool, e: LinkEvent)
    requires LinkInv(l, destroyed) && LinkEnabled(l, e)
    ensures LinkStep(l, destroyed, e).box == O.Run(l.box, LinkOps(l, e))
  {
    if LinkOps(l, e) != [] {
      assert LinkOps(l, e)[1..] == [];
    }
  }

  lemma BoxStep(c: Client, e: Event, id: nat)
    requires Inv(c) && Enabled(c, e)
    ensures Box(Step(c, e), id)
            == O.Run(Box(c, id), if e.At? && e.id == id then LinkOps(c.links[id], e.e) else [])
  {
    if e.At? && e.id == id {
      LinkBoxStep(c.links[id], c.destroyed, e.e);
    }
  }

  lemma {:induction false} RunAppend(c: Client, a: seq<Event>, b: seq<Event>)
    ensures Run(c, a + b) == Run(Run(c, a), b)
    decreases |a|
  {
    if a == [] {
      assert a + b == b;
    } else {
      assert (a + b)[0] == a[0] && (a + b)[1..] == a[1..] + b;
      RunAppend(if Enabled(c, a[0]) then Step(c, a[0]) else c, a[1..], b);
    }
  }

  lemma {:induction false} BufferOpsAppend(c: Client, a: seq<Event>, b: seq<Event>, id: nat)
    ensures BufferOps(c, a + b, id) == BufferOps(c, a, id) + BufferOps(Run(c, a), b, id)
    decreases |a|
  {
    if a == [] {
      assert a + b == b;
    } else {
      assert (a + b)[0] == a[0] && (a + b)[1..] == a[1..] + b;
      BufferOpsAppend(if Enabled(c, a[0]) then Step(c, a[0]) else c, a[1..], b, id);
      if Enabled(c, a[0]) {
        Regroup(if a[0].At? && a[0].id == id then LinkOps(c.links[id], a[0].e) else [],
                BufferOps(Step(c, a[0]), a[1..], id), BufferOps(Run(Step(c, a[0]), a[1..]), b, id));
      }
    }
  }

  lemma {:induction false} OpsAppend(b: O.Outbox, first: seq<O.Op>, more: seq<O.Op>)
    ensures O.Run(b, first + more) == O.Run(O.Run(b, first), more)
    decreases |first|
  {
    if first == [] {
      assert first + more == more;
    } else {
      assert (first + more)[1..] == first[1..] + more;
      OpsAppend(O.Step(b, first[0]), first[1..], more);
    }
  }

  /** Whatever befalls the client, a connection's buffer does what PreOpen says of the writes made and the
      answers they got: so its stream has been given whole writes, in order, across the moment it opened. */
  lemma {:induction false} BufferFollows(c: Client, es: seq<Event>, id: nat)
    requires Inv(c)
    ensures Box(Run(c, es), id) == O.Run(Box(c, id), BufferOps(c, es, id))
    decreases |es|
  {
    if es == [] {
    } else {
      if Enabled(c, es[0]) {
        StepInv(c, es[0]);
        BoxStep(c, es[0], id);
        BufferFollows(Step(c, es[0]), es[1..], id);
        OpsAppend(Box(c, id), if es[0].At? && es[0].id == id then LinkOps(c.links[id], es[0].e) else [],
                  BufferOps(Step(c, es[0]), es[1..], id));
      } else {
        BufferFollows(c, es[1..], id);
      }
    }
  }

  /** So over any run of the client, failed writes, failed flushes and `destroy` included, the stream of a
      UDP source has been given whole datagrams out of those written, in order, and the far end, however the
      bytes arrive, puts out those and no others. */
  lemma UdpLinkDelivers(es: seq<Event>, id: nat, datagrams: seq<Bytes>, chunks: seq<Bytes>)
    returns (kept: seq<Bytes>)
    requires id in Run(Created(), es).links
    requires O.Writes(BufferOps(Created(), es, id)) == T.Framed(datagrams) && F.Legal(datagrams)
    requires Concat(chunks) <= Run(Created(), es).links[id].box.wire
    ensures var wire, far := Run(Created(), es).links[id].box.wire, F.PushAll([], chunks);
            && T.Framed(kept) == O.HoldAll(O.Nothing(262144), BufferOps(Created(), es, id)).taken
            && O.Subsequence(kept, datagrams) && wire == F.Wire(kept)
            && far.ok && far.frames <= kept
            && (Concat(chunks) == wire ==> far.frames == kept && far.rest == [])
  {
    BufferFollows(Created(), es, id);
    kept := T.TunnelDelivers(O.MAX_PENDING, BufferOps(Created(), es, id), datagrams, chunks);
  }

  // ---- what the proxy hears ----------------------------------------------------------------

  function Told(c: Client, id: nat): seq<ProxyCall>
  {
    if id in c.links then c.links[id].told else []
  }

  /** The bytes passed on, joined. */
  function Passed(calls: seq<ProxyCall>): Bytes
  {
    if calls == [] then [] else (if calls[0].ProxyData? then calls[0].data else []) + Passed(calls[1..])
  }

  lemma {:induction false} PassedSnoc(calls: seq<ProxyCall>, call: ProxyCall)
    ensures Passed(calls + [call]) == Passed(calls) + if call.ProxyData? then call.data else []
  {
    if calls == [] {
      assert calls + [call] == [call];
    } else {
      assert (calls + [call])[1..] == calls[1..] + [call];
      PassedSnoc(calls[1..], call);
    }
  }

  /** What one event makes a connection tell the proxy. */
  function CallsNow(l: Link, destroyed: bool, e: LinkEvent): seq<ProxyCall>
  {
    if !l.udp then []
    else
      match e
      case ConnectDone(outcome) => if destroyed || !outcome.Streaming? then [ProxyEnd] else []
      case Opens(ok) => if l.box.pending != [] && !ok then [ProxyEnd] else []
      case Closes => [ProxyEnd]
      case Receives(data, _) => if data == [] then [] else [ProxyData(data)]
      case _ => []
  }

  function ReceivedNow(l: Link, e: LinkEvent): Bytes
  {
    if l.udp && e.Receives? then e.data else []
  }

  /** The bytes one stream brings a UDP source over a run. */
  function Received(c: Client, es: seq<Event>, id: nat): Bytes
    decreases |es|
  {
    if es == [] then []
    else if !Enabled(c, es[0]) then Received(c, es[1..], id)
    else
      (if es[0].At? && es[0].id == id then ReceivedNow(c.links[id], es[0].e) else [])
      + Received(Step(c, es[0]), es[1..], id)
  }

  lemma ToldShutDown(l: Link)
    ensures ShutDown(l).told == l.told + if l.udp then [ProxyEnd] else []
  {
    assert CloseSocket(l).told == l.told && l.told + [] == l.told;
    ToldSides(TellProxy(CloseSocket(l), ProxyEnd));
  }

  lemma ToldSides(l: Link)
    ensures CloseSides(l).told == l.told
  {
  }

  lemma ToldOpened(l: Link, ok: bool)
    requires l.stream == Opening
    ensures Opened(l, ok).told == l.told + CallsNow(l, false, Opens(ok))
  {
    if l.box.pending != [] && !ok {
      ToldShutDown(l.(stream := Open, box := l.box.(isOpen := true, pending := [])));
    }
  }

  lemma ToldClosed(l: Link, destroyed: bool)
    requires LinkInv(l, destroyed) && StreamLives(l)
    ensures LinkStep(l, destroyed, Closes).told == l.told + CallsNow(l, destroyed, Closes)
  {
    var l' := l.(stream := Ended);
    if PipeLives(l) {
      ToldWithPipe(l', M.StreamClose(l'.pipe.value));
    } else {
      ToldShutDown(l');
    }
  }

  lemma ToldWithPipe(l: Link, p: M.Pipe)
    requires l.pipe.Some?
    ensures WithPipe(l, p).told == l.told
  {
  }

  lemma ToldLink(l: Link, destroyed: bool, e: LinkEvent)
    requires LinkInv(l, destroyed) && LinkEnabled(l, e)
    ensures LinkStep(l, destroyed, e).told == l.told + CallsNow(l, destroyed, e)
  {
    assert l.told + [] == l.told;
    match e
    case ConnectDone(_) => ToldShutDown(l.(dialing := false));
    case Opens(ok) => ToldOpened(l, ok);
    case Closes => ToldClosed(l, destroyed);
    case PipeDoes(_) =>
    case Reads(_, _, _) =>
    case Acked(_) =>
    case Receives(_, _) =>
    case Writes(_, _) =>
    case ProxyCloses =>
  }

  lemma PassedLink(l: Link, destroyed: bool, e: LinkEvent)
    requires LinkInv(l, destroyed) && LinkEnabled(l, e)
    ensures Passed(LinkStep(l, destroyed, e).told) == Passed(l.told) + ReceivedNow(l, e)
  {
    var now := CallsNow(l, destroyed, e);
    ToldLink(l, destroyed, e);
    assert l.told + [] == l.told && Passed(l.told) + [] == Passed(l.told);
    if now != [] {
      PassedSnoc(l.told, now[0]);
    }
  }

  lemma ToldStep(c: Client, e: Event, id: nat)
    requires Inv(c) && Enabled(c, e)
    ensures Passed(Told(Step(c, e), id))
            == Passed(Told(c, id)) + if e.At? && e.id == id then ReceivedNow(c.links[id], e.e) else []
  {
    assert Passed(Told(c, id)) + [] == Passed(Told(c, id));
    match e
    case Begins(udp, _) => PassedSnoc([], ProxyEnd);
    case At(at, l) =>
      if at == id {
        PassedLink(c.links[id], c.destroyed, l);
      }
    case Destroys =>
      if id in c.links {
        ToldShutDown(c.links[id]);
        PassedSnoc(c.links[id].told, ProxyEnd);
        assert c.links[id].told + [] == c.links[id].told;
      }
  }

  lemma {:induction false} PassedOn(c: Client, es: seq<Event>, id: nat)
    requires Inv(c)
    ensures Passed(Told(Run(c, es), id)) == Passed(Told(c, id)) + Received(c, es, id)
    decreases |es|
  {
    if es == [] {
    } else {
      if Enabled(c, es[0]) {
        StepInv(c, es[0]);
        ToldStep(c, es[0], id);
        PassedOn(Step(c, es[0]), es[1..], id);
        Regroup(Passed(Told(c, id)), if es[0].At? && es[0].id == id then ReceivedNow(c.links[id], es[0].e) else [],
                Received(Step(c, es[0]), es[1..], id));
      } else {
        PassedOn(c, es[1..], id);
      }
    }
  }

  /** The proxy is passed every byte the stream of a UDP source brings, in order, and by the time the
      connection has settled the last it has heard is that the stream has ended. */
  lemma ProxyHears(es: seq<Event>, id: nat)
    requires id in Run(Created(), es).links
    ensures var l := Run(Created(), es).links[id];
            && Passed(l.told) == Received(Created(), es, id)
            && (!l.udp ==> l.told == [])
            && (l.udp && !Indebted(l) ==> l.told != [] && l.told[|l.told| - 1] == ProxyEnd)
  {
    Reachable(es);
    PassedOn(Created(), es, id);
    assert Passed([]) + Received(Created(), es, id) == Received(Created(), es, id);
  }

  /** Giving a stream up only asks it to close: until it has, it goes on bringing bytes under the address,
      and then an end, although the proxy may have opened another for that address meanwhile. */
  lemma GivenUpStillSpeaks(l: Link, destroyed: bool, data: Bytes, ok: bool, late: Bytes)
    requires LinkInv(l, destroyed) && l.udp && StreamLives(l) && late != []
    ensures var d := LinkRun(l, destroyed, [Writes(data, ok), ProxyCloses]);
            && d.asked
            && LinkEnabled(d, Receives(late, true)) && LinkEnabled(d, Closes)
            && LinkStep(d, destroyed, Receives(late, true)).told == l.told + [ProxyData(late)]
            && LinkStep(d, destroyed, Closes).told == l.told + [ProxyEnd]
  {
    var writes, closes := Writes(data, ok), ProxyCloses;
    assert [writes, closes][1..] == [closes] && [closes][1..] == [];
    var d := LinkStep(l, destroyed, writes);
    assert LinkRun(d, destroyed, [closes]) == LinkStep(d, destroyed, closes);
  }
}
