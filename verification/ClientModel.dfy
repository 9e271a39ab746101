/**
 The connections of the client (src/client.cpp), told without its map: the whole history of each
 connection ever begun, and the three debts the outside world may still owe it. A link is settled when a
 connect callback is not owed, its stream is not open, and its pipe has reported its end.
 */
module ClientModel {
  import opened Common
  import O = PreOpen
  import M = PipeModel

  datatype Stream = NoStream | Opening | Open | Ended

  /** Calls the stream of a UDP source makes on the proxy, under the source's address. */
  datatype ProxyCall = ProxyData(data: Bytes) | ProxyEnd

  datatype Link = Link(
    udp: bool,
    dialing: bool,             // a connect callback is owed
    stream: Stream,
    asked: bool,               // hyperdht_stream_close has been called
    held: bool,                // the accepted socket waits for the stream
    shuts: nat,                // uv_close calls on the accepted socket by anyone but the pipe
    pipe: Option<M.Pipe>,
    box: O.Outbox,
    contexts: set<nat>,        // chunks of the pipe with a live drain context
    told: seq<ProxyCall>)      // the proxy's calls, in order

  function Dialed(udp: bool): Link
  {
    Link(udp, true, NoStream, false, !udp, 0, None, O.Fresh(O.MAX_PENDING), {}, [])
  }

  predicate StreamLives(l: Link) { l.stream == Opening || l.stream == Open }

  predicate PipeLives(l: Link) { l.pipe.Some? && l.pipe.value.notices == 0 }

  predicate Indebted(l: Link) { l.dialing || StreamLives(l) || PipeLives(l) }

  /** Times the local socket has been closed, by the client or by its pipe. */
  function SocketCloses(l: Link): nat
  {
    l.shuts + if l.pipe.Some? then l.pipe.value.closes else 0
  }

  // ---- one link ----------------------------------------------------------------------------

  function AskClose(l: Link): Link
  {
    if StreamLives(l) then l.(asked := true) else l
  }

  /** The pipe moves on; each of its half-closes asks the stream to close. */
  function WithPipe(l: Link, p: M.Pipe): Link
    requires l.pipe.Some?
  {
    var l' := l.(pipe := Some(p));
    if p.halfCloses > l.pipe.value.halfCloses then AskClose(l') else l'
  }

  function CloseSocket(l: Link): Link
  {
    if l.held then l.(held := false, shuts := l.shuts + 1) else l
  }

  function TellProxy(l: Link, call: ProxyCall): Link
  {
    if l.udp then l.(told := l.told + [call]) else l
  }

  function CloseSides(l: Link): Link
  {
    if PipeLives(l) then WithPipe(l, M.Destroy(l.pipe.value, M.Torn)) else AskClose(l)
  }

  function ShutDown(l: Link): Link
  {
    CloseSides(TellProxy(CloseSocket(l), ProxyEnd))
  }

  datatype Outcome = Refused | NoWrapper | Streaming

  datatype LinkEvent =
    | ConnectDone(outcome: Outcome)
    | Opens(ok: bool)
    | Closes
    | PipeDoes(e: M.Event)
    | Reads(data: Bytes, ok: bool, acks: seq<nat>)    // the pipe reads its socket and writes the stream
    | Acked(chunk: nat)                               // hyperdht runs the drain callback of a write
    | Receives(data: Bytes, ok: bool)
    | Writes(data: Bytes, ok: bool)     // the UDP proxy writes
    | ProxyCloses                       // the UDP proxy gives the stream up

  /** What may happen next to a link. hyperdht calls back once per dial and once per close, opens a stream
      at most once, and says nothing after it has closed it. */
  predicate LinkEnabled(l: Link, e: LinkEvent)
  {
    match e
    case ConnectDone(_) => l.dialing
    case Opens(_) => l.stream == Opening
    case Closes => StreamLives(l)
    case PipeDoes(p) =>
      && PipeLives(l) && M.Enabled(l.pipe.value, p)
      && (p.LocalEof? || p.LocalError? || p.Written? || p.Closed?)
    case Reads(data, ok, acks) =>
      && PipeLives(l) && l.pipe.value.up.reading && 0 < |data| <= M.READ_MAX
      && (ok ==> l.stream == Open && Distinct(acks) && Ids(acks) <= l.contexts + {l.pipe.value.up.nextId})
    case Acked(chunk) => l.stream == Open && chunk in l.contexts
    case Receives(_, _) => StreamLives(l)
    case Writes(_, _) => l.udp
    case ProxyCloses => l.udp
  }

  function Opened(l: Link, ok: bool): Link
  {
    if l.box.pending != [] && !ok then
      ShutDown(l.(stream := Open, box := l.box.(isOpen := true, pending := [])))
    else Adopt(l.(stream := Open, box := O.Open(l.box)))
  }

  /** The accepted socket, if there is one, passes to a pipe. */
  function Adopt(l: Link): Link
  {
    if l.held then l.(held := false, pipe := Some(M.Start(M.Initial(), M.Adopted))) else l
  }

  function Written(l: Link, data: Bytes, ok: bool): Link
  {
    if !l.dialing && !StreamLives(l) then l
    else if O.Refuses(l.box, data) || (l.box.isOpen && !ok) then l
    else l.(box := O.Put(l.box, data))
  }

  /** A chunk is written to the stream; its context is deleted at once if the write fails. */
  function Submit(l: Link, data: Bytes, ok: bool, acks: seq<nat>): Link
    requires l.pipe.Some?
  {
    l.(box := O.Step(l.box, O.Write(data, ok)),
       contexts := if ok then l.contexts + {l.pipe.value.up.nextId} - Ids(acks) else l.contexts)
  }

  /** A chunk goes from the socket to the stream. */
  function ReadOn(l: Link, data: Bytes, ok: bool, acks: seq<nat>): Link
    requires l.pipe.Some?
  {
    WithPipe(Submit(l, data, ok, acks),
             M.Read(l.pipe.value, |data|, if ok then M.Accepted(acks) else M.Rejected))
  }

  /** The context is deleted whatever has become of the pipe. */
  function Ack(l: Link, chunk: nat): Link
  {
    var l' := l.(contexts := l.contexts - {chunk});
    if PipeLives(l') then WithPipe(l', M.Drain(l'.pipe.value, chunk)) else l'
  }

  function LinkStep(l: Link, destroyed: bool, e: LinkEvent): Link
    requires LinkEnabled(l, e)
  {
    match e
    case ConnectDone(outcome) =>
      var l' := l.(dialing := false);
      if destroyed || !outcome.Streaming? then ShutDown(l') else l'.(stream := Opening)
    case Opens(ok) => Opened(l, ok)
    case Closes =>
      var l' := l.(stream := Ended);
      if PipeLives(l') then WithPipe(l', M.StreamClose(l'.pipe.value)) else ShutDown(l')
    case PipeDoes(p) => WithPipe(l, M.Step(l.pipe.value, p))
    case Reads(data, ok, acks) => ReadOn(l, data, ok, acks)
    case Acked(chunk) => Ack(l, chunk)
    case Receives(data, ok) =>
      if l.udp then if data == [] then l else TellProxy(l, ProxyData(data))
      else if PipeLives(l) then WithPipe(l, M.Data(l.pipe.value, data, ok))
      else l
    case Writes(data, ok) => Written(l, data, ok)
    case ProxyCloses => AskClose(l)
  }

  /** Any sequence of events, those that cannot happen being passed over. */
  function LinkRun(l: Link, destroyed: bool, es: seq<LinkEvent>): Link
    decreases |es|
  {
    if es == [] then l
    else LinkRun(if LinkEnabled(l, es[0]) then LinkStep(l, destroyed, es[0]) else l, destroyed, es[1..])
  }

  // ---- the client --------------------------------------------------------------------------

  const FIRST_ID := 1

  /** Every link ever begun, by its id, and the sockets accepted after `destroy`, which are closed. */
  datatype Client = Client(nextId: nat, destroyed: bool, links: map<nat, Link>, turnedAway: nat)

  function Created(): Client { Client(FIRST_ID, false, map[], 0) }

  datatype Event =
    | Begins(udp: bool, dialed: bool)   // a local connection, or a datagram from a new source
    | At(id: nat, e: LinkEvent)
    | Destroys

  predicate Enabled(c: Client, e: Event)
  {
    e.At? ==> e.id in c.links && LinkEnabled(c.links[e.id], e.e)
  }

  function Begun(udp: bool, dialed: bool): Link
  {
    if dialed then Dialed(udp) else ShutDown(Dialed(udp).(dialing := false))
  }

  function Step(c: Client, e: Event): Client
    requires Enabled(c, e)
  {
    match e
    case Begins(udp, dialed) =>
      if c.destroyed then c.(turnedAway := c.turnedAway + if udp then 0 else 1)
      else c.(nextId := c.nextId + 1, links := c.links[c.nextId := Begun(udp, dialed)])
    case At(id, e) => c.(links := c.links[id := LinkStep(c.links[id], c.destroyed, e)])
    case Destroys =>
      if c.destroyed then c
      else c.(destroyed := true,
              links := map id | id in c.links ::
                if Indebted(c.links[id]) then ShutDown(c.links[id]) else c.links[id])
  }

  function Run(c: Client, es: seq<Event>): Client
    decreases |es|
  {
    if es == [] then c
    else Run(if Enabled(c, es[0]) then Step(c, es[0]) else c, es[1..])
  }

  /** Every event can happen when its turn comes. */
  predicate Feasible(c: Client, es: seq<Event>)
    decreases |es|
  {
    es == [] || (Enabled(c, es[0]) && Feasible(Step(c, es[0]), es[1..]))
  }

  // ---- invariants --------------------------------------------------------------------------

  /** Dial, stream and socket succeed one another. */
  predicate Stages(l: Link)
  {
    && (l.dialing ==> l.stream == NoStream)
    && (l.stream == NoStream || l.stream == Opening ==> !l.box.isOpen)
    && (l.stream == Open ==> l.box.isOpen)
    && (l.asked ==> l.stream != NoStream)
    && (l.held ==> !l.udp && !l.box.isOpen && !l.asked && (l.dialing || l.stream == Opening))
    && (l.udp ==> l.pipe == None)
    && (l.box.isOpen ==> l.box.pending == [])
    && |l.box.pending| <= l.box.cap == O.MAX_PENDING
    && (!l.udp ==> l.box.pending == [])
  }

  /** The accepted socket is held, or was closed once, or went to a pipe. */
  predicate Socket(l: Link)
  {
    && (l.pipe.Some? ==> !l.held && l.shuts == 0 && l.box.isOpen)
    && l.shuts == (if l.udp || l.held || l.pipe.Some? then 0 else 1)
  }

  /** Neither side outlives the other without having been told to end. */
  predicate EndsTogether(l: Link)
  {
    && (l.pipe.Some? ==>
          && M.Inv(l.pipe.value) && l.pipe.value.started && l.pipe.value.handle != M.Absent
          && !l.pipe.value.connectOwed && l.pipe.value.up.lost == 0
          && (l.stream == Open ==> (l.asked <==> l.pipe.value.halfCloses > 0))
          && (l.stream == Ended ==> l.pipe.value.streamClosed || l.pipe.value.cause != None))
    && (l.pipe == None && !l.udp && !l.held && StreamLives(l) ==> l.asked)
  }

  /** After `destroy` nothing is waited for but answers. */
  predicate AllAsked(l: Link)
  {
    && !l.held
    && (StreamLives(l) ==> l.asked)
    && (PipeLives(l) ==> l.pipe.value.cause != None)
  }

  /** The last the proxy hears of a source's stream is that it has ended. */
  predicate Heard(l: Link)
  {
    && (!l.udp ==> l.told == [])
    && (l.udp && !Indebted(l) ==> l.told != [] && l.told[|l.told| - 1] == ProxyEnd)
  }

  /** While its pipe lives, a context is live exactly while its chunk is unacknowledged. */
  predicate Accounts(l: Link)
  {
    if l.pipe == None then l.contexts == {}
    else
      && l.contexts <= l.pipe.value.up.unacked.Keys
      && (PipeLives(l) ==> l.contexts == l.pipe.value.up.unacked.Keys)
  }

  predicate LinkInv(l: Link, destroyed: bool)
  {
    && Stages(l) && Socket(l) && EndsTogether(l) && Heard(l) && Accounts(l)
    && (if destroyed then AllAsked(l) else l.dialing ==> l.held || l.udp)
  }

  ghost predicate Inv(c: Client)
  {
    && FIRST_ID <= c.nextId
    && (forall id :: id in c.links <==> FIRST_ID <= id < c.nextId)
    && forall id | id in c.links :: LinkInv(c.links[id], c.destroyed)
  }
}
