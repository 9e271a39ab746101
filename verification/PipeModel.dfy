/**
 The abstract machine behind `TcpPipe` (src/pipe.cpp): what each callback does, told in terms of the
 queues the outside world still owes answers for, and no counters at all.

 Downward is stream to local socket: `owed` holds the writes libuv has accepted and not completed.
 Upward is local socket to stream: `unacked` holds the chunks whose drain may still fire.
 */
module PipeModel {
  import opened Common

  const HIGH_WATER := 65536
  const STREAM_HIGH_WATER := 262144
  const READ_MAX := 65536

  datatype Handle = Absent | Live | Closing | Gone

  /** Flow-control calls the pipe makes on its stream. */
  datatype Flow = Pause | Resume

  /** What made the first `destroy` happen. */
  datatype Cause = Flushed | Torn

  /** How a local handle comes to be: `connect` in its four outcomes, or `adopt`. */
  datatype Origin = InitFailed | SetupFailed | Dialing | Adopted

  /** What the stream's `write` did with a chunk: took it (firing these drains before returning),
      said so without ever keeping the drain, or failed. */
  datatype Answer = Accepted(acks: seq<nat>) | Swallowed | Rejected

  /** Local socket to stream. Chunks are named by the order they were read in. */
  datatype Upstream = Upstream(
    reading: bool,
    unacked: map<nat, nat>,  // length of each submitted chunk whose drain may still fire
    nextId: nat,
    lost: nat,               // bytes counted whose drain will never fire
    fired: seq<nat>)         // chunks drained so far, in order

  /** Stream to local socket. */
  datatype Downstream = Downstream(
    owed: seq<Bytes>,        // writes accepted by libuv and not completed, oldest first
    offered: Bytes,          // everything the stream handed over while the pipe was alive
    delivered: Bytes,        // everything completed to the local socket
    flow: seq<Flow>)         // pauses and resumes so far, in order

  datatype Pipe = Pipe(
    started: bool,
    handle: Handle,
    connectOwed: bool,
    connected: bool,
    ended: bool,             // the local socket has reported end of file
    streamClosed: bool,
    cause: Option<Cause>,
    halfCloses: nat,         // calls of stream_.close
    closes: nat,             // calls to uv_close
    notices: nat,            // calls of on_destroy
    up: Upstream,
    down: Downstream)

  function Initial(): Pipe
  {
    Pipe(false, Absent, false, false, false, false, None, 0, 0, 0,
         Upstream(false, map[], 0, 0, []), Downstream([], [], [], []))
  }

  /** Bytes accepted for the local socket and not yet completed. */
  function Queued(d: Downstream): nat { |Concat(d.owed)| }

  /** Bytes submitted to the stream and never acknowledged. */
  function Pending(u: Upstream): nat { SumBelow(u.unacked, u.nextId) + u.lost }

  /** Whether the last of the pause and resume calls was a pause. */
  predicate Paused(flow: seq<Flow>)
  {
    flow != [] && flow[|flow| - 1] == Pause
  }

  /** Pause and resume take strict turns, a pause first. */
  predicate Alternates(flow: seq<Flow>)
  {
    forall i | 0 <= i < |flow| :: flow[i] == Pause <==> i % 2 == 0
  }

  // ---- the pipe's own routines -------------------------------------------------------------

  predicate Alive(p: Pipe) { p.cause == None && p.handle == Live }

  function StartReading(p: Pipe): Pipe
  {
    if Alive(p) then p.(up := p.up.(reading := true)) else p
  }

  function Destroy(p: Pipe, why: Cause): Pipe
  {
    if p.cause != None then p
    else
      var q := p.(cause := Some(why), up := p.up.(reading := false), halfCloses := p.halfCloses + 1);
      if p.handle == Live then q.(handle := Closing, closes := p.closes + 1)
      else q.(notices := p.notices + 1)
  }

  function FlushFinished(p: Pipe): Pipe
  {
    if p.streamClosed && p.down.owed == [] then Destroy(p, Flushed) else p
  }

  /** A drain fires; `alive` says whether reading may be restarted. */
  function Fire(u: Upstream, alive: bool, id: nat): Upstream
  {
    if id !in u.unacked then u
    else
      var v := u.(unacked := u.unacked - {id}, fired := u.fired + [id]);
      if Pending(v) < STREAM_HIGH_WATER && alive then v.(reading := true) else v
  }

  function FireAll(u: Upstream, alive: bool, ids: seq<nat>): Upstream
    decreases |ids|
  {
    if ids == [] then u else FireAll(Fire(u, alive, ids[0]), alive, ids[1..])
  }

  function Throttle(u: Upstream): Upstream
  {
    if Pending(u) >= STREAM_HIGH_WATER then u.(reading := false) else u
  }

  /** A chunk is counted and its drain handed out, before the stream has answered. */
  function Submitted(u: Upstream, len: nat): Upstream
  {
    u.(unacked := u.unacked[u.nextId := len], nextId := u.nextId + 1)
  }

  /** Drains that nobody will ever fire: their bytes stay counted. */
  function Abandon(u: Upstream): Upstream
  {
    u.(lost := Pending(u), unacked := map[])
  }

  /** A chunk once the stream has answered. */
  function Taken(u: Upstream, alive: bool, len: nat, answer: Answer): Upstream
  {
    match answer
    case Accepted(acks) => FireAll(Submitted(u, len), alive, acks)
    case Swallowed => u.(nextId := u.nextId + 1, lost := u.lost + len)
    case Rejected => u.(nextId := u.nextId + 1)
  }

  /** An accepted write joins the queue; crossing the mark upward pauses the stream. */
  function Enqueue(d: Downstream, data: Bytes): Downstream
  {
    var e := d.(owed := d.owed + [data]);
    if !Paused(d.flow) && Queued(e) >= HIGH_WATER then e.(flow := d.flow + [Pause]) else e
  }

  /** The oldest write completes; crossing the mark downward resumes the stream. */
  function Dequeue(d: Downstream): Downstream
    requires d.owed != []
  {
    var e := d.(owed := d.owed[1..], delivered := d.delivered + d.owed[0]);
    if Paused(d.flow) && Queued(e) < HIGH_WATER then e.(flow := d.flow + [Resume]) else e
  }

  // ---- the callbacks -----------------------------------------------------------------------

  function Start(p: Pipe, origin: Origin): Pipe
  {
    var q := p.(started := true);
    match origin
    case InitFailed => q
    case SetupFailed => Destroy(q.(handle := Live), Torn)
    case Dialing => q.(handle := Live, connectOwed := true)
    case Adopted => StartReading(q.(handle := Live, connected := true))
  }

  function ConnectDone(p: Pipe, ok: bool): Pipe
  {
    var q := p.(connectOwed := false);
    if ok then StartReading(q.(connected := true)) else Destroy(q, Torn)
  }

  function Read(p: Pipe, len: nat, answer: Answer): Pipe
  {
    var q := p.(up := Taken(p.up, Alive(p), len, answer));
    if answer.Rejected? then Destroy(q, Torn) else q.(up := Throttle(q.up))
  }

  function Eof(p: Pipe): Pipe
  {
    p.(ended := true, up := p.up.(reading := false), halfCloses := p.halfCloses + 1)
  }

  function Data(p: Pipe, data: Bytes, ok: bool): Pipe
  {
    if p.cause != None then p
    else
      var q := p.(down := p.down.(offered := p.down.offered + data));
      if p.handle != Live || data == [] then q
      else if !ok then Destroy(q, Torn)
      else q.(down := Enqueue(q.down, data))
  }

  function WriteDone(p: Pipe, ok: bool): Pipe
    requires p.down.owed != []
  {
    if ok then FlushFinished(p.(down := Dequeue(p.down)))
    else Destroy(p.(down := p.down.(owed := p.down.owed[1..])), Torn)
  }

  function StreamClose(p: Pipe): Pipe
  {
    if p.cause != None then p else FlushFinished(p.(streamClosed := true))
  }

  function HandleClosed(p: Pipe): Pipe
  {
    p.(handle := Gone, notices := p.notices + 1)
  }

  function Drain(p: Pipe, id: nat): Pipe
  {
    p.(up := Fire(p.up, Alive(p), id))
  }

  // ---- runs --------------------------------------------------------------------------------

  datatype Event =
    | Started(origin: Origin)
    | Connected(ok: bool)
    | LocalRead(len: nat, answer: Answer)
    | LocalEof
    | LocalError
    | StreamData(data: Bytes, ok: bool)
    | Written(ok: bool)
    | Drained(id: nat)
    | StreamClosed
    | Closed
    | OwnerDestroys

  /** What libuv and the stream may do next. Reads come only while reading; every accepted write and
      connect is answered once, and all of them before the handle's close callback. */
  predicate Enabled(p: Pipe, e: Event)
  {
    match e
    case Started(_) => !p.started
    case Connected(_) => p.connectOwed
    case LocalRead(len, _) => p.up.reading && 0 < len <= READ_MAX
    case LocalEof => p.up.reading
    case LocalError => p.up.reading
    case StreamData(_, _) => p.started
    case Written(_) => p.down.owed != []
    case Drained(id) => id in p.up.unacked
    case StreamClosed => p.started
    case Closed => p.handle == Closing && p.down.owed == [] && !p.connectOwed
    case OwnerDestroys => p.started
  }

  function Step(p: Pipe, e: Event): Pipe
    requires Enabled(p, e)
  {
    match e
    case Started(origin) => Start(p, origin)
    case Connected(ok) => ConnectDone(p, ok)
    case LocalRead(len, answer) => Read(p, len, answer)
    case LocalEof => Eof(p)
    case LocalError => Destroy(p, Torn)
    case StreamData(data, ok) => Data(p, data, ok)
    case Written(ok) => WriteDone(p, ok)
    case Drained(id) => Drain(p, id)
    case StreamClosed => StreamClose(p)
    case Closed => HandleClosed(p)
    case OwnerDestroys => Destroy(p, Torn)
  }

  /** Any sequence of events, those that cannot happen being passed over. */
  function Run(p: Pipe, es: seq<Event>): Pipe
    decreases |es|
  {
    if es == [] then p
    else Run(if Enabled(p, es[0]) then Step(p, es[0]) else p, es[1..])
  }

  /** Every event can happen when its turn comes. */
  predicate Feasible(p: Pipe, es: seq<Event>)
    decreases |es|
  {
    es == [] || (Enabled(p, es[0]) && Feasible(Step(p, es[0]), es[1..]))
  }

  // ---- invariants --------------------------------------------------------------------------

  /** The life of the handle: closed at most once, and the owner told at most once, afterwards. */
  predicate Lifecycle(p: Pipe)
  {
    && p.closes == (if p.handle == Closing || p.handle == Gone then 1 else 0)
    && p.notices == (if p.handle == Gone || (p.handle == Absent && p.cause != None) then 1 else 0)
    && (p.cause == None ==> p.handle == Absent || p.handle == Live)
    && (p.cause != None ==> p.handle != Live && !p.up.reading)
    && (!p.started ==> p.handle == Absent && p.cause == None && p.down.offered == [])
    && (p.handle == Absent || p.handle == Gone ==>
      p.down.owed == [] && !p.connectOwed && !p.up.reading)
    && (p.handle == Absent ==> !p.connected && p.down.delivered == [])
    && (p.connectOwed ==> !p.connected)
  }

  /** While the pipe lives: paused exactly at or above the mark, and nothing gone missing. */
  predicate Downward(d: Downstream, live: bool)
  {
    && Alternates(d.flow)
    && (live ==> (Paused(d.flow) <==> Queued(d) >= HIGH_WATER))
    && (live ==> d.offered == d.delivered + Concat(d.owed))
  }

  /** A graceful end finds every byte delivered. */
  predicate Graceful(p: Pipe)
  {
    && (p.cause == None && p.streamClosed ==> p.down.owed != [])
    && (p.cause == None && p.handle == Absent ==> !Paused(p.down.flow))
    && (p.cause == Some(Flushed) ==>
      p.down.owed == [] && (p.handle != Absent ==> p.down.delivered == p.down.offered))
  }

  predicate Upward(u: Upstream)
  {
    && (forall id | id in u.unacked :: id < u.nextId)
    && Pending(u) < STREAM_HIGH_WATER + READ_MAX
    && (u.reading ==> Pending(u) < STREAM_HIGH_WATER)
  }

  /** Reading stops at the mark and nowhere else. */
  predicate Flowing(p: Pipe)
  {
    && (!p.connected ==> p.up.unacked.Keys == {} && p.up.lost == 0 && !p.up.reading)
    && (p.connected && !p.ended && p.cause == None ==>
      (p.up.reading <==> Pending(p.up) < STREAM_HIGH_WATER))
  }

  /** A live pipe is connected or about to hear; an end on either side has reached the stream. */
  predicate Attended(p: Pipe)
  {
    && (Alive(p) ==> p.connected || p.connectOwed)
    && p.halfCloses >= (if p.ended then 1 else 0) + (if p.cause != None then 1 else 0)
  }

  predicate Inv(p: Pipe)
  {
    && Attended(p)
    && Lifecycle(p)
    && Downward(p.down, Alive(p))
    && Graceful(p)
    && Upward(p.up)
    && Flowing(p)
  }
}
