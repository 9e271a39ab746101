/**
 One inbound connection of the server (`Conn` in src/server.cpp): a pipe, the buffer in front of a
 stream that is not open yet, the drain contexts, and the two references that keep it all alive.
 */
module ServerModel {
  import opened Common
  import opened PreOpen
  import M = PipeModel

  datatype Conn = Conn(
    pipe: M.Pipe,
    box: Outbox,
    withheld: seq<nat>,      // chunks whose drains wait for the stream to open
    drains: set<nat>,        // chunks with a live drain context
    stream: bool,            // the stream has not closed
    refA: bool,              // the reference boxed for the stream
    refB: bool,              // the reference held by the pipe's on_destroy
    freed: bool,
    asked: bool,             // hyperdht_stream_close has been called
    // history
    taken: Bytes,            // every write not refused, joined
    refused: seq<nat>,       // lengths of the chunks refused
    flushFailed: bool,
    made: set<nat>,     // chunks that ever had a drain context
    frees: multiset<nat>)    // drain contexts deleted

  function Accepted(cap: nat): Conn
  {
    Conn(M.Initial(), Fresh(cap), [], {}, true, true, true, false, false, [], [], false, {}, multiset{})
  }

  /** The destructor runs when the last reference goes, and deletes the contexts left over. */
  function Release(c: Conn): Conn
  {
    if c.refA || c.refB || c.freed then c
    else c.(freed := true, frees := c.frees + multiset(c.drains), drains := {})
  }

  /** The pipe has moved on: each of its half-closes asks the stream to close, while there is one, and being
      told of its end drops the reference its callback held. */
  function WithPipe(c: Conn, p: M.Pipe): Conn
  {
    Release(c.(pipe := p,
               asked := c.asked || (c.stream && p.halfCloses > c.pipe.halfCloses),
               refB := c.refB && p.notices == c.pipe.notices))
  }

  /** The `write` closure of `make_side`: what it keeps, and what it answers the pipe. */
  function SideWrite(c: Conn, data: Bytes, ok: bool, acks: seq<nat>): (Conn, M.Answer)
  {
    var id := c.pipe.up.nextId;
    if Refuses(c.box, data) then (c.(refused := c.refused + [|data|]), M.Swallowed)
    else if !c.box.isOpen then
      (c.(box := Put(c.box, data), withheld := c.withheld + [id], taken := c.taken + data),
       M.Accepted([]))
    else if ok then
      (c.(box := Put(c.box, data), taken := c.taken + data, made := c.made + {id},
          drains := c.drains + {id} - Ids(acks), frees := c.frees + multiset(acks)),
       M.Accepted(acks))
    else (c.(made := c.made + {id}, frees := c.frees + multiset{id}), M.Rejected)
  }

  function LocalRead(c: Conn, data: Bytes, ok: bool, acks: seq<nat>): Conn
  {
    var (d, answer) := SideWrite(c, data, ok, acks);
    WithPipe(d, M.Read(c.pipe, |data|, answer))
  }

  function StreamOpens(c: Conn, ok: bool): Conn
  {
    if c.box.pending != [] && !ok then
      c.(box := c.box.(isOpen := true, pending := []), withheld := [], flushFailed := true,
         pipe := c.pipe.(up := M.Abandon(c.pipe.up)))
    else
      c.(box := Open(c.box), withheld := [],
         pipe := c.pipe.(up := M.FireAll(c.pipe.up, M.Alive(c.pipe), c.withheld)))
  }

  function Ack(c: Conn, id: nat): Conn
  {
    WithPipe(c.(drains := c.drains - {id}, frees := c.frees + multiset{id}), M.Drain(c.pipe, id))
  }

  function StreamCloses(c: Conn): Conn
  {
    WithPipe(c.(stream := false, refA := false), M.StreamClose(c.pipe))
  }

  // ---- runs --------------------------------------------------------------------------------

  datatype Event =
    | Local(e: M.Event)                                   // libuv, or the pipe's owner
    | Reads(data: Bytes, ok: bool, acks: seq<nat>)
    | Opens(ok: bool)
    | Receives(data: Bytes, ok: bool)
    | Acked(id: nat)
    | Closes

  /** What may happen next. The stream calls back only until it closes, and acknowledges a write only
      while its context lives; the rest is what the pipe is owed. */
  predicate Enabled(c: Conn, e: Event)
  {
    match e
    case Local(l) =>
      (l.Started? || l.Connected? || l.LocalEof? || l.LocalError? || l.Written? || l.Closed? || l.OwnerDestroys?)
      && M.Enabled(c.pipe, l)
    case Reads(data, ok, acks) =>
      && c.pipe.up.reading && 0 < |data| <= M.READ_MAX
      && (c.box.isOpen && ok ==>
        c.stream && Distinct(acks) && Ids(acks) <= c.drains + {c.pipe.up.nextId})
    case Opens(_) => c.stream && c.pipe.started && !c.box.isOpen
    case Receives(_, _) => c.stream && c.pipe.started
    case Acked(id) => c.stream && id in c.drains
    case Closes => c.stream && c.pipe.started
  }

  function Step(c: Conn, e: Event): Conn
    requires Enabled(c, e)
  {
    match e
    case Local(l) => WithPipe(c, M.Step(c.pipe, l))
    case Reads(data, ok, acks) => LocalRead(c, data, ok, acks)
    case Opens(ok) => StreamOpens(c, ok)
    case Receives(data, ok) => WithPipe(c, M.Data(c.pipe, data, ok))
    case Acked(id) => Ack(c, id)
    case Closes => StreamCloses(c)
  }

  function Run(c: Conn, es: seq<Event>): Conn
    decreases |es|
  {
    if es == [] then c
    else Run(if Enabled(c, es[0]) then Step(c, es[0]) else c, es[1..])
  }

  /** Every event can happen when its turn comes. */
  predicate Feasible(c: Conn, es: seq<Event>)
    decreases |es|
  {
    es == [] || (Enabled(c, es[0]) && Feasible(Step(c, es[0]), es[1..]))
  }

  // ---- invariants --------------------------------------------------------------------------

  predicate Lifetime(c: Conn)
  {
    && c.refA == c.stream
    && c.refB == (c.pipe.notices == 0)
    && c.freed == (!c.refA && !c.refB)
    && (c.freed ==> c.drains == {})
  }

  /** Each context is deleted at most once, and every one made is live or deleted. */
  ghost predicate Contexts(live: set<nat>, frees: multiset<nat>, made: set<nat>, bound: nat)
  {
    && (forall id | id in live :: frees[id] == 0)
    && (forall id :: frees[id] <= 1)
    && (forall id :: id in made <==> id in live || frees[id] == 1)
    && (forall id | id in made :: id < bound)
  }

  /** Before the stream opens: the buffer holds exactly the chunks whose drains are withheld. */
  predicate Buffering(c: Conn)
  {
    && c.box.wire == [] && c.pipe.up.fired == []
    && Distinct(c.withheld)
    && Ids(c.withheld) == c.pipe.up.unacked.Keys
    && |c.box.pending| == SumBelow(c.pipe.up.unacked, c.pipe.up.nextId)
    && |c.box.pending| <= c.box.cap
  }

  predicate Streaming(c: Conn)
  {
    && c.withheld == [] && c.box.pending == []
    && (!c.freed ==> c.drains == c.pipe.up.unacked.Keys)
  }

  predicate Bookkeeping(c: Conn)
  {
    && (!c.flushFailed ==> c.taken == c.box.wire + c.box.pending && c.pipe.up.lost == Sum(c.refused))
    && (c.flushFailed ==> c.box.isOpen)
  }

  /** While there is a stream, it has been asked to close exactly when the pipe has half-closed. */
  predicate Asks(c: Conn) { c.stream ==> (c.asked <==> c.pipe.halfCloses > 0) }

  ghost predicate Inv(c: Conn)
  {
    && M.Inv(c.pipe) && Asks(c)
    && Lifetime(c)
    && Contexts(c.drains, c.frees, c.made, c.pipe.up.nextId)
    && (!c.box.isOpen ==> c.made == {})
    && (if c.box.isOpen then Streaming(c) else Buffering(c))
    && Bookkeeping(c)
  }
}
