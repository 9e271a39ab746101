/** What the server's `Conn` promises, proved of every run. */
module ServerProofs {
  import opened Common
  import O = PreOpen
  import opened ServerModel
  import M = PipeModel
  import P = PipeProofs

  // ---- one step ----------------------------------------------------------------------------

  /** Callbacks other than reads and drains leave the chunk accounts alone. */
  predicate Undisturbed(p: M.Pipe, q: M.Pipe)
  {
    q.up == p.up.(reading := q.up.reading) && p.notices <= q.notices && p.halfCloses <= q.halfCloses
  }

  /** The pipe's state apart, a move of it is the asking and then the giving back. */
  lemma WithPipeParts(c: Conn, asked: Conn, q: M.Pipe) returns (d: Conn)
    requires asked == c.(asked := c.asked || (c.stream && q.halfCloses > c.pipe.halfCloses))
    ensures d == WithPipe(c, q) && d.pipe == q
    ensures d == Release(asked.(refB := asked.refB && q.notices == c.pipe.notices)).(pipe := q)
  {
    d := WithPipe(c, q);
  }

  lemma PipeMoves(c: Conn, q: M.Pipe)
    requires Inv(c) && M.Inv(q) && Undisturbed(c.pipe, q)
    ensures Inv(WithPipe(c, q))
  {
  }

  /** A new state of the pipe, with the accounts already brought up to date. */
  lemma AccountsThenPipe(d: Conn, q: M.Pipe)
    requires M.Inv(q) && Lifetime(d) && Asks(d)
    requires d.pipe.notices <= q.notices && d.pipe.halfCloses <= q.halfCloses
    requires Contexts(d.drains, d.frees, d.made, q.up.nextId)
    requires !d.box.isOpen ==> d.made == {}
    requires d.box.isOpen ==>
      d.withheld == [] && d.box.pending == [] && (!d.freed ==> d.drains == q.up.unacked.Keys)
    requires !d.box.isOpen ==> Buffering(d.(pipe := q))
    requires Bookkeeping(d.(pipe := q))
    ensures Inv(WithPipe(d, q))
  {
  }

  lemma LocalInv(c: Conn, l: M.Event)
    requires Inv(c) && Enabled(c, Local(l))
    ensures Inv(Step(c, Local(l)))
  {
    P.StepInv(c.pipe, l);
    P.StepMoves(c.pipe, l);
    P.NoticesGrow(c.pipe, l);
    PipeMoves(c, M.Step(c.pipe, l));
  }

  lemma ReceivesInv(c: Conn, data: Bytes, ok: bool)
    requires Inv(c) && c.pipe.started
    ensures Inv(WithPipe(c, M.Data(c.pipe, data, ok)))
  {
    P.DataInv(c.pipe, data, ok);
    P.NoticesGrow(c.pipe, M.StreamData(data, ok));
    PipeMoves(c, M.Data(c.pipe, data, ok));
  }

  lemma ClosesInv(c: Conn)
    requires Inv(c) && c.stream && c.pipe.started
    ensures Inv(StreamCloses(c))
  {
    P.StepInv(c.pipe, M.StreamClosed);
  }

  /** The pipe's own end first and the boxed reference after it come to the same thing. */
  lemma ClosesInTwo(c: Conn, q: M.Pipe)
    requires Lifetime(c) && c.stream && q.notices <= 1
    ensures var d := WithPipe(c.(stream := false), q);
            d.refA && !d.freed && Release(d.(refA := false)) == WithPipe(c.(stream := false, refA := false), q)
  {
  }

  lemma AckInv(c: Conn, id: nat)
    requires Inv(c) && Enabled(c, Acked(id))
    ensures Inv(Ack(c, id))
  {
    P.DrainInv(c.pipe, id);
  }

  lemma RefusedInv(c: Conn, data: Bytes, ok: bool, acks: seq<nat>)
    requires Inv(c) && Enabled(c, Reads(data, ok, acks)) && O.Refuses(c.box, data)
    ensures Inv(LocalRead(c, data, ok, acks))
  {
    P.ReadInv(c.pipe, |data|, M.Swallowed);
    P.NoticesGrow(c.pipe, M.LocalRead(|data|, M.Swallowed));
    P.SkipId(c.pipe.up);
    SumSnoc(c.refused, |data|);
    AccountsThenPipe(SideWrite(c, data, ok, acks).0, M.Read(c.pipe, |data|, M.Swallowed));
  }

  lemma WithheldGrows(c: Conn, id: nat)
    requires Buffering(c) && id !in c.pipe.up.unacked
    ensures Distinct(c.withheld + [id]) && Ids(c.withheld + [id]) == Ids(c.withheld) + {id}
  {
    assert forall k | k in c.withheld :: k in Ids(c.withheld);
  }

  lemma BufferedInv(c: Conn, data: Bytes, ok: bool, acks: seq<nat>)
    requires Inv(c) && Enabled(c, Reads(data, ok, acks)) && !O.Refuses(c.box, data) && !c.box.isOpen
    ensures Inv(LocalRead(c, data, ok, acks))
  {
    var u := c.pipe.up;
    P.ReadInv(c.pipe, |data|, M.Accepted([]));
    P.NoticesGrow(c.pipe, M.LocalRead(|data|, M.Accepted([])));
    SumBelowAdd(u.unacked, u.nextId, |data|);
    WithheldGrows(c, u.nextId);
    AccountsThenPipe(SideWrite(c, data, ok, acks).0, M.Read(c.pipe, |data|, M.Accepted([])));
  }

  lemma ContextsAfterAcks(live: set<nat>, frees: multiset<nat>, made: set<nat>, id: nat, acks: seq<nat>)
    requires Contexts(live, frees, made, id) && Distinct(acks) && Ids(acks) <= live + {id}
    ensures Contexts(live + {id} - Ids(acks), frees + multiset(acks), made + {id}, id + 1)
  {
    DistinctOnce(acks);
  }

  lemma SubmittedAccounts(c: Conn, data: Bytes, acks: seq<nat>, q: M.Pipe)
    requires Inv(c) && Enabled(c, Reads(data, true, acks)) && c.box.isOpen && M.Inv(q)
    requires Contexts(c.drains + {c.pipe.up.nextId} - Ids(acks), c.frees + multiset(acks),
                      c.made + {c.pipe.up.nextId}, c.pipe.up.nextId + 1)
    requires q.notices == c.pipe.notices && q.halfCloses >= c.pipe.halfCloses
    requires q.up.nextId == c.pipe.up.nextId + 1 && q.up.lost == c.pipe.up.lost
    requires q.up.unacked.Keys == c.pipe.up.unacked.Keys + {c.pipe.up.nextId} - Ids(acks)
    ensures Inv(WithPipe(SideWrite(c, data, true, acks).0, q))
  {
    AccountsThenPipe(SideWrite(c, data, true, acks).0, q);
  }

  lemma SubmittedInv(c: Conn, data: Bytes, acks: seq<nat>)
    requires Inv(c) && Enabled(c, Reads(data, true, acks)) && c.box.isOpen
    ensures Inv(LocalRead(c, data, true, acks))
  {
    P.ReadInv(c.pipe, |data|, M.Accepted(acks));
    P.NoticesGrow(c.pipe, M.LocalRead(|data|, M.Accepted(acks)));
    P.ReadAccepted(c.pipe, |data|, acks);
    ContextsAfterAcks(c.drains, c.frees, c.made, c.pipe.up.nextId, acks);
    SubmittedAccounts(c, data, acks, M.Read(c.pipe, |data|, M.Accepted(acks)));
  }

  lemma FailedInv(c: Conn, data: Bytes, acks: seq<nat>)
    requires Inv(c) && Enabled(c, Reads(data, false, acks)) && c.box.isOpen
    ensures Inv(LocalRead(c, data, false, acks))
  {
    P.ReadInv(c.pipe, |data|, M.Rejected);
    P.NoticesGrow(c.pipe, M.LocalRead(|data|, M.Rejected));
    AccountsThenPipe(SideWrite(c, data, false, acks).0, M.Read(c.pipe, |data|, M.Rejected));
  }

  lemma {:induction false} DistinctOnce(ids: seq<nat>)
    requires Distinct(ids)
    ensures forall id :: multiset(ids)[id] == if id in Ids(ids) then 1 else 0
  {
    if ids == [] {
    } else {
      DistinctOnce(ids[1..]);
      assert ids == [ids[0]] + ids[1..];
      assert forall i | 1 <= i < |ids| :: ids[i] != ids[0];
      assert Ids(ids) == {ids[0]} + Ids(ids[1..]);
    }
  }

  /** Firing owed drains one after another fires each of them, in that order, and no other. */
  lemma {:induction false} FireAllLogs(u: M.Upstream, alive: bool, ids: seq<nat>)
    requires Distinct(ids) && Ids(ids) <= u.unacked.Keys
    ensures var v := M.FireAll(u, alive, ids);
            v.fired == u.fired + ids && v.unacked == u.unacked - Ids(ids)
    decreases |ids|
  {
    if ids == [] {
    } else {
      var w := M.Fire(u, alive, ids[0]);
      assert forall i | 1 <= i < |ids| :: ids[i] != ids[0];
      assert Ids(ids) == {ids[0]} + Ids(ids[1..]);
      FireAllLogs(w, alive, ids[1..]);
    }
  }

  lemma OpensInv(c: Conn, ok: bool)
    requires Inv(c) && Enabled(c, Opens(ok))
    ensures Inv(StreamOpens(c, ok))
  {
    if c.box.pending != [] && !ok {
      P.AbandonInv(c.pipe);
    } else {
      P.DrainAllInv(c.pipe, c.withheld);
      P.FireAllFrame(c.pipe.up, M.Alive(c.pipe), c.withheld);
    }
  }

  lemma StepInv(c: Conn, e: Event)
    requires Inv(c) && Enabled(c, e)
    ensures Inv(Step(c, e))
  {
    match e
    case Local(l) => LocalInv(c, l);
    case Reads(data, ok, acks) =>
      if O.Refuses(c.box, data) { RefusedInv(c, data, ok, acks); }
      else if !c.box.isOpen { BufferedInv(c, data, ok, acks); }
      else if ok { SubmittedInv(c, data, acks); }
      else { FailedInv(c, data, acks); }
    case Opens(ok) => OpensInv(c, ok);
    case Receives(data, ok) => ReceivesInv(c, data, ok);
    case Acked(id) => AckInv(c, id);
    case Closes => ClosesInv(c);
  }

  lemma {:induction false} RunInv(c: Conn, es: seq<Event>)
    requires Inv(c)
    ensures Inv(Run(c, es))
    decreases |es|
  {
    if es == [] {
    } else {
      if Enabled(c, es[0]) { StepInv(c, es[0]); }
      RunInv(if Enabled(c, es[0]) then Step(c, es[0]) else c, es[1..]);
    }
  }

  lemma AcceptedInv(cap: nat)
    ensures Inv(Accepted(cap))
  {
    P.InitialInv();
    AcceptedParts(Accepted(cap), cap);
  }

  lemma AcceptedParts(c: Conn, cap: nat)
    requires c == Accepted(cap) && M.Inv(c.pipe)
    ensures Inv(c)
  {
  }

  lemma Reachable(cap: nat, es: seq<Event>)
    ensures Inv(Run(Accepted(cap), es))
  {
    AcceptedInv(cap);
    RunInv(Accepted(cap), es);
  }

  lemma {:induction false} RunAppend(c: Conn, a: seq<Event>, b: seq<Event>)
    ensures Run(c, a + b) == Run(Run(c, a), b)
    decreases |a|
  {
    if a == [] {
      assert a + b == b;
    } else {
      assert (a + b)[1..] == a[1..] + b;
      RunAppend(if Enabled(c, a[0]) then Step(c, a[0]) else c, a[1..], b);
    }
  }

  // ---- lifetimes ---------------------------------------------------------------------------

  /** A connection is freed exactly when both its stream has closed and its pipe has reported its
      end; every callback still owed finds it alive; and each drain context is deleted exactly once,
      none being left when the connection goes. */
  lemma FreedAtTheLater(cap: nat, es: seq<Event>)
    ensures var c := Run(Accepted(cap), es);
            && (c.freed <==> !c.stream && c.pipe.notices == 1)
            && (forall e | Enabled(c, e) && e != Local(M.OwnerDestroys) :: !c.freed)
            && (forall id :: c.frees[id] <= 1)
            && (forall id :: id in c.made <==> id in c.drains || c.frees[id] == 1)
            && (forall id | id in c.drains :: c.frees[id] == 0)
            && (c.freed ==> c.drains == {})
  {
    Reachable(cap, es);
  }

  /** While a connection has its stream, the stream has been asked to close exactly when its pipe asked: so at
      the end of the local socket, and when the pipe is torn down for whatever reason. */
  lemma EndsReachStream(cap: nat, es: seq<Event>)
    requires Run(Accepted(cap), es).stream
    ensures var c := Run(Accepted(cap), es);
            && (c.asked <==> c.pipe.halfCloses > 0)
            && (c.pipe.ended || c.pipe.cause != None ==> c.asked)
  {
    Reachable(cap, es);
  }

  /** What libuv still answers. */
  predicate Answers(e: Event)
  {
    e.Local? && (e.e.Written? || e.e.Connected? || e.e.Closed?)
  }

  /** A pipe whose stream has closed has been told, or had ended before. */
  predicate Told(c: Conn) { !c.stream ==> c.pipe.streamClosed || c.pipe.cause != None }

  lemma ToldMoves(c: Conn, e: M.Event, d: Conn)
    requires Told(c) && M.Enabled(c.pipe, e) && (d.stream == c.stream || e.StreamClosed?)
    ensures Told(WithPipe(d, M.Step(c.pipe, e)))
  {
    P.StepMoves(c.pipe, e);
  }

  lemma ToldStep(c: Conn, e: Event)
    requires Told(c) && Enabled(c, e)
    ensures Told(Step(c, e))
  {
    match e
    case Local(l) => ToldMoves(c, l, c);
    case Reads(data, ok, acks) => ToldReads(c, data, ok, acks);
    case Opens(ok) => ToldOpens(c, ok);
    case Receives(data, ok) => ToldMoves(c, M.StreamData(data, ok), c);
    case Acked(id) =>
      OnlyUp(c.pipe, M.Fire(c.pipe.up, M.Alive(c.pipe), id));
    case Closes => ToldMoves(c, M.StreamClosed, c.(stream := false, refA := false));
  }

  lemma ToldReads(c: Conn, data: Bytes, ok: bool, acks: seq<nat>)
    requires Told(c) && Enabled(c, Reads(data, ok, acks))
    ensures Told(LocalRead(c, data, ok, acks))
  {
    SideFrame(c, data, ok, acks);
    ToldMoves(c, M.LocalRead(|data|, SideWrite(c, data, ok, acks).1), SideWrite(c, data, ok, acks).0);
  }

  lemma ToldOpens(c: Conn, ok: bool)
    requires Told(c)
    ensures Told(StreamOpens(c, ok))
  {
    OnlyUp(c.pipe, M.Abandon(c.pipe.up));
    OnlyUp(c.pipe, M.FireAll(c.pipe.up, M.Alive(c.pipe), c.withheld));
  }

  lemma OnlyUp(p: M.Pipe, u: M.Upstream)
    ensures var q := p.(up := u);
            q.up == u && q.down == p.down && q.streamClosed == p.streamClosed && q.cause == p.cause
  {
  }

  lemma {:induction false} ToldRun(c: Conn, es: seq<Event>)
    requires Told(c)
    ensures Told(Run(c, es))
    decreases |es|
  {
    if es == [] {
    } else {
      if Enabled(c, es[0]) { ToldStep(c, es[0]); }
      ToldRun(if Enabled(c, es[0]) then Step(c, es[0]) else c, es[1..]);
    }
  }

  lemma AnswerDue(c: Conn) returns (e: Event)
    requires Inv(c) && Told(c) && !c.stream && !c.freed
    ensures Answers(e) && Enabled(c, e)
  {
    if c.pipe.down.owed != [] {
      e := Local(M.Written(false));
    } else if c.pipe.connectOwed {
      e := Local(M.Connected(false));
    } else {
      e := Local(M.Closed);
    }
  }

  function Awaited(p: M.Pipe): nat
  {
    |p.down.owed| + (if p.connectOwed then 1 else 0) + if p.notices == 0 then 1 else 0
  }

  lemma PipeRunsOut(p: M.Pipe, e: M.Event)
    requires M.Inv(p) && M.Enabled(p, e) && (e.Written? || e.Connected? || e.Closed?)
    ensures Awaited(M.Step(p, e)) < Awaited(p)
  {
  }

  lemma AnswersRunOut(c: Conn, e: Event)
    requires Inv(c) && !c.stream && Answers(e) && Enabled(c, e)
    ensures !Step(c, e).stream && Awaited(Step(c, e).pipe) < Awaited(c.pipe)
  {
    PipeRunsOut(c.pipe, e.e);
  }

  /** Once its stream has closed, after any run, a connection needs only the answers libuv owes it to be
      freed. */
  lemma ClosedIsFreed(cap: nat, es: seq<Event>) returns (answers: seq<Event>)
    requires !Run(Accepted(cap), es).stream
    ensures (forall e | e in answers :: Answers(e)) && Run(Run(Accepted(cap), es), answers).freed
  {
    Reachable(cap, es);
    ToldRun(Accepted(cap), es);
    answers := AnswersFree(Run(Accepted(cap), es));
  }

  lemma {:induction false} AnswersFree(c: Conn) returns (es: seq<Event>)
    requires Inv(c) && Told(c) && !c.stream
    ensures (forall e | e in es :: Answers(e)) && Run(c, es).freed
    decreases Awaited(c.pipe)
  {
    es := [];
    if c.freed {
    } else {
      var e := AnswerDue(c);
      StepInv(c, e);
      ToldStep(c, e);
      AnswersRunOut(c, e);
      var rest := AnswersFree(Step(c, e));
      es := [e] + rest;
      assert es[1..] == rest;
    }
  }

  // ---- a graceful end ----------------------------------------------------------------------

  /** libuv completes `n` writes to the local socket. */
  function Flushes(n: nat): seq<Event> { seq(n, _ => Local(M.Written(true))) }

  lemma {:induction false} FlushesRun(c: Conn, n: nat)
    ensures Run(c, Flushes(n)).pipe == M.Run(c.pipe, P.Completions(n))
    decreases n
  {
    if n > 0 {
      assert Flushes(n)[1..] == Flushes(n - 1) && P.Completions(n)[1..] == P.Completions(n - 1);
      FlushesRun(if c.pipe.down.owed != [] then Step(c, Local(M.Written(true))) else c, n - 1);
    }
  }

  /** The end of the stream loses nothing: once libuv has completed what it holds, the local socket has
      received all that the stream handed over, and the pipe has ended as flushed. */
  lemma StreamEndDelivers(cap: nat, es: seq<Event>)
    requires var c := Run(Accepted(cap), es); c.stream && M.Alive(c.pipe)
    ensures var c := Run(Accepted(cap), es);
            var d := Run(c, [Closes] + Flushes(|c.pipe.down.owed|));
            d.pipe.cause == Some(M.Flushed) && d.pipe.down.delivered == c.pipe.down.offered
  {
    var c := Run(Accepted(cap), es);
    var n := |c.pipe.down.owed|;
    Reachable(cap, es);
    assert ([Closes] + Flushes(n))[1..] == Flushes(n);
    FlushesRun(Step(c, Closes), n);
    P.ClosedDelivers(c.pipe);
  }

  // ---- order across the opening ------------------------------------------------------------

  /** The chunks of a run that are neither refused nor failed, joined. */
  function Kept(c: Conn, es: seq<Event>): Bytes
    decreases |es|
  {
    if es == [] then []
    else if !Enabled(c, es[0]) then Kept(c, es[1..])
    else KeptNow(c, es[0]) + Kept(Step(c, es[0]), es[1..])
  }

  function KeptNow(c: Conn, e: Event): Bytes
  {
    if e.Reads? && !O.Refuses(c.box, e.data) && (c.box.isOpen ==> e.ok) then e.data else []
  }

  lemma TakenStep(c: Conn, e: Event)
    requires Enabled(c, e)
    ensures Step(c, e).taken == c.taken + KeptNow(c, e)
  {
    assert c.taken + [] == c.taken;
    if e.Reads? {
      ReadsTake(c, e.data, e.ok, e.acks);
    }
  }

  lemma ReadsTake(c: Conn, data: Bytes, ok: bool, acks: seq<nat>)
    ensures LocalRead(c, data, ok, acks).taken == c.taken + KeptNow(c, Reads(data, ok, acks))
  {
    SideTakes(c, data, ok, acks);
    PipeTakesNone(SideWrite(c, data, ok, acks).0, M.Read(c.pipe, |data|, SideWrite(c, data, ok, acks).1));
  }

  lemma SideTakes(c: Conn, data: Bytes, ok: bool, acks: seq<nat>)
    ensures SideWrite(c, data, ok, acks).0.taken == c.taken + KeptNow(c, Reads(data, ok, acks))
  {
    assert c.taken + [] == c.taken;
  }

  lemma PipeTakesNone(d: Conn, q: M.Pipe)
    ensures WithPipe(d, q).taken == d.taken && WithPipe(d, q).refused == d.refused
  {
  }

  lemma {:induction false} TakenIsKept(c: Conn, es: seq<Event>)
    ensures Run(c, es).taken == c.taken + Kept(c, es)
    decreases |es|
  {
    if es == [] {
    } else {
      if Enabled(c, es[0]) {
        TakenStep(c, es[0]);
        TakenIsKept(Step(c, es[0]), es[1..]);
        assert (c.taken + KeptNow(c, es[0])) + Kept(Step(c, es[0]), es[1..]) == c.taken + Kept(c, es);
      } else {
        TakenIsKept(c, es[1..]);
      }
    }
  }

  /** Wherever the opening falls, the stream is given the writes not refused, joined in order, with
      the rest of them waiting in the buffer; no drain fires before the buffer has been handed over. */
  lemma OrderAcrossOpen(cap: nat, es: seq<Event>)
    requires !Run(Accepted(cap), es).flushFailed
    ensures var c := Run(Accepted(cap), es);
            && Kept(Accepted(cap), es) == c.box.wire + c.box.pending
            && (c.box.isOpen ==> c.box.pending == [])
            && (c.pipe.up.fired != [] ==> c.box.isOpen)
            && |c.box.pending| <= cap
  {
    Reachable(cap, es);
    TakenIsKept(Accepted(cap), es);
    assert [] + Kept(Accepted(cap), es) == Kept(Accepted(cap), es);
    CapStays(Accepted(cap), es);
  }

  lemma {:induction false} CapStays(c: Conn, es: seq<Event>)
    ensures Run(c, es).box.cap == c.box.cap
    decreases |es|
  {
    if es == [] {
    } else {
      if Enabled(c, es[0]) { StepKeeps(c, es[0]); }
      CapStays(if Enabled(c, es[0]) then Step(c, es[0]) else c, es[1..]);
    }
  }

  /** An opening that hands over what was kept, or has nothing to hand over, fires each withheld drain once, in
      the order withheld, and no other; what is left unacknowledged is exactly what was refused. */
  lemma OpeningFiresWithheld(cap: nat, es: seq<Event>, ok: bool)
    requires Enabled(Run(Accepted(cap), es), Opens(ok))
    requires ok || Run(Accepted(cap), es).box.pending == []
    ensures var c := Run(Accepted(cap), es);
            var d := Step(c, Opens(ok));
            && Distinct(c.withheld)
            && c.pipe.up.fired == [] && d.pipe.up.fired == c.withheld
            && d.withheld == [] && d.pipe.up.unacked.Keys == {}
            && d.box.wire == c.box.pending == c.taken
            && M.Pending(d.pipe.up) == Sum(c.refused)
            && !d.flushFailed && d.box.isOpen
  {
    var c := Run(Accepted(cap), es);
    Reachable(cap, es);
    WithheldFire(c.pipe.up, M.Alive(c.pipe), c.withheld);
    OpeningParts(c, ok);
  }

  lemma OpeningParts(c: Conn, ok: bool)
    requires ok || c.box.pending == []
    ensures var d := StreamOpens(c, ok);
            && d.pipe.up == M.FireAll(c.pipe.up, M.Alive(c.pipe), c.withheld)
            && d.withheld == [] && d.box.wire == c.box.wire + c.box.pending
            && d.flushFailed == c.flushFailed && d.box.isOpen
  {
    OnlyUp(c.pipe, M.FireAll(c.pipe.up, M.Alive(c.pipe), c.withheld));
  }

  lemma WithheldFire(u: M.Upstream, alive: bool, ids: seq<nat>)
    requires (forall id | id in u.unacked :: id < u.nextId)
    requires Distinct(ids) && Ids(ids) == u.unacked.Keys
    ensures var v := M.FireAll(u, alive, ids);
            v.fired == u.fired + ids && v.unacked.Keys == {} && M.Pending(v) == u.lost
  {
    var v := M.FireAll(u, alive, ids);
    FireAllLogs(u, alive, ids);
    P.FireAllFrame(u, alive, ids);
    assert v.unacked.Keys == {};
    SumBelowEmpty(v.unacked, v.nextId);
  }

  lemma OnceOpens(c: Conn, ok: bool)
    requires Inv(c) && P.Once(c.pipe.up)
    ensures P.Once(StreamOpens(c, ok).pipe.up)
  {
    P.FireAllOnce(c.pipe.up, M.Alive(c.pipe), c.withheld);
    OnlyUp(c.pipe, M.Abandon(c.pipe.up));
    OnlyUp(c.pipe, M.FireAll(c.pipe.up, M.Alive(c.pipe), c.withheld));
  }

  lemma OnceReads(c: Conn, data: Bytes, ok: bool, acks: seq<nat>)
    requires Inv(c) && Enabled(c, Reads(data, ok, acks)) && P.Once(c.pipe.up)
    ensures P.Once(LocalRead(c, data, ok, acks).pipe.up)
  {
    P.StepOnce(c.pipe, M.LocalRead(|data|, SideWrite(c, data, ok, acks).1));
  }

  lemma OnceStep(c: Conn, e: Event)
    requires Inv(c) && Enabled(c, e) && P.Once(c.pipe.up)
    ensures P.Once(Step(c, e).pipe.up)
  {
    match e
    case Local(l) => P.StepOnce(c.pipe, l);
    case Reads(data, ok, acks) => OnceReads(c, data, ok, acks);
    case Opens(ok) => OnceOpens(c, ok);
    case Receives(data, ok) => P.StepOnce(c.pipe, M.StreamData(data, ok));
    case Acked(id) => P.StepOnce(c.pipe, M.Drained(id));
    case Closes => P.StepOnce(c.pipe, M.StreamClosed);
  }

  lemma {:induction false} OnceRun(c: Conn, es: seq<Event>)
    requires Inv(c) && P.Once(c.pipe.up)
    ensures P.Once(Run(c, es).pipe.up)
    decreases |es|
  {
    if es == [] {
    } else {
      if Enabled(c, es[0]) {
        StepInv(c, es[0]);
        OnceStep(c, es[0]);
      }
      OnceRun(if Enabled(c, es[0]) then Step(c, es[0]) else c, es[1..]);
    }
  }

  /** Over a whole run, across the opening too, no chunk's drain fires twice. */
  lemma DrainsFireOnce(cap: nat, es: seq<Event>)
    ensures P.Once(Run(Accepted(cap), es).pipe.up)
  {
    AcceptedInv(cap);
    OnceRun(Accepted(cap), es);
  }

  // ---- the pre-open budget -----------------------------------------------------------------

  /** One chunk is refused at most, and before the opening exactly when what has been read passes the
      budget; a refusal leaves the socket unread until the stream opens. */
  predicate RefusedOnce(c: Conn)
  {
    && |c.refused| <= 1
    && (c.refused != [] ==> 0 < c.refused[0] <= M.READ_MAX)
    && (c.refused != [] && !c.box.isOpen ==>
      !c.pipe.up.reading && |c.taken| + c.refused[0] > c.box.cap)
  }

  lemma RefusedOnceLocal(c: Conn, l: M.Event)
    requires Inv(c) && RefusedOnce(c) && Enabled(c, Local(l))
    ensures RefusedOnce(Step(c, Local(l)))
  {
    P.LocalNeverRestarts(c.pipe, l);
  }

  lemma RefusedOnceReads(c: Conn, data: Bytes, ok: bool, acks: seq<nat>)
    requires Inv(c) && RefusedOnce(c) && c.box.cap >= M.STREAM_HIGH_WATER
    requires Enabled(c, Reads(data, ok, acks))
    ensures RefusedOnce(LocalRead(c, data, ok, acks))
  {
    if O.Refuses(c.box, data) {
      P.SkipId(c.pipe.up);
    }
  }

  lemma RefusedOnceStep(c: Conn, e: Event)
    requires Inv(c) && RefusedOnce(c) && c.box.cap >= M.STREAM_HIGH_WATER && Enabled(c, e)
    ensures RefusedOnce(Step(c, e))
  {
    match e
    case Local(l) => RefusedOnceLocal(c, l);
    case Reads(data, ok, acks) => RefusedOnceReads(c, data, ok, acks);
    case _ =>
  }

  lemma {:induction false} RefusedOnceRun(c: Conn, es: seq<Event>)
    requires Inv(c) && RefusedOnce(c) && c.box.cap >= M.STREAM_HIGH_WATER
    ensures RefusedOnce(Run(c, es))
    decreases |es|
  {
    if es == [] {
    } else {
      if Enabled(c, es[0]) {
        StepInv(c, es[0]);
        RefusedOnceStep(c, es[0]);
        CapStays(c, [es[0]]);
        assert Run(c, [es[0]]) == Step(c, es[0]);
      }
      RefusedOnceRun(if Enabled(c, es[0]) then Step(c, es[0]) else c, es[1..]);
    }
  }

  lemma RefusedOnceReachable(cap: nat, es: seq<Event>)
    requires cap >= M.STREAM_HIGH_WATER
    ensures var c := Run(Accepted(cap), es); Inv(c) && RefusedOnce(c) && c.box.cap == cap
  {
    AcceptedInv(cap);
    RunInv(Accepted(cap), es);
    RefusedOnceRun(Accepted(cap), es);
    CapStays(Accepted(cap), es);
  }

  /** With the budget the server has: never more than one chunk is refused, and one is refused exactly
      when the reads taken before the stream opened strictly cross 262144 bytes. */
  lemma AtMostOneRefused(es: seq<Event>)
    ensures var c := Run(Accepted(O.MAX_PENDING), es);
            && |c.refused| <= 1 && Sum(c.refused) <= 65536
            && (!c.box.isOpen ==> (c.refused != [] <==> |c.taken| + Sum(c.refused) > 262144))
  {
    RefusedOnceReachable(O.MAX_PENDING, es);
    var c := Run(Accepted(O.MAX_PENDING), es);
    assert c.refused != [] ==> c.refused[1..] == [];
  }

  /** Once the buffer has been flushed, only the refused chunk stays counted, so a local socket that
      has not ended is being read again. */
  lemma FlushRestoresReading(es: seq<Event>)
    requires Enabled(Run(Accepted(O.MAX_PENDING), es), Opens(true))
    ensures var c := Run(Accepted(O.MAX_PENDING), es);
            var d := Step(c, Opens(true));
            && M.Pending(d.pipe.up) == Sum(c.refused) <= 65536
            && (M.Alive(d.pipe) && d.pipe.connected && !d.pipe.ended ==> d.pipe.up.reading)
  {
    var c := Run(Accepted(O.MAX_PENDING), es);
    Reachable(O.MAX_PENDING, es);
    AtMostOneRefused(es);
    OpeningFiresWithheld(O.MAX_PENDING, es, true);
    StepInv(c, Opens(true));
  }

  function Acks(ids: seq<nat>): seq<Event> { seq(|ids|, i requires 0 <= i < |ids| => Acked(ids[i])) }

  lemma {:induction false} AcksDrain(c: Conn, ids: seq<nat>)
    requires c.stream && c.refA && Distinct(ids) && Ids(ids) <= c.drains
    ensures Run(c, Acks(ids)).pipe == P.DrainAll(c.pipe, ids)
    decreases |ids|
  {
    if ids == [] {
      P.DrainNone(c.pipe, ids);
    } else {
      var d := Step(c, Acked(ids[0]));
      assert Acks(ids)[1..] == Acks(ids[1..]);
      assert forall i | 1 <= i < |ids| :: ids[i] != ids[0] && ids[i] in Ids(ids);
      assert d.drains == c.drains - {ids[0]};
      AcksDrain(d, ids[1..]);
    }
  }

  /** A connected socket that has not ended and is not being read always has a drain to wait for, one
      withheld for the opening before it and one registered with the stream after it; and while the stream
      lives, the opening, or its acknowledgements in whatever order they come, do read the socket again. */
  lemma ServerNeverWedges(es: seq<Event>, ids: seq<nat>)
    requires var c := Run(Accepted(O.MAX_PENDING), es);
             M.Alive(c.pipe) && c.pipe.connected && !c.pipe.ended && !c.flushFailed && c.stream
    ensures var c := Run(Accepted(O.MAX_PENDING), es);
            && (!c.pipe.up.reading ==> if c.box.isOpen then c.drains != {} else c.withheld != [])
            && (!c.box.isOpen ==> Enabled(c, Opens(true)) && Step(c, Opens(true)).pipe.up.reading)
            && (c.box.isOpen && Distinct(ids) && Ids(ids) == c.drains ==> Run(c, Acks(ids)).pipe.up.reading)
  {
    var c := Run(Accepted(O.MAX_PENDING), es);
    Reachable(O.MAX_PENDING, es);
    AtMostOneRefused(es);
    SumBelowEmpty(c.pipe.up.unacked, c.pipe.up.nextId);
    assert c.withheld == [] ==> Ids(c.withheld) == {};
    if !c.box.isOpen {
      FlushRestoresReading(es);
      OpeningStaysUp(c);
    } else if Distinct(ids) && Ids(ids) == c.drains {
      AcksDrain(c, ids);
      P.FireAllFrame(c.pipe.up, true, ids);
      P.DrainsRestart(c.pipe.up, ids);
    }
  }

  lemma OpeningStaysUp(c: Conn)
    requires Enabled(c, Opens(true)) && M.Lifecycle(c.pipe) && M.Alive(c.pipe)
    ensures var q := Step(c, Opens(true)).pipe;
            M.Alive(q) && q.connected == c.pipe.connected && q.ended == c.pipe.ended
  {
  }

  /** A flush that fails keeps every byte counted and no drain coming: the socket goes on being read,
      or is never read again, according to the count alone. */
  lemma FailedFlushKeepsCount(cap: nat, es: seq<Event>)
    requires Enabled(Run(Accepted(cap), es), Opens(false))
    requires Run(Accepted(cap), es).box.pending != []
    ensures var c := Run(Accepted(cap), es);
            var d := Step(c, Opens(false));
            && d.pipe.up.unacked.Keys == {} && d.withheld == [] && d.drains == {}
            && M.Pending(d.pipe.up) == M.Pending(c.pipe.up)
            && (M.Alive(d.pipe) && d.pipe.connected && !d.pipe.ended ==>
              (d.pipe.up.reading <==> M.Pending(c.pipe.up) < 262144))
  {
    var c := Run(Accepted(cap), es);
    Reachable(cap, es);
    P.AbandonInv(c.pipe);
    StepInv(c, Opens(false));
  }

  /** The stream is open, the socket unread, and no drain is left to restart it. */
  predicate Stranded(c: Conn)
  {
    && c.box.isOpen && !c.pipe.up.reading && c.pipe.up.unacked.Keys == {}
    && M.Pending(c.pipe.up) >= M.STREAM_HIGH_WATER
  }

  lemma StrandedStep(c: Conn, e: Event)
    requires Inv(c) && Stranded(c) && Enabled(c, e)
    ensures Stranded(Step(c, e))
  {
    if e.Local? {
      P.LocalNeverRestarts(c.pipe, e.e);
    }
  }

  lemma {:induction false} StrandedRun(c: Conn, es: seq<Event>)
    requires Inv(c) && Stranded(c)
    ensures Stranded(Run(c, es))
    decreases |es|
  {
    if es == [] {
    } else {
      if Enabled(c, es[0]) {
        StepInv(c, es[0]);
        StrandedStep(c, es[0]);
      }
      StrandedRun(if Enabled(c, es[0]) then Step(c, es[0]) else c, es[1..]);
    }
  }

  /** In the latter case it is never read again, whatever happens: the failure the pipe was to meet on its
      next write is never met, since there is no next write. */
  lemma FailedFlushStrands(cap: nat, es: seq<Event>, more: seq<Event>)
    requires Enabled(Run(Accepted(cap), es), Opens(false))
    requires Run(Accepted(cap), es).box.pending != []
    requires M.Pending(Run(Accepted(cap), es).pipe.up) >= 262144
    ensures var d := Run(Step(Run(Accepted(cap), es), Opens(false)), more);
            !d.pipe.up.reading && d.pipe.up.unacked.Keys == {}
  {
    var c := Run(Accepted(cap), es);
    Reachable(cap, es);
    FailedFlushKeepsCount(cap, es);
    StepInv(c, Opens(false));
    StrandedRun(Step(c, Opens(false)), more);
  }

  const ENOUGH := M.STREAM_HIGH_WATER + M.READ_MAX - 1

  lemma EnoughForStep(c: Conn, e: Event)
    requires Inv(c) && Enabled(c, e) && c.refused == [] && c.box.cap >= ENOUGH
    ensures Step(c, e).refused == []
  {
    if e.Reads? {
      assert !O.Refuses(c.box, e.data);
      TakenRefusesNothing(c, e.data, e.ok, e.acks);
    }
  }

  lemma TakenRefusesNothing(c: Conn, data: Bytes, ok: bool, acks: seq<nat>)
    requires !O.Refuses(c.box, data)
    ensures LocalRead(c, data, ok, acks).refused == c.refused
  {
    assert SideWrite(c, data, ok, acks).0.refused == c.refused;
    PipeTakesNone(SideWrite(c, data, ok, acks).0, M.Read(c.pipe, |data|, SideWrite(c, data, ok, acks).1));
  }

  lemma {:induction false} EnoughRefusesNothing(c: Conn, es: seq<Event>)
    requires Inv(c) && c.refused == [] && c.box.cap >= ENOUGH
    ensures Run(c, es).refused == []
    decreases |es|
  {
    if es == [] {
    } else {
      if Enabled(c, es[0]) {
        StepInv(c, es[0]);
        StepKeeps(c, es[0]);
        EnoughForStep(c, es[0]);
      }
      EnoughRefusesNothing(if Enabled(c, es[0]) then Step(c, es[0]) else c, es[1..]);
    }
  }

  /** A write leaves these alone. */
  predicate SameLife(d: Conn, c: Conn)
  {
    && d.pipe == c.pipe && d.stream == c.stream && d.box.isOpen == c.box.isOpen && d.box.cap == c.box.cap
    && d.refA == c.refA && d.refB == c.refB && d.freed == c.freed
  }

  lemma SideFrame(c: Conn, data: Bytes, ok: bool, acks: seq<nat>)
    ensures SameLife(SideWrite(c, data, ok, acks).0, c)
  {
  }

  lemma SideKeeps(c: Conn, data: Bytes, ok: bool, acks: seq<nat>)
    ensures var d := SideWrite(c, data, ok, acks).0;
            d.box.cap == c.box.cap && (c.refused != [] ==> d.refused != [])
  {
  }

  lemma StepKeeps(c: Conn, e: Event)
    requires Enabled(c, e)
    ensures var d := Step(c, e); d.box.cap == c.box.cap && (c.refused != [] ==> d.refused != [])
  {
    if e.Reads? {
      SideKeeps(c, e.data, e.ok, e.acks);
    }
  }

  lemma {:induction false} RefusedStays(c: Conn, es: seq<Event>)
    requires c.refused != []
    ensures Run(c, es).refused != []
    decreases |es|
  {
    if es == [] {
    } else {
      if Enabled(c, es[0]) { StepKeeps(c, es[0]); }
      RefusedStays(if Enabled(c, es[0]) then Step(c, es[0]) else c, es[1..]);
    }
  }

  function Chunk(n: nat): Event { Reads(seq(n, _ => 0), true, []) }

  function Chunks(ks: seq<nat>): seq<Event>
  {
    seq(|ks|, i requires 0 <= i < |ks| => Chunk(ks[i]))
  }

  /** Nothing refused yet, `n` bytes buffered, and the socket being read below the mark. */
  ghost predicate Filled(c: Conn, n: nat)
  {
    && Inv(c) && !c.box.isOpen && c.refused == [] && c.stream && c.pipe.started
    && |c.box.pending| == n && (n < M.STREAM_HIGH_WATER ==> c.pipe.up.reading)
  }

  lemma FillStep(c: Conn, n: nat, k: nat)
    requires Filled(c, n) && n < M.STREAM_HIGH_WATER && 0 < k <= M.READ_MAX
    ensures var d := Step(c, Chunk(k));
            d.box.cap == c.box.cap &&
            if n + k > c.box.cap then d.refused != [] else Filled(d, n + k)
  {
    StepInv(c, Chunk(k));
  }

  lemma {:induction false} Fills(c: Conn, n: nat, ks: seq<nat>)
    requires Filled(c, n) && ks != [] && (forall k | k in ks :: 0 < k <= M.READ_MAX)
    requires n + Sum(ks[..|ks| - 1]) < M.STREAM_HIGH_WATER
    requires n + Sum(ks) > c.box.cap
    ensures Run(c, Chunks(ks)).refused != []
    decreases |ks|
  {
    var es := Chunks(ks);
    assert ks[0] in ks && Sum(ks) == ks[0] + Sum(ks[1..]);
    FillStep(c, n, ks[0]);
    var d := Step(c, es[0]);
    if n + ks[0] > c.box.cap {
      RefusedStays(d, es[1..]);
    } else {
      var rest := ks[1..];
      assert forall k | k in rest :: k in ks;
      assert rest != [] && ks[..|ks| - 1] == [ks[0]] + rest[..|rest| - 1];
      assert ks[..|ks| - 1][1..] == rest[..|rest| - 1];
      Fills(d, n + ks[0], rest);
      assert es[1..] == Chunks(rest);
    }
  }

  function Dialed(): seq<Event> { [Local(M.Started(M.Dialing)), Local(M.Connected(true))] }

  /** Five reads that stay just under the mark until the last. */
  lemma Greedy() returns (ks: seq<nat>)
    ensures ks != [] && forall k | k in ks :: 0 < k <= M.READ_MAX
    ensures Sum(ks[..|ks| - 1]) == M.STREAM_HIGH_WATER - 1 && Sum(ks) == ENOUGH
  {
    var three := ThreeFull();
    SumSnoc(three, 65535);
    var four := three + [65535];
    SumSnoc(four, 65536);
    ks := four + [65536];
    assert ks[..|ks| - 1] == four;
  }

  /** Four that just reach it. */
  lemma Full() returns (ks: seq<nat>)
    ensures ks != [] && forall k | k in ks :: 0 < k <= M.READ_MAX
    ensures Sum(ks[..|ks| - 1]) < M.STREAM_HIGH_WATER == Sum(ks)
  {
    var three := ThreeFull();
    SumSnoc(three, 65536);
    ks := three + [65536];
    assert ks[..|ks| - 1] == three;
  }

  lemma ThreeFull() returns (ks: seq<nat>)
    ensures Sum(ks) == 196608 && forall k | k in ks :: 0 < k <= M.READ_MAX
  {
    var k: nat := M.READ_MAX;
    SumSnoc([], k);
    SumSnoc([k], k);
    SumSnoc([k, k], k);
    assert [] + [k] == [k] && [k] + [k] == [k, k];
    ks := [k, k] + [k];
  }

  /** A connection as it is accepted. */
  ghost predicate New(c: Conn, cap: nat)
  {
    && Inv(c) && !c.pipe.started && !c.box.isOpen && c.refused == [] && c.box.pending == [] && c.stream
    && c.box.cap == cap
  }

  lemma AcceptedIsNew(cap: nat)
    ensures New(Accepted(cap), cap)
  {
    AcceptedInv(cap);
  }

  lemma DialedReads(c: Conn, cap: nat)
    requires New(c, cap)
    ensures var d := Run(c, Dialed()); Filled(d, 0) && d.box.cap == cap
  {
    var start, connected := Local(M.Started(M.Dialing)), Local(M.Connected(true));
    StepInv(c, start);
    var d := Step(c, start);
    StepInv(d, connected);
    assert [start, connected][1..] == [connected] && [connected][1..] == [];
    assert Run(d, [connected]) == Step(d, connected);
  }

  /** The local socket is dialed and read in these chunks. */
  function DialAndRead(ks: seq<nat>): seq<Event> { Dialed() + Chunks(ks) }

  lemma ReadsOverrun(c: Conn, cap: nat, ks: seq<nat>)
    requires New(c, cap) && ks != [] && (forall k | k in ks :: 0 < k <= M.READ_MAX)
    requires Sum(ks[..|ks| - 1]) < M.STREAM_HIGH_WATER && Sum(ks) > cap
    ensures Run(c, DialAndRead(ks)).refused != []
  {
    DialedReads(c, cap);
    RunAppend(c, Dialed(), Chunks(ks));
    Fills(Run(c, Dialed()), 0, ks);
  }

  lemma ReadsFill(c: Conn, cap: nat, ks: seq<nat>)
    requires New(c, cap) && ks != [] && (forall k | k in ks :: 0 < k <= M.READ_MAX)
    requires Sum(ks[..|ks| - 1]) < M.STREAM_HIGH_WATER && Sum(ks) <= cap
    ensures Filled(Run(c, DialAndRead(ks)), Sum(ks))
  {
    DialedReads(c, cap);
    RunAppend(c, Dialed(), Chunks(ks));
    FillsTo(Run(c, Dialed()), 0, ks);
  }

  /** Five greedy reads overrun every smaller budget, the server's own 262144 included. */
  lemma SmallerBudgetRefuses(cap: nat) returns (es: seq<Event>)
    requires cap < 262144 + 65535
    ensures Run(Accepted(cap), es).refused != []
  {
    var ks := Greedy();
    AcceptedIsNew(cap);
    ReadsOverrun(Accepted(cap), cap, ks);
    es := DialAndRead(ks);
  }

  lemma {:induction false} FillsTo(c: Conn, n: nat, ks: seq<nat>)
    requires Filled(c, n) && (forall k | k in ks :: 0 < k <= M.READ_MAX)
    requires ks != [] ==> n + Sum(ks[..|ks| - 1]) < M.STREAM_HIGH_WATER
    requires n + Sum(ks) <= c.box.cap
    ensures Filled(Run(c, Chunks(ks)), n + Sum(ks))
    decreases |ks|
  {
    if ks == [] {
    } else {
      var es, rest := Chunks(ks), ks[1..];
      assert ks[0] in ks && forall k | k in rest :: k in ks;
      FillStep(c, n, ks[0]);
      assert es[1..] == Chunks(rest);
      if rest != [] {
        assert ks[..|ks| - 1] == [ks[0]] + rest[..|rest| - 1];
        assert ks[..|ks| - 1][1..] == rest[..|rest| - 1];
      }
      FillsTo(Step(c, es[0]), n + ks[0], rest);
    }
  }

  /** And there are runs that come to that, with the server's budget or any larger one: four full reads
      before a flush that fails. */
  lemma FailedFlushCanStrand(cap: nat) returns (es: seq<Event>)
    requires cap >= 262144
    ensures var c := Run(Accepted(cap), es);
            && Enabled(c, Opens(false)) && c.box.pending != []
            && M.Pending(c.pipe.up) >= 262144 && c.stream
  {
    var ks := Full();
    AcceptedIsNew(cap);
    ReadsFill(Accepted(cap), cap, ks);
    es := DialAndRead(ks);
    FilledWaits(Run(Accepted(cap), es), Sum(ks));
  }

  lemma FilledWaits(c: Conn, n: nat)
    requires Filled(c, n)
    ensures Enabled(c, Opens(false)) && M.Pending(c.pipe.up) == n == |c.box.pending| && c.stream
  {
    assert !c.flushFailed && Sum(c.refused) == 0;
  }

  /** One byte less than the mark plus a full read is exactly the budget that never refuses: with it
      no run does, and with any less some run does. */
  lemma BudgetExactlyEnough(cap: nat)
    ensures (forall es :: Run(Accepted(cap), es).refused == []) <==> cap >= 262144 + 65535
  {
    AcceptedInv(cap);
    if cap >= ENOUGH {
      forall es ensures Run(Accepted(cap), es).refused == [] {
        EnoughRefusesNothing(Accepted(cap), es);
      }
    } else {
      var es := SmallerBudgetRefuses(cap);
    }
  }
}
