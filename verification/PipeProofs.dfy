/** What `TcpPipe` promises, proved of every run of its abstract machine. */
module PipeProofs {
  import opened Common
  import opened PipeModel

  // ---- one direction at a time -------------------------------------------------------------

  lemma EnqueueDownward(d: Downstream, data: Bytes)
    requires Downward(d, true)
    ensures Downward(Enqueue(d.(offered := d.offered + data), data), true)
  {
    ConcatSnoc(d.owed, data);
  }

  lemma DequeueDownward(d: Downstream, live: bool)
    requires d.owed != [] && Downward(d, live)
    ensures Downward(Dequeue(d), live)
  {
    assert Concat(d.owed) == d.owed[0] + Concat(d.owed[1..]);
  }

  lemma EnqueueCounts(d: Downstream, data: Bytes)
    ensures var e := Enqueue(d, data);
            && Queued(e) == Queued(d) + |data|
            && Paused(e.flow) == (Paused(d.flow) || Queued(e) >= HIGH_WATER)
            && e.flow == if !Paused(d.flow) && Queued(e) >= HIGH_WATER then d.flow + [Pause] else d.flow
  {
    ConcatSnoc(d.owed, data);
  }

  lemma WritesLifecycle(p: Pipe)
    requires Lifecycle(p) && p.down.owed != []
    ensures Lifecycle(p.(down := Dequeue(p.down)))
    ensures Lifecycle(p.(down := p.down.(owed := p.down.owed[1..])))
  {
  }

  lemma DequeueCounts(d: Downstream)
    requires d.owed != []
    ensures var e := Dequeue(d);
            && Queued(e) == Queued(d.(owed := d.owed[1..])) == Queued(d) - |d.owed[0]|
            && Paused(e.flow) == (Paused(d.flow) && Queued(e) >= HIGH_WATER)
            && e.flow == if Paused(d.flow) && Queued(e) < HIGH_WATER then d.flow + [Resume] else d.flow
  {
    assert Concat(d.owed) == d.owed[0] + Concat(d.owed[1..]);
  }

  lemma FireCounts(u: Upstream, alive: bool, id: nat)
    requires id in u.unacked && id < u.nextId
    ensures Pending(Fire(u, alive, id)) == Pending(u) - u.unacked[id]
  {
    SumBelowRemove(u.unacked, id, u.nextId);
  }

  /** Firing drains touches nothing but the chunks fired, and can only lower the count. */
  lemma {:induction false} FireAllFrame(u: Upstream, alive: bool, ids: seq<nat>)
    requires forall k | k in u.unacked :: k < u.nextId
    ensures var v := FireAll(u, alive, ids);
            && v.nextId == u.nextId && v.lost == u.lost
            && v.unacked.Keys == u.unacked.Keys - (set k | k in ids)
            && Pending(v) <= Pending(u)
            && (u.reading ==> v.reading)
            && (v.reading ==> u.reading || (alive && Pending(v) < STREAM_HIGH_WATER))
    decreases |ids|
  {
    if ids == [] {
    } else {
      var u1 := Fire(u, alive, ids[0]);
      if ids[0] in u.unacked {
        FireCounts(u, alive, ids[0]);
      }
      FireAllFrame(u1, alive, ids[1..]);
    }
  }

  /** The pipe once these drains have fired. */
  function DrainAll(p: Pipe, ids: seq<nat>): Pipe
  {
    p.(up := FireAll(p.up, Alive(p), ids))
  }

  lemma DrainNext(p: Pipe, ids: seq<nat>, i: nat)
    requires i < |ids|
    ensures DrainAll(p, ids[i..]) == DrainAll(if ids[i] in p.up.unacked then Drain(p, ids[i]) else p, ids[i + 1..])
  {
    assert ids[i..][0] == ids[i] && ids[i..][1..] == ids[i + 1..];
    assert p.(up := p.up) == p;
  }

  lemma DrainNone(p: Pipe, ids: seq<nat>)
    requires ids == []
    ensures DrainAll(p, ids) == p
  {
  }

  /** A chunk that did not fail leaves the pipe reading exactly below the mark. */
  lemma SubmitUpward(u: Upstream, len: nat, answer: Answer)
    requires Upward(u) && u.reading && 0 < len <= READ_MAX && !answer.Rejected?
    ensures var v := Throttle(Taken(u, true, len, answer));
            Upward(v) && (v.reading <==> Pending(v) < STREAM_HIGH_WATER)
  {
    match answer
    case Accepted(acks) =>
      SumBelowAdd(u.unacked, u.nextId, len);
      FireAllFrame(Submitted(u, len), true, acks);
    case Swallowed => SumBelowNext(u.unacked, u.nextId);
  }

  lemma SkipId(u: Upstream)
    requires forall k | k in u.unacked :: k < u.nextId
    ensures Pending(u.(nextId := u.nextId + 1)) == Pending(u)
  {
    SumBelowNext(u.unacked, u.nextId);
    assert u.nextId !in u.unacked;
  }

  // ---- the whole pipe ----------------------------------------------------------------------

  lemma DestroyInv(p: Pipe, why: Cause)
    requires p.started && Lifecycle(p) && Upward(p.up) && Alternates(p.down.flow)
    requires !p.connected ==> p.up.unacked.Keys == {} && p.up.lost == 0 && !p.up.reading
    requires p.cause != None ==> Graceful(p)
    requires p.halfCloses >= (if p.ended then 1 else 0) + (if p.cause != None then 1 else 0)
    requires why == Flushed ==>
      p.down.owed == [] && (p.handle != Absent ==> p.down.delivered == p.down.offered)
    ensures Inv(Destroy(p, why))
  {
  }

  lemma ReadInv(p: Pipe, len: nat, answer: Answer)
    requires Inv(p) && Enabled(p, LocalRead(len, answer))
    ensures Inv(Read(p, len, answer))
  {
    if answer.Rejected? {
      SkipId(p.up);
      DestroyInv(p.(up := p.up.(nextId := p.up.nextId + 1)), Torn);
    } else {
      SubmitUpward(p.up, len, answer);
    }
  }

  lemma DrainInv(p: Pipe, id: nat)
    requires Inv(p) && id in p.up.unacked
    ensures Inv(Drain(p, id))
  {
    FireCounts(p.up, Alive(p), id);
  }

  /** What an accepted read leaves unacknowledged. */
  lemma ReadAccepted(p: Pipe, len: nat, acks: seq<nat>)
    requires Inv(p)
    ensures var q := Read(p, len, Accepted(acks));
            && q.notices == p.notices && q.up.nextId == p.up.nextId + 1 && q.up.lost == p.up.lost
            && q.up.unacked.Keys == p.up.unacked.Keys + {p.up.nextId} - (set k | k in acks)
  {
    FireAllFrame(Submitted(p.up, len), Alive(p), acks);
  }

  lemma {:induction false} DrainAllInv(p: Pipe, ids: seq<nat>)
    requires Inv(p)
    ensures Inv(DrainAll(p, ids))
    decreases |ids|
  {
    if ids == [] {
      assert p.(up := p.up) == p;
    } else {
      if ids[0] in p.up.unacked {
        DrainInv(p, ids[0]);
      }
      DrainAllInv(p.(up := Fire(p.up, Alive(p), ids[0])), ids[1..]);
    }
  }

  lemma AbandonCounts(u: Upstream)
    ensures Pending(Abandon(u)) == Pending(u)
  {
    SumBelowEmpty(Abandon(u).unacked, u.nextId);
  }

  lemma AbandonInv(p: Pipe)
    requires Inv(p)
    ensures Inv(p.(up := Abandon(p.up))) && Pending(Abandon(p.up)) == Pending(p.up)
  {
    SumBelowEmpty(Abandon(p.up).unacked, p.up.nextId);
  }

  lemma DataInv(p: Pipe, data: Bytes, ok: bool)
    requires Inv(p) && p.started
    ensures Inv(Data(p, data, ok))
  {
    if Alive(p) && data != [] {
      if ok {
        EnqueueDownward(p.down, data);
      } else {
        DestroyInv(p.(down := p.down.(offered := p.down.offered + data)), Torn);
      }
    }
  }

  lemma WriteDoneInv(p: Pipe, ok: bool)
    requires Inv(p) && p.down.owed != []
    ensures Inv(WriteDone(p, ok))
  {
    if ok {
      DequeueDownward(p.down, Alive(p));
      var q := p.(down := Dequeue(p.down));
      if q.streamClosed && q.down.owed == [] && q.cause == None {
        DestroyInv(q, Flushed);
      }
    } else {
      DestroyInv(p.(down := p.down.(owed := p.down.owed[1..])), Torn);
    }
  }

  lemma StepInv(p: Pipe, e: Event)
    requires Inv(p) && Enabled(p, e)
    ensures Inv(Step(p, e))
  {
    match e
    case Started(_) =>
      SumBelowEmpty(p.up.unacked, p.up.nextId);
    case Connected(ok) =>
      SumBelowEmpty(p.up.unacked, p.up.nextId);
      if !ok { DestroyInv(p.(connectOwed := false), Torn); }
    case LocalRead(len, answer) => ReadInv(p, len, answer);
    case LocalEof =>
    case LocalError => DestroyInv(p, Torn);
    case StreamData(data, ok) => DataInv(p, data, ok);
    case Written(ok) => WriteDoneInv(p, ok);
    case Drained(id) => DrainInv(p, id);
    case StreamClosed =>
    case Closed =>
    case OwnerDestroys => DestroyInv(p, Torn);
  }

  // ---- what a step changes -----------------------------------------------------------------

  function Ended(p: Pipe): nat { if p.cause != None then 1 else 0 }

  /** `q` is `p`, perhaps on its way out. */
  predicate Winds(p: Pipe, q: Pipe)
  {
    && q.started == p.started && q.streamClosed == p.streamClosed && q.connectOwed == p.connectOwed
    && q.connected == p.connected && q.down == p.down && (p.cause != None ==> q.cause == p.cause)
    && q.halfCloses + Ended(p) == p.halfCloses + Ended(q)
    && q.up == p.up.(reading := q.up.reading) && (q.up.reading ==> p.up.reading)
  }

  lemma DestroyWinds(p: Pipe, why: Cause)
    ensures Winds(p, Destroy(p, why)) && Destroy(p, why).cause != None
  {
  }

  lemma FlushWinds(p: Pipe)
    ensures Winds(p, FlushFinished(p))
  {
    DestroyWinds(p, Flushed);
  }

  /** What no step takes back, and what only some steps change. */
  predicate Moves(p: Pipe, e: Event, q: Pipe)
  {
    && (p.started ==> q.started)
    && (p.streamClosed ==> q.streamClosed) && (e.StreamClosed? ==> q.streamClosed || q.cause != None)
    && (p.cause != None ==> q.cause == p.cause)
    && (q.connectOwed ==> p.connectOwed || e.Started?)
    && q.halfCloses + Ended(p) == p.halfCloses + Ended(q) + (if e.LocalEof? then 1 else 0)
    && q.down.offered == p.down.offered + (if e.StreamData? && p.cause == None then e.data else [])
    && (p.cause != None && !Paused(p.down.flow) ==> q.down.flow == p.down.flow)
    && (!e.LocalRead? && !e.Drained? ==> q.up == p.up.(reading := q.up.reading))
    && (q.up.reading ==> p.up.reading || e.Started? || e.Connected? || e.Drained?)
  }

  lemma StartMoves(p: Pipe, origin: Origin)
    ensures Moves(p, Started(origin), Start(p, origin))
  {
    assert p.down.offered + [] == p.down.offered;
    if origin.SetupFailed? {
      DestroyWinds(p.(started := true, handle := Live), Torn);
    }
  }

  lemma ConnectMoves(p: Pipe, ok: bool)
    ensures Moves(p, Connected(ok), ConnectDone(p, ok))
  {
    assert p.down.offered + [] == p.down.offered;
    DestroyWinds(p.(connectOwed := false), Torn);
  }

  lemma ReadMoves(p: Pipe, len: nat, answer: Answer)
    requires p.up.reading
    ensures Moves(p, LocalRead(len, answer), Read(p, len, answer))
  {
    assert p.down.offered + [] == p.down.offered;
    DestroyWinds(p.(up := Taken(p.up, Alive(p), len, answer)), Torn);
  }

  lemma DataMoves(p: Pipe, data: Bytes, ok: bool)
    ensures Moves(p, StreamData(data, ok), Data(p, data, ok))
  {
    assert p.down.offered + [] == p.down.offered;
    DestroyWinds(p.(down := p.down.(offered := p.down.offered + data)), Torn);
  }

  lemma WrittenMoves(p: Pipe, ok: bool)
    requires p.down.owed != []
    ensures Moves(p, Written(ok), WriteDone(p, ok))
  {
    assert p.down.offered + [] == p.down.offered;
    DestroyWinds(p.(down := p.down.(owed := p.down.owed[1..])), Torn);
    FlushWinds(p.(down := Dequeue(p.down)));
  }

  lemma CloseMoves(p: Pipe)
    ensures Moves(p, StreamClosed, StreamClose(p))
  {
    assert p.down.offered + [] == p.down.offered;
    FlushWinds(p.(streamClosed := true));
  }

  lemma WindsMoves(p: Pipe, e: Event, q: Pipe)
    requires Winds(p, q) && (e.LocalError? || e.OwnerDestroys?)
    ensures Moves(p, e, q)
  {
    assert p.down.offered + [] == p.down.offered;
  }

  lemma StepMoves(p: Pipe, e: Event)
    requires Enabled(p, e)
    ensures Moves(p, e, Step(p, e))
  {
    match e
    case Started(origin) => StartMoves(p, origin);
    case Connected(ok) => ConnectMoves(p, ok);
    case LocalRead(len, answer) => ReadMoves(p, len, answer);
    case LocalEof => assert p.down.offered + [] == p.down.offered;
    case LocalError => DestroyWinds(p, Torn); WindsMoves(p, e, Destroy(p, Torn));
    case StreamData(data, ok) => DataMoves(p, data, ok);
    case Written(ok) => WrittenMoves(p, ok);
    case Drained(id) => assert p.down.offered + [] == p.down.offered;
    case StreamClosed => CloseMoves(p);
    case Closed => assert p.down.offered + [] == p.down.offered;
    case OwnerDestroys => DestroyWinds(p, Torn); WindsMoves(p, e, Destroy(p, Torn));
  }

  /** Apart from drains, only the end of a connect starts reading, when nothing is pending. */
  lemma LocalNeverRestarts(p: Pipe, e: Event)
    requires Inv(p) && Enabled(p, e) && !e.LocalRead? && !e.Drained?
    ensures var q := Step(p, e);
            && (q.up.reading ==> p.up.reading || Pending(p.up) == 0)
            && q.up == p.up.(reading := q.up.reading)
  {
    SumBelowEmpty(p.up.unacked, p.up.nextId);
    StepMoves(p, e);
  }

  lemma NoticesGrow(p: Pipe, e: Event)
    requires Inv(p) && Enabled(p, e)
    ensures p.notices <= Step(p, e).notices <= 1 && p.halfCloses <= Step(p, e).halfCloses
  {
    StepInv(p, e);
    StepMoves(p, e);
  }

  lemma {:induction false} RunInv(p: Pipe, es: seq<Event>)
    requires Inv(p)
    ensures Inv(Run(p, es))
    decreases |es|
  {
    if es == [] {
    } else {
      if Enabled(p, es[0]) {
        StepInv(p, es[0]);
        RunInv(Step(p, es[0]), es[1..]);
      } else {
        RunInv(p, es[1..]);
      }
    }
  }

  lemma InitialInv()
    ensures Inv(Initial())
  {
    SumBelowEmpty(Initial().up.unacked, 0);
  }

  lemma Reachable(es: seq<Event>)
    ensures Inv(Run(Initial(), es))
  {
    InitialInv();
    RunInv(Initial(), es);
  }

  lemma {:induction false} RunAppend(p: Pipe, a: seq<Event>, b: seq<Event>)
    ensures Run(p, a + b) == Run(Run(p, a), b)
    decreases |a|
  {
    if a == [] {
      assert a + b == b;
    } else {
      assert (a + b)[1..] == a[1..] + b;
      RunAppend(if Enabled(p, a[0]) then Step(p, a[0]) else p, a[1..], b);
    }
  }

  // ---- stream to local socket --------------------------------------------------------------

  /** The stream is paused exactly while a full watermark is queued, its pauses and resumes take
      turns, and a paused stream always has a completion coming. */
  lemma DownwardAccounting(es: seq<Event>)
    ensures var p := Run(Initial(), es);
            var flow := p.down.flow;
            var paused := flow != [] && flow[|flow| - 1] == Pause;
            && (forall i | 0 <= i < |flow| :: flow[i] == Pause <==> i % 2 == 0)
            && (Alive(p) ==> (paused <==> |Concat(p.down.owed)| >= 65536))
            && (Alive(p) && paused ==> Enabled(p, Written(true)))
  {
    Reachable(es);
  }

  function Completions(n: nat): seq<Event> { seq(n, _ => Written(true)) }

  /** Once libuv completes what it has accepted, the stream is running again, every byte handed over
      has reached the local socket, and a pipe whose stream had closed has wound itself up. */
  lemma {:induction false} CompletionsUnwedge(p: Pipe)
    requires Inv(p) && Alive(p)
    ensures var q := Run(p, Completions(|p.down.owed|));
            && q.down.owed == []
            && q.down.delivered == p.down.offered
            && !Paused(q.down.flow)
            && q.cause == (if p.streamClosed then Some(Flushed) else None)
    decreases |p.down.owed|
  {
    var es := Completions(|p.down.owed|);
    if p.down.owed == [] {
    } else {
      StepInv(p, es[0]);
      var q := Step(p, es[0]);
      assert es[1..] == Completions(|q.down.owed|);
      DequeueDownward(p.down, true);
      if q.cause == None {
        CompletionsUnwedge(q);
      } else {
        assert es[1..] == [];
      }
    }
  }

  /** A live pipe told of its stream's end delivers everything, and ends as flushed. */
  lemma ClosedDelivers(p: Pipe)
    requires Inv(p) && Alive(p)
    ensures var q := Run(StreamClose(p), Completions(|p.down.owed|));
            q.cause == Some(Flushed) && q.down.delivered == p.down.offered
  {
    StepInv(p, StreamClosed);
    if p.down.owed == [] {
      assert Completions(0) == [];
    } else {
      CompletionsUnwedge(StreamClose(p));
    }
  }

  lemma NeverWedged(es: seq<Event>)
    requires Alive(Run(Initial(), es))
    ensures var p := Run(Initial(), es);
            var q := Run(Initial(), es + Completions(|p.down.owed|));
            && q.down.owed == [] && !Paused(q.down.flow)
            && q.down.delivered == p.down.offered
            && (p.streamClosed <==> q.cause == Some(Flushed))
  {
    var p := Run(Initial(), es);
    Reachable(es);
    RunAppend(Initial(), es, Completions(|p.down.owed|));
    CompletionsUnwedge(p);
  }

  /** The bytes a run hands over while the pipe lives, in order. */
  function Handed(p: Pipe, es: seq<Event>): Bytes
    decreases |es|
  {
    if es == [] then []
    else if !Enabled(p, es[0]) then Handed(p, es[1..])
    else
      (if es[0].StreamData? && p.cause == None then es[0].data else []) + Handed(Step(p, es[0]), es[1..])
  }

  lemma {:induction false} OfferedIsHanded(p: Pipe, es: seq<Event>)
    ensures Run(p, es).down.offered == p.down.offered + Handed(p, es)
    decreases |es|
  {
    if es == [] {
    } else {
      if Enabled(p, es[0]) {
        StepMoves(p, es[0]);
        OfferedIsHanded(Step(p, es[0]), es[1..]);
        var now := if es[0].StreamData? && p.cause == None then es[0].data else [];
        assert (p.down.offered + now) + Handed(Step(p, es[0]), es[1..]) == p.down.offered + Handed(p, es);
      } else {
        OfferedIsHanded(p, es[1..]);
      }
    }
  }

  /** A pipe that ended by flushing had nothing in flight, and its local socket received, in order,
      every byte the run handed over; unless the socket could not even be created and there was
      something to lose. */
  lemma GracefulCloseDelivers(es: seq<Event>)
    requires Run(Initial(), es).cause == Some(Flushed)
    ensures var p := Run(Initial(), es);
            && p.down.owed == []
            && (p.down.delivered == Handed(Initial(), es) <==> p.handle != Absent || Handed(Initial(), es) == [])
  {
    Reachable(es);
    OfferedIsHanded(Initial(), es);
    assert [] + Handed(Initial(), es) == Handed(Initial(), es);
  }

  /** The run that loses bytes: `connect` fails to create its socket and its caller carries on. */
  lemma GracefulCloseWithoutSocketLoses()
    ensures var p := Run(Initial(), [Started(InitFailed), StreamData([7], true), StreamClosed]);
            && p.cause == Some(Flushed) && p.down.offered == [7] && p.down.delivered == []
  {
    var es := [Started(InitFailed), StreamData([7], true), StreamClosed];
    var p1 := Step(Initial(), es[0]);
    var p2 := Step(p1, es[1]);
    assert es[1..][1..] == [es[2]];
    assert Run(Initial(), es) == Run(p1, es[1..]) == Run(p2, [es[2]]) == Step(p2, es[2]);
  }

  /** A write past the mark pauses the stream, whoever destroys the pipe after it. */
  lemma Swamped(i: Pipe, data: Bytes) returns (q: Pipe)
    requires !i.started && i.cause == None && i.down.owed == [] && i.down.flow == [] && |data| >= HIGH_WATER
    ensures Run(i, [Started(Adopted), StreamData(data, true), OwnerDestroys]) == q
    ensures q.cause == Some(Torn) && q.down.owed == [data] && q.down.flow == [Pause]
  {
    var e0, e1, e2 := Started(Adopted), StreamData(data, true), OwnerDestroys;
    var p := Step(i, e0);
    EnqueueCounts(p.down.(offered := p.down.offered + data), data);
    var r := Step(p, e1);
    q := Step(r, e2);
    assert [e0, e1, e2][1..] == [e1, e2] && [e1, e2][1..] == [e2] && [e2][1..] == [];
    assert Run(r, [e2]) == q;
    assert Run(p, [e1, e2]) == q;
  }

  /** A write that completes after the owner has destroyed the pipe still resumes the stream. */
  lemma ResumeAfterDestroy(data: Bytes)
    requires |data| >= 65536
    ensures var p := Run(Initial(), [Started(Adopted), StreamData(data, true), OwnerDestroys] + [Written(true)]);
            p.cause == Some(Torn) && p.down.flow == [Pause, Resume]
  {
    var before := [Started(Adopted), StreamData(data, true), OwnerDestroys];
    var q := Swamped(Initial(), data);
    DequeueCounts(q.down);
    RunAppend(Initial(), before, [Written(true)]);
    StepMoves(q, Written(true));
    assert [Written(true)][1..] == [];
    assert Run(q, [Written(true)]) == Step(q, Written(true));
  }

  /** A torn-down pipe makes no more flow calls unless its last one was a pause. */
  lemma {:induction false} QuietWhenTorn(q: Pipe, more: seq<Event>)
    requires q.started && q.cause != None && !Paused(q.down.flow)
    ensures Run(q, more).down.flow == q.down.flow
    decreases |more|
  {
    if more == [] {
    } else {
      if Enabled(q, more[0]) { StepMoves(q, more[0]); }
      QuietWhenTorn(if Enabled(q, more[0]) then Step(q, more[0]) else q, more[1..]);
    }
  }

  /** If it was a pause, the writes still to complete bring the resume. */
  lemma {:induction false} TornCompletes(q: Pipe)
    requires q.cause != None
    ensures var r := Run(q, Completions(|q.down.owed|));
            && |r.down.flow| >= |q.down.flow|
            && (Paused(q.down.flow) && q.down.owed != [] ==> |r.down.flow| > |q.down.flow|)
    decreases |q.down.owed|
  {
    var es := Completions(|q.down.owed|);
    if q.down.owed == [] {
    } else {
      var r := Step(q, es[0]);
      DequeueCounts(q.down);
      assert es[1..] == Completions(|r.down.owed|);
      TornCompletes(r);
      assert r.down.owed == [] ==> Queued(r.down) == 0;
    }
  }

  /** Flow control outlives a live pipe that is torn down exactly when the stream was paused at that moment:
      then, and only then, some run of what follows resumes it. */
  lemma ResumesAfterDestroyExactly(es: seq<Event>)
    requires Alive(Run(Initial(), es))
    ensures var p := Run(Initial(), es);
            var q := Destroy(p, Torn);
            (forall more :: Run(q, more).down.flow == q.down.flow) <==> !Paused(p.down.flow)
  {
    var p := Run(Initial(), es);
    var q := Destroy(p, Torn);
    Reachable(es);
    if Paused(p.down.flow) {
      assert p.down.owed != [];
      TornCompletes(q);
      assert Run(q, Completions(|q.down.owed|)).down.flow != q.down.flow;
    } else {
      forall more ensures Run(q, more).down.flow == q.down.flow {
        QuietWhenTorn(q, more);
      }
    }
  }

  // ---- local socket to stream --------------------------------------------------------------

  /** Unacknowledged bytes stay under the mark plus one read, and a connected pipe whose socket has
      not ended reads exactly below the mark; so one that is not reading has a drain coming, unless
      the bytes lost for good fill the mark by themselves. */
  lemma UpwardAccounting(es: seq<Event>)
    ensures var p := Run(Initial(), es);
            var pending := SumBelow(p.up.unacked, p.up.nextId) + p.up.lost;
            && pending < 262144 + 65536
            && (p.up.reading ==> pending < 262144)
            && (p.connected && !p.ended && Alive(p) ==>
              && (p.up.reading <==> pending < 262144)
              && (!p.up.reading && p.up.lost < 262144 ==> p.up.unacked.Keys != {}))
  {
    var p := Run(Initial(), es);
    Reachable(es);
    SumBelowEmpty(p.up.unacked, p.up.nextId);
  }

  /** However the drains that are owed come back, the last of them restarts reading. */
  lemma {:induction false} DrainsRestart(u: Upstream, ids: seq<nat>)
    requires forall k | k in u.unacked :: k < u.nextId
    requires u.lost < STREAM_HIGH_WATER
    requires u.unacked.Keys == {} ==> u.reading
    requires FireAll(u, true, ids).unacked.Keys == {}
    ensures FireAll(u, true, ids).reading
    decreases |ids|
  {
    if ids == [] {
    } else {
      var u1 := Fire(u, true, ids[0]);
      SumBelowEmpty(u1.unacked, u1.nextId);
      DrainsRestart(u1, ids[1..]);
    }
  }

  /** So a connected pipe whose socket has not ended always resumes reading. */
  lemma ReadingAlwaysResumes(es: seq<Event>, ids: seq<nat>)
    requires var p := Run(Initial(), es);
             && Alive(p) && p.connected && !p.ended && p.up.lost < 262144
             && FireAll(p.up, true, ids).unacked.Keys == {}
    ensures FireAll(Run(Initial(), es).up, true, ids).reading
  {
    Reachable(es);
    UpwardAccounting(es);
    DrainsRestart(Run(Initial(), es).up, ids);
  }

  lemma ReadingIsConnected(es: seq<Event>)
    ensures var p := Run(Initial(), es); p.up.reading ==> p.started && p.connected && !p.connectOwed
  {
    Reachable(es);
  }

  lemma {:induction false} NeverReadAgain(p: Pipe, es: seq<Event>)
    requires Inv(p) && p.started && !p.connectOwed && !p.up.reading && p.up.unacked.Keys == {}
    ensures !Run(p, es).up.reading
    decreases |es|
  {
    if es == [] {
    } else {
      if Enabled(p, es[0]) {
        StepInv(p, es[0]);
        StepMoves(p, es[0]);
      }
      NeverReadAgain(if Enabled(p, es[0]) then Step(p, es[0]) else p, es[1..]);
    }
  }

  /** Any drain still owed at the end of file reads the socket again. */
  lemma LateDrainReads(before: seq<Event>, id: nat)
    requires var p := Run(Initial(), before); Enabled(p, LocalEof) && id in p.up.unacked
    ensures Run(Step(Run(Initial(), before), LocalEof), [Drained(id)]).up.reading
  {
    var p := Run(Initial(), before);
    Reachable(before);
    FireCounts(p.up.(reading := false), true, id);
    var q := Step(p, LocalEof);
    assert [Drained(id)][1..] == [];
    assert Run(q, [Drained(id)]) == Step(q, Drained(id));
  }

  predicate NoDrains(es: seq<Event>) { forall e | e in es :: !e.Drained? }

  lemma {:induction false} EndedUntilDrain(p: Pipe, es: seq<Event>)
    requires Inv(p) && p.started && !p.connectOwed && !p.up.reading && NoDrains(es)
    ensures !Run(p, es).up.reading
    decreases |es|
  {
    if es == [] {
    } else {
      assert es[0] in es && forall e | e in es[1..] :: e in es;
      if Enabled(p, es[0]) {
        StepInv(p, es[0]);
        StepMoves(p, es[0]);
      }
      EndedUntilDrain(if Enabled(p, es[0]) then Step(p, es[0]) else p, es[1..]);
    }
  }

  /** The end of file half-closes the stream and stops the reading; nothing but a drain reads again; and the
      socket is never read again, whatever happens, exactly when no drain was owed at that moment. */
  lemma EofIsFinalExactly(before: seq<Event>)
    requires Enabled(Run(Initial(), before), LocalEof)
    ensures var p := Run(Initial(), before);
            var q := Step(p, LocalEof);
            && q.halfCloses == p.halfCloses + 1
            && (forall after | NoDrains(after) :: !Run(q, after).up.reading)
            && ((forall after :: !Run(q, after).up.reading) <==> p.up.unacked.Keys == {})
  {
    var p := Run(Initial(), before);
    var q := Step(p, LocalEof);
    Reachable(before);
    StepInv(p, LocalEof);
    ReadingIsConnected(before);
    forall after | NoDrains(after) ensures !Run(q, after).up.reading {
      EndedUntilDrain(q, after);
    }
    if p.up.unacked.Keys == {} {
      forall after ensures !Run(q, after).up.reading {
        NeverReadAgain(q, after);
      }
    } else {
      var id :| id in p.up.unacked;
      LateDrainReads(before, id);
    }
  }

  function AdoptAndRead(): seq<Event> { [Started(Adopted), LocalRead(1, Accepted([]))] }

  lemma AdoptedReads(i: Pipe, id: nat)
    requires Inv(i) && !i.started && i.up.nextId == id
    ensures var p := Run(i, AdoptAndRead()); p.up.reading && id in p.up.unacked
  {
    var e0, e1 := Started(Adopted), LocalRead(1, Accepted([]));
    var p := Step(i, e0);
    StepInv(i, e0);
    SumBelowEmpty(p.up.unacked, p.up.nextId);
    SubmitUpward(p.up, 1, e1.answer);
    SumBelowAdd(p.up.unacked, p.up.nextId, 1);
    ReadAccepted(p, 1, []);
    assert [e0, e1][1..] == [e1] && [e1][1..] == [];
    assert Run(p, [e1]) == Step(p, e1);
  }

  /** There are runs in which one is. */
  lemma LateDrainReadsAgain()
    ensures var p := Run(Initial(), AdoptAndRead() + [LocalEof, Drained(0)]); p.ended && p.up.reading
  {
    var before, e2, e3 := AdoptAndRead(), LocalEof, Drained(0);
    InitialInv();
    AdoptedReads(Initial(), 0);
    LateDrainReads(before, 0);
    RunAppend(Initial(), before, [e2, e3]);
    EndsWithDrain(Run(Initial(), before), e2, e3);
  }

  lemma EndsWithDrain(p: Pipe, e2: Event, e3: Event)
    requires e2 == LocalEof && e3.Drained? && Enabled(p, e2) && e3.id in p.up.unacked
    ensures Run(p, [e2, e3]) == Run(Step(p, e2), [e3]) && Run(p, [e2, e3]).ended
  {
    assert [e2, e3][1..] == [e3] && [e3][1..] == [];
    assert Run(Step(p, e2), [e3]) == Step(Step(p, e2), e3);
  }

  // ---- each drain once ---------------------------------------------------------------------

  /** No chunk has been drained twice, nor is one that has been drained still owed. */
  predicate Once(u: Upstream)
  {
    Distinct(u.fired) && forall id | id in u.fired :: id < u.nextId && id !in u.unacked
  }

  lemma FireOnce(u: Upstream, alive: bool, id: nat)
    requires Once(u) && (forall k | k in u.unacked :: k < u.nextId)
    ensures Once(Fire(u, alive, id))
  {
  }

  lemma {:induction false} FireAllOnce(u: Upstream, alive: bool, ids: seq<nat>)
    requires Once(u) && forall k | k in u.unacked :: k < u.nextId
    ensures Once(FireAll(u, alive, ids))
    decreases |ids|
  {
    if ids == [] {
    } else {
      FireOnce(u, alive, ids[0]);
      FireAllOnce(Fire(u, alive, ids[0]), alive, ids[1..]);
    }
  }

  lemma TakenOnce(u: Upstream, alive: bool, len: nat, answer: Answer)
    requires Once(u) && forall k | k in u.unacked :: k < u.nextId
    ensures Once(Taken(u, alive, len, answer))
  {
    if answer.Accepted? {
      FireAllOnce(Submitted(u, len), alive, answer.acks);
    }
  }

  lemma StepOnce(p: Pipe, e: Event)
    requires Inv(p) && Enabled(p, e) && Once(p.up)
    ensures Once(Step(p, e).up)
  {
    match e
    case LocalRead(len, answer) => TakenOnce(p.up, Alive(p), len, answer);
    case Drained(id) => FireOnce(p.up, Alive(p), id);
    case _ => LocalNeverRestarts(p, e);
  }

  lemma {:induction false} RunOnce(p: Pipe, es: seq<Event>)
    requires Inv(p) && Once(p.up)
    ensures Once(Run(p, es).up)
    decreases |es|
  {
    if es == [] {
    } else {
      if Enabled(p, es[0]) {
        StepInv(p, es[0]);
        StepOnce(p, es[0]);
      }
      RunOnce(if Enabled(p, es[0]) then Step(p, es[0]) else p, es[1..]);
    }
  }

  /** Over any run no chunk's drain counts twice, and none that has fired is still owed. */
  lemma FiresOnce(es: seq<Event>)
    ensures Once(Run(Initial(), es).up)
  {
    InitialInv();
    RunOnce(Initial(), es);
  }

  // ---- teardown ----------------------------------------------------------------------------

  /** Ends of file in a run. */
  function Eofs(p: Pipe, es: seq<Event>): nat
    decreases |es|
  {
    if es == [] then 0
    else if !Enabled(p, es[0]) then Eofs(p, es[1..])
    else (if es[0].LocalEof? then 1 else 0) + Eofs(Step(p, es[0]), es[1..])
  }

  lemma {:induction false} HalfClosesRun(p: Pipe, es: seq<Event>)
    requires Inv(p)
    ensures Run(p, es).halfCloses + Ended(p) == p.halfCloses + Ended(Run(p, es)) + Eofs(p, es)
    decreases |es|
  {
    if es == [] {
    } else {
      if Enabled(p, es[0]) {
        StepInv(p, es[0]);
        StepMoves(p, es[0]);
      }
      HalfClosesRun(if Enabled(p, es[0]) then Step(p, es[0]) else p, es[1..]);
    }
  }

  /** The stream is asked to close once for each end of file and once more when the pipe is destroyed. */
  lemma HalfClosesCounted(es: seq<Event>)
    ensures Run(Initial(), es).halfCloses == Eofs(Initial(), es) + Ended(Run(Initial(), es))
  {
    InitialInv();
    HalfClosesRun(Initial(), es);
  }

  /** So a socket that ends before its owner destroys the pipe asks twice. */
  lemma HalfCloseRepeats()
    ensures Run(Initial(), [Started(Adopted), LocalEof, OwnerDestroys]).halfCloses == 2
  {
    var e0, e1, e2 := Started(Adopted), LocalEof, OwnerDestroys;
    assert [e0, e1, e2][1..] == [e1, e2] && [e1, e2][1..] == [e2] && [e2][1..] == [];
    var p2 := Step(Step(Initial(), e0), e1);
    assert Run(p2, [e2]) == Step(p2, e2);
    assert Run(Step(Initial(), e0), [e1, e2]) == Step(p2, e2);
  }

  /** The events that report a failure, the owner's decision included. */
  predicate Fails(e: Event)
  {
    || e.LocalError? || e.OwnerDestroys?
    || e == Started(SetupFailed) || e == Connected(false) || e == Written(false)
    || (e.LocalRead? && e.answer.Rejected?)
    || (e.StreamData? && e.data != [] && !e.ok)
  }

  /** Each of them, whenever it comes, leaves the pipe torn down: its handle, if it had one, closed or being
      closed, the stream asked to close, and nothing read any more. */
  lemma FailuresTearDown(p: Pipe, e: Event)
    requires Inv(p) && Enabled(p, e) && Fails(e)
    ensures var q := Step(p, e);
            && q.handle != Live && !q.up.reading
            && (p.handle == Live ==> q.closes == 1 && q.halfCloses > p.halfCloses)
            && (q.handle != Absent ==> q.cause != None && q.halfCloses >= 1)
  {
    StepInv(p, e);
  }

  /** How a pipe starts: a socket that cannot be created leaves nothing to close and nobody told; one that
      cannot be connected is closed, the stream with it; one that is connecting waits; one adopted is read. */
  lemma StartsAs(origin: Origin)
    ensures var q := Step(Initial(), Started(origin));
            match origin
            case InitFailed => q.handle == Absent && q.cause == None && q.closes == q.notices == q.halfCloses == 0
            case SetupFailed =>
              q.handle == Closing && q.cause == Some(Torn) && q.closes == q.halfCloses == 1 && q.notices == 0
            case Dialing => Alive(q) && q.connectOwed && !q.connected && !q.up.reading && q.halfCloses == 0
            case Adopted => Alive(q) && !q.connectOwed && q.connected && q.up.reading && q.halfCloses == 0
  {
    StartedAs(Initial(), origin);
  }

  lemma StartedAs(i: Pipe, origin: Origin)
    requires i.handle == Absent && i.cause == None && !i.connectOwed && !i.connected && !i.up.reading
    requires i.closes == i.notices == i.halfCloses == 0
    ensures var q := Start(i, origin);
            match origin
            case InitFailed => q.handle == Absent && q.cause == None && q.closes == q.notices == q.halfCloses == 0
            case SetupFailed =>
              q.handle == Closing && q.cause == Some(Torn) && q.closes == q.halfCloses == 1 && q.notices == 0
            case Dialing => Alive(q) && q.connectOwed && !q.connected && !q.up.reading && q.halfCloses == 0
            case Adopted => Alive(q) && !q.connectOwed && q.connected && q.up.reading && q.halfCloses == 0
  {
  }

  /** The handle is closed at most once and the owner told at most once, when the handle is gone (or
      never was) and nothing local can call back any more; the stream is asked to close for each end. */
  lemma TeardownOnce(es: seq<Event>)
    ensures var p := Run(Initial(), es);
            && p.closes <= 1 && p.notices <= 1
            && p.halfCloses >= (if p.ended then 1 else 0) + (if p.cause != None then 1 else 0)
            && (p.closes == 1 <==> p.handle == Closing || p.handle == Gone)
            && (p.notices == 1 <==> p.cause != None && (p.handle == Gone || p.handle == Absent))
            && (p.notices == 1 ==>
              && !Enabled(p, LocalEof) && !Enabled(p, LocalError) && !Enabled(p, Closed)
              && (forall ok :: !Enabled(p, Written(ok)) && !Enabled(p, Connected(ok)))
              && (forall n, a :: !Enabled(p, LocalRead(n, a))))
  {
    Reachable(es);
  }

  function Cancellations(n: nat): seq<Event> { seq(n, _ => Written(false)) }

  lemma {:induction false} CancelOwed(p: Pipe)
    requires Inv(p) && p.cause != None
    ensures Run(p, Cancellations(|p.down.owed|)) == p.(down := p.down.(owed := []))
    decreases |p.down.owed|
  {
    if p.down.owed == [] {
    } else {
      var q := Step(p, Written(false));
      StepInv(p, Written(false));
      assert Cancellations(|p.down.owed|)[1..] == Cancellations(|q.down.owed|);
      CancelOwed(q);
    }
  }

  /** A destroyed pipe is always on its way out: once libuv has answered the writes, the connect and
      the close it owes, the owner has been told. */
  lemma TeardownCompletes(es: seq<Event>)
    requires Run(Initial(), es).cause != None
    ensures var p := Run(Initial(), es);
            Run(p, Cancellations(|p.down.owed|) + [Connected(false), Closed]).notices == 1
  {
    var p := Run(Initial(), es);
    Reachable(es);
    CancelOwed(p);
    var q := Run(p, Cancellations(|p.down.owed|));
    RunAppend(p, Cancellations(|p.down.owed|), [Connected(false), Closed]);
    RunInv(p, Cancellations(|p.down.owed|));
    var r := if Enabled(q, Connected(false)) then Step(q, Connected(false)) else q;
    assert [Connected(false), Closed][1..] == [Closed];
    assert Run(q, [Connected(false), Closed]) == Run(r, [Closed]);
    assert Run(r, [Closed]) == if Enabled(r, Closed) then Step(r, Closed) else r;
  }
}
