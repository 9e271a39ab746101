/**
 `TcpPipe` (src/pipe.cpp) as it is written: byte counters, flags and saturating subtractions, updated
 by one callback after another. The ghost field `m` is the abstract pipe, which has no counter and no
 pause flag; `Exact` says that the members hold just what its queues and its history imply.

 libuv and the stream answer through parameters: `rc` and `status` are their codes, and the drains a
 stream fires from inside `write` come with its answer.
 */
module TcpPipes {
  import opened Common
  import M = PipeModel
  import P = PipeProofs

  const UV_EOF := -4095

  /** The traces the pipe leaves on libuv and on its stream. */
  datatype Outside = Outside(
    flow: seq<M.Flow>,               // stream_.pause and stream_.resume calls, in order
    halfCloses: nat,                 // stream_.close calls
    writes: seq<Bytes>,              // uv_write requests not completed
    drains: map<nat, nat>,           // drain closures not fired, with the length each captured
    nextId: nat,
    connecting: bool,                // a connect callback is owed
    uvCloses: nat,
    notices: nat)

  class TcpPipe {
    ghost var m: M.Pipe

    // the members of the source
    var tcp: bool                    // tcp_ is not null
    var onDestroy: bool              // on_destroy_ is set
    var pendingBytes: nat
    var streamPendingBytes: nat
    var inflightWrites: int
    var reading: bool
    var streamPaused: bool
    var streamClosed: bool
    var closing: bool
    var destroyed: bool

    // what the world outside has been asked for
    var out: Outside

    /** The two byte counts, the request count and every flag are exactly right. */
    ghost predicate Exact()
      reads this
    {
      ExactButCount() && streamPendingBytes == M.Pending(m.up)
    }

    /** As it stands while a chunk is being submitted. */
    ghost predicate ExactButCount()
      reads this
    {
      && tcp == (m.handle == M.Live || m.handle == M.Closing)
      && closing == (m.handle == M.Closing || m.handle == M.Gone)
      && destroyed == (m.cause != None)
      && onDestroy == (m.notices == 0)
      && streamClosed == m.streamClosed
      && out.halfCloses == m.halfCloses && out.notices == m.notices
      && out.uvCloses == m.closes && out.connecting == m.connectOwed
      && ExactUp() && ExactDown()
    }

    ghost predicate ExactUp()
      reads this
    {
      && reading == m.up.reading && out.drains == m.up.unacked && out.nextId == m.up.nextId
    }

    ghost predicate ExactDown()
      reads this
    {
      && out.writes == m.down.owed && out.flow == m.down.flow
      && inflightWrites == |out.writes|
      && pendingBytes == M.Queued(m.down)
      && streamPaused == M.Paused(out.flow)
    }

    ghost predicate Valid()
      reads this
    {
      Exact() && M.Inv(m)
    }

    /** With `PipeProofs.InitialInv` this is `Valid`. */
    constructor ()
      ensures Exact() && m == M.Initial()
    {
      tcp, onDestroy := false, true;
      pendingBytes, streamPendingBytes, inflightWrites := 0, 0, 0;
      reading, streamPaused, streamClosed, closing, destroyed := false, false, false, false, false;
      out := Outside([], 0, [], map[], 0, false, 0, 0);
      m := M.Initial();
      new;
      SumBelowEmpty(m.up.unacked, m.up.nextId);
    }

    // ---- private routines ------------------------------------------------------------------

    method StartReading()
      requires Exact() && M.Lifecycle(m)
      modifies this
      ensures Exact() && m == M.StartReading(old(m))
    {
      if reading || destroyed || !tcp { return; }
      reading := true;
      m := M.StartReading(m);
    }

    method StopReading()
      requires Exact() && M.Lifecycle(m)
      modifies this
      ensures Exact() && m == old(m).(up := old(m).up.(reading := false))
    {
      if !reading || !tcp { return; }
      reading := false;
      m := m.(up := m.up.(reading := false));
    }

    method ResumeReading()
      requires Exact() && M.Lifecycle(m)
      modifies this
      ensures Exact() && m == M.StartReading(old(m))
    {
      if destroyed { return; }
      StartReading();
    }

    method Destroy(ghost why: M.Cause)
      requires Exact() && M.Lifecycle(m)
      modifies this
      ensures Exact() && m == M.Destroy(old(m), why)
    {
      if destroyed { return; }
      m := M.Destroy(m, why);
      destroyed := true;
      if reading && tcp { reading := false; }
      out := out.(halfCloses := out.halfCloses + 1);
      if tcp && !closing {
        closing := true;
        out := out.(uvCloses := out.uvCloses + 1);
        return;
      }
      if onDestroy {
        onDestroy := false;
        out := out.(notices := out.notices + 1);
      }
    }

    method FlushFinished()
      requires Exact() && M.Lifecycle(m)
      modifies this
      ensures Exact() && m == M.FlushFinished(old(m))
    {
      if !streamClosed || inflightWrites > 0 { return; }
      Destroy(M.Flushed);
    }

    /** The closure handed to the stream with a chunk. */
    method Drain(id: nat)
      requires Exact() && M.Lifecycle(m) && id in out.drains && id < out.nextId
      modifies this
      ensures Exact() && M.Lifecycle(m)
      ensures m == M.Drain(old(m), id)
    {
      Uncount(id);
      if streamPendingBytes < M.STREAM_HIGH_WATER {
        ResumeReading();
      }
    }

    /** Its bytes come off the count. */
    method Uncount(id: nat)
      requires Exact() && M.Lifecycle(m) && id in out.drains && id < out.nextId
      modifies this`m, this`streamPendingBytes, this`out
      ensures Exact() && M.Lifecycle(m)
      ensures var u := old(m).up; m == old(m).(up := u.(unacked := u.unacked - {id}, fired := u.fired + [id]))
    {
      P.FireCounts(m.up, M.Alive(m), id);
      var len := out.drains[id];
      streamPendingBytes := streamPendingBytes - if len < streamPendingBytes then len else streamPendingBytes;
      out := out.(drains := out.drains - {id});
      m := m.(up := m.up.(unacked := out.drains, fired := m.up.fired + [id]));
    }

    /** The stream fires some of its drains from inside `write`. */
    method DrainInside(acks: seq<nat>)
      requires Exact() && M.Lifecycle(m)
      requires forall id | id in out.drains :: id < out.nextId
      modifies this
      ensures Exact() && M.Lifecycle(m)
      ensures m == old(m).(up := M.FireAll(old(m).up, M.Alive(old(m)), acks))
    {
      ghost var was := m;
      var i := 0;
      while i < |acks|
        invariant 0 <= i <= |acks| && Exact() && M.Lifecycle(m)
        invariant forall id | id in out.drains :: id < out.nextId
        invariant P.DrainAll(m, acks[i..]) == P.DrainAll(was, acks)
      {
        P.DrainNext(m, acks, i);
        if acks[i] in out.drains {
          Drain(acks[i]);
        }
        i := i + 1;
      }
      P.DrainNone(m, acks[i..]);
    }

    // ---- callbacks -------------------------------------------------------------------------

    /** `connect` (in any of its outcomes) and `adopt`. */
    method Start(origin: M.Origin)
      requires Exact() && M.Lifecycle(m) && !m.started
      modifies this
      ensures Exact() && m == M.Start(old(m), origin)
    {
      m := m.(started := true);
      match origin
      case InitFailed =>
      case SetupFailed =>
        tcp := true;
        m := m.(handle := M.Live);
        Destroy(M.Torn);
      case Dialing =>
        tcp := true;
        out := out.(connecting := true);
        m := m.(handle := M.Live, connectOwed := true);
      case Adopted =>
        tcp := true;
        m := m.(handle := M.Live, connected := true);
        StartReading();
    }

    method ConnectCb(status: int)
      requires Exact() && M.Lifecycle(m) && out.connecting
      modifies this
      ensures Exact() && m == M.ConnectDone(old(m), status == 0)
    {
      out := out.(connecting := false);
      m := m.(connectOwed := false);
      if status != 0 {
        Destroy(M.Torn);
        return;
      }
      m := m.(connected := true);
      StartReading();
    }

    /** `read_cb` with nothing, end of file, or an error. */
    method ReadCbEmpty(nread: int)
      requires Exact() && M.Lifecycle(m) && reading && nread <= 0
      modifies this
      ensures Exact()
      ensures m == if nread == 0 then old(m)
                   else if nread == -4095 then M.Eof(old(m)) else M.Destroy(old(m), M.Torn)
    {
      if destroyed || nread == 0 { return; }
      if nread == UV_EOF {
        StopReading();
        out := out.(halfCloses := out.halfCloses + 1);
        m := m.(ended := true, halfCloses := out.halfCloses);
      } else {
        Destroy(M.Torn);
      }
    }

    /** `stream_.write`: the stream answers, keeping the closure or not. */
    method StreamWrite(len: nat, answer: M.Answer) returns (rc: int)
      requires streamPendingBytes == M.Pending(m.up) + len
      requires ExactButCount() && M.Lifecycle(m) && (forall id | id in out.drains :: id < out.nextId)
      modifies this
      ensures rc < 0 <==> answer.Rejected?
      ensures m == old(m).(up := M.Taken(old(m).up, M.Alive(old(m)), len, answer))
      ensures if rc < 0 then ExactButCount() && streamPendingBytes == M.Pending(m.up) + len else Exact()
    {
      match answer
      case Accepted(acks) =>
        HandOut(len);
        DrainInside(acks);
        rc := 0;
      case Swallowed =>
        DropClosure(len);
        rc := 1;
      case Rejected =>
        DropClosure(0);
        rc := -1;
    }

    /** The closure is kept. */
    method HandOut(len: nat)
      requires streamPendingBytes == M.Pending(m.up) + len
      requires ExactButCount() && M.Lifecycle(m) && (forall id | id in out.drains :: id < out.nextId)
      modifies this`m, this`out
      ensures Exact() && M.Lifecycle(m) && (forall id | id in out.drains :: id < out.nextId)
      ensures m == old(m).(up := M.Submitted(old(m).up, len))
    {
      SumBelowAdd(out.drains, out.nextId, len);
      out := out.(drains := out.drains[out.nextId := len], nextId := out.nextId + 1);
      m := m.(up := M.Submitted(m.up, len));
    }

    /** The closure is destroyed uncalled; `lost` of its bytes stay counted. */
    method DropClosure(lost: nat)
      requires ExactButCount() && (forall id | id in out.drains :: id < out.nextId)
      modifies this`m, this`out
      ensures ExactButCount() && M.Pending(m.up) == M.Pending(old(m).up) + lost
      ensures m == old(m).(up := old(m).up.(nextId := old(m).up.nextId + 1, lost := old(m).up.lost + lost))
    {
      P.SkipId(m.up);
      out := out.(nextId := out.nextId + 1);
      m := m.(up := m.up.(nextId := out.nextId, lost := m.up.lost + lost));
    }

    /** `read_cb` with bytes. */
    method ReadCb(nread: nat, answer: M.Answer)
      requires Exact() && M.Lifecycle(m) && reading && (forall id | id in out.drains :: id < out.nextId)
      modifies this
      ensures Exact() && m == M.Read(old(m), nread, answer)
    {
      if destroyed { return; }
      streamPendingBytes := streamPendingBytes + nread;
      var rc := StreamWrite(nread, answer);
      if rc < 0 {
        streamPendingBytes := streamPendingBytes -
          if nread < streamPendingBytes then nread else streamPendingBytes;
        Destroy(M.Torn);
        return;
      }
      if streamPendingBytes >= M.STREAM_HIGH_WATER {
        StopReading();
      }
    }

    method OnStreamData(data: Bytes, rc: int)
      requires Exact() && M.Lifecycle(m) && m.started
      modifies this
      ensures Exact() && m == M.Data(old(m), data, rc == 0)
    {
      if !destroyed { m := m.(down := m.down.(offered := m.down.offered + data)); }
      if destroyed || !tcp || closing { return; }
      if |data| == 0 { return; }
      if rc != 0 {
        Destroy(M.Torn);
        return;
      }
      Queue(data);
    }

    /** A write libuv has accepted. */
    method Queue(data: Bytes)
      requires Exact()
      modifies this
      ensures Exact() && m == old(m).(down := M.Enqueue(old(m).down, data))
    {
      P.EnqueueCounts(m.down, data);
      m := m.(down := M.Enqueue(m.down, data));
      out := out.(writes := out.writes + [data]);
      inflightWrites := inflightWrites + 1;
      pendingBytes := pendingBytes + |data|;
      if !streamPaused && pendingBytes >= M.HIGH_WATER {
        streamPaused := true;
        out := out.(flow := out.flow + [M.Pause]);
      }
    }

    /** The counters after a completion, whatever its status. */
    method Settle()
      requires Exact() && M.Lifecycle(m) && out.writes != []
      modifies this
      ensures m == old(m).(down := old(m).down.(owed := old(m).down.owed[1..]))
      ensures Exact() && M.Lifecycle(m)
    {
      P.DequeueCounts(m.down);
      m := m.(down := m.down.(owed := m.down.owed[1..]));
      var bytes := |out.writes[0]|;
      out := out.(writes := out.writes[1..]);
      inflightWrites := inflightWrites - 1;
      pendingBytes := pendingBytes - if bytes < pendingBytes then bytes else pendingBytes;
    }

    /** libuv completes its oldest request. */
    method WriteCb(status: int)
      requires Exact() && M.Lifecycle(m) && out.writes != []
      modifies this
      ensures Exact() && m == M.WriteDone(old(m), status == 0)
    {
      Settle();
      if status != 0 {
        Destroy(M.Torn);
        return;
      }
      P.WritesLifecycle(old(m));
      MaybeResume(old(m));
      FlushFinished();
    }

    /** Crossing the mark downward resumes the stream. */
    method MaybeResume(ghost was: M.Pipe)
      requires Exact() && was.down.owed != []
      requires m == was.(down := was.down.(owed := was.down.owed[1..]))
      modifies this`m, this`streamPaused, this`out
      ensures Exact() && m == was.(down := M.Dequeue(was.down))
    {
      P.DequeueCounts(was.down);
      m := was.(down := M.Dequeue(was.down));
      if streamPaused && pendingBytes < M.HIGH_WATER {
        streamPaused := false;
        out := out.(flow := out.flow + [M.Resume]);
      }
    }

    method OnStreamClose()
      requires Exact() && M.Lifecycle(m) && m.started
      modifies this
      ensures Exact() && m == M.StreamClose(old(m))
    {
      if destroyed { return; }
      streamClosed := true;
      m := m.(streamClosed := true);
      FlushFinished();
    }

    method ClosedCb()
      requires Exact() && M.Lifecycle(m) && m.handle == M.Closing
      modifies this
      ensures Exact() && m == M.HandleClosed(old(m))
    {
      m := M.HandleClosed(m);
      tcp := false;
      if onDestroy {
        onDestroy := false;
        out := out.(notices := out.notices + 1);
      }
    }

    /** The closures still out are destroyed without being called. */
    method DropDrains()
      requires Exact()
      modifies this
      ensures Exact() && m == old(m).(up := M.Abandon(old(m).up))
    {
      P.AbandonCounts(m.up);
      out := out.(drains := map[]);
      m := m.(up := M.Abandon(m.up));
    }

    // ---- whole runs ------------------------------------------------------------------------

    /** Whatever can happen next keeps the members exact and the invariant true. */
    method Handle(e: M.Event)
      requires Valid() && M.Enabled(m, e)
      modifies this
      ensures Valid() && m == M.Step(old(m), e)
    {
      P.StepInv(m, e);
      match e
      case Started(origin) => Start(origin);
      case Connected(ok) => ConnectCb(if ok then 0 else -1);
      case LocalRead(len, answer) => ReadCb(len, answer);
      case LocalEof => ReadCbEmpty(UV_EOF);
      case LocalError => ReadCbEmpty(-1);
      case StreamData(data, ok) => OnStreamData(data, if ok then 0 else -1);
      case Written(ok) => WriteCb(if ok then 0 else -1);
      case Drained(id) => Drain(id);
      case StreamClosed => OnStreamClose();
      case Closed => ClosedCb();
      case OwnerDestroys => Destroy(M.Torn);
    }

    /** The code follows the abstract pipe through every run, its counters exact throughout. */
    method Play(es: seq<M.Event>)
      requires Valid() && M.Feasible(m, es)
      modifies this
      ensures Valid() && m == M.Run(old(m), es)
    {
      var i := 0;
      while i < |es|
        invariant 0 <= i <= |es| && Valid() && M.Feasible(m, es[i..])
        invariant M.Run(m, es[i..]) == M.Run(old(m), es)
      {
        assert es[i..][0] == es[i] && es[i..][1..] == es[i + 1..];
        Handle(es[i]);
        i := i + 1;
      }
    }
  }
}
