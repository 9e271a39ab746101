/**
 The server's side of one connection as it is written (src/server.cpp): the `Conn` record, the closures
 of `make_side`, and the stream's callbacks, around a real `TcpPipe`. `strong` is the count of the two
 shared references.
 */
module ServerConns {
  import opened Common
  import opened TcpPipes
  import O = PreOpen
  import M = PipeModel
  import S = ServerModel
  import P = PipeProofs
  import R = ServerProofs

  /** What the two callbacks of the stream do, one thing after another. */
  datatype Act = Wrote(data: Bytes) | Forgot(chunk: nat) | Fired(chunk: nat)

  function Firings(chunks: seq<nat>): seq<Act>
  {
    seq(|chunks|, i requires 0 <= i < |chunks| => Fired(chunks[i]))
  }

  lemma NextFiring(chunks: seq<nat>, i: nat)
    requires i < |chunks|
    ensures Firings(chunks[..i + 1]) == Firings(chunks[..i]) + [Fired(chunks[i])]
  {
  }

  class Conn {
    ghost var m: S.Conn

    const tcp: TcpPipe
    var stream: bool                 // conn->stream is not null
    var streamOpen: bool
    var pending: Bytes
    var pendingDrains: seq<nat>
    var drains: set<nat>             // the DrainCtx set
    var strong: nat
    // traces left outside
    var wire: Bytes                  // what the stream has accepted
    var deleted: multiset<nat>       // drain contexts deleted
    var closeAsked: bool             // hyperdht_stream_close was called
    var acts: seq<Act>               // of the opening and of acknowledgements, in order

    ghost predicate Exact()
      reads this, tcp
    {
      tcp.Exact() && tcp.m == m.pipe && Mirrors(m)
    }

    /** The members hold what `d` says of them, its pipe apart. */
    ghost predicate Mirrors(d: S.Conn)
      reads this
    {
      && stream == d.stream
      && streamOpen == d.box.isOpen && pending == d.box.pending && wire == d.box.wire
      && d.box.cap == O.MAX_PENDING
      && pendingDrains == d.withheld && drains == d.drains && deleted == d.frees
      && closeAsked == d.asked
      && strong == (if d.refA then 1 else 0) + (if d.refB then 1 else 0)
      && d.freed == (strong == 0)
    }

    ghost predicate Valid()
      reads this, tcp
    {
      Exact() && S.Inv(m)
    }

    /** With `ServerProofs.AcceptedInv` this is `Valid`. */
    constructor ()
      ensures Exact() && fresh(tcp) && m == S.Accepted(O.MAX_PENDING)
    {
      tcp := new TcpPipe();
      stream, streamOpen, pending, pendingDrains := true, false, [], [];
      drains, strong, wire, deleted, closeAsked := {}, 2, [], multiset{}, false;
      acts := [];
      m := S.Accepted(O.MAX_PENDING);
    }

    /** A reference is dropped; with the last one `~Conn` deletes the contexts left. */
    method DropReference()
      requires strong > 0
      modifies this`strong, this`deleted, this`drains
      ensures strong == old(strong) - 1
      ensures if strong == 0 then deleted == old(deleted) + multiset(old(drains)) && drains == {}
              else deleted == old(deleted) && drains == old(drains)
    {
      strong := strong - 1;
      if strong == 0 {
        deleted := deleted + multiset(drains);
        drains := {};
      }
    }

    /** The `close` closure of `make_side`; a closed stream leaves a null behind, which hyperdht tolerates. */
    method SideClose()
      modifies this`closeAsked
      ensures closeAsked == (old(closeAsked) || stream)
    {
      if stream { closeAsked := true; }
    }

    /** After a callback into the pipe: the closes it made reached the stream, if there is one, and `on_destroy`,
        if it ran, gave its reference back. */
    method PipeCalled(ghost before: S.Conn, halves: nat, told: nat)
      requires tcp.Exact() && told == before.pipe.notices <= tcp.m.notices <= 1
      requires halves == before.pipe.halfCloses
      requires before.refB == (told == 0) && !before.freed && Mirrors(before)
      modifies this`m, this`closeAsked, this`strong, this`deleted, this`drains
      ensures Exact() && m == S.WithPipe(before, tcp.m)
    {
      ghost var asked := before.(asked := before.asked || (before.stream && tcp.m.halfCloses > halves));
      PassClose(before, asked, halves);
      GiveBack(asked, told);
      ghost var d := R.WithPipeParts(before, asked, tcp.m);
      Become(S.Release(asked.(refB := asked.refB && tcp.m.notices == told)), d);
    }

    /** A half-close goes through to the stream. */
    method PassClose(ghost before: S.Conn, ghost asked: S.Conn, halves: nat)
      requires tcp.Exact() && Mirrors(before)
      requires asked == before.(asked := before.asked || (before.stream && tcp.m.halfCloses > halves))
      modifies this`closeAsked
      ensures Mirrors(asked)
    {
      if tcp.out.halfCloses > halves { SideClose(); }
    }

    ghost method Become(r: S.Conn, d: S.Conn)
      requires tcp.Exact() && Mirrors(r) && d == r.(pipe := tcp.m)
      modifies this`m
      ensures Exact() && m == d
    {
      m := d;
    }

    method GiveBack(ghost before: S.Conn, told: nat)
      requires tcp.Exact() && told == before.pipe.notices <= tcp.m.notices <= 1
      requires before.refB == (told == 0) && !before.freed && Mirrors(before)
      modifies this`strong, this`deleted, this`drains
      ensures Mirrors(S.Release(before.(refB := before.refB && tcp.m.notices == told)))
    {
      if tcp.out.notices > told {
        DropReference();
      }
    }

    /** The reference boxed for the stream is given back. */
    method DropBox()
      requires Exact() && m.refA && !m.freed
      modifies this
      ensures Exact() && m == S.Release(old(m).(refA := false))
    {
      DropReference();
      m := S.Release(m.(refA := false));
    }

    /** The `write` closure of `make_side`. */
    method SideWrite(data: Bytes, ok: bool, acks: seq<nat>) returns (answer: M.Answer, ghost d: S.Conn)
      requires Exact() && tcp.out.nextId !in drains
      modifies this`pending, this`pendingDrains, this`drains, this`deleted, this`wire
      ensures (d, answer) == S.SideWrite(m, data, ok, acks)
      ensures R.SameLife(d, m) && Mirrors(d)
    {
      d := S.SideWrite(m, data, ok, acks).0;
      R.SideFrame(m, data, ok, acks);
      var id := tcp.out.nextId;
      if !streamOpen {
        if |pending| + |data| > O.MAX_PENDING { return M.Swallowed, d; }
        pending := pending + data;
        pendingDrains := pendingDrains + [id];
        return M.Accepted([]), d;
      }
      answer := Submit(data, ok, acks);
    }

    /** With the stream open: a context is made for the drain, and deleted at once if the write fails. */
    method Submit(data: Bytes, ok: bool, acks: seq<nat>) returns (answer: M.Answer)
      requires Exact() && tcp.out.nextId !in drains && streamOpen
      modifies this`drains, this`deleted, this`wire
      ensures answer == S.SideWrite(m, data, ok, acks).1
      ensures Mirrors(S.SideWrite(m, data, ok, acks).0)
    {
      var id := tcp.out.nextId;
      drains := drains + {id};
      if !ok {
        drains := drains - {id};
        deleted := deleted + multiset{id};
        return M.Rejected;
      }
      wire := wire + data;
      drains := drains - Ids(acks);
      deleted := deleted + multiset(acks);
      return M.Accepted(acks);
    }

    /** `read_cb` with bytes, through to the stream. */
    method LocalRead(data: Bytes, ok: bool, acks: seq<nat>)
      requires Valid() && S.Enabled(m, S.Reads(data, ok, acks))
      modifies this, tcp
      ensures Exact() && m == S.LocalRead(old(m), data, ok, acks)
    {
      var halves, told := tcp.out.halfCloses, tcp.out.notices;
      var answer, d := SideWrite(data, ok, acks);
      P.NoticesGrow(tcp.m, M.LocalRead(|data|, answer));
      tcp.ReadCb(|data|, answer);
      PipeCalled(d, halves, told);
    }

    /** `drain_cb`: the context goes first, then its closure runs. */
    method DrainCb(id: nat)
      requires Valid() && S.Enabled(m, S.Acked(id))
      modifies this, tcp
      ensures Exact() && m == S.Ack(old(m), id)
      ensures acts == old(acts) + [Forgot(id), Fired(id)]
    {
      ghost var d := m.(drains := m.drains - {id}, frees := m.frees + multiset{id});
      var halves, told := tcp.out.halfCloses, tcp.out.notices;
      Forget(id, d);
      tcp.Drain(id);
      acts := acts + [Fired(id)];
      PipeCalled(d, halves, told);
    }

    method Forget(id: nat, ghost d: S.Conn)
      requires Mirrors(m) && d == m.(drains := m.drains - {id}, frees := m.frees + multiset{id})
      modifies this`drains, this`deleted, this`acts
      ensures Mirrors(d) && acts == old(acts) + [Forgot(id)]
    {
      drains := drains - {id};
      deleted := deleted + multiset{id};
      acts := acts + [Forgot(id)];
    }

    /** `stream_open_cb`: the buffer goes out first, and only then are the withheld drains fired. */
    method StreamOpenCb(ok: bool)
      requires Valid() && S.Enabled(m, S.Opens(ok))
      modifies this, tcp
      ensures Exact() && m == S.StreamOpens(old(m), ok)
      ensures acts == old(acts) + if old(pending) == [] then Firings(old(pendingDrains))
                                  else if ok then [Wrote(old(pending))] + Firings(old(pendingDrains))
                                  else []
    {
      streamOpen := true;
      m := m.(box := m.box.(isOpen := true));
      if pending != [] {
        var buffered := TakePending();
        if !ok {
          DropWithheld();
          return;
        }
        GiveBuffered(buffered);
      }
      Regroup(old(acts), if old(pending) == [] then [] else [Wrote(old(pending))], Firings(pendingDrains));
      TakeWithheld();
    }

    method GiveBuffered(buffered: Bytes)
      requires Exact()
      modifies this`m, this`wire, this`acts
      ensures Exact() && m == old(m).(box := old(m).box.(wire := old(m).box.wire + buffered))
      ensures acts == old(acts) + [Wrote(buffered)]
    {
      wire := wire + buffered;
      acts := acts + [Wrote(buffered)];
      m := m.(box := m.box.(wire := wire));
    }

    method TakeWithheld()
      requires Exact() && M.Lifecycle(tcp.m)
      requires forall id | id in tcp.out.drains :: id < tcp.out.nextId
      modifies this`m, this`pendingDrains, this`acts, tcp
      ensures Exact() && acts == old(acts) + Firings(old(pendingDrains))
      ensures m == old(m).(withheld := [],
        pipe := old(m).pipe.(up := M.FireAll(old(m).pipe.up, M.Alive(old(m).pipe), old(m).withheld)))
    {
      var firing := pendingDrains;
      pendingDrains := [];
      FireWithheld(firing);
      m := m.(withheld := [], pipe := tcp.m);
    }

    method TakePending() returns (buffered: Bytes)
      requires Exact()
      modifies this`m, this`pending
      ensures Exact() && buffered == old(pending) && m == old(m).(box := old(m).box.(pending := []))
    {
      buffered := pending;
      pending := [];
      m := m.(box := m.box.(pending := []));
    }

    /** The flush failed: the withheld closures are destroyed with their list. */
    method DropWithheld()
      requires Exact()
      modifies this`m, this`pendingDrains, tcp
      ensures Exact()
      ensures m == old(m).(withheld := [], flushFailed := true, pipe := old(m).pipe.(up := M.Abandon(old(m).pipe.up)))
    {
      pendingDrains := [];
      ghost var r := m.(withheld := [], flushFailed := true);
      assert Mirrors(r);
      tcp.DropDrains();
      Become(r, r.(pipe := tcp.m));
    }

    method FireWithheld(firing: seq<nat>)
      requires tcp.Exact() && M.Lifecycle(tcp.m)
      requires forall id | id in tcp.out.drains :: id < tcp.out.nextId
      modifies tcp, this`acts
      ensures tcp.Exact() && acts == old(acts) + Firings(firing)
      ensures tcp.m == old(tcp.m).(up := M.FireAll(old(tcp.m).up, M.Alive(old(tcp.m)), firing))
    {
      ghost var was := tcp.m;
      var i := 0;
      while i < |firing|
        invariant 0 <= i <= |firing| && tcp.Exact() && M.Lifecycle(tcp.m)
        invariant forall id | id in tcp.out.drains :: id < tcp.out.nextId
        invariant P.DrainAll(tcp.m, firing[i..]) == P.DrainAll(was, firing)
        invariant acts == old(acts) + Firings(firing[..i])
      {
        P.DrainNext(tcp.m, firing, i);
        FireOne(firing[i]);
        NextFiring(firing, i);
        i := i + 1;
      }
      assert firing[..|firing|] == firing;
      P.DrainNone(tcp.m, firing[i..]);
    }

    method FireOne(chunk: nat)
      requires tcp.Exact() && M.Lifecycle(tcp.m) && forall id | id in tcp.out.drains :: id < tcp.out.nextId
      modifies tcp, this`acts
      ensures tcp.Exact() && M.Lifecycle(tcp.m) && forall id | id in tcp.out.drains :: id < tcp.out.nextId
      ensures tcp.m == if chunk in old(tcp.m).up.unacked then M.Drain(old(tcp.m), chunk) else old(tcp.m)
      ensures acts == old(acts) + [Fired(chunk)]
    {
      if chunk in tcp.out.drains {
        tcp.Drain(chunk);
      }
      acts := acts + [Fired(chunk)];
    }

    method StreamDataCb(data: Bytes, rc: int)
      requires Valid() && S.Enabled(m, S.Receives(data, rc == 0))
      modifies this, tcp
      ensures Exact() && m == S.WithPipe(old(m), M.Data(old(m).pipe, data, rc == 0))
    {
      ghost var d := m;
      var halves, told := tcp.out.halfCloses, tcp.out.notices;
      P.NoticesGrow(tcp.m, M.StreamData(data, rc == 0));
      tcp.OnStreamData(data, rc);
      PipeCalled(d, halves, told);
    }

    /** `stream_close_cb`: the pipe hears of it, then the boxed reference is given back. */
    method StreamCloseCb()
      requires Valid() && S.Enabled(m, S.Closes)
      modifies this, tcp
      ensures Exact() && m == S.StreamCloses(old(m))
    {
      ghost var d := m.(stream := false);
      var halves, told := tcp.out.halfCloses, tcp.out.notices;
      stream := false;
      P.NoticesGrow(tcp.m, M.StreamClosed);
      tcp.OnStreamClose();
      PipeCalled(d, halves, told);
      R.ClosesInTwo(old(m), tcp.m);
      DropBox();
    }

    /** Everything libuv or the server's own `destroy` does to the pipe. */
    method Local(e: M.Event)
      requires Valid() && S.Enabled(m, S.Local(e))
      modifies this, tcp
      ensures Exact() && m == S.WithPipe(old(m), M.Step(old(m).pipe, e))
    {
      ghost var d := m;
      if strong == 0 { return; }       // the owner's weak reference has expired
      var halves, told := tcp.out.halfCloses, tcp.out.notices;
      P.NoticesGrow(tcp.m, e);
      tcp.Handle(e);
      PipeCalled(d, halves, told);
    }

    // ---- whole runs ------------------------------------------------------------------------

    method Handle(e: S.Event)
      requires Valid() && S.Enabled(m, e)
      modifies this, tcp
      ensures Valid() && m == S.Step(old(m), e)
    {
      R.StepInv(m, e);
      match e
      case Local(l) => Local(l);
      case Reads(data, ok, acks) => LocalRead(data, ok, acks);
      case Opens(ok) => StreamOpenCb(ok);
      case Receives(data, ok) => StreamDataCb(data, if ok then 0 else -1);
      case Acked(id) => DrainCb(id);
      case Closes => StreamCloseCb();
    }

    method Play(es: seq<S.Event>)
      requires Valid() && S.Feasible(m, es)
      modifies this, tcp
      ensures Valid() && m == S.Run(old(m), es)
    {
      var i := 0;
      while i < |es|
        invariant 0 <= i <= |es| && Valid() && S.Feasible(m, es[i..])
        invariant S.Run(m, es[i..]) == S.Run(old(m), es)
      {
        assert es[i..][0] == es[i] && es[i..][1..] == es[i + 1..];
        Handle(es[i]);
        i := i + 1;
      }
    }
  }
}
