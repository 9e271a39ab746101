/**
 The UDP tunnel end to end, one stream: datagrams framed by `recv_cb` on the near side, kept or dropped
 whole by the pre-open buffer, and unframed by the far side however the bytes arrive
 (src/udp_pipe.cpp, with the write closures of src/client.cpp and src/server.cpp).
 */
module Tunnel {
  import opened Common
  import opened Framing
  import O = PreOpen

  /** What `recv_cb` hands the stream: one framed write for each datagram. */
  function Framed(datagrams: seq<Bytes>): seq<Bytes>
  {
    seq(|datagrams|, i requires 0 <= i < |datagrams| => Frame(datagrams[i]))
  }

  lemma {:induction false} FramedJoin(datagrams: seq<Bytes>)
    ensures Concat(Framed(datagrams)) == Wire(datagrams)
    decreases |datagrams|
  {
    if datagrams == [] {
    } else {
      assert Framed(datagrams)[1..] == Framed(datagrams[1..]);
      FramedJoin(datagrams[1..]);
    }
  }

  /** Some of the framed writes are those of some of the datagrams. */
  lemma {:induction false} SomeFramed(writes: seq<Bytes>, datagrams: seq<Bytes>) returns (some: seq<Bytes>)
    requires O.Subsequence(writes, Framed(datagrams))
    ensures Framed(some) == writes && O.Subsequence(some, datagrams)
    decreases |datagrams|
  {
    some := [];
    if writes == [] {
    } else {
      assert Framed(datagrams)[1..] == Framed(datagrams[1..]);
      if writes[0] == Framed(datagrams)[0] && O.Subsequence(writes[1..], Framed(datagrams[1..])) {
        var rest := SomeFramed(writes[1..], datagrams[1..]);
        some := [datagrams[0]] + rest;
        assert some[1..] == rest;
        assert Framed(some) == [Frame(datagrams[0])] + Framed(rest) == writes;
      } else {
        some := SomeFramed(writes, datagrams[1..]);
      }
    }
  }

  lemma {:induction false} SubsequenceLegal(small: seq<Bytes>, large: seq<Bytes>)
    requires O.Subsequence(small, large) && Legal(large)
    ensures Legal(small)
    decreases |large|
  {
    if small == [] {
    } else {
      assert forall f | f in large[1..] :: f in large;
      if small[0] == large[0] && O.Subsequence(small[1..], large[1..]) {
        SubsequenceLegal(small[1..], large[1..]);
        assert large[0] in large;
        assert forall f | f in small :: f == small[0] || f in small[1..];
      } else {
        SubsequenceLegal(small, large[1..]);
      }
    }
  }

  lemma FarSide(kept: seq<Bytes>, chunks: seq<Bytes>)
    requires Legal(kept) && Concat(chunks) <= Wire(kept)
    ensures var far := PushAll([], chunks);
            && far.ok && far.frames <= kept
            && (Concat(chunks) == Wire(kept) ==> far.frames == kept && far.rest == [])
  {
    ChunkIndependent([], chunks);
    assert [] + Concat(chunks) == Concat(chunks);
    PrefixDecodes(kept, Concat(chunks));
  }

  /** For any datagrams of legal size, any moment of opening, any failures, and any cutting of the bytes
      that have arrived: what the stream was given is whole frames, those of the writes it took; they leave
      out some of the datagrams sent and change none; and the far decoder never rejects and has emitted, whole
      and in order, a first part of them, all of them once every byte has arrived. */
  lemma TunnelDelivers(cap: nat, ops: seq<O.Op>, datagrams: seq<Bytes>, chunks: seq<Bytes>)
    returns (kept: seq<Bytes>)
    requires O.Writes(ops) == Framed(datagrams) && Legal(datagrams)
    requires Concat(chunks) <= O.Run(O.Fresh(cap), ops).wire
    ensures var wire, far := O.Run(O.Fresh(cap), ops).wire, PushAll([], chunks);
            && Framed(kept) == O.HoldAll(O.Nothing(cap), ops).taken && O.Subsequence(kept, datagrams)
            && wire == Wire(kept)
            && far.ok && far.frames <= kept
            && (Concat(chunks) == wire ==> far.frames == kept && far.rest == [])
  {
    var h := O.HoldAll(O.Nothing(cap), ops);
    O.KeptFromStart(cap, ops);
    O.KeptSubsequence(O.Nothing(cap), [], ops);
    assert [] + O.Writes(ops) == O.Writes(ops);
    O.SubsequencePrefix(h.taken, h.waiting, O.Writes(ops));
    kept := SomeFramed(h.taken, datagrams);
    FramedJoin(kept);
    SubsequenceLegal(kept, datagrams);
    FarSide(kept, chunks);
  }

  /** A stream that fails nothing is given every datagram, at once if it is open, and if it is not, on opening,
      provided their frames fit the budget. */
  lemma TunnelKeepsAll(h: O.Held, ops: seq<O.Op>, datagrams: seq<Bytes>)
    requires (forall op | op in ops :: O.Succeeds(op)) && O.Writes(ops) == Framed(datagrams)
    requires if h.isOpen then h.waiting == [] else h == O.Nothing(h.cap) && |Wire(datagrams)| <= h.cap
    ensures var b := O.Run(O.Flat(h), ops);
            b.wire + b.pending == O.Flat(h).wire + Wire(datagrams) && (b.isOpen ==> b.pending == [])
  {
    var g := O.HoldAll(h, ops);
    FramedJoin(datagrams);
    O.KeptInOrder(h, ops);
    O.AllKept(h, ops);
    assert h.waiting == [] && h.taken + [] == h.taken;
    ConcatAppend(h.taken, O.Writes(ops));
    ConcatAppend(g.taken, g.waiting);
  }

  // ---- the far side ------------------------------------------------------------------------

  /** The receiving half of `UdpPipe`. */
  class UdpPipe {
    const decoder: FrameDecoder
    var sock: bool
    var destroyed: bool
    var sent: seq<Bytes>             // datagrams sent to the local service

    constructor ()
      ensures fresh(decoder) && decoder.buffer == [] && sock && !destroyed && sent == []
    {
      decoder := new FrameDecoder();
      sock, destroyed, sent := true, false, [];
    }

    method OnStreamData(data: Bytes)
      modifies this, decoder
      ensures sock == old(sock)
      ensures old(destroyed) || !sock || data == [] ==>
                destroyed == old(destroyed) && sent == old(sent) && decoder.buffer == old(decoder.buffer)
      ensures !old(destroyed) && sock && data != [] ==>
                var r := Decode(old(decoder.buffer) + data);
                sent == old(sent) + r.frames && decoder.buffer == r.rest && destroyed == !r.ok
    {
      if destroyed || !sock || |data| == 0 { return; }
      var frames, ok := decoder.Push(data);
      sent := sent + frames;
      if !ok {
        destroyed := true;
      }
    }

    /** Fed a stream's bytes in any chunks, a live pipe sends what the whole decodes to, and stays up
        unless the whole is rejected. */
    method Feed(chunks: seq<Bytes>)
      requires sock && !destroyed && Incomplete(decoder.buffer)
      requires Decode(decoder.buffer + Concat(chunks)).ok
      modifies this, decoder
      ensures !destroyed
      ensures var r := Decode(old(decoder.buffer) + Concat(chunks));
              sent == old(sent) + r.frames && decoder.buffer == r.rest
      decreases |chunks|
    {
      ghost var buffer, before := decoder.buffer, sent;
      if chunks == [] {
        assert buffer + Concat(chunks) == buffer;
        return;
      }
      FeedStep(buffer, chunks);
      OnStreamData(chunks[0]);
      Feed(chunks[1..]);
      var r := Decode(buffer + chunks[0]);
      Regroup(before, r.frames, Decode(r.rest + Concat(chunks[1..])).frames);
    }
  }

  lemma FeedStep(buffer: Bytes, chunks: seq<Bytes>)
    requires chunks != [] && Incomplete(buffer) && Decode(buffer + Concat(chunks)).ok
    ensures var r := Decode(buffer + chunks[0]);
            && r.ok && Incomplete(r.rest)
            && (chunks[0] == [] ==> r.rest == buffer && r.frames == [])
            && Decode(buffer + Concat(chunks)) == Ahead(r.frames, Decode(r.rest + Concat(chunks[1..])))
  {
    assert buffer + [] == buffer;
    ConcatTakes(buffer, chunks);
    ReadOn(buffer + chunks[0], Concat(chunks[1..]));
  }
}
