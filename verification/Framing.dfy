/**
 Datagrams on a byte stream: a four-byte big-endian length and the payload (src/udp_pipe.cpp).
 `Decode` reads a whole byte string at once; `FrameDecoder` is the incremental decoder of the source.
 */
module Framing {
  import opened Common
  import opened Numerals

  const MAX_DATAGRAM := 65535

  /** The low 32 bits of a length, most significant byte first. */
  function Header(len: nat): Bytes
  {
    [(len / 16777216) % 256, (len / 65536) % 256, (len / 256) % 256, len % 256]
  }

  function Frame(data: Bytes): Bytes { Header(|data|) + data }

  function BigEndian(b0: nat, b1: nat, b2: nat, b3: nat): nat
  {
    b0 * 16777216 + b1 * 65536 + b2 * 256 + b3
  }

  function Length(b: Bytes): nat
    requires |b| >= 4
  {
    BigEndian(b[0], b[1], b[2], b[3])
  }

  /** A whole legal frame stands at the front. */
  predicate Whole(b: Bytes)
  {
    |b| >= 4 && Length(b) <= MAX_DATAGRAM && |b| >= 4 + Length(b)
  }

  function Payload(b: Bytes): Bytes
    requires Whole(b)
  {
    b[4..4 + Length(b)]
  }

  function After(b: Bytes): Bytes
    requires Whole(b)
  {
    b[4 + Length(b)..]
  }

  /** The frames found, the bytes left over, and whether no oversized header was met. */
  datatype Scan = Scan(frames: seq<Bytes>, rest: Bytes, ok: bool)

  function Decode(b: Bytes): Scan
    decreases |b|
  {
    if Whole(b) then Ahead([Payload(b)], Decode(After(b)))
    else Scan([], b, |b| < 4 || Length(b) <= MAX_DATAGRAM)
  }

  function Ahead(frames: seq<Bytes>, r: Scan): Scan { r.(frames := frames + r.frames) }

  function Wire(frames: seq<Bytes>): Bytes
  {
    if frames == [] then [] else Frame(frames[0]) + Wire(frames[1..])
  }

  /** The start of a frame that has not all arrived. */
  predicate Incomplete(b: Bytes)
  {
    |b| < 4 || (Length(b) <= MAX_DATAGRAM && |b| < 4 + Length(b))
  }

  predicate Legal(frames: seq<Bytes>)
  {
    forall f | f in frames :: |f| <= MAX_DATAGRAM
  }

  // ---- one frame ---------------------------------------------------------------------------

  lemma HeaderOfLength(b0: byte, b1: byte, b2: byte, b3: byte)
    ensures Header(BigEndian(b0, b1, b2, b3)) == [b0, b1, b2, b3]
  {
    var n := BigEndian(b0, b1, b2, b3);
    assert n / 256 == b0 * 65536 + b1 * 256 + b2 as int;
    assert n / 65536 == b0 * 256 + b1 as int;
    assert n / 16777216 == b0;
  }

  lemma FrontIsFrame(b: Bytes)
    requires Whole(b)
    ensures Frame(Payload(b)) + After(b) == b
  {
    FrontIsHeader(b);
    Cut(b, Length(b));
    assert |Payload(b)| == Length(b);
  }

  lemma FrontIsHeader(b: Bytes)
    requires |b| >= 4
    ensures Header(Length(b)) == b[..4]
  {
    HeaderOfLength(b[0], b[1], b[2], b[3]);
  }

  lemma Cut(b: Bytes, n: nat)
    requires |b| >= 4 + n
    ensures (b[..4] + b[4..4 + n]) + b[4 + n..] == b
  {
  }

  lemma LengthOfHeader(len: nat, tail: Bytes)
    requires len <= MAX_DATAGRAM
    ensures Length(Header(len) + tail) == len
  {
    assert len / 16777216 == 0;
    assert len == 256 * (len / 256) + len % 256;
    assert len / 65536 == 0;
    assert (len / 256) % 256 == len / 256;
  }

  /** A whole frame at the front comes off as one payload. */
  lemma FrameComesOff(data: Bytes, tail: Bytes)
    requires |data| <= MAX_DATAGRAM
    ensures Decode(Frame(data) + tail) == Ahead([data], Decode(tail))
  {
    var b := Frame(data) + tail;
    assert b == Header(|data|) + (data + tail);
    LengthOfHeader(|data|, data + tail);
    assert Payload(b) == data && After(b) == tail;
  }

  /** A payload survives framing exactly when it is at most 65535 bytes. */
  lemma FrameRoundTrip(data: Bytes)
    ensures Decode(Frame(data)) == Scan([data], [], true) <==> |data| <= MAX_DATAGRAM
  {
    if |data| <= MAX_DATAGRAM {
      FrameComesOff(data, []);
      assert Frame(data) + [] == Frame(data);
    } else {
      FramesLegal(Frame(data));
      assert data in [data];
    }
  }

  // ---- the order of bytes on the wire ------------------------------------------------------

  lemma FourDigits(b: Bytes)
    requires |b| == 4
    ensures Value(b, 256) == BigEndian(b[0], b[1], b[2], b[3])
  {
    var ds: seq<nat> := b;
    ValueSnoc([], ds[0], 256);
    ValueSnoc([ds[0]], ds[1], 256);
    ValueSnoc([ds[0], ds[1]], ds[2], 256);
    ValueSnoc([ds[0], ds[1], ds[2]], ds[3], 256);
    assert [] + [ds[0]] == [ds[0]] && [ds[0]] + [ds[1]] == [ds[0], ds[1]];
    assert [ds[0], ds[1]] + [ds[2]] == [ds[0], ds[1], ds[2]] && [ds[0], ds[1], ds[2]] + [ds[3]] == ds;
  }

  lemma HeaderValue(len: nat)
    ensures var h := Header(len); BigEndian(h[0], h[1], h[2], h[3]) == len % 4294967296
  {
    var a, r0 := Divided(len, 256);
    var b, r1 := Divided(a, 256);
    var c, r2 := Divided(b, 256);
    var d, r3 := Divided(c, 256);
    ModSplit(len, 256, 256);
    ModSplit(len, 256, 65536);
    DivModUnique(len, 4294967296, d, BigEndian(r3, r2, r1, r0));
  }

  /** The wire carries the length as a numeral of four digits in base 256, most significant first, and then the
      payload as it stands; a length past 32 bits loses what does not fit. */
  lemma NetworkOrder(data: Bytes)
    ensures var f := Frame(data);
            && |f| == 4 + |data| && f[4..] == data
            && Value(f[..4], 256) == |data| % 4294967296
            && (|data| <= 65535 ==> Value(f[..4], 256) == |data|)
  {
    FourDigits(Frame(data)[..4]);
    HeaderValue(|data|);
  }

  /** And that is how it is read: with four bytes that say `n` in front, the next `n` come off as a payload, if
      they are there; `n` above 65535 is a rejection; and anything shorter waits. */
  lemma ReadInNetworkOrder(b: Bytes)
    ensures |b| < 4 ==> Decode(b) == Scan([], b, true)
    ensures |b| >= 4 ==>
              var n := Value(b[..4], 256);
              Decode(b) == if n > 65535 then Scan([], b, false)
                           else if |b| < 4 + n then Scan([], b, true)
                           else Ahead([b[4..4 + n]], Decode(b[4 + n..]))
  {
    if |b| >= 4 {
      FourDigits(b[..4]);
      ReadLength(b, Length(b));
    }
  }

  lemma ReadLength(b: Bytes, n: nat)
    requires |b| >= 4 && n == Length(b)
    ensures Decode(b) == if n > 65535 then Scan([], b, false)
                         else if |b| < 4 + n then Scan([], b, true)
                         else Ahead([b[4..4 + n]], Decode(b[4 + n..]))
  {
  }

  // ---- whole byte strings ------------------------------------------------------------------

  lemma {:induction false} FramesLegal(b: Bytes)
    ensures Legal(Decode(b).frames)
    decreases |b|
  {
    if !Whole(b) {
    } else {
      FramesLegal(After(b));
    }
  }

  lemma WireCons(f: Bytes, frames: seq<Bytes>, rest: Bytes)
    ensures Wire([f] + frames) + rest == Frame(f) + (Wire(frames) + rest)
  {
    assert ([f] + frames)[1..] == frames;
  }

  /** Every byte comes back: framing the payloads found and appending what is left over gives the
      input, whether or not it was rejected. */
  lemma {:induction false} Conservation(b: Bytes)
    ensures var r := Decode(b); Wire(r.frames) + r.rest == b
    decreases |b|
  {
    if !Whole(b) {
    } else {
      var r := Decode(After(b));
      Conservation(After(b));
      FrontIsFrame(b);
      WireCons(Payload(b), r.frames, r.rest);
    }
  }

  /** What is left over is the beginning of a frame, at most 65538 bytes of it, or begins with the
      header that was rejected. */
  lemma {:induction false} Leftover(b: Bytes)
    ensures var r := Decode(b);
            if r.ok then Incomplete(r.rest) && |r.rest| <= 65538
            else |r.rest| >= 4 && Length(r.rest) > MAX_DATAGRAM
    decreases |b|
  {
    if !Whole(b) {
    } else {
      Leftover(After(b));
    }
  }

  lemma FirstComesOff(f: Bytes, wire: Bytes, tail: Bytes)
    requires |f| <= MAX_DATAGRAM
    ensures Decode((Frame(f) + wire) + tail) == Ahead([f], Decode(wire + tail))
  {
    Regroup(Frame(f), wire, tail);
    FrameComesOff(f, wire + tail);
  }

  lemma {:induction false} WireComesOff(frames: seq<Bytes>, tail: Bytes)
    requires Legal(frames)
    ensures Decode(Wire(frames) + tail) == Ahead(frames, Decode(tail))
  {
    if frames == [] {
      assert Wire(frames) + tail == tail;
    } else {
      var f, more := frames[0], frames[1..];
      assert f in frames && forall g | g in more :: g in frames;
      WireComesOff(more, tail);
      FirstComesOff(f, Wire(more), tail);
      AheadTwice([f], more, Decode(tail));
      assert [f] + more == frames;
    }
  }

  lemma AheadTwice(a: seq<Bytes>, b: seq<Bytes>, r: Scan)
    ensures Ahead(a, Ahead(b, r)) == Ahead(a + b, r)
  {
    assert a + (b + r.frames) == (a + b) + r.frames;
  }

  lemma AheadNone(r: Scan)
    ensures Ahead([], r) == r
  {
  }

  /** `Decode` accepts with this answer exactly when the bytes split this way: legal frames, then part
      of one. There is never a second way to split them. */
  lemma DecodeIsTheOnlySplit(b: Bytes, frames: seq<Bytes>, rest: Bytes)
    ensures Decode(b) == Scan(frames, rest, true)
            <==> Legal(frames) && Incomplete(rest) && Wire(frames) + rest == b
  {
    FramesLegal(b);
    Conservation(b);
    Leftover(b);
    if Legal(frames) && Incomplete(rest) && Wire(frames) + rest == b {
      WireComesOff(frames, rest);
      assert Decode(rest) == Scan([], rest, true);
      assert frames + [] == frames;
    }
  }

  // ---- chunks ------------------------------------------------------------------------------

  lemma WholeStays(a: Bytes, b: Bytes)
    requires Whole(a)
    ensures Whole(a + b) && Payload(a + b) == Payload(a) && After(a + b) == After(a) + b
  {
    assert Length(a + b) == Length(a);
  }

  /** Reading on from what was left over is the same as having had all the bytes at once. */
  lemma {:induction false} DecodeAppend(a: Bytes, b: Bytes)
    ensures Decode(a + b) == Ahead(Decode(a).frames, Decode(Decode(a).rest + b))
    decreases |a|
  {
    if Whole(a) {
      DecodeAppend(After(a), b);
      WholeStays(a, b);
      var r := Decode(After(a));
      AheadTwice([Payload(a)], r.frames, Decode(r.rest + b));
    } else {
      AheadNone(Decode(a + b));
    }
  }

  /** A buffer as a push leaves it: nothing more to take off the front. */
  predicate Settled(b: Bytes)
  {
    Decode(b).frames == [] && Decode(b).rest == b
  }

  lemma {:induction false} RestSettles(b: Bytes)
    ensures Decode(Decode(b).rest) == Scan([], Decode(b).rest, Decode(b).ok)
    decreases |b|
  {
    if !Whole(b) {
    } else {
      RestSettles(After(b));
    }
  }

  /** A rejected header goes on being rejected. */
  lemma StuckStays(b: Bytes, more: Bytes)
    requires Decode(b) == Scan([], b, false)
    ensures !Decode(b + more).ok
  {
    assert |b| >= 4 && Length(b) > MAX_DATAGRAM;
    assert Length(b + more) == Length(b);
  }

  lemma OkBefore(b: Bytes, more: Bytes, ok: bool)
    requires Decode(b) == Scan([], b, ok) && Decode(b + more).ok
    ensures ok
  {
    if !ok {
      StuckStays(b, more);
    }
  }

  /** The first bytes taken off a stream that is not rejected. */
  lemma ReadOn(first: Bytes, more: Bytes)
    requires Decode(first + more).ok
    ensures var r := Decode(first);
            && r.ok && Incomplete(r.rest)
            && Decode(first + more) == Ahead(r.frames, Decode(r.rest + more))
  {
    var r := Decode(first);
    DecodeAppend(first, more);
    RestSettles(first);
    OkBefore(r.rest, more, r.ok);
    Leftover(first);
  }

  /** Pushing chunks one after another, each onto what the last one left. */
  function PushAll(buffer: Bytes, chunks: seq<Bytes>): Scan
    decreases |chunks|
  {
    if chunks == [] then Scan([], buffer, Decode(buffer).ok)
    else
      var s := Decode(buffer + chunks[0]);
      Ahead(s.frames, PushAll(s.rest, chunks[1..]))
  }

  /** However the bytes are cut into chunks, the frames, the final buffer and the final answer are
      those of the whole, oversized headers included. */
  lemma {:induction false} ChunkIndependent(buffer: Bytes, chunks: seq<Bytes>)
    requires Settled(buffer)
    ensures PushAll(buffer, chunks) == Decode(buffer + Concat(chunks))
    decreases |chunks|
  {
    if chunks == [] {
      assert buffer + Concat(chunks) == buffer;
    } else {
      var first, more := buffer + chunks[0], Concat(chunks[1..]);
      RestSettles(first);
      ChunkIndependent(Decode(first).rest, chunks[1..]);
      DecodeAppend(first, more);
      ConcatTakes(buffer, chunks);
    }
  }

  lemma ConcatTakes(buffer: Bytes, chunks: seq<Bytes>)
    requires chunks != []
    ensures buffer + Concat(chunks) == (buffer + chunks[0]) + Concat(chunks[1..])
    ensures buffer + Concat(chunks) == buffer + (chunks[0] + Concat(chunks[1..]))
  {
  }

  /** A stream that carries whole legal frames is never rejected, however much of it has arrived. */
  lemma {:induction false} PrefixDecodes(frames: seq<Bytes>, arrived: Bytes)
    requires Legal(frames) && arrived <= Wire(frames)
    ensures var r := Decode(arrived);
            && r.ok && r.frames <= frames
            && (arrived == Wire(frames) ==> r.frames == frames && r.rest == [])
  {
    if frames == [] {
      assert arrived == [];
    } else {
      var f := frames[0];
      assert f in frames;
      var n := |Frame(f)|;
      if |arrived| >= n {
        PrefixSplits(Frame(f), Wire(frames[1..]), arrived);
        PrefixDecodes(frames[1..], arrived[n..]);
        FrameComesOff(f, arrived[n..]);
      } else {
        PartOfFrame(f, Wire(frames[1..]), arrived);
      }
    }
  }

  lemma PrefixSplits(a: Bytes, b: Bytes, p: Bytes)
    requires p <= a + b && |p| >= |a|
    ensures p == a + p[|a|..] && p[|a|..] <= b
    ensures p == a + b <==> p[|a|..] == b
  {
    assert p[..|a|] == (a + b)[..|a|];
  }

  lemma PartOfFrame(f: Bytes, tail: Bytes, p: Bytes)
    requires |f| <= MAX_DATAGRAM && p <= Frame(f) + tail && |p| < |Frame(f)|
    ensures Decode(p) == Scan([], p, true)
  {
    if |p| >= 4 {
      assert Frame(f) + tail == Header(|f|) + (f + tail);
      PrefixSplits(Header(|f|), f + tail, p);
      LengthOfHeader(|f|, p[4..]);
    }
  }

  // ---- the incremental decoder -------------------------------------------------------------

  lemma {:induction false} WireSnoc(frames: seq<Bytes>, f: Bytes)
    ensures Wire(frames + [f]) == Wire(frames) + Frame(f)
  {
    if frames == [] {
      assert [f][1..] == [] && [] + [f] == [f];
    } else {
      WireSnoc(frames[1..], f);
      assert (frames + [f])[1..] == frames[1..] + [f];
    }
  }

  /** The loop has consumed exactly these frames. */
  predicate Consumed(all: Bytes, offset: nat, emitted: seq<Bytes>)
    requires offset <= |all|
  {
    Legal(emitted) && all[..offset] == Wire(emitted)
  }

  lemma TakeFrame(all: Bytes, offset: nat, emitted: seq<Bytes>, n: nat, end: nat)
    requires offset + 4 <= |all| && Consumed(all, offset, emitted)
    requires n == BigEndian(all[offset], all[offset + 1], all[offset + 2], all[offset + 3])
    requires n <= MAX_DATAGRAM && end == offset + (4 + n) <= |all|
    ensures Consumed(all, end, emitted + [all[offset + 4..end]])
  {
    var b, f := all[offset..], all[offset + 4..end];
    assert n == Length(b) && b[..4] == all[offset..offset + 4];
    FrontIsHeader(b);
    assert Frame(f) == all[offset..offset + 4] + f;
    CutAt(all, offset, end);
    WireSnoc(emitted, f);
  }

  lemma CutAt(all: Bytes, offset: nat, end: nat)
    requires offset + 4 <= end <= |all|
    ensures all[..end] == all[..offset] + (all[offset..offset + 4] + all[offset + 4..end])
  {
  }

  /** The loop stops short of a whole frame, or at a header out of range. */
  lemma StopsAt(all: Bytes, offset: nat, emitted: seq<Bytes>, ok: bool)
    requires offset <= |all| && Consumed(all, offset, emitted)
    requires var b := all[offset..]; if ok then Incomplete(b) else |b| >= 4 && Length(b) > MAX_DATAGRAM
    ensures Decode(all) == Scan(emitted, all[offset..], ok)
  {
    assert all == all[..offset] + all[offset..];
    WireComesOff(emitted, all[offset..]);
    assert emitted + [] == emitted;
  }

  class FrameDecoder {
    var buffer: Bytes

    constructor ()
      ensures buffer == []
    {
      buffer := [];
    }

    /** `push`: appends, then emits every complete frame, erasing what it has consumed. */
    method Push(data: Bytes) returns (emitted: seq<Bytes>, ok: bool)
      modifies this
      ensures Scan(emitted, buffer, ok) == Decode(old(buffer) + data)
    {
      buffer := buffer + data;
      emitted := [];
      var offset := 0;
      ghost var all := buffer;
      while |buffer| - offset >= 4
        invariant 0 <= offset <= |all| && buffer == all == old(buffer) + data
        invariant Consumed(all, offset, emitted)
      {
        var frameLen := BigEndian(buffer[offset], buffer[offset + 1], buffer[offset + 2], buffer[offset + 3]);
        if frameLen > MAX_DATAGRAM {
          StopsAt(all, offset, emitted, false);
          buffer := buffer[offset..];
          return emitted, false;
        }
        var total := 4 + frameLen;
        if |buffer| - offset < total { break; }
        TakeFrame(all, offset, emitted, frameLen, offset + total);
        emitted := emitted + [buffer[offset + 4..offset + total]];
        offset := offset + total;
      }
      StopsAt(all, offset, emitted, true);
      if offset > 0 {
        buffer := buffer[offset..];
      }
      ok := true;
    }
  }
}
