/**
 What both ends do with bytes written before the encrypted stream has opened: keep them, up to a
 budget, and refuse whole writes past it (the write closures of src/client.cpp and src/server.cpp). Writes
 to the stream may fail, and so may the one write that hands over what was kept.
 */
module PreOpen {
  import opened Common

  const MAX_PENDING := 262144

  datatype Outbox = Outbox(cap: nat, isOpen: bool, pending: Bytes, wire: Bytes)

  function Fresh(cap: nat): Outbox { Outbox(cap, false, [], []) }

  predicate Refuses(b: Outbox, data: Bytes)
  {
    !b.isOpen && |b.pending| + |data| > b.cap
  }

  /** A write the outbox does not refuse and the stream does not fail. */
  function Put(b: Outbox, data: Bytes): Outbox
    requires !Refuses(b, data)
  {
    if b.isOpen then b.(wire := b.wire + data) else b.(pending := b.pending + data)
  }

  /** The stream opens and takes everything kept for it. */
  function Open(b: Outbox): Outbox
  {
    b.(isOpen := true, pending := [], wire := b.wire + b.pending)
  }

  // ---- runs --------------------------------------------------------------------------------

  /** `ok` is what the stream itself would answer; `Late` is a write once the connection has gone. */
  datatype Op = Write(data: Bytes, ok: bool) | Opens(ok: bool) | Late(data: Bytes)

  function Step(b: Outbox, op: Op): Outbox
  {
    match op
    case Write(data, ok) => if Refuses(b, data) || (b.isOpen && !ok) then b else Put(b, data)
    case Opens(ok) =>
      if b.isOpen then b
      else if b.pending != [] && !ok then b.(isOpen := true, pending := [])
      else Open(b)
    case Late(_) => b
  }

  function Run(b: Outbox, ops: seq<Op>): Outbox
    decreases |ops|
  {
    if ops == [] then b else Run(Step(b, ops[0]), ops[1..])
  }

  // ---- the same, told of whole writes ------------------------------------------------------

  /** The writes the stream has taken, and those that wait for it. */
  datatype Held = Held(cap: nat, isOpen: bool, taken: seq<Bytes>, waiting: seq<Bytes>)

  function Nothing(cap: nat): Held { Held(cap, false, [], []) }

  /** A write waits, is taken, or is left out whole; a failed opening leaves out all that waited. */
  function Hold(h: Held, op: Op): Held
  {
    match op
    case Write(data, ok) =>
      if h.isOpen then if ok then h.(taken := h.taken + [data]) else h
      else if |Concat(h.waiting)| + |data| > h.cap then h
      else h.(waiting := h.waiting + [data])
    case Opens(ok) =>
      if h.isOpen then h
      else if ok || Concat(h.waiting) == [] then h.(isOpen := true, taken := h.taken + h.waiting, waiting := [])
      else h.(isOpen := true, waiting := [])
    case Late(_) => h
  }

  function HoldAll(h: Held, ops: seq<Op>): Held
    decreases |ops|
  {
    if ops == [] then h else HoldAll(Hold(h, ops[0]), ops[1..])
  }

  function Tried(op: Op): seq<Bytes> { if op.Opens? then [] else [op.data] }

  /** All the writes attempted. */
  function Writes(ops: seq<Op>): seq<Bytes>
    decreases |ops|
  {
    if ops == [] then []
    else Tried(ops[0]) + Writes(ops[1..])
  }

  /** The bytes of whole writes. */
  function Flat(h: Held): Outbox
  {
    Outbox(h.cap, h.isOpen, Concat(h.waiting), Concat(h.taken))
  }

  lemma FlatStep(h: Held, op: Op)
    ensures Step(Flat(h), op) == Flat(Hold(h, op))
  {
    match op
    case Write(data, _) =>
      ConcatSnoc(h.waiting, data);
      ConcatSnoc(h.taken, data);
    case Opens(_) => ConcatAppend(h.taken, h.waiting);
    case Late(_) =>
  }

  /** The byte buffer is the writes held, joined in order: wherever the opening falls and whatever fails, no
      write is cut, doubled or overtaken. */
  lemma {:induction false} KeptInOrder(h: Held, ops: seq<Op>)
    ensures Run(Flat(h), ops) == Flat(HoldAll(h, ops))
    decreases |ops|
  {
    if ops == [] {
    } else {
      FlatStep(h, ops[0]);
      KeptInOrder(Hold(h, ops[0]), ops[1..]);
    }
  }

  /** From the start; the buffer never outgrows its budget, and is empty once open. */
  lemma KeptFromStart(cap: nat, ops: seq<Op>)
    ensures var b, h := Run(Fresh(cap), ops), HoldAll(Nothing(cap), ops);
            && b == Flat(h) && b.cap == cap && |b.pending| <= cap && (b.isOpen ==> h.waiting == [])
  {
    assert Fresh(cap) == Flat(Nothing(cap));
    KeptInOrder(Nothing(cap), ops);
    WithinBudget(Nothing(cap), ops);
  }

  lemma {:induction false} WithinBudget(h: Held, ops: seq<Op>)
    requires |Concat(h.waiting)| <= h.cap && (h.isOpen ==> h.waiting == [])
    ensures var g := HoldAll(h, ops);
            g.cap == h.cap && |Concat(g.waiting)| <= g.cap && (g.isOpen ==> g.waiting == [])
    decreases |ops|
  {
    if ops == [] {
    } else {
      FlatStep(h, ops[0]);
      WithinBudget(Hold(h, ops[0]), ops[1..]);
    }
  }

  // ---- what is left out --------------------------------------------------------------------

  /** `small` is `large` with some elements left out. */
  predicate Subsequence<T(==)>(small: seq<T>, large: seq<T>)
    decreases |large|
  {
    small == [] ||
    (large != [] &&
     ((small[0] == large[0] && Subsequence(small[1..], large[1..])) || Subsequence(small, large[1..])))
  }

  lemma {:induction false} SubsequenceSnoc<T>(small: seq<T>, large: seq<T>, x: T)
    requires Subsequence(small, large)
    ensures Subsequence(small + [x], large + [x]) && Subsequence(small, large + [x])
    decreases |large|
  {
    if large == [] {
      assert small + [x] == [x] && large + [x] == [x];
    } else {
      assert (large + [x])[1..] == large[1..] + [x];
      if small == [] {
        SubsequenceSnoc(small, large[1..], x);
        assert small + [x] == [x];
      } else {
        assert (small + [x])[1..] == small[1..] + [x];
        if small[0] == large[0] && Subsequence(small[1..], large[1..]) {
          SubsequenceSnoc(small[1..], large[1..], x);
        } else {
          SubsequenceSnoc(small, large[1..], x);
        }
      }
    }
  }

  lemma {:induction false} SubsequencePrefix<T>(a: seq<T>, b: seq<T>, large: seq<T>)
    requires Subsequence(a + b, large)
    ensures Subsequence(a, large)
    decreases |large|
  {
    if a == [] {
    } else {
      assert (a + b)[0] == a[0] && (a + b)[1..] == a[1..] + b;
      if a[0] == large[0] && Subsequence((a + b)[1..], large[1..]) {
        SubsequencePrefix(a[1..], b, large[1..]);
      } else {
        SubsequencePrefix(a, b, large[1..]);
      }
    }
  }

  lemma {:induction false} SubsequenceTwice<T>(a: seq<T>, b: seq<T>, c: seq<T>)
    requires Subsequence(a, b) && Subsequence(b, c)
    ensures Subsequence(a, c)
    decreases |c|
  {
    if a == [] || b == [] {
    } else if b[0] == c[0] && Subsequence(b[1..], c[1..]) {
      if a[0] == b[0] && Subsequence(a[1..], b[1..]) {
        SubsequenceTwice(a[1..], b[1..], c[1..]);
      } else {
        SubsequenceTwice(a, b[1..], c[1..]);
      }
    } else {
      SubsequenceTwice(a, b, c[1..]);
    }
  }

  lemma {:induction false} WritesAppend(a: seq<Op>, b: seq<Op>)
    ensures Writes(a + b) == Writes(a) + Writes(b)
    decreases |a|
  {
    if a == [] {
      assert a + b == b;
    } else {
      assert (a + b)[0] == a[0] && (a + b)[1..] == a[1..] + b;
      WritesAppend(a[1..], b);
      Regroup(Tried(a[0]), Writes(a[1..]), Writes(b));
    }
  }

  lemma HoldSubsequence(h: Held, before: seq<Bytes>, op: Op)
    requires Subsequence(h.taken + h.waiting, before) && (h.isOpen ==> h.waiting == [])
    ensures var g := Hold(h, op);
            && Subsequence(g.taken + g.waiting, before + Tried(op))
            && (g.isOpen ==> g.waiting == [])
  {
    var all := h.taken + h.waiting;
    assert before + [] == before && h.taken + [] == h.taken;
    if op.Opens? {
      SubsequencePrefix(h.taken, h.waiting, before);
      assert all + [] == all;
    } else {
      SubsequenceSnoc(all, before, op.data);
      assert h.waiting == [] ==> (h.taken + [op.data]) + h.waiting == all + [op.data];
      assert h.taken + (h.waiting + [op.data]) == all + [op.data];
    }
  }

  /** What is taken, and after it what waits, are writes attempted, in their order. */
  lemma {:induction false} KeptSubsequence(h: Held, before: seq<Bytes>, ops: seq<Op>)
    requires Subsequence(h.taken + h.waiting, before) && (h.isOpen ==> h.waiting == [])
    ensures var g := HoldAll(h, ops); Subsequence(g.taken + g.waiting, before + Writes(ops))
    decreases |ops|
  {
    if ops == [] {
      assert before + [] == before;
    } else {
      HoldSubsequence(h, before, ops[0]);
      KeptSubsequence(Hold(h, ops[0]), before + Tried(ops[0]), ops[1..]);
      assert (before + Tried(ops[0])) + Writes(ops[1..]) == before + Writes(ops);
    }
  }

  predicate Succeeds(op: Op) { !op.Late? && op.ok }

  lemma HoldKeeps(h: Held, op: Op)
    requires Succeeds(op) && (h.isOpen ==> h.waiting == [])
    requires h.isOpen || |Concat(h.waiting)| + |Concat(Tried(op))| <= h.cap
    ensures var g := Hold(h, op);
            && g.taken + g.waiting == h.taken + h.waiting + Tried(op)
            && g.cap == h.cap && (g.isOpen ==> g.waiting == []) && (h.isOpen ==> g.isOpen)
            && (!g.isOpen ==> |Concat(g.waiting)| == |Concat(h.waiting)| + |Concat(Tried(op))|)
  {
    if op.Write? {
      ConcatSnoc(h.waiting, op.data);
      assert Concat([op.data]) == op.data + Concat([]);
      assert h.waiting == [] ==> (h.taken + [op.data]) + h.waiting == h.taken + h.waiting + [op.data];
    }
  }

  /** When nothing fails, an open stream leaves nothing out; nor does one yet to open, of writes that fit the
      budget together. */
  lemma {:induction false} AllKept(h: Held, ops: seq<Op>)
    requires (forall op | op in ops :: Succeeds(op)) && (h.isOpen ==> h.waiting == [])
    requires h.isOpen || |Concat(h.waiting)| + |Concat(Writes(ops))| <= h.cap
    ensures var g := HoldAll(h, ops);
            && g.taken + g.waiting == h.taken + h.waiting + Writes(ops)
            && (g.isOpen ==> g.waiting == []) && (h.isOpen ==> g.isOpen)
    decreases |ops|
  {
    if ops == [] {
    } else {
      var now, g := Tried(ops[0]), Hold(h, ops[0]);
      assert ops[0] in ops && forall op | op in ops[1..] :: op in ops;
      ConcatAppend(now, Writes(ops[1..]));
      HoldKeeps(h, ops[0]);
      AllKept(g, ops[1..]);
      Regroup(h.taken + h.waiting, now, Writes(ops[1..]));
    }
  }
}
