/** Vocabulary shared by every model: bytes, options, and sums over queues. */
module Common {

  type byte = x: int | 0 <= x < 256

  type Bytes = seq<byte>

  datatype Option<+T> = None | Some(value: T)

  /** The chunks joined in order. */
  function Concat<T>(chunks: seq<seq<T>>): (r: seq<T>)
  {
    if chunks == [] then [] else chunks[0] + Concat(chunks[1..])
  }

  lemma {:induction false} ConcatAppend<T>(a: seq<seq<T>>, b: seq<seq<T>>)
    ensures Concat(a + b) == Concat(a) + Concat(b)
  {
    if a == [] {
      assert a + b == b;
    } else {
      assert (a + b)[0] == a[0] && (a + b)[1..] == a[1..] + b;
      ConcatAppend(a[1..], b);
      Regroup(a[0], Concat(a[1..]), Concat(b));
    }
  }

  lemma ConcatSnoc<T>(a: seq<seq<T>>, x: seq<T>)
    ensures Concat(a + [x]) == Concat(a) + x
  {
    ConcatAppend(a, [x]);
    assert Concat([x]) == x + Concat([]);
  }

  lemma Regroup<T>(a: seq<T>, b: seq<T>, c: seq<T>)
    ensures (a + b) + c == a + (b + c)
  {
  }

  function Ids(ids: seq<nat>): set<nat> { set id | id in ids }

  predicate Distinct(ids: seq<nat>)
  {
    forall i, j | 0 <= i < j < |ids| :: ids[i] != ids[j]
  }

  function Sum(ns: seq<nat>): nat
  {
    if |ns| == 0 then 0 else ns[0] + Sum(ns[1..])
  }

  lemma {:induction false} SumSnoc(ns: seq<nat>, n: nat)
    ensures Sum(ns + [n]) == Sum(ns) + n
  {
    if ns == [] {
      assert ns + [n] == [n] && [n][1..] == [];
    } else {
      assert (ns + [n])[0] == ns[0] && (ns + [n])[1..] == ns[1..] + [n];
      SumSnoc(ns[1..], n);
    }
  }

  function At(m: map<nat, nat>, k: nat): nat { if k in m then m[k] else 0 }

  /** The sum of the values of `m` at keys below `n`. */
  function SumBelow(m: map<nat, nat>, n: nat): nat
  {
    Sum(seq(n, k requires 0 <= k < n => At(m, k)))
  }

  lemma SumBelowNext(m: map<nat, nat>, n: nat)
    ensures SumBelow(m, n + 1) == SumBelow(m, n) + At(m, n)
  {
    var values := seq(n, k requires 0 <= k < n => At(m, k));
    SumSnoc(values, At(m, n));
    assert seq(n + 1, k requires 0 <= k < n + 1 => At(m, k)) == values + [At(m, n)];
  }

  lemma SumBelowAgree(a: map<nat, nat>, b: map<nat, nat>, n: nat)
    requires forall k: nat | k < n :: (k in a <==> k in b) && (k in a ==> a[k] == b[k])
    ensures SumBelow(a, n) == SumBelow(b, n)
  {
    assert seq(n, k requires 0 <= k < n => At(a, k)) == seq(n, k requires 0 <= k < n => At(b, k));
  }

  lemma {:induction false} SumBelowRemove(m: map<nat, nat>, id: nat, n: nat)
    requires id in m && id < n
    ensures SumBelow(m - {id}, n) == SumBelow(m, n) - m[id]
    decreases n
  {
    SumBelowNext(m, n - 1);
    SumBelowNext(m - {id}, n - 1);
    if id == n - 1 {
      SumBelowAgree(m - {id}, m, n - 1);
    } else {
      SumBelowRemove(m, id, n - 1);
    }
  }

  lemma SumBelowAdd(m: map<nat, nat>, n: nat, v: nat)
    ensures SumBelow(m[n := v], n + 1) == SumBelow(m, n) + v
  {
    SumBelowNext(m[n := v], n);
    SumBelowAgree(m[n := v], m, n);
  }

  lemma {:induction false} SumBelowEmpty(m: map<nat, nat>, n: nat)
    ensures m.Keys == {} ==> SumBelow(m, n) == 0
    decreases n
  {
    if n == 0 {
    } else {
      SumBelowNext(m, n - 1);
      SumBelowEmpty(m, n - 1);
    }
  }
}
