/** Positional numerals, most significant digit first, in any base of at least two. */
module Numerals {

  function Pow(base: nat, n: nat): (p: nat)
    ensures base > 0 ==> p > 0
  {
    if n == 0 then 1 else Pow(base, n - 1) * base
  }

  predicate InBase(ds: seq<nat>, base: nat)
  {
    forall d | d in ds :: d < base
  }

  function Value(ds: seq<nat>, base: nat): nat
  {
    if ds == [] then 0 else Value(ds[..|ds| - 1], base) * base + ds[|ds| - 1]
  }

  /** The last `n` digits of `v`. */
  function Numeral(v: nat, base: nat, n: nat): (ds: seq<nat>)
    requires base >= 2
    ensures |ds| == n
    ensures InBase(ds, base)
  {
    if n == 0 then [] else Numeral(v / base, base, n - 1) + [v % base]
  }

  lemma ValueSnoc(ds: seq<nat>, d: nat, base: nat)
    ensures Value(ds + [d], base) == Value(ds, base) * base + d
  {
    assert (ds + [d])[..|ds|] == ds;
  }

  lemma MulMono(a: nat, b: nat, m: nat)
    ensures a <= b ==> a * m <= b * m
  {
  }

  lemma MulSwap(a: nat, b: nat, c: nat)
    ensures a * (b * c) == (a * c) * b
  {
  }

  lemma MulNext(a: nat, m: nat)
    ensures (a + 1) * m == a * m + m
  {
  }

  lemma MulSum(p: nat, a: nat, d: nat, b: nat)
    ensures (p * a + d) * b == p * (a * b) + d * b
  {
    assert (p * a + d) * b == p * a * b + d * b;
  }

  lemma DivModUnique(x: nat, m: nat, q: nat, r: nat)
    requires r < m && x == q * m + r
    ensures x / m == q && x % m == r
  {
    var q' := x / m;
    assert x == q' * m + x % m;
    MulMono(q' + 1, q, m);
    MulMono(q + 1, q', m);
    MulNext(q', m);
    MulNext(q, m);
  }

  lemma TwoDigits(x: nat, a: nat, b: nat, p: nat, d: nat, r: nat)
    requires d < a && r < b && x == (p * a + d) * b + r
    ensures a * b > 0
    ensures x % (a * b) == d * b + r && x / (a * b) == p
  {
    MulSum(p, a, d, b);
    MulMono(d + 1, a, b);
    assert (d + 1) * b == d * b + b;
    DivModUnique(x, a * b, p, d * b + r);
  }

  /** A digit in front: splitting the low part of `x` at `b`. */
  lemma ModSplit(x: nat, a: nat, b: nat)
    requires a > 0 && b > 0
    ensures a * b > 0
    ensures x % (a * b) == x / b % a * b + x % b
    ensures x / b / a == x / (a * b)
  {
    var q, r := x / b, x % b;
    var p, d := q / a, q % a;
    assert x == q * b + r && q == p * a + d;
    TwoDigits(x, a, b, p, d, r);
  }

  lemma ModOfMultiple(a: nat, w: nat, m: nat)
    requires w > 0 && m > 0
    ensures m * w > 0 && (a * w) % (m * w) == a % m * w
  {
    DivModUnique(a * w, w, a, 0);
    ModSplit(a * w, m, w);
  }

  lemma ModOfMod(a: nat, h: nat, m: nat)
    requires h > 0 && m > 0
    ensures h * m > 0 && a % (h * m) % m == a % m
  {
    ModSplit(a, h, m);
    DivModUnique(a % (h * m), m, a / m % h, a % m);
  }

  lemma MulOfMod(y: nat, p: nat, m: nat)
    requires m > 0
    ensures y % m * p % m == y * p % m
  {
    var q, r := y / m, y % m;
    var z := r * p;
    MulOfRest(y, p, m, q, r, z / m, z % m);
  }

  lemma MulOfRest(y: nat, p: nat, m: nat, q: nat, r: nat, s: nat, t: nat)
    requires y == q * m + r && r * p == s * m + t && t < m
    ensures y * p % m == t
  {
    MulSum(q, m, r, p);
    MulSwap(q, m, p);
    MulSum(1, q * p, s, m);
    DivModUnique(y * p, m, q * p + s, t);
  }

  lemma DivBelow(v: nat, p: nat, c: nat)
    requires p > 0 && v < c * p
    ensures v / p < c
  {
    assert v == v / p * p + v % p;
    MulMono(c, v / p, p);
  }

  /** A digit behind: the low part of `a` moves up to make room for `x`. */
  lemma ModSnoc(a: nat, w: nat, x: nat, p: nat)
    requires p > 0 && x < w
    ensures p * w > 0 && (a * w + x) % (p * w) == a % p * w + x
  {
    DivModUnique(a * w + x, w, a, x);
    ModSplit(a * w + x, p, w);
  }

  /** Digits are recovered from their value. */
  lemma {:induction false} NumeralOfValue(ds: seq<nat>, base: nat)
    requires base >= 2 && InBase(ds, base)
    ensures Numeral(Value(ds, base), base, |ds|) == ds
    decreases |ds|
  {
    if ds == [] {
    } else {
      var front, last := ds[..|ds| - 1], ds[|ds| - 1];
      assert last in ds && forall d | d in front :: d in ds;
      DivModUnique(Value(ds, base), base, Value(front, base), last);
      NumeralOfValue(front, base);
    }
  }

  lemma {:induction false} ValueBelow(ds: seq<nat>, base: nat)
    requires base >= 2 && InBase(ds, base)
    ensures Value(ds, base) < Pow(base, |ds|)
    decreases |ds|
  {
    if ds == [] {
    } else {
      var front, last := ds[..|ds| - 1], ds[|ds| - 1];
      assert last in ds && forall d | d in front :: d in ds;
      ValueBelow(front, base);
      MulMono(Value(front, base) + 1, Pow(base, |front|), base);
      assert (Value(front, base) + 1) * base == Value(front, base) * base + base;
    }
  }

  /** A value that fits is recovered from its digits. */
  lemma {:induction false} ValueOfNumeral(v: nat, base: nat, n: nat)
    requires base >= 2 && v < Pow(base, n)
    ensures Value(Numeral(v, base, n), base) == v
    decreases n
  {
    if n == 0 {
    } else {
      var q, r := Divided(v, base);
      DivBelow(v, base, Pow(base, n - 1));
      ValueOfNumeral(q, base, n - 1);
      ValueSnoc(Numeral(q, base, n - 1), r, base);
    }
  }

  lemma Divided(v: nat, base: nat) returns (q: nat, r: nat)
    requires base > 0
    ensures q == v / base && r == v % base && v == q * base + r
  {
    q, r := v / base, v % base;
  }

  lemma {:induction false} PowAdd(base: nat, a: nat, b: nat)
    ensures Pow(base, a + b) == Pow(base, a) * Pow(base, b)
    decreases b
  {
    if b == 0 {
    } else {
      PowAdd(base, a, b - 1);
      MulSum(Pow(base, a), Pow(base, b - 1), 0, base);
      assert Pow(base, a + b) == Pow(base, a + (b - 1)) * base;
    }
  }

  lemma {:induction false} PowPow(base: nat, a: nat, n: nat)
    ensures Pow(Pow(base, a), n) == Pow(base, a * n)
    decreases n
  {
    if n == 0 {
    } else {
      PowPow(base, a, n - 1);
      PowAdd(base, a * (n - 1), a);
      assert a * (n - 1) + a == a * n;
    }
  }

  lemma SmallPowers()
    ensures Pow(2, 0) == 1 && Pow(2, 1) == 2 && Pow(2, 2) == 4 && Pow(2, 3) == 8 && Pow(2, 4) == 16
    ensures Pow(2, 5) == 32 && Pow(2, 6) == 64 && Pow(2, 7) == 128 && Pow(2, 8) == 256
    ensures Pow(2, 9) == 512 && Pow(2, 10) == 1024 && Pow(2, 11) == 2048 && Pow(2, 12) == 4096
  {
    assert Pow(2, 4) == 16;
    assert Pow(2, 8) == 256;
  }
}
