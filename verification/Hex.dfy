/** `to_hex` and `from_hex` (src/keys.cpp). */
module Hex {
  import opened Common
  import N = Numerals

  const DIGITS := "0123456789abcdef"

  function NibbleOf(c: char): (v: int)
    ensures -1 <= v < 16
  {
    if '0' <= c <= '9' then c as int - '0' as int
    else if 'a' <= c <= 'f' then c as int - 'a' as int + 10
    else if 'A' <= c <= 'F' then c as int - 'A' as int + 10
    else -1
  }

  predicate IsHex(s: string)
  {
    |s| % 2 == 0 && forall i | 0 <= i < |s| :: NibbleOf(s[i]) >= 0
  }

  /** Two digits a byte, the high one first. */
  function ToHex(data: Bytes): (s: string)
    ensures |s| == 2 * |data|
  {
    seq(2 * |data|, i requires 0 <= i < 2 * |data| =>
      DIGITS[if i % 2 == 0 then data[i / 2] / 16 else data[i / 2] % 16])
  }

  function ByteAt(s: string, i: nat): byte
    requires IsHex(s) && 2 * i + 1 < |s|
  {
    NibbleOf(s[2 * i]) * 16 + NibbleOf(s[2 * i + 1])
  }

  function FromHex(s: string): Option<Bytes>
  {
    if !IsHex(s) then None
    else Some(seq(|s| / 2, i requires 0 <= i < |s| / 2 => ByteAt(s, i)))
  }

  function LowerCase(c: char): char
  {
    if 'A' <= c <= 'F' then (c as int - 'A' as int + 'a' as int) as char else c
  }

  function Lower(s: string): string
  {
    seq(|s|, i requires 0 <= i < |s| => LowerCase(s[i]))
  }

  // the digits, character by character

  predicate IsNibble(c: char) { '0' <= c <= '9' || 'a' <= c <= 'f' || 'A' <= c <= 'F' }

  /** A digit's place among the sixteen. */
  function NibbleAt(c: char): nat
  {
    if c <= '9' then if c < '0' then 0 else c as int - 48
    else if c <= 'F' then if c < 'A' then 0 else c as int - 55
    else if c < 'a' then 0 else c as int - 87
  }

  lemma NibbleIs(c: char)
    ensures NibbleOf(c) == if IsNibble(c) then NibbleAt(c) else -1
  {
  }

  lemma DigitAt(v: nat)
    requires v < 16
    ensures var d := DIGITS[v]; NibbleAt(d) == v && ('0' <= d <= '9' || 'a' <= d <= 'f')
  {
    if v < 10 {
      assert DIGITS[v] == (48 + v) as char;
    } else {
      assert DIGITS[v] == (87 + v) as char;
    }
  }

  lemma NibbleOfDigit(v: nat)
    requires v < 16
    ensures NibbleOf(DIGITS[v]) == v
  {
    if v < 10 {
      assert DIGITS[v] == ('0' as int + v) as char;
    } else {
      assert DIGITS[v] == ('a' as int + v - 10) as char;
    }
  }

  /** Every byte string comes back from its hexadecimal. */
  lemma HexRoundTrip(data: Bytes)
    ensures FromHex(ToHex(data)) == Some(data)
  {
    var s := ToHex(data);
    forall i | 0 <= i < |s|
      ensures NibbleOf(s[i]) == if i % 2 == 0 then data[i / 2] / 16 else data[i / 2] % 16
    {
      NibbleOfDigit(if i % 2 == 0 then data[i / 2] / 16 else data[i / 2] % 16);
    }
    forall i | 0 <= i < |data| ensures ByteAt(s, i) == data[i] {
      assert 2 * i / 2 == i && (2 * i + 1) / 2 == i && 2 * i % 2 == 0 && (2 * i + 1) % 2 == 1;
      assert NibbleOf(s[2 * i]) == data[i] / 16 && NibbleOf(s[2 * i + 1]) == data[i] % 16;
    }
    assert FromHex(s).value == data;
  }

  lemma LowerDigit(c: char)
    requires NibbleOf(c) >= 0
    ensures DIGITS[NibbleOf(c)] == LowerCase(c)
  {
    var v := NibbleOf(c);
    if v < 10 {
      assert DIGITS[v] == ('0' as int + v) as char;
    } else {
      assert DIGITS[v] == ('a' as int + v - 10) as char;
    }
  }

  lemma DigitsApart(b: nat, hi: nat, lo: nat)
    requires lo < 16 && b == hi * 16 + lo
    ensures b / 16 == hi && b % 16 == lo
  {
  }

  lemma ToHexAt(data: Bytes, k: nat)
    requires k < |data|
    ensures ToHex(data)[2 * k] == DIGITS[data[k] / 16] && ToHex(data)[2 * k + 1] == DIGITS[data[k] % 16]
  {
    assert 2 * k / 2 == k && (2 * k + 1) / 2 == k && 2 * k % 2 == 0 && (2 * k + 1) % 2 == 1;
  }

  lemma FromHexAt(s: string, data: Bytes, k: nat)
    requires FromHex(s) == Some(data) && k < |data|
    ensures IsHex(s) && 2 * k + 1 < |s| && data[k] == ByteAt(s, k)
  {
  }

  function Nibbles(s: string): seq<nat>
  {
    seq(|s|, i requires 0 <= i < |s| => NibbleAt(s[i]))
  }

  lemma ToHexSnoc(front: Bytes, b: byte)
    ensures Nibbles(ToHex(front + [b])) == (Nibbles(ToHex(front)) + [b / 16]) + [b % 16]
    ensures forall c | c in ToHex(front + [b]) :: c in ToHex(front) || c in [DIGITS[b / 16], DIGITS[b % 16]]
  {
    var n := |front|;
    ToHexAt(front + [b], n);
    DigitAt(b / 16);
    DigitAt(b % 16);
    assert ToHex(front + [b]) == ToHex(front) + [DIGITS[b / 16], DIGITS[b % 16]];
  }

  /** The text is the byte string's number in base sixteen, two lower-case digits a byte. */
  lemma {:induction false} HexIsNumeral(data: Bytes)
    ensures |ToHex(data)| == 2 * |data| && (forall c | c in ToHex(data) :: '0' <= c <= '9' || 'a' <= c <= 'f')
    ensures N.Value(Nibbles(ToHex(data)), 16) == N.Value(data, 256)
    decreases |data|
  {
    if data == [] {
    } else {
      var front, b := data[..|data| - 1], data[|data| - 1];
      HexIsNumeral(front);
      assert data == front + [b];
      ToHexSnoc(front, b);
      ByteValue(Nibbles(ToHex(front)), front, b);
      ByteDigits(b);
    }
  }

  lemma ByteDigits(b: byte)
    ensures forall c | c in [DIGITS[b / 16], DIGITS[b % 16]] :: '0' <= c <= '9' || 'a' <= c <= 'f'
  {
    DigitAt(b / 16);
    DigitAt(b % 16);
  }

  lemma ByteValue(ds: seq<nat>, front: Bytes, b: byte)
    requires N.Value(ds, 16) == N.Value(front, 256)
    ensures N.Value((ds + [b / 16]) + [b % 16], 16) == N.Value(front + [b], 256)
  {
    N.ValueSnoc(ds, b / 16, 16);
    N.ValueSnoc(ds + [b / 16], b % 16, 16);
    N.ValueSnoc(front, b, 256);
  }

  lemma PairDigits(b: byte, hi: nat, lo: nat, x: char, y: char)
    requires hi < 16 && lo < 16 && b == hi * 16 + lo && DIGITS[hi] == x && DIGITS[lo] == y
    ensures DIGITS[b / 16] == x && DIGITS[b % 16] == y
  {
    DigitsApart(b, hi, lo);
  }

  /** The two digits a byte came from. */
  lemma PairBack(s: string, data: Bytes, k: nat)
    requires FromHex(s) == Some(data) && k < |data| && |s| == 2 * |data|
    ensures ToHex(data)[2 * k] == LowerCase(s[2 * k]) && ToHex(data)[2 * k + 1] == LowerCase(s[2 * k + 1])
  {
    var c, d := s[2 * k], s[2 * k + 1];
    FromHexAt(s, data, k);
    ToHexAt(data, k);
    LowerDigit(c);
    LowerDigit(d);
    PairDigits(data[k], NibbleOf(c), NibbleOf(d), LowerCase(c), LowerCase(d));
  }

  lemma CanonicalAt(s: string, data: Bytes, i: nat)
    requires FromHex(s) == Some(data) && |s| == 2 * |data| && i < |s|
    ensures ToHex(data)[i] == LowerCase(s[i])
  {
    PairBack(s, data, i / 2);
    assert i == 2 * (i / 2) || i == 2 * (i / 2) + 1;
  }

  /** Text read as hexadecimal comes back in lower case. */
  lemma HexCanonical(s: string)
    requires IsHex(s)
    ensures ToHex(FromHex(s).value) == Lower(s)
  {
    var data := FromHex(s).value;
    forall i | 0 <= i < |s| ensures ToHex(data)[i] == Lower(s)[i] {
      CanonicalAt(s, data, i);
    }
  }

  method ToHexLoop(data: Bytes) returns (out: string)
    ensures out == ToHex(data)
  {
    out := "";
    for i := 0 to |data|
      invariant out == ToHex(data)[..2 * i]
    {
      out := out + [DIGITS[data[i] / 16]] + [DIGITS[data[i] % 16]];
      assert ToHex(data)[2 * i] == DIGITS[data[i] / 16] && ToHex(data)[2 * i + 1] == DIGITS[data[i] % 16];
      assert ToHex(data)[..2 * (i + 1)] == ToHex(data)[..2 * i] + [ToHex(data)[2 * i], ToHex(data)[2 * i + 1]];
    }
  }

  method FromHexLoop(s: string) returns (r: Option<Bytes>)
    ensures r == FromHex(s)
  {
    if |s| % 2 != 0 { return None; }
    var out: Bytes := [];
    var i := 0;
    while i < |s|
      invariant 0 <= i <= |s| && i % 2 == 0 && |out| == i / 2
      invariant forall k | 0 <= k < i :: NibbleOf(s[k]) >= 0
      invariant forall k | 0 <= k < i / 2 :: out[k] == NibbleOf(s[2 * k]) * 16 + NibbleOf(s[2 * k + 1])
    {
      var hi, lo := NibbleOf(s[i]), NibbleOf(s[i + 1]);
      if hi < 0 || lo < 0 { return None; }
      out := out + [hi * 16 + lo];
      i := i + 2;
    }
    assert FromHex(s).value == out;
    r := Some(out);
  }
}
