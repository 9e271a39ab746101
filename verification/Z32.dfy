/**
 z-base-32 (src/keys.cpp). The specification is arithmetic: a byte string is a number in base 256, its
 text the same number in base 32 with zero bits put behind it to fill the last letter. The loops keep a
 32-bit accumulator that is never masked, and their contracts do not mention it.
 */
module Z32 {
  import opened Common
  import opened Numerals

  const ALPHABET := "ybndrfg8ejkmcpqxot1uwisza345h769"

  /** The bits of the accumulator that a loop may still put out: seven or four kept, and those just taken in. */
  const LIVE := 12

  /** `kAlphabet.find`. */
  function Find(s: string, c: char): (i: int)
    ensures -1 <= i < |s|
  {
    if s == "" then -1
    else if s[0] == c then 0
    else var j := Find(s[1..], c); if j < 0 then -1 else j + 1
  }

  function QuintetOf(c: char): int { Find(ALPHABET, c) }

  function Letters(ds: seq<nat>): (s: string)
    requires InBase(ds, 32)
    ensures |s| == |ds|
  {
    assert forall i | 0 <= i < |ds| :: ds[i] in ds;
    seq(|ds|, i requires 0 <= i < |ds| => ALPHABET[ds[i]])
  }

  predicate IsText(s: string)
  {
    forall c | c in s :: QuintetOf(c) >= 0
  }

  function Quintets(s: string): (ds: seq<nat>)
    requires IsText(s)
    ensures |ds| == |s| && InBase(ds, 32)
  {
    seq(|s|, i requires 0 <= i < |s| => QuintetOf(s[i]))
  }

  function Number(data: Bytes): nat { Value(data, 256) }

  function TextLength(n: nat): nat { (8 * n + 4) / 5 }

  function Encode(data: Bytes): string
  {
    var m := TextLength(|data|);
    Letters(Numeral(Padded(Number(data), 5 * m - 8 * |data|), 32, m))
  }

  /** `k` zero bits put behind a number. */
  function Padded(v: nat, k: nat): nat { v * Pow(2, k) }

  function ToBytes(v: nat, n: nat): (data: Bytes)
    ensures |data| == n
  {
    var ds := Numeral(v, 256, n);
    assert forall i | 0 <= i < |ds| :: ds[i] in ds;
    ds
  }

  function Decode(s: string): Option<Bytes>
  {
    if !IsText(s) then None
    else Some(ToBytes(WholeBytes(Value(Quintets(s), 32), |s|), 5 * |s| / 8))
  }

  /** The number of `m` letters without the bits that do not fill a byte. */
  function WholeBytes(v: nat, m: nat): nat { v / Pow(2, 5 * m % 8) }

  // ---- letters -----------------------------------------------------------------------------

  lemma {:induction false} FindSound(s: string, c: char)
    ensures Find(s, c) >= 0 ==> s[Find(s, c)] == c
    ensures Find(s, c) < 0 ==> c !in s
  {
    if s == "" {
    } else {
      FindSound(s[1..], c);
    }
  }

  lemma {:induction false} FindDistinct(s: string, i: nat)
    requires i < |s| && (forall j, k | 0 <= j < k < |s| :: s[j] != s[k])
    ensures Find(s, s[i]) == i
  {
    if i == 0 {
    } else {
      FindDistinct(s[1..], i - 1);
    }
  }

  lemma AlphabetDistinct()
    ensures |ALPHABET| == 32 && forall j, k | 0 <= j < k < 32 :: ALPHABET[j] != ALPHABET[k]
  {
  }

  lemma NoColon(c: char)
    requires QuintetOf(c) >= 0
    ensures c != ':'
  {
    FindSound(ALPHABET, c);
    ColonOutside(c);
  }

  lemma ColonOutside(c: char)
    requires c in ALPHABET
    ensures c != ':'
  {
  }

  lemma LettersRead(ds: seq<nat>)
    requires InBase(ds, 32)
    ensures IsText(Letters(ds)) && Quintets(Letters(ds)) == ds
  {
    AlphabetDistinct();
    forall i | 0 <= i < |ds| ensures QuintetOf(Letters(ds)[i]) == ds[i] {
      assert ds[i] in ds;
      FindDistinct(ALPHABET, ds[i]);
    }
  }

  lemma TextRead(s: string)
    requires IsText(s)
    ensures Letters(Quintets(s)) == s
  {
    forall i | 0 <= i < |s| ensures Letters(Quintets(s))[i] == s[i] {
      FindSound(ALPHABET, s[i]);
    }
  }

  // ---- properties --------------------------------------------------------------------------

  lemma BytesInBase(data: Bytes)
    ensures InBase(data, 256)
  {
  }

  lemma BytesOfNumber(data: Bytes)
    ensures ToBytes(Number(data), |data|) == data
  {
    BytesInBase(data);
    NumeralOfValue(data, 256);
  }

  lemma SameBits(n: nat, k: nat, m: nat)
    requires 8 * n + k == 5 * m
    ensures Pow(32, m) == Pow(256, n) * Pow(2, k) && Pow(2, k) > 0
  {
    SmallPowers();
    PowPow(2, 8, n);
    PowPow(2, 5, m);
    PowAdd(2, 8 * n, k);
  }

  /** A number of `n` bytes, with `k` zero bits behind it, fits `m` letters of five bits. */
  lemma PaddedFits(v: nat, n: nat, k: nat, m: nat)
    requires v < Pow(256, n) && 8 * n + k == 5 * m
    ensures v * Pow(2, k) < Pow(32, m)
  {
    SameBits(n, k, m);
    MulMono(v + 1, Pow(256, n), Pow(2, k));
    MulNext(v, Pow(2, k));
  }

  /** Decoding gives back every byte string, of any length, from a text of one letter for each started
      group of five bits. */
  lemma RoundTrip(data: Bytes)
    ensures |Encode(data)| == (8 * |data| + 4) / 5
    ensures Decode(Encode(data)) == Some(data)
  {
    var n := |data|;
    var m := TextLength(n);
    var k := 5 * m - 8 * n;
    var v := Number(data);
    BytesInBase(data);
    ValueBelow(data, 256);
    StartedGroups(n);
    PaddedFits(v, n, k, m);
    var ds := Numeral(Padded(v, k), 32, m);
    ValueOfNumeral(Padded(v, k), 32, m);
    LettersRead(ds);
    EncodeAs(data, v, k, m);
    Unpadded(v, k, m);
    BytesOfNumber(data);
    DecodedAs(Letters(ds), v, n);
  }

  /** The text is the byte string's number in base 32, moved up by the bits that fill its last letter, in these
      thirty-two letters. */
  lemma EncodesNumeral(data: Bytes) returns (ds: seq<nat>, pad: nat)
    ensures pad < 5 && 5 * |ds| == 8 * |data| + pad
    ensures InBase(ds, 32) && Value(ds, 32) == Value(data, 256) * Pow(2, pad)
    ensures |Encode(data)| == |ds|
    ensures forall i | 0 <= i < |ds| ::
              ds[i] in ds && Encode(data)[i] == "ybndrfg8ejkmcpqxot1uwisza345h769"[ds[i]]
  {
    var n := |data|;
    var m := TextLength(n);
    pad := 5 * m - 8 * n;
    BytesInBase(data);
    ValueBelow(data, 256);
    StartedGroups(n);
    PaddedFits(Number(data), n, pad, m);
    ds := Numeral(Padded(Number(data), pad), 32, m);
    ValueOfNumeral(Padded(Number(data), pad), 32, m);
    EncodeAs(data, Number(data), pad, m);
  }

  /** A text of those letters is read as the number of its first whole bytes, and any other text as nothing. */
  lemma DecodesNumeral(s: string)
    ensures Decode(s).Some? <==> forall c | c in s :: c in "ybndrfg8ejkmcpqxot1uwisza345h769"
    ensures Decode(s).Some? ==>
              && |Quintets(s)| == |s|
              && (forall i | 0 <= i < |s| ::
                    Quintets(s)[i] in Quintets(s) && s[i] == "ybndrfg8ejkmcpqxot1uwisza345h769"[Quintets(s)[i]])
              && |Decode(s).value| == 5 * |s| / 8
              && Value(Decode(s).value, 256) == Value(Quintets(s), 32) / Pow(2, 5 * |s| % 8)
  {
    forall c ensures QuintetOf(c) >= 0 <==> c in ALPHABET {
      FindSound(ALPHABET, c);
    }
    if IsText(s) {
      DecodedNumber(s);
      TextRead(s);
    }
  }

  lemma StartedGroups(n: nat)
    ensures var m := TextLength(n); var k := 5 * m - 8 * n; 0 <= k < 5 && 5 * m % 8 == k && 5 * m / 8 == n
  {
  }

  lemma Unpadded(v: nat, k: nat, m: nat)
    requires 5 * m % 8 == k
    ensures WholeBytes(Padded(v, k), m) == v
  {
    DivModUnique(v * Pow(2, k), Pow(2, k), v, 0);
  }

  lemma ShortenedFits(v: nat, n: nat, k: nat, m: nat)
    requires v < Pow(32, m) && 5 * m == 8 * n + k
    ensures v / Pow(2, k) < Pow(256, n)
  {
    SameBits(n, k, m);
    DivBelow(v, Pow(2, k), Pow(256, n));
  }

  lemma WholeBytesFit(v: nat, m: nat)
    requires v < Pow(32, m)
    ensures WholeBytes(v, m) < Pow(256, 5 * m / 8)
  {
    ShortenedFits(v, 5 * m / 8, 5 * m % 8, m);
  }

  lemma NumberOfBytes(v: nat, n: nat)
    requires v < Pow(256, n)
    ensures Number(ToBytes(v, n)) == v
  {
    ValueOfNumeral(v, 256, n);
  }

  lemma DecodedNumber(s: string)
    requires IsText(s)
    ensures Number(Decode(s).value) == WholeBytes(Value(Quintets(s), 32), |s|)
  {
    ValueBelow(Quintets(s), 32);
    WholeBytesFit(Value(Quintets(s), 32), |s|);
    NumberOfBytes(WholeBytes(Value(Quintets(s), 32), |s|), 5 * |s| / 8);
  }

  /** Encoding what a text without a spare letter decodes to clears the bits behind the last byte. */
  lemma Reencoded(s: string)
    requires IsText(s) && 5 * |s| % 8 <= 4
    ensures Encode(Decode(s).value)
         == Letters(Numeral(Padded(WholeBytes(Value(Quintets(s), 32), |s|), 5 * |s| % 8), 32, |s|))
  {
    DecodedNumber(s);
    WholeGroups(|s|);
    var v := WholeBytes(Value(Quintets(s), 32), |s|);
    EncodeAs(Decode(s).value, v, 5 * |s| % 8, |s|);
  }

  lemma EncodeAs(data: Bytes, v: nat, k: nat, m: nat)
    requires Number(data) == v && TextLength(|data|) == m && 5 * m - 8 * |data| == k
    ensures InBase(Numeral(Padded(v, k), 32, m), 32)
    ensures Encode(data) == Letters(Numeral(Padded(v, k), 32, m))
  {
  }

  lemma WholeGroups(m: nat)
    ensures TextLength(5 * m / 8) == if 5 * m % 8 <= 4 then m else m - 1
    ensures 5 * m - 8 * (5 * m / 8) == 5 * m % 8
  {
  }

  lemma LettersSame(a: seq<nat>, b: seq<nat>)
    requires InBase(a, 32) && InBase(b, 32) && Letters(a) == Letters(b)
    ensures a == b
  {
    LettersRead(a);
    LettersRead(b);
  }

  /** A text is the one its bytes encode to exactly when it has no letter to spare and the bits behind
      the last byte are zero. */
  lemma CanonicalExactly(s: string)
    requires IsText(s)
    ensures Encode(Decode(s).value) == s <==>
            5 * |s| % 8 <= 4 && Value(Quintets(s), 32) % Pow(2, 5 * |s| % 8) == 0
  {
    if 5 * |s| % 8 <= 4 {
      Reencoded(s);
      TextRead(s);
      ClearedSame(Quintets(s), Pow(2, 5 * |s| % 8));
    } else {
      WholeGroups(|s|);
      assert |Encode(Decode(s).value)| == |s| - 1;
    }
  }

  lemma ClearedSame(ds: seq<nat>, p: nat)
    requires InBase(ds, 32) && p > 0
    ensures Letters(Numeral(Value(ds, 32) / p * p, 32, |ds|)) == Letters(ds) <==> Value(ds, 32) % p == 0
  {
    var v := Value(ds, 32);
    var w := v / p * p;
    assert v == w + v % p;
    ValueBelow(ds, 32);
    ValueOfNumeral(w, 32, |ds|);
    NumeralOfValue(ds, 32);
    if Letters(Numeral(w, 32, |ds|)) == Letters(ds) {
      LettersSame(Numeral(w, 32, |ds|), ds);
    }
  }

  /** A text decodes to a 32-byte key exactly when it is 52 letters of the alphabet. */
  lemma KeysAre52Letters(s: string)
    ensures Decode(s).Some? && |Decode(s).value| == 32 <==> |s| == 52 && IsText(s)
  {
  }

  /** The texts that name a key: its number times sixteen, and the fifteen numbers after. */
  function Name(key: Bytes, j: nat): string
  {
    Letters(Numeral(Number(key) * 16 + j, 32, TextLength(|key|)))
  }

  lemma NameFits(v: nat, j: nat, n: nat, m: nat)
    requires v < Pow(256, n) && j < 16 && 5 * m == 8 * n + 4
    ensures v * 16 + j < Pow(32, m)
  {
    SameBits(n, 4, m);
    SmallPowers();
  }

  lemma NameValue(key: Bytes, j: nat, n: nat, m: nat)
    requires |key| == n && j < 16 && 5 * m == 8 * n + 4
    ensures Value(Numeral(Number(key) * 16 + j, 32, m), 32) == Number(key) * 16 + j
  {
    BytesInBase(key);
    ValueBelow(key, 256);
    NameFits(Number(key), j, n, m);
    ValueOfNumeral(Number(key) * 16 + j, 32, m);
  }

  /** Four spare bits, whatever they are, do not change the bytes. */
  lemma SpareBits(key: Bytes, j: nat, ds: seq<nat>)
    requires InBase(ds, 32) && 5 * |ds| == 8 * |key| + 4
    requires j < 16 && Value(ds, 32) == Number(key) * 16 + j
    ensures Decode(Letters(ds)) == Some(key)
  {
    LettersRead(ds);
    BitsLeft(|key|, |ds|, 4);
    DropFour(Value(ds, 32), Number(key), j, |ds|);
    BytesOfNumber(key);
    DecodedAs(Letters(ds), Number(key), |key|);
  }

  lemma BitsLeft(n: nat, m: nat, k: nat)
    requires 5 * m == 8 * n + k && k < 8
    ensures 5 * m % 8 == k && 5 * m / 8 == n
  {
  }

  lemma DecodedAs(s: string, v: nat, n: nat)
    requires IsText(s) && WholeBytes(Value(Quintets(s), 32), |s|) == v && 5 * |s| / 8 == n
    ensures Decode(s) == Some(ToBytes(v, n))
  {
  }

  lemma DropFour(w: nat, v: nat, j: nat, m: nat)
    requires j < 16 && w == v * 16 + j && 5 * m % 8 == 4
    ensures WholeBytes(w, m) == v
  {
    SmallPowers();
  }

  lemma NameNames(key: Bytes, j: nat)
    requires |key| == 32 && j < 16
    ensures IsText(Name(key, j)) && Value(Quintets(Name(key, j)), 32) == Number(key) * 16 + j
    ensures Decode(Name(key, j)) == Some(key)
  {
    var m := TextLength(|key|);
    var ds := Numeral(Number(key) * 16 + j, 32, m);
    NameValue(key, j, |key|, m);
    LettersRead(ds);
    SpareBits(key, j, ds);
  }

  lemma NamedBy(s: string, key: Bytes)
    requires |key| == 32 && Decode(s) == Some(key)
    ensures exists j | 0 <= j < 16 :: s == Name(key, j)
  {
    KeysAre52Letters(s);
    DecodedNumber(s);
    var j := KeepFour(Value(Quintets(s), 32), |s|);
    NamedAs(s, Number(key) * 16 + j);
    NameAs(key, j, Number(key) * 16 + j);
    assert s == Name(key, j);
  }

  lemma NameAs(key: Bytes, j: nat, v: nat)
    requires |key| == 32 && v == Number(key) * 16 + j
    ensures Name(key, j) == Letters(Numeral(v, 32, 52))
  {
  }

  lemma NamedAs(s: string, v: nat)
    requires IsText(s) && Value(Quintets(s), 32) == v
    ensures s == Letters(Numeral(v, 32, |s|))
  {
    NumeralOfValue(Quintets(s), 32);
    TextRead(s);
  }

  lemma KeepFour(w: nat, m: nat) returns (j: nat)
    requires 5 * m % 8 == 4
    ensures j < 16 && w == WholeBytes(w, m) * 16 + j
  {
    SmallPowers();
    j := w % 16;
  }

  function NamesBelow(key: Bytes, n: nat): (names: set<string>)
  {
    set j | 0 <= j < n :: Name(key, j)
  }

  lemma {:induction false} NamesCounted(key: Bytes, n: nat)
    requires |key| == 32 && n <= 16
    ensures |NamesBelow(key, n)| == n
    decreases n
  {
    if n == 0 {
    } else {
      NamesCounted(key, n - 1);
      assert NamesBelow(key, n) == NamesBelow(key, n - 1) + {Name(key, n - 1)};
      if Name(key, n - 1) in NamesBelow(key, n - 1) {
        var j :| 0 <= j < n - 1 && Name(key, j) == Name(key, n - 1);
        NameNames(key, j);
        NameNames(key, n - 1);
      }
    }
  }

  /** Exactly sixteen texts name each key. */
  lemma SixteenNames(key: Bytes)
    requires |key| == 32
    ensures |NamesBelow(key, 16)| == 16
    ensures forall s :: Decode(s) == Some(key) <==> s in NamesBelow(key, 16)
  {
    NamesCounted(key, 16);
    forall s ensures Decode(s) == Some(key) <==> s in NamesBelow(key, 16) {
      if Decode(s) == Some(key) {
        NamedBy(s, key);
      }
      if s in NamesBelow(key, 16) {
        var j :| 0 <= j < 16 && s == Name(key, j);
        NameNames(key, j);
      }
    }
  }

  // ---- the loops ---------------------------------------------------------------------------

  // Told for an accumulator of any width `word`, the source's being 32 bits.

  lemma LowBits(a: nat, live: nat, bits: nat)
    requires bits <= live
    ensures a % Pow(2, live) % Pow(2, bits) == a % Pow(2, bits)
  {
    PowAdd(2, live - bits, bits);
    ModOfMod(a, Pow(2, live - bits), Pow(2, bits));
  }

  /** A digit comes in at the right; what falls off the left of the word is not among the bits kept. */
  lemma DigitIn(acc: nat, x: nat, width: nat, bits: nat, word: nat)
    requires bits + width <= word && x < Pow(2, width)
    ensures (acc * Pow(2, width) + x) % Pow(2, word) % Pow(2, bits + width) == acc % Pow(2, bits) * Pow(2, width) + x
  {
    LowBits(acc * Pow(2, width) + x, word, bits + width);
    PowAdd(2, bits, width);
    ModSnoc(acc, Pow(2, width), x, Pow(2, bits));
  }

  /** A digit goes out at the left of the bits kept. */
  lemma DigitOut(acc: nat, width: nat, bits: nat)
    ensures acc % Pow(2, bits + width)
         == acc / Pow(2, bits) % Pow(2, width) * Pow(2, bits) + acc % Pow(2, bits)
  {
    PowAdd(2, width, bits);
    ModSplit(acc, Pow(2, width), Pow(2, bits));
  }

  /** The last letter: the bits kept, moved up to fill it. */
  lemma LastLetter(acc: nat, bits: nat, word: nat)
    requires 0 < bits < 5 <= word
    ensures acc * Pow(2, 5 - bits) % Pow(2, word) % 32 == acc % Pow(2, bits) * Pow(2, 5 - bits)
  {
    SmallPowers();
    PowAdd(2, bits, 5 - bits);
    LowBits(acc * Pow(2, 5 - bits), word, 5);
    ModOfMultiple(acc, Pow(2, 5 - bits), Pow(2, bits));
  }

  /** `x >> k`. */
  function ShiftRight(x: nat, k: nat): nat
    decreases k
  {
    if k == 0 then x else ShiftRight(x / 2, k - 1)
  }

  /** `x << k` in a word. */
  function ShiftLeft(x: nat, k: nat, word: nat): nat
    decreases k
  {
    if k == 0 then x else ShiftLeft(x * 2 % Pow(2, word), k - 1, word)
  }

  /** `v` with the low `bits` of `acc` behind it. */
  function Joined(v: nat, acc: nat, bits: nat): nat
    decreases bits
  {
    if bits == 0 then v else Joined(v, acc / 2, bits - 1) * 2 + acc % 2
  }

  lemma {:induction false} ShiftRightDivides(x: nat, k: nat)
    ensures ShiftRight(x, k) == x / Pow(2, k)
    decreases k
  {
    if k == 0 {
    } else {
      ShiftRightDivides(x / 2, k - 1);
      ModSplit(x, Pow(2, k - 1), 2);
    }
  }

  lemma {:induction false} ShiftLeftMultiplies(x: nat, k: nat, word: nat)
    requires x < Pow(2, word)
    ensures ShiftLeft(x, k, word) == x * Pow(2, k) % Pow(2, word)
    decreases k
  {
    if k == 0 {
    } else {
      ShiftLeftMultiplies(x * 2 % Pow(2, word), k - 1, word);
      MulOfMod(x * 2, Pow(2, k - 1), Pow(2, word));
      Doubled(x, Pow(2, k - 1), Pow(2, k));
    }
  }

  lemma Doubled(x: nat, p: nat, q: nat)
    requires q == 2 * p
    ensures x * 2 * p == x * q
  {
  }

  lemma {:induction false} JoinedIs(v: nat, acc: nat, bits: nat)
    ensures Joined(v, acc, bits) == v * Pow(2, bits) + acc % Pow(2, bits)
    decreases bits
  {
    if bits == 0 {
    } else {
      JoinedIs(v, acc / 2, bits - 1);
      ModSplit(acc, Pow(2, bits - 1), 2);
      Tripled(v, Pow(2, bits - 1), Pow(2, bits), acc / 2 % Pow(2, bits - 1), acc % 2);
    }
  }

  lemma Tripled(v: nat, p: nat, q: nat, high: nat, low: nat)
    requires q == p * 2
    ensures (v * p + high) * 2 + low == v * q + (high * 2 + low)
  {
  }

  lemma JoinedOut(v: nat, acc: nat, bits: nat, width: nat)
    ensures Joined(v, acc, bits + width)
         == Joined(v * Pow(2, width) + ShiftRight(acc, bits) % Pow(2, width), acc, bits)
  {
    var d := ShiftRight(acc, bits) % Pow(2, width);
    JoinedIs(v, acc, bits + width);
    JoinedIs(v * Pow(2, width) + d, acc, bits);
    ShiftRightDivides(acc, bits);
    DigitOut(acc, width, bits);
    PowAdd(2, width, bits);
    MulSum(v, Pow(2, width), d, Pow(2, bits));
  }

  lemma JoinedIn(v: nat, acc: nat, next: nat, x: nat, bits: nat, width: nat)
    requires next % Pow(2, bits + width) == acc % Pow(2, bits) * Pow(2, width) + x
    ensures Joined(v, next, bits + width) == Joined(v, acc, bits) * Pow(2, width) + x
  {
    JoinedIs(v, next, bits + width);
    JoinedIs(v, acc, bits);
    PowAdd(2, bits, width);
    MulSum(v, Pow(2, bits), acc % Pow(2, bits), Pow(2, width));
  }

  /** The accumulator with a byte, or a letter, shifted in. */
  function ByteInto(acc: nat, x: nat, word: nat): (r: nat)
    ensures r < Pow(2, word)
  {
    (acc * 256 + x) % Pow(2, word)
  }

  function LetterInto(acc: nat, x: nat, word: nat): (r: nat)
    ensures r < Pow(2, word)
  {
    (acc * 32 + x) % Pow(2, word)
  }

  lemma JoinedByte(v: nat, acc: nat, x: nat, bits: nat, word: nat)
    requires bits + 8 <= word && x < 256
    ensures Joined(v, ByteInto(acc, x, word), bits + 8) == Joined(v, acc, bits) * 256 + x
  {
    SmallPowers();
    DigitIn(acc, x, 8, bits, word);
    JoinedIn(v, acc, ByteInto(acc, x, word), x, bits, 8);
  }

  lemma JoinedQuintet(v: nat, acc: nat, x: nat, bits: nat, word: nat)
    requires bits + 5 <= word && x < 32
    ensures Joined(v, LetterInto(acc, x, word), bits + 5) == Joined(v, acc, bits) * 32 + x
  {
    SmallPowers();
    DigitIn(acc, x, 5, bits, word);
    JoinedIn(v, acc, LetterInto(acc, x, word), x, bits, 5);
  }

  lemma JoinedLast(v: nat, acc: nat, bits: nat, word: nat)
    requires 0 < bits < 5 <= word && acc < Pow(2, word)
    ensures v * 32 + ShiftLeft(acc, 5 - bits, word) % 32 == Joined(v, acc, bits) * Pow(2, 5 - bits)
  {
    LastLetter(acc, bits, word);
    ShiftLeftMultiplies(acc, 5 - bits, word);
    JoinedIs(v, acc, bits);
    SmallPowers();
    PowAdd(2, bits, 5 - bits);
    MulSum(v, Pow(2, bits), acc % Pow(2, bits), Pow(2, 5 - bits));
  }

  lemma JoinedDivides(v: nat, acc: nat, bits: nat)
    ensures Joined(v, acc, bits) / Pow(2, bits) == v
  {
    JoinedIs(v, acc, bits);
    DivModUnique(Joined(v, acc, bits), Pow(2, bits), v, acc % Pow(2, bits));
  }

  /** What the encoder's loops keep true: the bytes read are the letters written and the bits kept. */
  ghost predicate Encoding(data: Bytes, i: nat, ds: seq<nat>, out: string, acc: nat, bits: nat)
    requires i <= |data|
  {
    && InBase(ds, 32) && out == Letters(ds) && 8 * i == 5 * |ds| + bits
    && Number(data[..i]) == Joined(Value(ds, 32), acc, bits)
  }

  lemma EncodingIn(data: Bytes, i: nat, ds: seq<nat>, out: string, acc: nat, bits: nat, word: nat)
    requires i < |data| && bits < 5 && word >= LIVE && Encoding(data, i, ds, out, acc, bits)
    ensures Encoding(data, i + 1, ds, out, ByteInto(acc, data[i], word), bits + 8)
  {
    JoinedByte(Value(ds, 32), acc, data[i], bits, word);
    assert data[..i + 1][..i] == data[..i];
  }

  lemma LettersSnoc(ds: seq<nat>, d: nat)
    requires InBase(ds, 32) && d < 32
    ensures InBase(ds + [d], 32) && Letters(ds + [d]) == Letters(ds) + [ALPHABET[d]]
  {
  }

  lemma EncodingOut(data: Bytes, i: nat, ds: seq<nat>, out: string, acc: nat, bits: nat)
    requires i <= |data| && Encoding(data, i, ds, out, acc, bits + 5)
    ensures var d := ShiftRight(acc, bits) % 32; Encoding(data, i, ds + [d], out + [ALPHABET[d]], acc, bits)
  {
    var d := ShiftRight(acc, bits) % 32;
    SmallPowers();
    JoinedOut(Value(ds, 32), acc, bits, 5);
    ValueSnoc(ds, d, 32);
    LettersSnoc(ds, d);
  }

  lemma EncodingEnds(data: Bytes, ds: seq<nat>, out: string, acc: nat, bits: nat, word: nat)
    requires bits < 5 <= word && acc < Pow(2, word) && Encoding(data, |data|, ds, out, acc, bits)
    ensures Encode(data) == if bits == 0 then out else out + [ALPHABET[ShiftLeft(acc, 5 - bits, word) % 32]]
  {
    assert data[..|data|] == data;
    if bits == 0 {
      EncodedBy(data, ds);
    } else {
      var d := ShiftLeft(acc, 5 - bits, word) % 32;
      JoinedLast(Value(ds, 32), acc, bits, word);
      ValueSnoc(ds, d, 32);
      LettersSnoc(ds, d);
      EncodedBy(data, ds + [d]);
    }
  }

  lemma EncodedBy(data: Bytes, ds: seq<nat>)
    requires InBase(ds, 32) && |ds| == TextLength(|data|)
    requires Value(ds, 32) == Padded(Number(data), 5 * |ds| - 8 * |data|)
    ensures Letters(ds) == Encode(data)
  {
    var m, k := |ds|, 5 * |ds| - 8 * |data|;
    EncodeAs(data, Number(data), k, m);
    LettersOf(ds, Padded(Number(data), k), m);
  }

  lemma LettersOf(ds: seq<nat>, v: nat, m: nat)
    requires InBase(ds, 32) && Value(ds, 32) == v && |ds| == m
    ensures InBase(Numeral(v, 32, m), 32) && Letters(Numeral(v, 32, m)) == Letters(ds)
  {
    NumeralOfValue(ds, 32);
  }

  /** The source's loops over a 32-bit accumulator. */
  method Z32Encode(data: Bytes) returns (out: string)
    ensures out == Encode(data)
  {
    out := EncodeIn(data, 32);
  }

  /** Letters go out while there are five bits. */
  method PutLetters(ghost data: Bytes, ghost i: nat, ghost ds: seq<nat>, written: string, acc: nat, held: nat)
    returns (ghost ds': seq<nat>, out: string, bits: nat)
    requires i <= |data| && held <= 12 && Encoding(data, i, ds, written, acc, held)
    ensures bits < 5 && Encoding(data, i, ds', out, acc, bits)
  {
    ds', out, bits := ds, written, held;
    while bits >= 5
      invariant bits <= 12 && Encoding(data, i, ds', out, acc, bits)
    {
      bits := bits - 5;
      EncodingOut(data, i, ds', out, acc, bits);
      var d := ShiftRight(acc, bits) % 32;
      ds' := ds' + [d];
      out := out + [ALPHABET[d]];
    }
  }

  /** They compute the same in a word of any width from twelve bits up: none of the rest is ever looked at. */
  method EncodeIn(data: Bytes, word: nat) returns (out: string)
    requires word >= LIVE
    ensures out == Encode(data)
  {
    out := "";
    ghost var ds: seq<nat> := [];
    var acc, bits := 0, 0;
    for i := 0 to |data|
      invariant bits < 5 && 0 <= acc < Pow(2, word) && Encoding(data, i, ds, out, acc, bits)
    {
      EncodingIn(data, i, ds, out, acc, bits, word);
      acc := ByteInto(acc, data[i], word);
      bits := bits + 8;
      ds, out, bits := PutLetters(data, i + 1, ds, out, acc, bits);
    }
    EncodingEnds(data, ds, out, acc, bits, word);
    if bits > 0 {
      out := out + [ALPHABET[ShiftLeft(acc, 5 - bits, word) % 32]];
    }
  }

  /** What the decoder's loop keeps true: the letters read are the bytes written and the bits kept. */
  ghost predicate Decoding(s: string, i: nat, out: Bytes, acc: nat, bits: nat)
    requires i <= |s|
  {
    && IsText(s[..i]) && 5 * i == 8 * |out| + bits
    && Value(Quintets(s[..i]), 32) == Joined(Number(out), acc, bits)
  }

  lemma QuintetsSnoc(s: string, c: char)
    requires IsText(s) && QuintetOf(c) >= 0
    ensures IsText(s + [c])
    ensures Value(Quintets(s + [c]), 32) == Value(Quintets(s), 32) * 32 + QuintetOf(c)
  {
    assert Quintets(s + [c]) == Quintets(s) + [QuintetOf(c)];
    ValueSnoc(Quintets(s), QuintetOf(c), 32);
  }

  lemma DecodingIn(s: string, i: nat, out: Bytes, acc: nat, bits: nat, word: nat)
    requires i < |s| && bits < 8 && word >= LIVE && Decoding(s, i, out, acc, bits) && QuintetOf(s[i]) >= 0
    ensures Decoding(s, i + 1, out, LetterInto(acc, QuintetOf(s[i]), word), bits + 5)
  {
    JoinedQuintet(Number(out), acc, QuintetOf(s[i]), bits, word);
    assert s[..i + 1] == s[..i] + [s[i]];
    QuintetsSnoc(s[..i], s[i]);
  }

  lemma DecodingOut(s: string, i: nat, out: Bytes, acc: nat, bits: nat)
    requires i <= |s| && Decoding(s, i, out, acc, bits + 8)
    ensures Decoding(s, i, out + [ShiftRight(acc, bits) % 256], acc, bits)
  {
    SmallPowers();
    JoinedOut(Number(out), acc, bits, 8);
    ValueSnoc(out, ShiftRight(acc, bits) % 256, 256);
  }

  lemma DecodingEnds(s: string, out: Bytes, acc: nat, bits: nat)
    requires bits < 8 && Decoding(s, |s|, out, acc, bits)
    ensures Decode(s) == Some(out)
  {
    assert s[..|s|] == s;
    BitsLeft(|out|, |s|, bits);
    JoinedDivides(Number(out), acc, bits);
    BytesOfNumber(out);
  }

  lemma NotText(s: string, i: nat)
    requires i < |s| && QuintetOf(s[i]) < 0
    ensures Decode(s) == None
  {
    assert s[i] in s;
  }

  /** A byte goes out once there are eight bits. */
  method TakeByte(ghost s: string, ghost i: nat, written: Bytes, acc: nat, held: nat) returns (out: Bytes, bits: nat)
    requires held < 16 && i <= |s| && Decoding(s, i, written, acc, held)
    ensures bits < 8 && Decoding(s, i, out, acc, bits)
  {
    out, bits := written, held;
    if bits >= 8 {
      bits := bits - 8;
      DecodingOut(s, i, out, acc, bits);
      var low := ShiftRight(acc, bits) % 256;
      out := out + [low];
    }
  }

  /** The source's loop over a 32-bit accumulator. */
  method Z32Decode(s: string) returns (r: Option<Bytes>)
    ensures r == Decode(s)
  {
    r := DecodeIn(s, 32);
  }

  /** And this too is the same in any word from twelve bits up. */
  method DecodeIn(s: string, word: nat) returns (r: Option<Bytes>)
    requires word >= LIVE
    ensures r == Decode(s)
  {
    var out: Bytes := [];
    var acc: nat, bits: nat := 0, 0;
    for i := 0 to |s|
      invariant bits < 8 && Decoding(s, i, out, acc, bits)
    {
      var v := QuintetOf(s[i]);
      if v < 0 {
        NotText(s, i);
        return None;
      }
      DecodingIn(s, i, out, acc, bits, word);
      acc := LetterInto(acc, v, word);
      bits := bits + 5;
      out, bits := TakeByte(s, i + 1, out, acc, bits);
    }
    DecodingEnds(s, out, acc, bits);
    r := Some(out);
  }
}
