/**
 The record's text spelled out, character by character: which blanks and escapes there are, what stands where
 nothing may, and that what is printed is what JSON.stringify prints (src/record.cpp).
 */
module RecordText {
  import opened Common
  import Hex
  import N = Numerals
  import opened RecordModel
  import opened RecordProofs

  // ---- blanks ------------------------------------------------------------------------------

  predicate Over(s: string, chars: set<char>) { forall c | c in s :: c in chars }

  /** A scalar that begins and ends with something else than a blank, and holds no separator. */
  predicate Bounded(raw: string, blanks: set<char>)
  {
    && raw != "" && raw[0] !in blanks + {'"'} && raw[|raw| - 1] !in blanks
    && forall c | c in raw :: c != ',' && c != '}'
  }

  predicate Spaced(t: Token, blanks: set<char>)
  {
    && Over(t.w0, blanks) && Over(t.w1, blanks) && Over(t.w2, blanks) && Over(t.w3, blanks)
    && Legal(t.key) && match t.value case Quoted(ps) => Legal(ps) case Bare(raw) => Bounded(raw, blanks)
  }

  /** The blanks are the space, the tab, the line feed and the carriage return. */
  lemma BlanksAre(s: string, blanks: set<char>)
    requires blanks == {' ', '\t', '\n', '\r'}
    ensures Blank(s) <==> Over(s, blanks)
    ensures forall c :: IsWs(c) <==> c in blanks
  {
  }

  lemma SpacedReadable(t: Token, blanks: set<char>)
    requires blanks == {' ', '\t', '\n', '\r'} && Spaced(t, blanks)
    ensures Readable(t)
  {
    BlanksAre(t.w0, blanks);
  }

  /** A record laid out with those four, anywhere between its parts and in any number, is read as the fold of
      its fields. */
  lemma LaidOutRead(blanks: set<char>, lead: string, inner: string, ts: seq<Token>, after: string)
    requires blanks == {' ', '\t', '\n', '\r'}
    requires Over(lead, blanks) && Over(inner, blanks) && ts != [] && forall t | t in ts :: Spaced(t, blanks)
    ensures AllReadable(ts)
    ensures Decode(lead + (['{'] + (inner + WriteAll(ts, after)))) == Some(Fold(Empty(), Meanings(ts)))
  {
    forall t | t in ts ensures Readable(t) {
      SpacedReadable(t, blanks);
    }
    BlanksAre(lead, blanks);
    ScannerFolds(lead + (['{'] + (inner + WriteAll(ts, after))), lead, inner, ts, after);
  }

  // ---- and nothing else --------------------------------------------------------------------

  /** What cannot begin the rest of an object: something else than a quote where a key is due, than a colon
      after the key, or than a comma or brace after a text; each behind any blanks. */
  datatype Stray =
    | ForKey(w0: string, c: char)
    | ForColon(w0: string, key: seq<Piece>, w1: string, c: char)
    | ForComma(w0: string, key: seq<Piece>, w1: string, w2: string, text: seq<Piece>, w3: string, c: char)

  predicate Wrong(x: Stray, blanks: set<char>)
  {
    match x
    case ForKey(w0, c) => Over(w0, blanks) && c !in blanks + {'"'}
    case ForColon(w0, key, w1, c) => Over(w0, blanks) && Legal(key) && Over(w1, blanks) && c !in blanks + {':'}
    case ForComma(w0, key, w1, w2, text, w3, c) =>
      && Over(w0, blanks) && Legal(key) && Over(w1, blanks) && Over(w2, blanks) && Legal(text)
      && Over(w3, blanks) && c !in blanks + {',', '}'}
  }

  function StrayText(x: Stray, rest: string): string
  {
    match x
    case ForKey(w0, c) => w0 + ([c] + rest)
    case ForColon(w0, key, w1, c) => w0 + (QuoteText(Spelling(key)) + (w1 + ([c] + rest)))
    case ForComma(w0, key, w1, w2, text, w3, c) =>
      w0 + (QuoteText(Spelling(key)) + (w1 + ([':'] + (w2 + (QuoteText(Spelling(text)) + (w3 + ([c] + rest)))))))
  }

  /** The fields before it, each with its comma. */
  function Before(ts: seq<Token>, tail: string): string
  {
    if ts == [] then tail else Write(ts[0]) + ([','] + Before(ts[1..], tail))
  }

  lemma KeyThen(rec: Record, w0: string, key: seq<Piece>, w1: string, next: string)
    requires Blank(w0) && Legal(key) && Blank(w1) && next != "" && !IsWs(next[0])
    ensures var s := w0 + (QuoteText(Spelling(key)) + (w1 + next));
            ReadField(rec, s) == if next[0] != ':' then NoField else ReadValue(rec, Spelled(key), SkipWs(next[1..]))
  {
    var quoted := QuoteText(Spelling(key)) + (w1 + next);
    QuoteInside(Spelling(key), w1 + next);
    BlankSkipped(w0, quoted);
    QuoteRead(key, w1 + next);
    BlankSkipped(w1, next);
  }

  lemma StrayField(rec: Record, x: Stray, rest: string, blanks: set<char>)
    requires blanks == {' ', '\t', '\n', '\r'} && Wrong(x, blanks)
    ensures ReadFields(rec, StrayText(x, rest)) == None
  {
    BlanksAre("", blanks);
    var next := [x.c] + rest;
    match x
    case ForKey(w0, c) => BlankSkipped(w0, next);
    case ForColon(w0, key, w1, c) => KeyThen(rec, w0, key, w1, next);
    case ForComma(w0, key, w1, w2, text, w3, c) =>
      var value := QuoteText(Spelling(text)) + (w3 + next);
      assert ([':'] + (w2 + value))[1..] == w2 + value;
      KeyThen(rec, w0, key, w1, [':'] + (w2 + value));
      QuoteInside(Spelling(text), w3 + next);
      BlankSkipped(w2, value);
      TextValueRead(rec, Spelled(key), text, w3 + next);
      BlankSkipped(w3, next);
  }

  lemma {:induction false} FieldsThen(rec: Record, ts: seq<Token>, tail: string)
    requires AllReadable(ts)
    ensures ReadFields(rec, Before(ts, tail)) == ReadFields(Fold(rec, Meanings(ts)), tail)
    decreases |ts|
  {
    if ts == [] {
      assert Meanings(ts) == [];
    } else {
      var next := [','] + Before(ts[1..], tail);
      MeaningsHead(ts);
      FieldReadBack(rec, ts[0], next);
      assert next[1..] == Before(ts[1..], tail);
      FieldsThen(Apply(rec, Meaning(ts[0])), ts[1..], tail);
    }
  }

  /** Blanks in front of fields, or of what is wrong with them, make no difference. */
  lemma {:induction false} LedFields(rec: Record, w: string, s: string)
    requires Blank(w) && s != "" && !IsWs(s[0])
    ensures SkipWs(w + s) == s && ReadFields(rec, w + s) == ReadFields(rec, s)
  {
    BlankSkipped(w, s);
    BlankSkipped("", s);
    assert "" + s == s;
  }

  lemma StrayStarts(ts: seq<Token>, x: Stray, rest: string, blanks: set<char>) returns (w: string, s: string)
    requires blanks == {' ', '\t', '\n', '\r'} && AllReadable(ts) && Wrong(x, blanks)
    ensures Before(ts, StrayText(x, rest)) == w + s && Blank(w) && s != "" && !IsWs(s[0])
    ensures s[0] == '}' ==> ts == [] && x.ForKey? && x.c == '}'
  {
    BlanksAre("", blanks);
    if ts == [] {
      w, s := StrayFront(x, rest);
    } else {
      MeaningsHead(ts);
      w, s := TokenFront(ts[0], [','] + Before(ts[1..], StrayText(x, rest)));
    }
  }

  lemma StrayFront(x: Stray, rest: string) returns (w: string, s: string)
    ensures StrayText(x, rest) == w + s && w == x.w0 && s != ""
    ensures s[0] == if x.ForKey? then x.c else '"'
  {
    w := x.w0;
    s := StrayText(x, rest)[|w|..];
  }

  lemma TokenFront(t: Token, next: string) returns (w: string, s: string)
    ensures Write(t) + next == w + s && w == t.w0 && s != "" && s[0] == '"'
  {
    w := t.w0;
    s := Write(t)[|w|..] + next;
  }

  /** A character that is no blank, standing where only blanks may stand, makes the scanner return nothing:
      before the object, before a key, before a colon, or after a text; whatever fields came before and whatever
      comes after. A brace right after a comma is such a character. */
  lemma StrayRejected(blanks: set<char>, lead: string, inner: string, ts: seq<Token>, x: Stray, rest: string)
    requires blanks == {' ', '\t', '\n', '\r'}
    requires Over(lead, blanks) && Over(inner, blanks) && (forall t | t in ts :: Spaced(t, blanks))
    requires Wrong(x, blanks) && !(ts == [] && x.ForKey? && x.c == '}')
    ensures Decode(lead + (['{'] + (inner + Before(ts, StrayText(x, rest))))) == None
  {
    forall t | t in ts ensures Readable(t) {
      SpacedReadable(t, blanks);
    }
    BlanksAre(lead, blanks);
    BlanksAre(inner, blanks);
    var body := Before(ts, StrayText(x, rest));
    var w, s := StrayStarts(ts, x, rest, blanks);
    BlankSkipped(lead, ['{'] + (inner + body));
    assert (['{'] + (inner + body))[1..] == inner + body;
    Regroup(inner, w, s);
    Blanks(inner, w);
    LedFields(Empty(), inner + w, s);
    LedFields(Empty(), w, s);
    FieldsThen(Empty(), ts, StrayText(x, rest));
    StrayField(Fold(Empty(), Meanings(ts)), x, rest, blanks);
  }

  lemma LeadRejected(blanks: set<char>, lead: string, c: char, rest: string)
    requires blanks == {' ', '\t', '\n', '\r'} && Over(lead, blanks) && c !in blanks + {'{'}
    ensures Decode(lead + ([c] + rest)) == None
  {
    BlanksAre(lead, blanks);
    BlankSkipped(lead, [c] + rest);
  }

  // ---- escapes -----------------------------------------------------------------------------

  /** Backslash letters, and what they stand for. */
  function EscapeLetters(): string { "\"\\/nrtbf" }
  function EscapeValues(): seq<int> { [34, 92, 47, 10, 13, 9, 8, 12] }

  /** The scanner knows these eight letters after a backslash and no others. */
  lemma LettersAre(e: char)
    ensures forall i | 0 <= i < 8 :: ShortEscape(EscapeLetters()[i]) == Some(EscapeValues()[i] as char)
    ensures e !in EscapeLetters() ==> ShortEscape(e) == None
  {
    assert e !in EscapeLetters() ==> forall i | 0 <= i < 8 :: e != EscapeLetters()[i];
  }

  /** Four digits are a numeral in base sixteen, read as its character below 128 and as a question mark above;
      anything else after `\u` is refused. */
  lemma UnitsAre(h: string)
    requires |h| == 4
    ensures CodeUnit(h) ==
              if forall i | 0 <= i < 4 :: Hex.IsNibble(h[i]) then
                var v := N.Value([Hex.NibbleAt(h[0]), Hex.NibbleAt(h[1]), Hex.NibbleAt(h[2]), Hex.NibbleAt(h[3])], 16);
                Some(if v < 128 then v as char else '?')
              else None
  {
    forall i | 0 <= i < 4 ensures Hex.NibbleOf(h[i]) == if Hex.IsNibble(h[i]) then Hex.NibbleAt(h[i]) else -1 {
      Hex.NibbleIs(h[i]);
    }
    FourNibbles(Hex.NibbleAt(h[0]), Hex.NibbleAt(h[1]), Hex.NibbleAt(h[2]), Hex.NibbleAt(h[3]));
  }

  lemma FourNibbles(a: nat, b: nat, c: nat, d: nat)
    ensures N.Value([a, b, c, d], 16) == ((a * 16 + b) * 16 + c) * 16 + d
  {
    N.ValueSnoc([], a, 16);
    N.ValueSnoc([a], b, 16);
    N.ValueSnoc([a, b], c, 16);
    N.ValueSnoc([a, b, c], d, 16);
    assert [] + [a] == [a] && [a] + [b] == [a, b] && [a, b] + [c] == [a, b, c] && [a, b, c] + [d] == [a, b, c, d];
  }

  /** The printer of the source: a letter for the quote, the backslash, the line feed, the carriage return and the
      tab; two zeros and two lower-case digits for any other control character; and the rest as it stands. */
  lemma EscapedAs(c: char)
    ensures var text := Escape(Native, [c]);
            if c == '"' then text == ['\\', '"']
            else if c == '\\' then text == ['\\', '\\']
            else if c as int == 10 then text == ['\\', 'n']
            else if c as int == 13 then text == ['\\', 'r']
            else if c as int == 9 then text == ['\\', 't']
            else if c as int < 32 then
              |text| == 6 && text[..4] == "\\u00" && Hex.NibbleAt(text[4]) * 16 + Hex.NibbleAt(text[5]) == c as int
              && (forall i | 4 <= i < 6 :: '0' <= text[i] <= '9' || 'a' <= text[i] <= 'f')
            else text == [c]
  {
    assert [c][1..] == "" && Escape(Native, "") == "";
    assert Escape(Native, [c]) == EscapeChar(Native, c);
    if c as int < 32 {
      Hex.DigitAt(c as int / 16);
      Hex.DigitAt(c as int % 16);
    }
  }

  /** JSON.stringify differs in a backspace and a form feed only, which it prints with a letter. */
  lemma StringifiedAs(c: char)
    ensures Escape(Ecma, [c]) == if c as int == 8 then "\\b" else if c as int == 12 then "\\f" else Escape(Native, [c])
  {
    assert [c][1..] == "" && Escape(Native, "") == "" && Escape(Ecma, "") == "";
  }

  // ---- decimals ----------------------------------------------------------------------------

  function DigitValue(c: char): nat
    requires '0' <= c <= '9'
  {
    c as int - 48
  }

  function DigitValues(s: string): seq<nat>
    requires forall c | c in s :: '0' <= c <= '9'
  {
    seq(|s|, i requires 0 <= i < |s| => assert s[i] in s; DigitValue(s[i]))
  }

  /** A number is printed as its numeral in base ten, without a zero in front. */
  lemma {:induction false} DecimalIs(n: nat)
    ensures var s := Decimal(n);
            && (forall c | c in s :: '0' <= c <= '9')
            && N.Value(DigitValues(s), 10) == n
            && s != "" && (n > 0 ==> s[0] != '0')
    decreases n
  {
    if n < 10 {
      N.ValueSnoc([], n, 10);
      assert DigitValues(Decimal(n)) == [] + [n];
    } else {
      DecimalIs(n / 10);
      N.ValueSnoc(DigitValues(Decimal(n / 10)), n % 10, 10);
      assert DigitValues(Decimal(n)) == DigitValues(Decimal(n / 10)) + [n % 10];
    }
  }

  /** And read as one. */
  lemma {:induction false} DecimalReadAs(s: string)
    ensures AllDigits(s) <==> forall c | c in s :: '0' <= c <= '9'
    ensures AllDigits(s) ==> DecimalValue(s) == N.Value(DigitValues(s), 10)
    decreases |s|
  {
    if s == "" {
    } else if AllDigits(s) {
      var front := s[..|s| - 1];
      assert forall c | c in front :: c in s;
      DecimalReadAs(front);
      assert DigitValues(s)[..|s| - 1] == DigitValues(front);
    }
  }

  /** What `strtol` passes over: the space and the characters 9 to 13. */
  lemma SpacesAre(s: string)
    ensures Spaces(s) <==> forall c | c in s :: c as int in {9, 10, 11, 12, 13, 32}
  {
  }

  // ---- the whole record --------------------------------------------------------------------

  datatype Json = Str(text: string) | Num(n: nat) | Flag(b: bool)

  function StringifyValue(v: Json): string
  {
    match v
    case Str(text) => "\"" + Escape(Ecma, text) + "\""
    case Num(n) => Decimal(n)
    case Flag(b) => if b then "true" else "false"
  }

  function StringifyMembers(members: seq<(string, Json)>): string
  {
    if members == [] then ""
    else
      "\"" + Escape(Ecma, members[0].0) + "\":" + StringifyValue(members[0].1)
      + if |members| == 1 then "" else "," + StringifyMembers(members[1..])
  }

  /** `JSON.stringify` of an object with these members. */
  function Stringify(members: seq<(string, Json)>): string { "{" + StringifyMembers(members) + "}" }

  function Members(host: string, udp: Option<bool>, port: nat): seq<(string, Json)>
  {
    [("host", Str(host))] + (if udp.Some? then [("udp", Flag(udp.value))] else []) + [("port", Num(port))]
  }

  lemma {:induction false} LettersStringified(s: string)
    requires RecordProofs.Letters(s)
    ensures Escape(Ecma, s) == s
  {
    if s == "" {
    } else {
      assert s[0] in s && forall c | c in s[1..] :: c in s;
      LettersStringified(s[1..]);
    }
  }

  /** A member's text, its name kept as a variable. */
  lemma MemberText(k: string, v: Json)
    requires RecordProofs.Letters(k)
    ensures StringifyMembers([(k, v)]) == "\"" + k + "\":" + StringifyValue(v)
  {
    LettersStringified(k);
  }

  lemma MemberThen(k: string, v: Json, more: seq<(string, Json)>)
    requires RecordProofs.Letters(k) && more != []
    ensures StringifyMembers([(k, v)] + more) == "\"" + k + "\":" + StringifyValue(v) + ("," + StringifyMembers(more))
  {
    LettersStringified(k);
    assert ([(k, v)] + more)[1..] == more;
  }

  /** The brace closes the last member. */
  lemma ClosedTwo(brace: string, head: string, comma: string, last: string, close: string)
    ensures brace + (head + (comma + last)) + close == brace + (head + (comma + (last + close)))
  {
  }

  lemma ClosedThree(brace: string, head: string, comma: string, flag: string, last: string, close: string)
    ensures brace + (head + (comma + (flag + (comma + last)))) + close
            == brace + (head + (comma + (flag + (comma + (last + close)))))
  {
  }

  lemma StringifyTexts(h: string, u: string, p: string, host: string, udp: Option<bool>, port: nat)
    requires h == "host" && u == "udp" && p == "port"
    ensures Stringify(Members(host, udp, port))
            == "{" + Texts(h, u, p, Escape(Ecma, host), FlagText(udp), Decimal(port))
  {
    var last := [(p, Num(port))];
    var head, end := "\"" + h + "\":" + StringifyValue(Str(host)), "\"" + p + "\":" + Decimal(port);
    MemberText(p, Num(port));
    if udp.Some? {
      var flag := "\"" + u + "\":" + StringifyValue(Flag(udp.value));
      MemberThen(u, Flag(udp.value), last);
      MemberThen(h, Str(host), [(u, Flag(udp.value))] + last);
      assert Members(host, udp, port) == [(h, Str(host))] + ([(u, Flag(udp.value))] + last);
      ClosedThree("{", head, ",", flag, end, "}");
    } else {
      MemberThen(h, Str(host), last);
      assert Members(host, udp, port) == [(h, Str(host))] + last;
      ClosedTwo("{", head, ",", end, "}");
    }
  }

  lemma SameBetween(a: string, x: string, y: string, b: string)
    ensures a + x + b == a + y + b <==> x == y
  {
    if a + x + b == a + y + b {
      assert x == (a + x + b)[|a|..|a| + |x|] && y == (a + y + b)[|a|..|a| + |y|];
    }
  }

  lemma TextsDiffer(h: string, u: string, p: string, x: string, y: string, udp: Option<string>, port: string)
    ensures Texts(h, u, p, x, udp, port) == Texts(h, u, p, y, udp, port) <==> x == y
  {
    var quote: string := "\"";
    var a: string := "\"" + h + "\":" + "\"";
    var b := Texts(h, u, p, "", udp, port)[|"\"" + h + "\":" + ("\"" + "" + "\"")|..];
    AroundText(h, u, p, x, udp, port, a, quote + b);
    AroundText(h, u, p, y, udp, port, a, quote + b);
    SameBetween(a, x, y, quote + b);
  }

  lemma AroundText(h: string, u: string, p: string, x: string, udp: Option<string>, port: string, a: string, b: string)
    requires a == "\"" + h + "\":" + "\""
    requires b == "\"" + Texts(h, u, p, "", udp, port)[|"\"" + h + "\":" + ("\"" + "" + "\"")|..]
    ensures Texts(h, u, p, x, udp, port) == a + x + b
  {
  }

  /** What is published is what JSON.stringify prints of the host, the option if given, and the port, in that
      order; exactly when the host has no backspace and no form feed. */
  lemma EncodeIsStringify(host: string, udp: Option<bool>, port: nat)
    ensures Encode(host, udp, port) == Stringify(Members(host, udp, port))
            <==> forall c | c in host :: c as int != 8 && c as int != 12
  {
    var h: string, u: string, p: string :| h == "host" && u == "udp" && p == "port";
    EncodeIsTexts(h, u, p, host, udp, port);
    StringifyTexts(h, u, p, host, udp, port);
    TextsDiffer(h, u, p, Escape(Native, host), Escape(Ecma, host), FlagText(udp), Decimal(port));
    SameBetween("{", Texts(h, u, p, Escape(Native, host), FlagText(udp), Decimal(port)),
                Texts(h, u, p, Escape(Ecma, host), FlagText(udp), Decimal(port)), "");
    NativeIsEcmaExactly(host);
  }
}
