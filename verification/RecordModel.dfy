/**
 The record published in the DHT (src/record.cpp): its printer, and its scanner told as functions of the
 text still to be read. Bytes are characters here; nothing depends on their being below 256.
 */
module RecordModel {
  import opened Common
  import Hex

  datatype Record = Record(host: string, udp: Option<bool>, port: Option<nat>)

  /** `Record rec;` */
  function Empty(): Record { Record("", None, None) }

  // ---- printing ----------------------------------------------------------------------------

  /** `Native` is the printer of the source; `Ecma` is what JSON.stringify prints, which has short
      escapes for two more characters. */
  datatype Style = Native | Ecma

  const BACKSPACE := 8 as char
  const FORM_FEED := 12 as char

  function EscapeChar(style: Style, c: char): string
  {
    if c == '"' then "\\\""
    else if c == '\\' then "\\\\"
    else if c == '\n' then "\\n"
    else if c == '\r' then "\\r"
    else if c == '\t' then "\\t"
    else if style == Ecma && c == BACKSPACE then "\\b"
    else if style == Ecma && c == FORM_FEED then "\\f"
    else if c as int < 0x20 then "\\u00" + [Hex.DIGITS[c as int / 16], Hex.DIGITS[c as int % 16]]
    else [c]
  }

  function Escape(style: Style, s: string): string
  {
    if s == "" then "" else EscapeChar(style, s[0]) + Escape(style, s[1..])
  }

  /** `std::to_string`. */
  function Decimal(n: nat): string
  {
    if n < 10 then [DigitChar(n)] else Decimal(n / 10) + [DigitChar(n % 10)]
  }

  function DigitChar(d: nat): char
    requires d < 10
  {
    ('0' as int + d) as char
  }

  function Encode(host: string, udp: Option<bool>, port: nat): string
  {
    "{\"host\":\"" + Escape(Native, host) + "\""
    + (match udp case None => "" case Some(b) => ",\"udp\":" + if b then "true" else "false")
    + ",\"port\":" + Decimal(port) + "}"
  }

  // ---- scanning ----------------------------------------------------------------------------

  predicate IsWs(c: char) { c == ' ' || c == '\t' || c == '\n' || c == '\r' }

  function SkipWs(s: string): (t: string)
    ensures |t| <= |s|
  {
    if s != "" && IsWs(s[0]) then SkipWs(s[1..]) else s
  }

  /** A value read, and the text after it. */
  datatype Read = Fail | Got(value: string, rest: string)

  function Prefixed(s: string, r: Read): Read
  {
    if r.Fail? then r else Got(s + r.value, r.rest)
  }

  /** What a backslash and this letter stand for. */
  function ShortEscape(e: char): Option<char>
  {
    if e == '"' then Some('"')
    else if e == '\\' then Some('\\')
    else if e == '/' then Some('/')
    else if e == 'n' then Some('\n')
    else if e == 'r' then Some('\r')
    else if e == 't' then Some('\t')
    else if e == 'b' then Some(BACKSPACE)
    else if e == 'f' then Some(FORM_FEED)
    else None
  }

  /** Four hexadecimal digits; beyond ASCII they are read as a question mark. */
  function CodeUnit(h: string): Option<char>
    requires |h| == 4
  {
    var a, b, c, d := Hex.NibbleOf(h[0]), Hex.NibbleOf(h[1]), Hex.NibbleOf(h[2]), Hex.NibbleOf(h[3]);
    if a < 0 || b < 0 || c < 0 || d < 0 then None
    else
      var code := ((a * 16 + b) * 16 + c) * 16 + d;
      Some(if code < 0x80 then code as char else '?')
  }

  /** The inside of a string, up to its closing quote. */
  function Unescape(s: string): (r: Read)
    ensures r.Got? ==> |r.rest| < |s|
    decreases |s|
  {
    if s == "" then Fail
    else if s[0] == '"' then Got("", s[1..])
    else if s[0] != '\\' then Prefixed([s[0]], Unescape(s[1..]))
    else if |s| < 2 then Fail
    else if s[1] == 'u' then
      if |s| < 6 || CodeUnit(s[2..6]) == None then Fail
      else Prefixed([CodeUnit(s[2..6]).value], Unescape(s[6..]))
    else if ShortEscape(s[1]) == None then Fail
    else Prefixed([ShortEscape(s[1]).value], Unescape(s[2..]))
  }

  function ReadString(s: string): (r: Read)
    ensures r.Got? ==> |r.rest| < |s|
  {
    if s == "" || s[0] != '"' then Fail else Unescape(s[1..])
  }

  predicate EndsScalar(c: char) { c == ',' || c == '}' }

  /** How far a scalar reaches. */
  function ScalarLength(s: string): (n: nat)
    ensures n <= |s|
    ensures forall i | 0 <= i < n :: !EndsScalar(s[i])
    ensures n < |s| ==> EndsScalar(s[n])
  {
    if s == "" || EndsScalar(s[0]) then 0 else 1 + ScalarLength(s[1..])
  }

  function TrimEnd(s: string): (t: string)
    ensures t <= s
  {
    if s != "" && IsWs(s[|s| - 1]) then TrimEnd(s[..|s| - 1]) else s
  }

  function ReadScalar(s: string): (r: Read)
    ensures r.Got? ==> |r.rest| < |s|
  {
    var n := ScalarLength(s);
    var raw := TrimEnd(s[..n]);
    if raw == "" then Fail else Got(raw, s[n..])
  }

  // ---- strtol and the port -----------------------------------------------------------------

  predicate IsDigit(c: char) { '0' <= c <= '9' }

  predicate AllDigits(s: string) { forall c | c in s :: IsDigit(c) }

  /** The text before the first NUL. */
  function CString(s: string): string
  {
    if s == "" || s[0] == 0 as char then "" else [s[0]] + CString(s[1..])
  }

  predicate IsSpace(c: char) { IsWs(c) || c == 11 as char || c == 12 as char }

  function SkipSpace(s: string): string
  {
    if s != "" && IsSpace(s[0]) then SkipSpace(s[1..]) else s
  }

  function DigitRun(s: string): (n: nat)
    ensures n <= |s| && AllDigits(s[..n])
    ensures n < |s| ==> !IsDigit(s[n])
  {
    if s == "" || !IsDigit(s[0]) then 0 else 1 + DigitRun(s[1..])
  }

  function DecimalValue(s: string): nat
    requires AllDigits(s)
  {
    if s == "" then 0
    else
      assert s[|s| - 1] in s && forall c | c in s[..|s| - 1] :: c in s;
      DecimalValue(s[..|s| - 1]) * 10 + (s[|s| - 1] as int - '0' as int)
  }

  const LONG_MAX := 0x7fff_ffff_ffff_ffff

  /** `strtol` in base ten: the value, clamped to a long, and the text it did not use. */
  function Strtol(text: string): (int, string)
  {
    var s := SkipSpace(text);
    var negative := s != "" && s[0] == '-';
    var t := if s != "" && (s[0] == '-' || s[0] == '+') then s[1..] else s;
    var n := DigitRun(t);
    if n == 0 then (0, text)
    else
      var v := DecimalValue(t[..n]);
      (if negative then (if v > LONG_MAX then -LONG_MAX - 1 else -(v as int))
       else (if v > LONG_MAX then LONG_MAX else v),
       t[n..])
  }

  function PortOf(raw: string): Option<nat>
  {
    var (v, end) := Strtol(CString(raw));
    if end == "" && 1 <= v <= 65535 then Some(v) else None
  }

  // ---- the object --------------------------------------------------------------------------

  function WithText(rec: Record, key: string, value: string): Record
  {
    if key == "host" then rec.(host := value) else rec
  }

  function WithScalar(rec: Record, key: string, raw: string): Record
  {
    if key == "udp" then
      if raw == "true" then rec.(udp := Some(true))
      else if raw == "false" then rec.(udp := Some(false))
      else rec
    else if key == "port" && PortOf(raw).Some? then rec.(port := PortOf(raw))
    else rec
  }

  /** A field's value and what follows it, or nothing. */
  datatype FieldRead = NoField | Field(rec: Record, rest: string)

  function ReadValue(rec: Record, key: string, s: string): (f: FieldRead)
    ensures f.Field? ==> |f.rest| < |s|
  {
    if s == "" then NoField
    else if s[0] == '"' then
      match ReadString(s)
      case Fail => NoField
      case Got(v, rest) => Field(WithText(rec, key, v), rest)
    else
      match ReadScalar(s)
      case Fail => NoField
      case Got(v, rest) => Field(WithScalar(rec, key, v), rest)
  }

  function ReadField(rec: Record, s: string): (f: FieldRead)
    ensures f.Field? ==> |f.rest| < |s|
  {
    match ReadString(SkipWs(s))
    case Fail => NoField
    case Got(key, rest) =>
      var t := SkipWs(rest);
      if t == "" || t[0] != ':' then NoField else ReadValue(rec, key, SkipWs(t[1..]))
  }

  /** The fields of an object, up to its closing brace. */
  function ReadFields(rec: Record, s: string): Option<Record>
    decreases |s|
  {
    match ReadField(rec, s)
    case NoField => None
    case Field(rec', rest) =>
      var t := SkipWs(rest);
      if t == "" then None
      else if t[0] == ',' then ReadFields(rec', t[1..])
      else if t[0] == '}' then Some(rec')
      else None
  }

  function Decode(json: string): Option<Record>
  {
    var s := SkipWs(json);
    if s == "" || s[0] != '{' then None
    else
      var t := SkipWs(s[1..]);
      if t != "" && t[0] == '}' then Some(Empty()) else ReadFields(Empty(), t)
  }

  // ---- objects as they may be written ------------------------------------------------------

  /** One character of a string, spelled as itself, by a letter, or by four digits. */
  datatype Piece = Plain(c: char) | Short(e: char) | Unit(h: string)

  predicate LegalPiece(p: Piece)
  {
    match p
    case Plain(c) => c != '"' && c != '\\'
    case Short(e) => ShortEscape(e).Some?
    case Unit(h) => |h| == 4 && CodeUnit(h).Some?
  }

  predicate Legal(ps: seq<Piece>) { forall p | p in ps :: LegalPiece(p) }

  function PieceText(p: Piece): string
  {
    match p
    case Plain(c) => [c]
    case Short(e) => ['\\', e]
    case Unit(h) => ['\\', 'u'] + h
  }

  function PieceValue(p: Piece): char
    requires LegalPiece(p)
  {
    match p
    case Plain(c) => c
    case Short(e) => ShortEscape(e).value
    case Unit(h) => CodeUnit(h).value
  }

  function Spelling(ps: seq<Piece>): string
  {
    if ps == [] then "" else PieceText(ps[0]) + Spelling(ps[1..])
  }

  function Spelled(ps: seq<Piece>): string
    requires Legal(ps)
  {
    if ps == [] then "" else
      assert forall p | p in ps[1..] :: p in ps;
      [PieceValue(ps[0])] + Spelled(ps[1..])
  }

  datatype Written = Quoted(ps: seq<Piece>) | Bare(raw: string)

  /** A field with the whitespace around its parts. */
  datatype Token = Token(w0: string, key: seq<Piece>, w1: string, w2: string, value: Written, w3: string)

  predicate Blank(s: string) { forall c | c in s :: IsWs(c) }

  /** A scalar the scanner can tell from what surrounds it. */
  predicate Simple(raw: string)
  {
    && raw != "" && raw[0] != '"' && !IsWs(raw[0]) && !IsWs(raw[|raw| - 1])
    && forall c | c in raw :: !EndsScalar(c)
  }

  predicate ReadableValue(v: Written)
  {
    match v
    case Quoted(ps) => Legal(ps)
    case Bare(raw) => Simple(raw)
  }

  predicate Readable(t: Token)
  {
    Blank(t.w0) && Blank(t.w1) && Blank(t.w2) && Blank(t.w3) && Legal(t.key) && ReadableValue(t.value)
  }

  function QuoteText(inside: string): string { ['"'] + (inside + ['"']) }

  function WriteValue(v: Written): string
  {
    match v
    case Quoted(ps) => QuoteText(Spelling(ps))
    case Bare(raw) => raw
  }

  function Write(t: Token): string
  {
    t.w0 + (QuoteText(Spelling(t.key)) + (t.w1 + ([':'] + (t.w2 + (WriteValue(t.value) + t.w3)))))
  }

  /** Fields separated by commas, then the closing brace and whatever comes after it. */
  function WriteAll(ts: seq<Token>, after: string): string
    requires ts != []
  {
    Write(ts[0]) + if |ts| == 1 then ['}'] + after else [','] + WriteAll(ts[1..], after)
  }

  // ---- what they mean ----------------------------------------------------------------------

  datatype Value = Text(text: string) | Scalar(raw: string)

  datatype Item = Item(key: string, value: Value)

  function Meaning(t: Token): Item
    requires Readable(t)
  {
    Item(Spelled(t.key), match t.value case Quoted(ps) => Text(Spelled(ps)) case Bare(raw) => Scalar(raw))
  }

  predicate AllReadable(ts: seq<Token>) { forall t | t in ts :: Readable(t) }

  function Meanings(ts: seq<Token>): seq<Item>
    requires AllReadable(ts)
  {
    seq(|ts|, i requires 0 <= i < |ts| => assert ts[i] in ts; Meaning(ts[i]))
  }

  function Apply(rec: Record, x: Item): Record
  {
    match x.value
    case Text(text) => WithText(rec, x.key, text)
    case Scalar(raw) => WithScalar(rec, x.key, raw)
  }

  function Fold(rec: Record, items: seq<Item>): Record
    decreases |items|
  {
    if items == [] then rec else Fold(Apply(rec, items[0]), items[1..])
  }

  /** An object: blanks, a brace, and fields or none, whatever comes after its closing brace. */
  ghost predicate IsObject(json: string, rec: Record)
  {
    || (exists lead: string, inner: string, after: string :: EmptyObject(json, lead, inner, after) && rec == Empty())
    || (exists lead: string, inner: string, ts: seq<Token>, after: string ::
          FullObject(json, lead, inner, ts, after) && rec == Fold(Empty(), Meanings(ts)))
  }

  predicate EmptyObject(json: string, lead: string, inner: string, after: string)
  {
    Blank(lead) && Blank(inner) && json == lead + (['{'] + (inner + (['}'] + after)))
  }

  predicate FullObject(json: string, lead: string, inner: string, ts: seq<Token>, after: string)
  {
    && Blank(lead) && Blank(inner) && ts != [] && AllReadable(ts)
    && json == lead + (['{'] + (inner + WriteAll(ts, after)))
  }

  // what each item says of each member of the record

  function HostOf(x: Item): Option<string>
  {
    if x.key == "host" && x.value.Text? then Some(x.value.text) else None
  }

  function UdpOf(x: Item): Option<bool>
  {
    if x.key == "udp" && x.value == Scalar("true") then Some(true)
    else if x.key == "udp" && x.value == Scalar("false") then Some(false)
    else None
  }

  function PortIn(x: Item): Option<nat>
  {
    if x.key == "port" && x.value.Scalar? then PortOf(x.value.raw) else None
  }

  function Last<T>(items: seq<Item>, says: Item -> Option<T>, default: Option<T>): Option<T>
  {
    if items == [] then default
    else
      var x := says(items[|items| - 1]);
      if x.Some? then x else Last(items[..|items| - 1], says, default)
  }
}
