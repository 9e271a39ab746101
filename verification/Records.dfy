/**
 src/record.cpp as it is written: a shared index moved along the text. Every method is proved against the
 function of RecordModel that reads the text from that index on, never moves the index back, and never reads
 outside the text.
 */
module Records {
  import opened Common
  import Hex
  import opened RecordModel
  import RecordProofs

  // ---- printing ----------------------------------------------------------------------------

  method AppendEscaped(out: string, s: string) returns (r: string)
    ensures r == out + Escape(Native, s)
  {
    r := out;
    for k := 0 to |s|
      invariant r + Escape(Native, s[k..]) == out + Escape(Native, s)
    {
      var piece := EscapedChar(s[k]);
      EscapeStep(r, s, k);
      r := r + piece;
    }
  }

  method EscapedChar(c: char) returns (piece: string)
    ensures piece == EscapeChar(Native, c)
  {
    piece := [c];
    if c == '"' {
      piece := "\\\"";
    } else if c == '\\' {
      piece := "\\\\";
    } else if c == '\n' {
      piece := "\\n";
    } else if c == '\r' {
      piece := "\\r";
    } else if c == '\t' {
      piece := "\\t";
    } else if c as int < 0x20 {
      piece := "\\u00" + [Hex.DIGITS[c as int / 16], Hex.DIGITS[c as int % 16]];
    }
  }

  lemma EscapeStep(r: string, s: string, k: nat)
    requires k < |s|
    ensures r + Escape(Native, s[k..]) == (r + EscapeChar(Native, s[k])) + Escape(Native, s[k + 1..])
  {
    assert s[k..][1..] == s[k + 1..];
    Regroup(r, EscapeChar(Native, s[k]), Escape(Native, s[k + 1..]));
  }

  method EncodeRecord(host: string, udp: Option<bool>, port: nat) returns (out: string)
    ensures out == Encode(host, udp, port)
    ensures port <= 65535 ==>
              Decode(out) == Some(Record(host, udp, if port == 0 then None else Some(port)))
  {
    out := "{\"host\":\"";
    out := AppendEscaped(out, host);
    out := out + "\"";
    if udp.Some? {
      out := out + ",\"udp\":";
      out := out + if udp.value then "true" else "false";
    }
    out := out + ",\"port\":";
    out := out + Decimal(port);
    out := out + "}";
    Encoded(host, udp, port, out);
    if port <= 65535 {
      RecordProofs.RoundTrip(host, udp, port);
    }
  }

  // ---- scanning ----------------------------------------------------------------------------

  method SkipWsAt(s: string, i: nat) returns (j: nat)
    requires i <= |s|
    ensures i <= j <= |s| && s[j..] == SkipWs(s[i..])
  {
    j := i;
    while j < |s| && IsWs(s[j])
      invariant i <= j <= |s| && SkipWs(s[j..]) == SkipWs(s[i..])
    {
      assert s[j..][1..] == s[j + 1..];
      j := j + 1;
    }
  }

  /** `r` and the index `j` after it are what reading `s` from `i` gives. */
  predicate Reads(s: string, i: nat, r: Option<string>, j: nat, spec: Read)
  {
    && i <= j <= |s|
    && match spec
       case Fail => r == None
       case Got(v, rest) => r == Some(v) && i < j && s[j..] == rest
  }

  /** The four digits of a code unit, accumulated by shifts. */
  method CodeUnitAt(s: string, i: nat) returns (c: Option<char>)
    requires i + 4 <= |s|
    ensures c == CodeUnit(s[i..i + 4])
  {
    var h := s[i..i + 4];
    var code := 0;
    var k := 0;
    while k < 4
      invariant 0 <= k <= 4
      invariant forall m | 0 <= m < k :: Hex.NibbleOf(h[m]) >= 0
      invariant code == Shifted(h, k)
    {
      var v := Hex.NibbleOf(s[i + k]);
      if v < 0 {
        return None;
      }
      code := code * 16 + v;
      k := k + 1;
    }
    ShiftedAll(h);
    c := Some(if code < 0x80 then code as char else '?');
  }

  method ReadStringAt(s: string, i: nat) returns (r: Option<string>, j: nat)
    requires i <= |s|
    ensures Reads(s, i, r, j, ReadString(s[i..]))
  {
    j := i;
    if j >= |s| || s[j] != '"' {
      return None, j;
    }
    j := j + 1;
    ghost var spec := Unescape(s[j..]);
    assert s[i..][1..] == s[j..];
    var out := "";
    assert Prefixed(out, spec) == spec;
    while j < |s|
      invariant i < j <= |s|
      invariant spec == Prefixed(out, Unescape(s[j..]))
    {
      ghost var at := j;
      var c := s[j];
      j := j + 1;
      if c == '"' {
        QuoteAt(s, out, at, j);
        return Some(out), j;
      }
      if c != '\\' {
        PlainAt(s, out, at, j);
        out := out + [c];
        continue;
      }
      if j >= |s| {
        EscapeFails(s, at);
        return None, j;
      }
      var e := s[j];
      j := j + 1;
      if e == 'u' {
        if j + 4 > |s| {
          EscapeFails(s, at);
          return None, j;
        }
        var unit := CodeUnitAt(s, j);
        if unit == None {
          EscapeFails(s, at);
          return None, j;
        }
        j := j + 4;
        UnitAt(s, out, at, j);
        out := out + [unit.value];
      } else {
        var short := ShortEscape(e);
        if short == None {
          EscapeFails(s, at);
          return None, j;
        }
        ShortAt(s, out, at, j);
        out := out + [short.value];
      }
    }
    assert s[j..] == "";
    r := None;
  }

  /** The end of `s[i..j]` without the whitespace at its end. */
  method TrimmedEnd(s: string, i: nat, j: nat) returns (end: nat)
    requires i <= j <= |s|
    ensures i <= end <= j && s[i..end] == TrimEnd(s[i..j])
  {
    end := j;
    while end > i && IsWs(s[end - 1])
      invariant i <= end <= j
      invariant TrimEnd(s[i..end]) == TrimEnd(s[i..j])
    {
      assert s[i..end][..end - i - 1] == s[i..end - 1];
      end := end - 1;
    }
  }

  method ReadScalarAt(s: string, i: nat) returns (r: Option<string>, j: nat)
    requires i <= |s|
    ensures Reads(s, i, r, j, ReadScalar(s[i..]))
  {
    j := i;
    while j < |s| && s[j] != ',' && s[j] != '}'
      invariant i <= j <= |s|
      invariant ScalarLength(s[i..]) == j - i + ScalarLength(s[j..])
    {
      ScalarStep(s, j);
      j := j + 1;
    }
    ScalarFound(s, i, j);
    var end := TrimmedEnd(s, i, j);
    r := if end == i then None else Some(s[i..end]);
  }

  /** `ok`, the record and the index after it are what a field's function gives. */
  predicate Fields(s: string, i: nat, ok: bool, now: Record, j: nat, spec: FieldRead)
  {
    && i <= j <= |s|
    && match spec
       case NoField => !ok
       case Field(rec, rest) => ok && now == rec && i < j && s[j..] == rest
  }

  /** One pass of the loop, from the value on. */
  method ReadValueAt(s: string, i: nat, rec: Record, key: string) returns (ok: bool, now: Record, j: nat)
    requires i <= |s|
    ensures Fields(s, i, ok, now, j, ReadValue(rec, key, s[i..]))
  {
    ok, now, j := false, rec, i;
    if j >= |s| {
      return;
    }
    if s[j] == '"' {
      var value;
      value, j := ReadStringAt(s, j);
      if value == None {
        return;
      }
      if key == "host" {
        now := now.(host := value.value);
      }
      ok := true;
    } else {
      var raw;
      raw, j := ReadScalarAt(s, j);
      if raw == None {
        return;
      }
      now := ScalarField(rec, key, raw.value);
      ok := true;
    }
  }

  method ScalarField(rec: Record, key: string, raw: string) returns (now: Record)
    ensures now == WithScalar(rec, key, raw)
  {
    now := rec;
    if key == "udp" {
      if raw == "true" {
        now := now.(udp := Some(true));
      } else if raw == "false" {
        now := now.(udp := Some(false));
      }
    } else if key == "port" {
      var port := PortOf(raw);
      if port.Some? {
        now := now.(port := port);
      }
    }
  }

  /** One pass of the loop, up to the separator: key, colon, value. */
  method ReadFieldAt(s: string, i: nat, rec: Record) returns (ok: bool, now: Record, j: nat)
    requires i <= |s|
    ensures Fields(s, i, ok, now, j, ReadField(rec, s[i..]))
  {
    ok, now := false, rec;
    j := SkipWsAt(s, i);
    var key;
    key, j := ReadStringAt(s, j);
    if key == None {
      return;
    }
    ghost var rest := s[j..];
    j := SkipWsAt(s, j);
    if j >= |s| || s[j] != ':' {
      return;
    }
    ghost var colon := s[j..];
    assert colon[1..] == s[j + 1..];
    j := j + 1;
    j := SkipWsAt(s, j);
    KeyGives(rec, s[i..], key.value, rest, colon, s[j..]);
    ok, now, j := ReadValueAt(s, j, rec, key.value);
  }

  /** The loop of `decode_record`. */
  method DecodeFields(json: string, start: nat) returns (r: Option<Record>)
    requires start <= |json|
    ensures r == ReadFields(Empty(), json[start..])
  {
    ghost var spec := ReadFields(Empty(), json[start..]);
    var i, rec := start, Empty();
    while i < |json|
      invariant i <= |json|
      invariant spec == ReadFields(rec, json[i..])
    {
      ghost var at, before := json[i..], rec;
      var ok;
      ok, rec, i := ReadFieldAt(json, i, rec);
      ghost var rest := json[i..];
      if !ok {
        return None;
      }
      i := SkipWsAt(json, i);
      if i >= |json| {
        return None;
      }
      if json[i] == ',' {
        i := i + 1;
        FieldsGoOn(before, at, rec, rest, json, i);
        continue;
      }
      return if json[i] == '}' then Some(rec) else None;
    }
    r := None;
  }

  method DecodeRecord(json: string) returns (r: Option<Record>)
    ensures r == Decode(json)
  {
    assert json[0..] == json;
    var i := SkipWsAt(json, 0);
    if i >= |json| || json[i] != '{' {
      return None;
    }
    assert json[i..][1..] == json[i + 1..];
    i := i + 1;
    i := SkipWsAt(json, i);
    if i < |json| && json[i] == '}' {
      return Some(Empty());
    }
    r := DecodeFields(json, i);
  }

  // ---- steps of the proofs -----------------------------------------------------------------

  lemma Encoded(host: string, udp: Option<bool>, port: nat, out: string)
    requires out == "{\"host\":\"" + Escape(Native, host) + "\""
                    + (if udp.Some? then ",\"udp\":" + (if udp.value then "true" else "false") else "")
                    + ",\"port\":" + Decimal(port) + "}"
    ensures out == Encode(host, udp, port)
  {
  }

  lemma ScalarStep(s: string, j: nat)
    requires j < |s| && !EndsScalar(s[j])
    ensures ScalarLength(s[j..]) == 1 + ScalarLength(s[j + 1..])
  {
    assert s[j..][1..] == s[j + 1..];
  }

  lemma ScalarFound(s: string, i: nat, j: nat)
    requires i <= j <= |s| && (j < |s| ==> EndsScalar(s[j]))
    requires ScalarLength(s[i..]) == j - i + ScalarLength(s[j..])
    ensures s[i..j][..j - i] == s[i..j]
    ensures ReadScalar(s[i..]) == if TrimEnd(s[i..j]) == "" then Fail else Got(TrimEnd(s[i..j]), s[j..])
  {
    assert s[i..][..j - i] == s[i..j] && s[i..][j - i..] == s[j..];
  }

  function Shifted(h: string, k: nat): int
    requires k <= |h|
  {
    if k == 0 then 0 else Shifted(h, k - 1) * 16 + Hex.NibbleOf(h[k - 1])
  }

  lemma ShiftedAll(h: string)
    requires |h| == 4
    ensures Shifted(h, 4)
            == ((Hex.NibbleOf(h[0]) * 16 + Hex.NibbleOf(h[1])) * 16 + Hex.NibbleOf(h[2])) * 16 + Hex.NibbleOf(h[3])
  {
    assert Shifted(h, 1) == Hex.NibbleOf(h[0]);
    assert Shifted(h, 2) == Shifted(h, 1) * 16 + Hex.NibbleOf(h[1]);
    assert Shifted(h, 3) == Shifted(h, 2) * 16 + Hex.NibbleOf(h[2]);
  }

  lemma KeyGives(rec: Record, s: string, key: string, rest: string, colon: string, value: string)
    requires ReadString(SkipWs(s)) == Got(key, rest)
    requires colon == SkipWs(rest) && colon != "" && colon[0] == ':' && value == SkipWs(colon[1..])
    ensures ReadField(rec, s) == ReadValue(rec, key, value)
  {
  }

  /** Past a comma the object goes on with what the field made of the record. */
  lemma FieldsGoOn(rec: Record, s: string, now: Record, rest: string, json: string, k: nat)
    requires 0 < k <= |json| && ReadField(rec, s) == Field(now, rest)
    requires json[k - 1..] == SkipWs(rest) && json[k - 1] == ','
    ensures ReadFields(rec, s) == ReadFields(now, json[k..])
  {
    assert json[k - 1..][1..] == json[k..];
  }

  // the inside of a string, by the characters at the index `j`; `k` is the index after them

  lemma QuoteAt(s: string, out: string, j: nat, k: nat)
    requires k == j + 1 <= |s| && s[j] == '"'
    ensures Prefixed(out, Unescape(s[j..])) == Got(out, s[k..])
  {
    assert s[j..][1..] == s[k..];
    assert out + "" == out;
  }

  lemma PlainAt(s: string, out: string, j: nat, k: nat)
    requires k == j + 1 <= |s| && s[j] != '"' && s[j] != '\\'
    ensures Prefixed(out, Unescape(s[j..])) == Prefixed(out + [s[j]], Unescape(s[k..]))
  {
    assert s[j..][1..] == s[k..];
    RecordProofs.PrefixedTwice(out, [s[j]], Unescape(s[k..]));
  }

  lemma ShortAt(s: string, out: string, j: nat, k: nat)
    requires k == j + 2 <= |s| && s[j] == '\\' && ShortEscape(s[j + 1]).Some?
    ensures Prefixed(out, Unescape(s[j..])) == Prefixed(out + [ShortEscape(s[j + 1]).value], Unescape(s[k..]))
  {
    assert s[j..][2..] == s[k..];
    RecordProofs.PrefixedTwice(out, [ShortEscape(s[j + 1]).value], Unescape(s[k..]));
  }

  lemma UnitAt(s: string, out: string, j: nat, k: nat)
    requires k == j + 6 <= |s| && s[j] == '\\' && s[j + 1] == 'u' && CodeUnit(s[j + 2..j + 6]).Some?
    ensures Prefixed(out, Unescape(s[j..])) == Prefixed(out + [CodeUnit(s[j + 2..j + 6]).value], Unescape(s[k..]))
  {
    assert s[j..][2..6] == s[j + 2..j + 6] && s[j..][6..] == s[k..];
    RecordProofs.PrefixedTwice(out, [CodeUnit(s[j + 2..j + 6]).value], Unescape(s[k..]));
  }

  lemma EscapeFails(s: string, j: nat)
    requires j < |s| && s[j] == '\\'
    requires j + 2 <= |s| ==>
               if s[j + 1] == 'u' then j + 6 > |s| || CodeUnit(s[j + 2..j + 6]) == None
               else ShortEscape(s[j + 1]) == None
    ensures Unescape(s[j..]) == Fail
  {
    if j + 6 <= |s| {
      assert s[j..][2..6] == s[j + 2..j + 6];
    }
  }
}
