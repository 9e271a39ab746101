/** The printer and the scanner agree, and exactly how far. */
module RecordProofs {
  import opened Common
  import Hex
  import opened RecordModel

  // ---- strings -----------------------------------------------------------------------------

  lemma PrefixedTwice(a: string, b: string, r: Read)
    ensures Prefixed(a, Prefixed(b, r)) == Prefixed(a + b, r)
  {
    if r.Got? {
      assert a + (b + r.value) == (a + b) + r.value;
    }
  }

  /** One piece is read as its character. */
  lemma PieceRead(p: Piece, t: string)
    requires LegalPiece(p)
    ensures Unescape(PieceText(p) + t) == Prefixed([PieceValue(p)], Unescape(t))
  {
    var s := PieceText(p) + t;
    match p
    case Plain(c) => assert s[1..] == t;
    case Short(e) => assert s[2..] == t;
    case Unit(h) => assert s[2..6] == h && s[6..] == t;
  }

  lemma ClosingQuote(after: string)
    ensures Unescape(['"'] + after) == Got("", after)
  {
    assert (['"'] + after)[1..] == after;
  }

  /** Every spelling is read whole, as what it spells. */
  lemma {:induction false} SpellingRead(ps: seq<Piece>, after: string)
    requires Legal(ps)
    ensures Unescape(Spelling(ps) + (['"'] + after)) == Got(Spelled(ps), after)
  {
    var close := ['"'] + after;
    if ps == [] {
      ClosingQuote(after);
      assert "" + close == close;
    } else {
      assert ps[0] in ps && forall p | p in ps[1..] :: p in ps;
      SpellingRead(ps[1..], after);
      Regroup(PieceText(ps[0]), Spelling(ps[1..]), close);
      PieceRead(ps[0], Spelling(ps[1..]) + close);
    }
  }

  lemma QuoteRead(ps: seq<Piece>, after: string)
    requires Legal(ps)
    ensures ReadString(QuoteText(Spelling(ps)) + after) == Got(Spelled(ps), after)
  {
    SpellingRead(ps, after);
    QuoteInside(Spelling(ps), after);
  }

  lemma QuoteInside(inside: string, after: string)
    ensures var t := QuoteText(inside) + after; t != "" && t[0] == '"' && t[1..] == inside + (['"'] + after)
  {
  }

  /** The piece a string being read begins with. */
  lemma FirstPiece(s: string) returns (p: Piece, t: string)
    requires Unescape(s).Got? && s[0] != '"'
    ensures LegalPiece(p) && s == PieceText(p) + t && |t| < |s| && Unescape(t).Got?
    ensures Unescape(s) == Prefixed([PieceValue(p)], Unescape(t))
  {
    if s[0] != '\\' {
      p, t := Plain(s[0]), s[1..];
    } else if s[1] == 'u' {
      p, t := Unit(s[2..6]), s[6..];
    } else {
      p, t := Short(s[1]), s[2..];
    }
  }

  /** And what is read as a string is the spelling of it. */
  lemma {:induction false} ReadIsSpelling(s: string) returns (ps: seq<Piece>)
    requires Unescape(s).Got?
    ensures Legal(ps) && s == Spelling(ps) + (['"'] + Unescape(s).rest) && Spelled(ps) == Unescape(s).value
    decreases |s|
  {
    if s[0] == '"' {
      ps := [];
      assert s == "" + (['"'] + s[1..]);
    } else {
      var p, t := FirstPiece(s);
      var rest := ReadIsSpelling(t);
      ps := [p] + rest;
      SpellingCons(p, rest);
      Regroup(PieceText(p), Spelling(rest), ['"'] + Unescape(t).rest);
    }
  }

  lemma SpellingCons(p: Piece, ps: seq<Piece>)
    requires LegalPiece(p) && Legal(ps)
    ensures var all := [p] + ps;
            && Legal(all) && Spelling(all) == PieceText(p) + Spelling(ps)
            && Spelled(all) == [PieceValue(p)] + Spelled(ps)
  {
    assert ([p] + ps)[1..] == ps;
  }

  // ---- the printer's spelling --------------------------------------------------------------

  /** How a printer spells a character. */
  function PieceOf(style: Style, c: char): Piece
  {
    var p := EscapeChar(style, c);
    if |p| == 1 then Plain(c) else if |p| == 2 then Short(p[1]) else Unit(p[2..])
  }

  lemma PieceOfChar(style: Style, c: char)
    ensures LegalPiece(PieceOf(style, c)) && PieceValue(PieceOf(style, c)) == c
    ensures PieceText(PieceOf(style, c)) == EscapeChar(style, c)
  {
    var p := EscapeChar(style, c);
    if |p| == 2 {
      ShortPiece(style, c, p);
    } else if |p| > 2 {
      UnitPiece(style, c, p);
    }
  }

  lemma ShortPiece(style: Style, c: char, p: string)
    requires p == EscapeChar(style, c) && |p| == 2
    ensures LegalPiece(Short(p[1])) && PieceValue(Short(p[1])) == c && PieceText(Short(p[1])) == p
  {
    assert p == ['\\', p[1]];
  }

  lemma UnitPiece(style: Style, c: char, p: string)
    requires p == EscapeChar(style, c) && |p| > 2
    ensures LegalPiece(Unit(p[2..])) && PieceValue(Unit(p[2..])) == c && PieceText(Unit(p[2..])) == p
  {
    Hex.NibbleOfDigit(c as int / 16);
    Hex.NibbleOfDigit(c as int % 16);
    assert p == ['\\', 'u'] + p[2..];
  }

  function PiecesOf(style: Style, s: string): seq<Piece>
  {
    seq(|s|, i requires 0 <= i < |s| => PieceOf(style, s[i]))
  }

  lemma PiecesCons(style: Style, s: string)
    requires s != ""
    ensures PiecesOf(style, s) == [PieceOf(style, s[0])] + PiecesOf(style, s[1..])
  {
  }

  /** A printed string is a spelling of it, whichever printer printed it. */
  lemma {:induction false} PrintedSpells(style: Style, s: string)
    ensures Legal(PiecesOf(style, s)) && Spelled(PiecesOf(style, s)) == s
    ensures Spelling(PiecesOf(style, s)) == Escape(style, s)
  {
    if s == "" {
    } else {
      var p, ps := PieceOf(style, s[0]), PiecesOf(style, s[1..]);
      PieceOfChar(style, s[0]);
      PrintedSpells(style, s[1..]);
      PiecesCons(style, s);
      SpellingCons(p, ps);
      FirstAndRest(s);
    }
  }

  lemma FirstAndRest(s: string)
    requires s != ""
    ensures [s[0]] + s[1..] == s
  {
  }

  /** So it is read back whole. */
  lemma StringRead(style: Style, s: string, after: string)
    ensures ReadString(QuoteText(Escape(style, s)) + after) == Got(s, after)
  {
    PrintedSpells(style, s);
    QuoteRead(PiecesOf(style, s), after);
  }

  lemma EscapesCompare(c: char, a: string, b: string)
    ensures EscapeChar(Native, c) + a == EscapeChar(Ecma, c) + b
            <==> c != BACKSPACE && c != FORM_FEED && a == b
  {
    var n, e := EscapeChar(Native, c), EscapeChar(Ecma, c);
    if c == BACKSPACE || c == FORM_FEED {
      assert (n + a)[1] == n[1] && (e + b)[1] == e[1];
    } else {
      assert n == e;
      assert (n + a)[|n|..] == a && (n + b)[|n|..] == b;
    }
  }

  /** The source prints what JSON.stringify does exactly when there is no backspace and no form feed. */
  lemma {:induction false} NativeIsEcmaExactly(s: string)
    ensures Escape(Native, s) == Escape(Ecma, s) <==> BACKSPACE !in s && FORM_FEED !in s
  {
    if s == "" {
    } else {
      NativeIsEcmaExactly(s[1..]);
      EscapesCompare(s[0], Escape(Native, s[1..]), Escape(Ecma, s[1..]));
      assert s == [s[0]] + s[1..];
    }
  }

  // ---- whitespace and scalars --------------------------------------------------------------

  lemma {:induction false} BlankSkipped(w: string, t: string)
    requires Blank(w) && (t == "" || !IsWs(t[0]))
    ensures SkipWs(w + t) == t
  {
    if w == "" {
      assert w + t == t;
    } else {
      assert w[0] in w && forall c | c in w[1..] :: c in w;
      BlankSkipped(w[1..], t);
      assert (w + t)[1..] == w[1..] + t;
    }
  }

  lemma {:induction false} ScalarReaches(a: string, t: string)
    requires (forall c | c in a :: !EndsScalar(c)) && t != "" && EndsScalar(t[0])
    ensures ScalarLength(a + t) == |a|
  {
    if a == "" {
      assert a + t == t;
    } else {
      assert a[0] in a && forall c | c in a[1..] :: c in a;
      ScalarReaches(a[1..], t);
      assert (a + t)[1..] == a[1..] + t;
    }
  }

  lemma {:induction false} BlankTrimmed(raw: string, w: string)
    requires Blank(w) && raw != "" && !IsWs(raw[|raw| - 1])
    ensures TrimEnd(raw + w) == raw
    decreases |w|
  {
    if w == "" {
      assert raw + w == raw;
    } else {
      var v := w[..|w| - 1];
      assert w[|w| - 1] in w && forall c | c in v :: c in w;
      BlankTrimmed(raw, v);
      assert (raw + w)[..|raw + w| - 1] == raw + v;
    }
  }

  lemma SimpleRead(raw: string, w: string, after: string)
    requires Simple(raw) && Blank(w) && after != "" && EndsScalar(after[0])
    ensures ReadScalar(raw + w + after) == Got(raw, after)
  {
    assert forall c | c in raw + w :: !EndsScalar(c) by {
      forall c | c in raw + w ensures !EndsScalar(c) {
        assert c in raw || c in w;
      }
    }
    ScalarReaches(raw + w, after);
    BlankTrimmed(raw, w);
    assert (raw + w + after)[..|raw + w|] == raw + w && (raw + w + after)[|raw + w|..] == after;
  }

  // ---- fields ------------------------------------------------------------------------------

  lemma TextValueRead(rec: Record, key: string, ps: seq<Piece>, rest: string)
    requires Legal(ps)
    ensures ReadValue(rec, key, QuoteText(Spelling(ps)) + rest) == Field(WithText(rec, key, Spelled(ps)), rest)
  {
    QuoteRead(ps, rest);
    QuoteInside(Spelling(ps), rest);
  }

  lemma ScalarValueRead(rec: Record, key: string, raw: string, w: string, after: string)
    requires Simple(raw) && Blank(w) && after != "" && EndsScalar(after[0])
    ensures ReadValue(rec, key, raw + w + after) == Field(WithScalar(rec, key, raw), after)
  {
    SimpleRead(raw, w, after);
  }

  /** One written value is read as what it means, up to the separator after it. */
  lemma ValueRead(rec: Record, t: Token, after: string)
    requires Readable(t) && after != "" && EndsScalar(after[0])
    ensures var f := ReadValue(rec, Spelled(t.key), WriteValue(t.value) + t.w3 + after);
            f.Field? && f.rec == Apply(rec, Meaning(t)) && SkipWs(f.rest) == after
  {
    match t.value
    case Quoted(ps) =>
      Regroup(QuoteText(Spelling(ps)), t.w3, after);
      TextValueRead(rec, Spelled(t.key), ps, t.w3 + after);
      BlankSkipped(t.w3, after);
    case Bare(raw) =>
      ScalarValueRead(rec, Spelled(t.key), raw, t.w3, after);
      BlankSkipped("", after);
      assert "" + after == after;
  }

  lemma FieldReadBack(rec: Record, t: Token, after: string)
    requires Readable(t) && after != "" && EndsScalar(after[0])
    ensures var f := ReadField(rec, Write(t) + after);
            f.Field? && f.rec == Apply(rec, Meaning(t)) && SkipWs(f.rest) == after
  {
    var value := WriteValue(t.value) + t.w3 + after;
    var colon := [':'] + (t.w2 + value);
    var key := QuoteText(Spelling(t.key)) + (t.w1 + colon);
    assert Write(t) + after == t.w0 + key;
    BlankSkipped(t.w0, key);
    QuoteRead(t.key, t.w1 + colon);
    BlankSkipped(t.w1, colon);
    assert colon[1..] == t.w2 + value;
    ValueStarts(t.value);
    BlankSkipped(t.w2, value);
    ValueRead(rec, t, after);
  }

  lemma ValueStarts(v: Written)
    requires ReadableValue(v)
    ensures WriteValue(v) != "" && !IsWs(WriteValue(v)[0])
  {
  }

  lemma MeaningsHead(ts: seq<Token>)
    requires ts != [] && AllReadable(ts)
    ensures Readable(ts[0]) && AllReadable(ts[1..])
    ensures Meanings(ts) != [] && Meanings(ts)[0] == Meaning(ts[0]) && Meanings(ts)[1..] == Meanings(ts[1..])
  {
    assert ts[0] in ts && forall t | t in ts[1..] :: t in ts;
  }

  lemma {:induction false} FieldsReadBack(rec: Record, ts: seq<Token>, after: string)
    requires ts != [] && AllReadable(ts)
    ensures ReadFields(rec, WriteAll(ts, after)) == Some(Fold(rec, Meanings(ts)))
    decreases |ts|
  {
    MeaningsHead(ts);
    if |ts| == 1 {
      FieldReadBack(rec, ts[0], ['}'] + after);
    } else {
      var more := WriteAll(ts[1..], after);
      FieldReadBack(rec, ts[0], [','] + more);
      assert ([','] + more)[1..] == more;
      FieldsReadBack(Apply(rec, Meaning(ts[0])), ts[1..], after);
    }
  }

  /** Blanks in front of the first field make no difference to it. */
  lemma SkippedTwice(rec: Record, w: string, rest: string)
    requires Blank(w) && rest != "" && !IsWs(rest[0])
    ensures ReadFields(rec, rest) == ReadFields(rec, w + rest)
  {
    BlankSkipped(w, rest);
    BlankSkipped("", rest);
    assert "" + rest == rest;
  }

  lemma FirstToken(ts: seq<Token>, after: string) returns (rest: string)
    requires ts != [] && AllReadable(ts)
    ensures WriteAll(ts, after) == ts[0].w0 + rest && rest != "" && rest[0] == '"' && Blank(ts[0].w0)
  {
    MeaningsHead(ts);
    rest := WriteAll(ts, after)[|ts[0].w0|..];
  }

  lemma Blanks(a: string, b: string)
    requires Blank(a) && Blank(b)
    ensures Blank(a + b)
  {
  }

  /** Whatever the order, the whitespace and the spelling, and whatever follows the object, the scanner
      returns the fold of the fields: strings and simple scalars, at least one. */
  lemma ScannerFolds(json: string, lead: string, inner: string, ts: seq<Token>, after: string)
    requires FullObject(json, lead, inner, ts, after)
    ensures Decode(json) == Some(Fold(Empty(), Meanings(ts)))
  {
    var body := WriteAll(ts, after);
    BlankSkipped(lead, ['{'] + (inner + body));
    assert (['{'] + (inner + body))[1..] == inner + body;
    var rest := FirstToken(ts, after);
    var w := ts[0].w0;
    Blanks(inner, w);
    Regroup(inner, w, rest);
    BlankSkipped(inner + w, rest);
    FieldsReadBack(Empty(), ts, after);
    SkippedTwice(Empty(), w, rest);
  }

  lemma EmptyRead(json: string, lead: string, inner: string, after: string)
    requires EmptyObject(json, lead, inner, after)
    ensures Decode(json) == Some(Empty())
  {
    var body := ['}'] + after;
    BlankSkipped(lead, ['{'] + (inner + body));
    assert (['{'] + (inner + body))[1..] == inner + body;
    BlankSkipped(inner, body);
  }

  // ---- and nothing else is read ------------------------------------------------------------

  lemma {:induction false} BlankSplit(s: string) returns (w: string)
    ensures Blank(w) && s == w + SkipWs(s) && (SkipWs(s) == "" || !IsWs(SkipWs(s)[0]))
  {
    w := "";
    if s != "" && IsWs(s[0]) {
      var rest := BlankSplit(s[1..]);
      w := [s[0]] + rest;
      assert s == [s[0]] + s[1..];
    }
  }

  lemma {:induction false} TrimSplit(s: string) returns (w: string)
    ensures Blank(w) && s == TrimEnd(s) + w
    ensures TrimEnd(s) != "" ==> !IsWs(TrimEnd(s)[|TrimEnd(s)| - 1])
  {
    w := "";
    if s != "" && IsWs(s[|s| - 1]) {
      var front := s[..|s| - 1];
      var rest := TrimSplit(front);
      w := rest + [s[|s| - 1]];
      assert s == front + [s[|s| - 1]];
    }
  }

  lemma ScalarSplit(s: string) returns (w: string)
    requires s != "" && s[0] != '"' && !IsWs(s[0]) && ReadScalar(s).Got?
    ensures var r := ReadScalar(s);
            && Simple(r.value) && Blank(w) && s == r.value + (w + r.rest)
            && (r.rest == "" || EndsScalar(r.rest[0]))
  {
    var r, n := ReadScalar(s), ScalarLength(s);
    w := TrimSplit(s[..n]);
    assert s == s[..n] + s[n..];
    assert r.value <= s[..n];
    assert r.value[0] == s[0];
    forall c | c in r.value ensures !EndsScalar(c) {
      var i :| 0 <= i < |r.value| && r.value[i] == c;
      assert s[i] == c;
    }
    Regroup(r.value, w, r.rest);
  }

  lemma NoBlank(t: string)
    requires t == "" || !IsWs(t[0])
    ensures SkipWs(t) == t
  {
  }

  /** A value that is read, up to the next thing that is not blank. */
  lemma ValueWritten(rec: Record, key: string, s: string) returns (v: Written, w3: string)
    requires (s == "" || !IsWs(s[0])) && ReadValue(rec, key, s).Field?
    ensures var f := ReadValue(rec, key, s);
            && ReadableValue(v) && Blank(w3) && s == WriteValue(v) + (w3 + SkipWs(f.rest))
            && f.rec == match v
                        case Quoted(ps) => WithText(rec, key, Spelled(ps))
                        case Bare(raw) => WithScalar(rec, key, raw)
  {
    var f := ReadValue(rec, key, s);
    if s[0] == '"' {
      var ps := StringWritten(s);
      v := Quoted(ps);
      w3 := BlankSplit(f.rest);
    } else {
      w3 := ScalarSplit(s);
      v := Bare(ReadScalar(s).value);
      NoBlank(f.rest);
    }
  }

  lemma StringWritten(s: string) returns (ps: seq<Piece>)
    requires ReadString(s).Got?
    ensures Legal(ps) && Spelled(ps) == ReadString(s).value && s == QuoteText(Spelling(ps)) + ReadString(s).rest
  {
    ps := ReadIsSpelling(s[1..]);
    assert s == ['"'] + s[1..];
    Regroup(Spelling(ps), ['"'], ReadString(s).rest);
    Regroup(['"'], Spelling(ps) + ['"'], ReadString(s).rest);
  }

  /** The parts of a field that is read. */
  lemma FieldParts(rec: Record, s: string) returns (key: string, s2: string, s3: string)
    requires ReadField(rec, s).Field?
    ensures ReadString(SkipWs(s)) == Got(key, s2) && s3 == SkipWs(s2) && s3 != "" && s3[0] == ':'
    ensures ReadField(rec, s) == ReadValue(rec, key, SkipWs(s3[1..]))
  {
    var r := ReadString(SkipWs(s));
    key, s2, s3 := r.value, r.rest, SkipWs(r.rest);
  }

  lemma HeadWritten(s: string, s2: string, s3: string)
    returns (w0: string, key: seq<Piece>, w1: string, w2: string)
    requires ReadString(SkipWs(s)).Got? && ReadString(SkipWs(s)).rest == s2
    requires s3 == SkipWs(s2) && s3 != "" && s3[0] == ':'
    ensures Blank(w0) && Blank(w1) && Blank(w2) && Legal(key) && Spelled(key) == ReadString(SkipWs(s)).value
    ensures s == w0 + (QuoteText(Spelling(key)) + (w1 + ([':'] + (w2 + SkipWs(s3[1..])))))
  {
    w0 := BlankSplit(s);
    key := StringWritten(SkipWs(s));
    w1 := BlankSplit(s2);
    w2 := BlankSplit(s3[1..]);
    assert s3 == [':'] + s3[1..];
  }

  lemma FieldWritten(rec: Record, s: string) returns (t: Token)
    requires ReadField(rec, s).Field?
    ensures var f := ReadField(rec, s);
            Readable(t) && s == Write(t) + SkipWs(f.rest) && f.rec == Apply(rec, Meaning(t))
  {
    var name, s2, s3 := FieldParts(rec, s);
    var w0, key, w1, w2 := HeadWritten(s, s2, s3);
    BlankSkippedOnce(s3[1..]);
    var v, w3 := ValueWritten(rec, name, SkipWs(s3[1..]));
    t := Token(w0, key, w1, w2, v, w3);
    FieldJoined(t, SkipWs(ReadField(rec, s).rest));
  }

  lemma BlankSkippedOnce(s: string)
    ensures SkipWs(s) == "" || !IsWs(SkipWs(s)[0])
  {
    var w := BlankSplit(s);
  }

  /** The parts of a written field, however they are grouped. */
  lemma FieldJoined(t: Token, last: string)
    ensures t.w0 + (QuoteText(Spelling(t.key)) + (t.w1 + ([':'] + (t.w2 + (WriteValue(t.value) + (t.w3 + last))))))
            == Write(t) + last
  {
    var v := WriteValue(t.value) + t.w3;
    Regroup(WriteValue(t.value), t.w3, last);
    Regroup(t.w2, v, last);
    Regroup([':'], t.w2 + v, last);
    Regroup(t.w1, [':'] + (t.w2 + v), last);
    Regroup(QuoteText(Spelling(t.key)), t.w1 + ([':'] + (t.w2 + v)), last);
    Regroup(t.w0, QuoteText(Spelling(t.key)) + (t.w1 + ([':'] + (t.w2 + v))), last);
  }

  lemma {:induction false} FieldsWritten(rec: Record, s: string) returns (ts: seq<Token>, after: string)
    requires ReadFields(rec, s).Some?
    ensures ts != [] && AllReadable(ts) && s == WriteAll(ts, after)
    ensures ReadFields(rec, s).value == Fold(rec, Meanings(ts))
    decreases |s|
  {
    var next, u := FieldsParts(rec, s);
    var t := FieldWritten(rec, s);
    if u[0] == ',' {
      var more;
      more, after := FieldsWritten(next, u[1..]);
      ts := [t] + more;
      TokensCons(rec, t, more, after);
    } else {
      ts, after := [t], u[1..];
      TokenAlone(rec, t, after);
    }
  }

  /** One field, and what stands behind it. */
  lemma FieldsParts(rec: Record, s: string) returns (next: Record, u: string)
    requires ReadFields(rec, s).Some?
    ensures var f := ReadField(rec, s);
            f.Field? && next == f.rec && u == SkipWs(f.rest) && u != "" && u == [u[0]] + u[1..] && |u| <= |s|
    ensures if u[0] == ',' then ReadFields(rec, s) == ReadFields(next, u[1..])
            else u[0] == '}' && ReadFields(rec, s) == Some(next)
  {
    next, u := ReadField(rec, s).rec, SkipWs(ReadField(rec, s).rest);
  }

  lemma TokenAlone(rec: Record, t: Token, after: string)
    requires Readable(t)
    ensures AllReadable([t]) && WriteAll([t], after) == Write(t) + (['}'] + after)
    ensures Fold(rec, Meanings([t])) == Apply(rec, Meaning(t))
  {
    var ts := [t];
    assert ts[1..] == [];
    MeaningsHead(ts);
  }

  lemma TokensCons(rec: Record, t: Token, more: seq<Token>, after: string)
    requires Readable(t) && more != [] && AllReadable(more)
    ensures var ts := [t] + more;
            && AllReadable(ts) && WriteAll(ts, after) == Write(t) + ([','] + WriteAll(more, after))
            && Fold(rec, Meanings(ts)) == Fold(Apply(rec, Meaning(t)), Meanings(more))
  {
    assert ([t] + more)[1..] == more;
    MeaningsHead([t] + more);
  }

  /** The scanner accepts exactly the objects, and returns exactly what they mean. */
  lemma DecodesExactly(json: string, rec: Record)
    ensures Decode(json) == Some(rec) <==> IsObject(json, rec)
  {
    if Decode(json) == Some(rec) {
      ObjectWritten(json, rec);
    }
    if IsObject(json, rec) {
      ObjectRead(json, rec);
    }
  }

  lemma ObjectRead(json: string, rec: Record)
    requires IsObject(json, rec)
    ensures Decode(json) == Some(rec)
  {
    if lead: string, inner: string, after: string :| EmptyObject(json, lead, inner, after) && rec == Empty() {
      EmptyRead(json, lead, inner, after);
    } else {
      var lead: string, inner: string, ts: seq<Token>, after: string :|
        FullObject(json, lead, inner, ts, after) && rec == Fold(Empty(), Meanings(ts));
      ScannerFolds(json, lead, inner, ts, after);
    }
  }

  lemma ObjectParts(json: string) returns (s: string, t: string)
    requires Decode(json).Some?
    ensures s == SkipWs(json) && s != "" && s[0] == '{' && t == SkipWs(s[1..]) && t != ""
    ensures Decode(json) == if t[0] == '}' then Some(Empty()) else ReadFields(Empty(), t)
  {
    s := SkipWs(json);
    t := SkipWs(s[1..]);
  }

  lemma ObjectWritten(json: string, rec: Record)
    requires Decode(json) == Some(rec)
    ensures IsObject(json, rec)
  {
    var s, t := ObjectParts(json);
    var lead := BlankSplit(json);
    var inner := BlankSplit(s[1..]);
    if t[0] == '}' {
      EmptyIsObject(json, lead, s, inner, t);
    } else {
      var ts, after := FieldsWritten(Empty(), t);
      FullIsObject(json, lead, s, inner, ts, after);
    }
  }

  lemma EmptyIsObject(json: string, lead: string, s: string, inner: string, t: string)
    requires Blank(lead) && json == lead + s && s != "" && s[0] == '{'
    requires Blank(inner) && s[1..] == inner + t && t != "" && t[0] == '}'
    ensures IsObject(json, Empty())
  {
    assert s == ['{'] + s[1..] && t == ['}'] + t[1..];
    assert EmptyObject(json, lead, inner, t[1..]);
  }

  lemma FullIsObject(json: string, lead: string, s: string, inner: string, ts: seq<Token>, after: string)
    requires Blank(lead) && json == lead + s && s != "" && s[0] == '{'
    requires Blank(inner) && ts != [] && AllReadable(ts) && s[1..] == inner + WriteAll(ts, after)
    ensures IsObject(json, Fold(Empty(), Meanings(ts)))
  {
    assert s == ['{'] + s[1..];
    assert FullObject(json, lead, inner, ts, after);
  }

  /** In the fold, the last string host, the last true or false, and the last port in range win, and
      everything else is ignored. */
  lemma {:induction false} FoldIsLast(rec: Record, items: seq<Item>)
    ensures Some(Fold(rec, items).host) == Last(items, HostOf, Some(rec.host))
    ensures Fold(rec, items).udp == Last(items, UdpOf, rec.udp)
    ensures Fold(rec, items).port == Last(items, PortIn, rec.port)
    decreases |items|
  {
    if items == [] {
    } else {
      var front, x := items[..|items| - 1], items[|items| - 1];
      FoldIsLast(rec, front);
      FoldSnoc(rec, front, x);
      assert front + [x] == items;
    }
  }

  lemma {:induction false} FoldSnoc(rec: Record, items: seq<Item>, x: Item)
    ensures Fold(rec, items + [x]) == Apply(Fold(rec, items), x)
    decreases |items|
  {
    if items == [] {
      assert items + [x] == [x];
    } else {
      assert (items + [x])[1..] == items[1..] + [x];
      FoldSnoc(Apply(rec, items[0]), items[1..], x);
    }
  }

  // ---- ports -------------------------------------------------------------------------------

  predicate Spaces(s: string) { forall c | c in s :: IsSpace(c) }

  /** What `strtol` reads to the end: spaces, perhaps a plus, digits, and nothing but what a NUL hides. */
  predicate PortText(sp: string, sign: string, ds: string, junk: string)
  {
    && Spaces(sp) && (sign == "" || sign == "+") && ds != "" && AllDigits(ds)
    && (junk == "" || junk[0] == 0 as char)
  }

  lemma {:induction false} CStringStops(s: string, junk: string)
    requires (forall c | c in s :: c != 0 as char) && (junk == "" || junk[0] == 0 as char)
    ensures CString(s + junk) == s
  {
    if s == "" {
      assert s + junk == junk;
    } else {
      assert s[0] in s && forall c | c in s[1..] :: c in s;
      CStringStops(s[1..], junk);
      assert (s + junk)[1..] == s[1..] + junk;
    }
  }

  lemma {:induction false} SpacesSkipped(sp: string, t: string)
    requires Spaces(sp) && (t == "" || !IsSpace(t[0]))
    ensures SkipSpace(sp + t) == t
  {
    if sp == "" {
      assert sp + t == t;
    } else {
      assert sp[0] in sp && forall c | c in sp[1..] :: c in sp;
      SpacesSkipped(sp[1..], t);
      assert (sp + t)[1..] == sp[1..] + t;
    }
  }

  lemma {:induction false} RunOfDigits(ds: string)
    requires AllDigits(ds)
    ensures DigitRun(ds) == |ds|
  {
    if ds == "" {
    } else {
      assert ds[0] in ds && forall c | c in ds[1..] :: c in ds;
      RunOfDigits(ds[1..]);
    }
  }

  /** `strtol` reads such a text to its end. */
  lemma StrtolRead(sp: string, sign: string, ds: string)
    requires PortText(sp, sign, ds, "")
    ensures Strtol(sp + (sign + ds)) == (if DecimalValue(ds) > LONG_MAX then LONG_MAX else DecimalValue(ds), "")
  {
    assert ds[0] in ds;
    var s := sign + ds;
    SpacesSkipped(sp, s);
    RunOfDigits(ds);
    assert ds[..|ds|] == ds && ds[|ds|..] == "";
    if sign == "+" {
      assert s[0] == '+' && s[1..] == ds;
    } else {
      assert s == ds;
    }
  }

  /** Such a text gives its decimal value when that is a port, and nothing otherwise. */
  lemma PortRead(sp: string, sign: string, ds: string, junk: string)
    requires PortText(sp, sign, ds, junk)
    ensures var v := DecimalValue(ds);
            PortOf(sp + (sign + ds) + junk) == if 1 <= v <= 65535 then Some(v) else None
  {
    var text := sp + (sign + ds);
    forall c | c in text ensures c != 0 as char {
      assert c in sp || c in sign || c in ds;
    }
    CStringStops(text, junk);
    StrtolRead(sp, sign, ds);
  }

  lemma {:induction false} CStringSplits(s: string) returns (junk: string)
    ensures s == CString(s) + junk && (junk == "" || junk[0] == 0 as char)
  {
    if s == "" || s[0] == 0 as char {
      junk := s;
    } else {
      junk := CStringSplits(s[1..]);
      assert s == [s[0]] + s[1..];
    }
  }

  lemma {:induction false} SpacesSplit(s: string) returns (sp: string)
    ensures s == sp + SkipSpace(s) && Spaces(sp)
  {
    sp := "";
    if s != "" && IsSpace(s[0]) {
      var rest := SpacesSplit(s[1..]);
      sp := [s[0]] + rest;
      assert s == [s[0]] + s[1..];
    }
  }

  /** A text whose value is positive and which `strtol` reads to its end is of that form. */
  lemma StrtolIsText(text: string) returns (sp: string, sign: string, ds: string)
    requires Strtol(text).0 >= 1 && Strtol(text).1 == ""
    ensures PortText(sp, sign, ds, "") && text == sp + (sign + ds)
  {
    sp := SpacesSplit(text);
    var s := SkipSpace(text);
    if s != "" && s[0] == '-' {
      assert false;
    }
    sign := if s != "" && s[0] == '+' then "+" else "";
    ds := if s != "" && s[0] == '+' then s[1..] else s;
    assert s == sign + ds;
    assert ds[DigitRun(ds)..] == "";
    assert ds[..DigitRun(ds)] == ds;
  }

  /** And a text that gives a port is such a text, with that value. */
  lemma PortIsText(raw: string) returns (sp: string, sign: string, ds: string, junk: string)
    requires PortOf(raw).Some?
    ensures PortText(sp, sign, ds, junk) && raw == sp + (sign + ds) + junk
    ensures PortOf(raw) == Some(DecimalValue(ds)) && 1 <= DecimalValue(ds) <= 65535
  {
    junk := CStringSplits(raw);
    sp, sign, ds := StrtolIsText(CString(raw));
    PortRead(sp, sign, ds, junk);
  }

  lemma {:induction false} DecimalDigits(n: nat)
    ensures Decimal(n) != "" && AllDigits(Decimal(n)) && DecimalValue(Decimal(n)) == n
  {
    if n < 10 {
      assert DecimalValue("") == 0;
      assert Decimal(n)[..0] == "";
    } else {
      DecimalDigits(n / 10);
      var s := Decimal(n / 10);
      assert (s + [DigitChar(n % 10)])[..|s|] == s;
    }
  }

  lemma DecimalPort(n: nat)
    ensures PortOf(Decimal(n)) == if 1 <= n <= 65535 then Some(n) else None
  {
    DecimalDigits(n);
    PortRead("", "", Decimal(n), "");
    assert "" + ("" + Decimal(n)) + "" == Decimal(n);
  }

  // ---- the record --------------------------------------------------------------------------

  function TokenOf(x: Item): Token
  {
    Token("", PiecesOf(Native, x.key), "", "",
          match x.value case Text(text) => Quoted(PiecesOf(Native, text)) case Scalar(raw) => Bare(raw), "")
  }

  function TokensOf(items: seq<Item>): seq<Token>
  {
    seq(|items|, i requires 0 <= i < |items| => TokenOf(items[i]))
  }

  predicate Writable(x: Item) { x.value.Scalar? ==> Simple(x.value.raw) }

  lemma TokenMeans(x: Item)
    requires Writable(x)
    ensures Readable(TokenOf(x)) && Meaning(TokenOf(x)) == x
  {
    PrintedSpells(Native, x.key);
    if x.value.Text? {
      PrintedSpells(Native, x.value.text);
    }
  }

  lemma TokensMean(items: seq<Item>)
    requires forall x | x in items :: Writable(x)
    ensures AllReadable(TokensOf(items)) && Meanings(TokensOf(items)) == items
  {
    forall i | 0 <= i < |items| ensures Readable(TokensOf(items)[i]) && Meaning(TokensOf(items)[i]) == items[i] {
      assert items[i] in items;
      TokenMeans(items[i]);
    }
  }

  predicate Letters(s: string) { forall c | c in s :: 'a' <= c <= 'z' }

  lemma {:induction false} LettersKept(s: string)
    requires Letters(s)
    ensures Escape(Native, s) == s
  {
    if s == "" {
    } else {
      assert s[0] in s && forall c | c in s[1..] :: c in s;
      LettersKept(s[1..]);
    }
  }

  function ValueText(v: Value): string
  {
    match v case Text(text) => QuoteText(Escape(Native, text)) case Scalar(raw) => raw
  }

  /** A field of the source's own, before `next`. */
  lemma PlainWritten(x: Item, next: string)
    requires Letters(x.key)
    ensures Write(TokenOf(x)) + next == "\"" + x.key + "\":" + ValueText(x.value) + next
  {
    LettersKept(x.key);
    PrintedSpells(Native, x.key);
    if x.value.Text? {
      PrintedSpells(Native, x.value.text);
    }
    PlainJoined(x.key, ValueText(x.value), next);
  }

  lemma PlainJoined(k: string, v: string, next: string)
    ensures ("" + (QuoteText(k) + ("" + ([':'] + ("" + (v + "")))))) + next == "\"" + k + "\":" + v + next
  {
    assert "\":" == ['"'] + [':'];
    assert "" + ([':'] + ("" + (v + ""))) == [':'] + v;
    assert "" + (QuoteText(k) + ([':'] + v)) == QuoteText(k) + ([':'] + v);
  }

  lemma WriteLast(ts: seq<Token>, after: string)
    requires |ts| == 1
    ensures WriteAll(ts, after) == Write(ts[0]) + (['}'] + after)
  {
  }

  lemma WriteNext(ts: seq<Token>, after: string)
    requires |ts| > 1
    ensures WriteAll(ts, after) == Write(ts[0]) + ([','] + WriteAll(ts[1..], after))
  {
  }

  /** The fields' text, with the names and the printed values kept as variables. */
  function Texts(h: string, u: string, p: string, host: string, udp: Option<string>, port: string): string
  {
    ("\"" + h + "\":" + ("\"" + host + "\"") +
     ("," + match udp
       case None => "\"" + p + "\":" + port + "}"
       case Some(b) => "\"" + u + "\":" + b + ("," + ("\"" + p + "\":" + port + "}"))))
  }

  function ItemsOf(h: string, u: string, p: string, host: string, udp: Option<string>, port: string): seq<Item>
  {
    var last := [Item(p, Scalar(port))];
    [Item(h, Text(host))] + match udp case None => last case Some(b) => [Item(u, Scalar(b))] + last
  }

  lemma LastWritten(p: string, port: string)
    requires Letters(p)
    ensures WriteAll(TokensOf([Item(p, Scalar(port))]), "") == "\"" + p + "\":" + port + "}"
  {
    var last := Item(p, Scalar(port));
    assert TokensOf([last]) == [TokenOf(last)];
    WriteLast([TokenOf(last)], "");
    PlainWritten(last, ['}'] + "");
  }

  lemma NextWritten(x: Item, items: seq<Item>)
    requires Letters(x.key) && items != []
    ensures WriteAll(TokensOf([x] + items), "")
            == "\"" + x.key + "\":" + ValueText(x.value) + ("," + WriteAll(TokensOf(items), ""))
  {
    var ts := TokensOf([x] + items);
    assert ts[0] == TokenOf(x) && ts[1..] == TokensOf(items);
    WriteNext(ts, "");
    PlainWritten(x, [','] + WriteAll(TokensOf(items), ""));
  }

  lemma ItemsWritten(h: string, u: string, p: string, host: string, udp: Option<string>, port: string)
    requires Letters(h) && Letters(u) && Letters(p)
    ensures WriteAll(TokensOf(ItemsOf(h, u, p, host, udp, port)), "") == Texts(h, u, p, Escape(Native, host), udp, port)
  {
    var last := [Item(p, Scalar(port))];
    LastWritten(p, port);
    if udp.Some? {
      NextWritten(Item(u, Scalar(udp.value)), last);
      HostWritten(h, host, [Item(u, Scalar(udp.value))] + last);
    } else {
      HostWritten(h, host, last);
    }
  }

  lemma HostWritten(h: string, host: string, items: seq<Item>)
    requires Letters(h) && items != []
    ensures WriteAll(TokensOf([Item(h, Text(host))] + items), "")
            == "\"" + h + "\":" + ("\"" + Escape(Native, host) + "\"") + ("," + WriteAll(TokensOf(items), ""))
  {
    NextWritten(Item(h, Text(host)), items);
    QuoteBothEnds(Escape(Native, host));
  }

  lemma QuoteBothEnds(e: string)
    ensures QuoteText(e) == "\"" + e + "\""
  {
  }

  lemma ItemsFold(rec: Record, h: string, u: string, p: string, host: string, udp: Option<string>, port: string)
    ensures var r := Apply(rec, Item(h, Text(host)));
            var r' := if udp.Some? then Apply(r, Item(u, Scalar(udp.value))) else r;
            Fold(rec, ItemsOf(h, u, p, host, udp, port)) == Apply(r', Item(p, Scalar(port)))
  {
    var items, last := ItemsOf(h, u, p, host, udp, port), [Item(p, Scalar(port))];
    var r := Apply(rec, Item(h, Text(host)));
    assert last[1..] == [];
    if udp.Some? {
      var two := items[1..];
      assert two[1..] == last && two[0] == Item(u, Scalar(udp.value));
      assert Fold(r, two) == Fold(Apply(r, two[0]), last);
      assert Fold(Apply(r, two[0]), last) == Apply(Apply(r, two[0]), last[0]);
    } else {
      assert items[1..] == last;
      assert Fold(r, last) == Apply(r, last[0]);
    }
  }

  function FlagText(udp: Option<bool>): Option<string>
  {
    if udp == None then None else Some(if udp.value then "true" else "false")
  }

  /** The fields `encode_record` prints. */
  function Fields(host: string, udp: Option<bool>, port: nat): seq<Item>
  {
    ItemsOf("host", "udp", "port", host, FlagText(udp), Decimal(port))
  }

  /** What is put between the values, as variables. */
  predicate Glue(open: string, flag: string, port: string, quote: string, close: string)
  {
    open == "{\"host\":\"" && flag == ",\"udp\":" && port == ",\"port\":" && quote == "\"" && close == "}"
  }

  lemma EncodeShape(open: string, flag: string, pt: string, quote: string, close: string,
                    host: string, udp: Option<bool>, port: nat)
    requires Glue(open, flag, pt, quote, close)
    ensures Encode(host, udp, port) == open + Escape(Native, host) + quote
            + (if udp.Some? then flag + FlagText(udp).value else "") + pt + Decimal(port) + close
  {
  }

  lemma TextsShape(open: string, flag: string, pt: string, quote: string, close: string,
                   h: string, u: string, p: string, e: string, f: Option<string>, d: string)
    requires Glue(open, flag, pt, quote, close) && h == "host" && u == "udp" && p == "port"
    ensures "{" + Texts(h, u, p, e, f, d)
            == open + e + quote + (if f.Some? then flag + f.value else "") + pt + d + close
  {
    var hq, uq, pq := quote + h + "\":", quote + u + "\":", quote + p + "\":";
    assert open == "{" + (hq + quote) && flag == "," + uq && pt == "," + pq;
    Regrouped("{", quote, ",", hq, e, uq, if f.Some? then f.value else "", pq, d, close);
  }

  /** The same text, however its pieces are grouped. */
  lemma Regrouped(brace: string, quote: string, comma: string, h: string, e: string, u: string, b: string,
                  p: string, d: string, close: string)
    ensures brace + (h + quote) + e + quote + (comma + u + b) + (comma + p) + d + close
            == brace + (h + (quote + e + quote) + (comma + (u + b + (comma + (p + d + close)))))
    ensures brace + (h + quote) + e + quote + "" + (comma + p) + d + close
            == brace + (h + (quote + e + quote) + (comma + (p + d + close)))
  {
  }

  lemma EncodeIsTexts(h: string, u: string, p: string, host: string, udp: Option<bool>, port: nat)
    requires h == "host" && u == "udp" && p == "port"
    ensures Encode(host, udp, port) == "{" + Texts(h, u, p, Escape(Native, host), FlagText(udp), Decimal(port))
  {
    assert Glue("{\"host\":\"", ",\"udp\":", ",\"port\":", "\"", "}");
    var open: string, flag: string, pt: string, quote: string, close: string
      :| Glue(open, flag, pt, quote, close);
    EncodeShape(open, flag, pt, quote, close, host, udp, port);
    TextsShape(open, flag, pt, quote, close, h, u, p, Escape(Native, host), FlagText(udp), Decimal(port));
  }

  /** `encode_record` prints an object of these fields and nothing more. */
  lemma EncodePrintsFields(host: string, udp: Option<bool>, port: nat)
    ensures Encode(host, udp, port) == "{" + WriteAll(TokensOf(Fields(host, udp, port)), "")
  {
    var h: string, u: string, p: string :| h == "host" && u == "udp" && p == "port";
    EncodeIsTexts(h, u, p, host, udp, port);
    ItemsWritten(h, u, p, host, FlagText(udp), Decimal(port));
  }

  lemma DigitsSimple(d: string)
    requires d != "" && AllDigits(d)
    ensures Simple(d)
  {
    assert d[0] in d && d[|d| - 1] in d;
  }

  lemma FieldsWritable(host: string, udp: Option<bool>, port: nat)
    ensures forall x | x in Fields(host, udp, port) :: Writable(x)
  {
    DecimalDigits(port);
    DigitsSimple(Decimal(port));
  }

  lemma FieldsMean(host: string, udp: Option<bool>, port: nat)
    ensures Fold(Empty(), Fields(host, udp, port)) == Record(host, udp, PortOf(Decimal(port)))
  {
    var h: string, u: string, p: string :| h == "host" && u == "udp" && p == "port";
    ItemsFold(Empty(), h, u, p, host, FlagText(udp), Decimal(port));
  }

  /** What is published is read back: any host whatever, the option as given, and the port unless zero. */
  lemma RoundTrip(host: string, udp: Option<bool>, port: nat)
    requires port <= 65535
    ensures Decode(Encode(host, udp, port)) == Some(Record(host, udp, if port == 0 then None else Some(port)))
  {
    var items := Fields(host, udp, port);
    EncodePrintsFields(host, udp, port);
    FieldsWritable(host, udp, port);
    TokensMean(items);
    FieldsMean(host, udp, port);
    DecimalPort(port);
    PrintedObject(Encode(host, udp, port), TokensOf(items));
    ScannerFolds(Encode(host, udp, port), "", "", TokensOf(items), "");
  }

  lemma PrintedObject(json: string, ts: seq<Token>)
    requires ts != [] && AllReadable(ts) && json == "{" + WriteAll(ts, "")
    ensures FullObject(json, "", "", ts, "")
  {
    var body := WriteAll(ts, "");
    assert "" + (['{'] + ("" + body)) == "{" + body;
  }

  /** So no two records are published as the same text. */
  lemma EncodeInjective(h1: string, u1: Option<bool>, p1: nat, h2: string, u2: Option<bool>, p2: nat)
    requires p1 <= 65535 && p2 <= 65535
    requires Encode(h1, u1, p1) == Encode(h2, u2, p2)
    ensures h1 == h2 && u1 == u2 && p1 == p2
  {
    RoundTrip(h1, u1, p1);
    RoundTrip(h2, u2, p2);
  }
}
