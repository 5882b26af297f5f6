/**
 * The embedded client's reading of one stream line
 * (frontend/embedded/popup.js, `JSON.parse(line)` followed by
 * `data.type === 'content'`), and the proof that it recovers exactly the
 * snapshot text the server encoded.
 */
module FrameParse {

  import opened Wrappers
  import opened JsText
  import JsonFrames

  const Backslash: Unit := 0x5C
  const Quote: Unit := 0x22
  const LetterU: Unit := 0x75

  /** The two-character escapes of JSON (`\"`, `\\`, `\/`, `\b`, `\f`,
      `\n`, `\r`, `\t`): the unit after the backslash and what it stands for. */
  function ShortEscape(u: Unit): Option<Unit> {
    if u == 0x22 then Some(0x22)
    else if u == 0x5C then Some(0x5C)
    else if u == 0x2F then Some(0x2F)
    else if u == 0x62 then Some(0x08)
    else if u == 0x66 then Some(0x0C)
    else if u == 0x6E then Some(0x0A)
    else if u == 0x72 then Some(0x0D)
    else if u == 0x74 then Some(0x09)
    else None
  }

  predicate IsHexUnit(u: Unit) {
    ('0' as int <= u <= '9' as int) || ('a' as int <= u <= 'f' as int) || ('A' as int <= u <= 'F' as int)
  }

  function HexUnitValue(u: Unit): (d: int)
    requires IsHexUnit(u)
    ensures 0 <= d < 16
  {
    if u <= '9' as int then u - '0' as int
    else if u <= 'F' as int then u - 'A' as int + 10
    else u - 'a' as int + 10
  }

  /** The code unit four hexadecimal digits stand for. */
  function HexValue(h: seq<Unit>): (v: Unit)
    requires |h| == 4 && forall i | 0 <= i < 4 :: IsHexUnit(h[i])
  {
    HexUnitValue(h[0]) * 0x1000 + HexUnitValue(h[1]) * 0x100 + HexUnitValue(h[2]) * 0x10 + HexUnitValue(h[3])
  }

  /** `u` followed by the text in `rest`, unless `rest` failed to decode. */
  function Prepend(units: seq<Unit>, rest: Option<JsString>): Option<JsString> {
    match rest
    case Some(t) => Some(units + t)
    case None => None
  }

  /** The characters of the body of a JSON string literal, or None where
      `JSON.parse` would reject it: a raw quote or control character, or a
      backslash that starts no valid escape. */
  function Unescape(s: JsString): Option<JsString>
    decreases |s|
  {
    if s == [] then Some([])
    else if s[0] == Backslash then
      if |s| >= 2 && ShortEscape(s[1]).Some? then
        Prepend([ShortEscape(s[1]).value], Unescape(s[2..]))
      else if |s| >= 6 && s[1] == LetterU && forall i | 2 <= i < 6 :: IsHexUnit(s[i]) then
        Prepend([HexValue(s[2..6])], Unescape(s[6..]))
      else None
    else if s[0] == Quote || s[0] < 0x20 then None
    else Prepend([s[0]], Unescape(s[1..]))
  }

  /** `{"type": "`, the start every frame shares. */
  const TypePrefix: string := "{\"type\": \""

  /** The text after the shared prefix and before the snapshot text in a
      content line: `content", "content": "`. */
  const LeadRest: string := "content" + "\"" + ", \"" + "content" + "\": " + "\""

  /** What comes before and after the snapshot text in a content line. */
  const ContentLead: JsString := ToUtf16(TypePrefix + LeadRest)
  const ContentTrail: JsString := ToUtf16("\"" + "}")

  /** The text of a content frame, or None for any other line. Only the
      layout the server writes is recognised. */
  function ContentOf(line: JsString): Option<JsString> {
    var n, a, b := |line|, |ContentLead|, |ContentTrail|;
    if n >= a + b && line[..a] == ContentLead && line[n - b..] == ContentTrail then
      Unescape(line[a..n - b])
    else None
  }

  // ---------------------------------------------------------------------
  // Round trip: the client decodes what the server encodes.
  // ---------------------------------------------------------------------

  lemma HexRoundTrip(n: int)
    requires 0 <= n < 0x1_0000
    ensures |ToUtf16(JsonFrames.Hex4(n))| == 4
    ensures forall i | 0 <= i < 4 :: IsHexUnit(ToUtf16(JsonFrames.Hex4(n))[i])
    ensures HexValue(ToUtf16(JsonFrames.Hex4(n))) == n
  {
    var h := JsonFrames.Hex4(n);
    ToUtf16Bmp(h);
    var u := ToUtf16(h);
    DigitRoundTrip(n / 0x10 / 0x10 / 0x10);
    DigitRoundTrip(n / 0x10 / 0x10 % 0x10);
    DigitRoundTrip(n / 0x10 % 0x10);
    DigitRoundTrip(n % 0x10);
    HexDigits(n);
  }

  lemma DigitRoundTrip(d: int)
    requires 0 <= d < 16
    ensures IsHexUnit(JsonFrames.HexDigit(d) as int)
    ensures HexUnitValue(JsonFrames.HexDigit(d) as int) == d
  {
  }

  lemma HexDigits(n: int)
    requires 0 <= n < 0x1_0000
    ensures n == n / 0x10 / 0x10 / 0x10 * 0x1000 + n / 0x10 / 0x10 % 0x10 * 0x100 + n / 0x10 % 0x10 * 0x10 + n % 0x10
  {
    var q1, d0 := n / 0x10, n % 0x10;
    var q2, d1 := q1 / 0x10, q1 % 0x10;
    var q3, d2 := q2 / 0x10, q2 % 0x10;
    assert n == 0x10 * q1 + d0;
    assert q1 == 0x10 * q2 + d1;
    assert q2 == 0x10 * q3 + d2;
  }

  lemma {:induction false} UnicodeEscapesRoundTrip(units: seq<Unit>, rest: JsString)
    ensures Unescape(ToUtf16(JsonFrames.UnicodeEscapes(units)) + rest) == Prepend(units, Unescape(rest))
  {
    if units == [] {
      assert ToUtf16([]) + rest == rest;
      match Unescape(rest)
      case None =>
      case Some(t) => assert [] + t == t;
    } else {
      var more := JsonFrames.UnicodeEscapes(units[1..]);
      UnicodeEscapesRoundTrip(units[1..], rest);
      EscapesUnits(units[0], more, rest);
      OneUnicodeEscape(units[0], ToUtf16(more) + rest);
      PrependTwice(units[0], units[1..], Unescape(rest));
      assert units == [units[0]] + units[1..];
    }
  }

  lemma EscapesUnits(u: Unit, more: string, rest: JsString)
    ensures ToUtf16("\\u" + JsonFrames.Hex4(u) + more) + rest
         == [Backslash, LetterU] + ToUtf16(JsonFrames.Hex4(u)) + (ToUtf16(more) + rest)
  {
    var hex := JsonFrames.Hex4(u);
    ToUtf16Append("\\u" + hex, more);
    ToUtf16Append("\\u", hex);
    assert ToUtf16("\\u") == [Backslash, LetterU];
  }

  lemma PrependTwice(u: Unit, us: seq<Unit>, o: Option<JsString>)
    ensures Prepend([u], Prepend(us, o)) == Prepend([u] + us, o)
  {
    match o
    case None =>
    case Some(t) => assert [u] + (us + t) == [u] + us + t;
  }

  /** One `\uXXXX` escape decodes to its code unit. */
  lemma OneUnicodeEscape(u: Unit, tail: JsString)
    ensures Unescape([Backslash, LetterU] + ToUtf16(JsonFrames.Hex4(u)) + tail) == Prepend([u], Unescape(tail))
  {
    HexRoundTrip(u);
    var s := [Backslash, LetterU] + ToUtf16(JsonFrames.Hex4(u)) + tail;
    assert s[2..6] == ToUtf16(JsonFrames.Hex4(u));
    assert s[6..] == tail;
  }

  /** One character: its escape decodes to its UTF-16 code units. */
  lemma EscapeCharRoundTrip(c: char, rest: JsString)
    ensures Unescape(ToUtf16(JsonFrames.EscapeChar(c)) + rest) == Prepend(Utf16Units(c), Unescape(rest))
  {
    if c == '"' {
      TwoCharEscape(c, '"', rest);
    } else if c == '\\' {
      TwoCharEscape(c, '\\', rest);
    } else if c == '\n' {
      TwoCharEscape(c, 'n', rest);
    } else if c == '\r' {
      TwoCharEscape(c, 'r', rest);
    } else if c == '\t' {
      TwoCharEscape(c, 't', rest);
    } else if c as int == 0x08 {
      TwoCharEscape(c, 'b', rest);
    } else if c as int == 0x0C {
      TwoCharEscape(c, 'f', rest);
    } else if JsonFrames.IsPrintableAscii(c) {
      assert ToUtf16([c]) + rest == [c as int] + rest;
    } else {
      UnicodeEscapesRoundTrip(Utf16Units(c), rest);
    }
  }

  /** A backslash and `x` decode to `c`. */
  lemma TwoCharEscape(c: char, x: char, rest: JsString)
    requires c as int < 0x1_0000 && x as int < 0x1_0000
    requires ShortEscape(x as int) == Some(c as int)
    ensures Unescape(ToUtf16(['\\', x]) + rest) == Prepend(Utf16Units(c), Unescape(rest))
  {
    var s := ToUtf16(['\\', x]) + rest;
    ToUtf16Bmp(['\\', x]);
    assert s[0] == Backslash && s[1] == x as int && s[2..] == rest;
  }

  /** The client recovers every string the server escapes, as UTF-16. */
  lemma {:induction false} EscapeRoundTrip(s: string)
    ensures Unescape(ToUtf16(JsonFrames.Escape(s))) == Some(ToUtf16(s))
  {
    if s != [] {
      EscapeRoundTrip(s[1..]);
      ToUtf16Append(JsonFrames.EscapeChar(s[0]), JsonFrames.Escape(s[1..]));
      EscapeCharRoundTrip(s[0], ToUtf16(JsonFrames.Escape(s[1..])));
    }
  }

  /** Every frame is the shared prefix followed by its kind. */
  lemma FrameLayout(f: JsonFrames.Frame)
    ensures JsonFrames.EncodeFrame(f)
         == TypePrefix + (JsonFrames.Kind(f) + "\"" + JsonFrames.Members(JsonFrames.Payload(f)) + "}")
  {
    Regroup(TypePrefix, JsonFrames.Kind(f), "\"", JsonFrames.Members(JsonFrames.Payload(f)), "}");
  }

  lemma Regroup(p: string, k: string, q: string, m: string, z: string)
    ensures p + k + q + m + z == p + (k + q + m + z)
  {
  }

  /** A content frame is the fixed lead, the escaped text and the fixed
      trail. */
  lemma ContentFrameLayout(t: string)
    ensures JsonFrames.EncodeFrame(JsonFrames.Content(t)) == (TypePrefix + LeadRest) + JsonFrames.Escape(t) + ("\"" + "}")
  {
    var kvs := [("content", t)];
    assert kvs[0].0 == "content" && kvs[0].1 == t && kvs[1..] == [];
    RegroupContent(TypePrefix, "content", "\"", ", \"", "\": ", JsonFrames.Escape(t), JsonFrames.Members(kvs[1..]), "}");
  }

  lemma RegroupContent(p: string, k: string, q: string, s: string, c: string, e: string, m: string, z: string)
    requires m == []
    ensures p + k + q + (s + k + c + (q + e + q) + m) + z == (p + (k + q + s + k + c + q)) + e + (q + z)
  {
  }

  lemma Unwrap(body: JsString)
    ensures ContentOf(ContentLead + body + ContentTrail) == Unescape(body)
  {
    var line := ContentLead + body + ContentTrail;
    var n, a, b := |line|, |ContentLead|, |ContentTrail|;
    assert line[..a] == ContentLead;
    assert line[n - b..] == ContentTrail;
    assert line[a..n - b] == body;
  }

  /** The client reads back, as UTF-16, exactly the text of a content
      frame. */
  lemma ContentRoundTrip(t: string)
    ensures ContentOf(ToUtf16(JsonFrames.EncodeFrame(JsonFrames.Content(t)))) == Some(ToUtf16(t))
  {
    var lead, body, trail := TypePrefix + LeadRest, JsonFrames.Escape(t), "\"" + "}";
    ContentFrameLayout(t);
    ToUtf16Append(lead + body, trail);
    ToUtf16Append(lead, body);
    Unwrap(ToUtf16(body));
    EscapeRoundTrip(t);
  }

  /** Two texts that share a prefix and then differ at a character below
      U+10000 differ, as UTF-16, at the same place. */
  lemma DiffersAfter(p: string, x: string, y: string)
    requires x != [] && y != [] && x[0] != y[0]
    requires x[0] as int < 0x1_0000 && y[0] as int < 0x1_0000
    ensures |ToUtf16(p + x)| >= |ToUtf16(p + y)| ==> ToUtf16(p + x)[..|ToUtf16(p + y)|] != ToUtf16(p + y)
  {
    ToUtf16Append(p, x);
    ToUtf16Append(p, y);
    var i := |ToUtf16(p)|;
    assert ToUtf16(p + x)[i] == ToUtf16(x)[0];
    assert ToUtf16(p + y)[i] == ToUtf16(y)[0];
  }

  /** Every other frame is ignored by the client: right after the shared
      `{"type": "` its kind differs from "content" at the first letter. */
  lemma OtherFrameIgnored(f: JsonFrames.Frame)
    requires !f.Content?
    ensures ContentOf(ToUtf16(JsonFrames.EncodeFrame(f))) == None
  {
    var rest := JsonFrames.Kind(f) + "\"" + JsonFrames.Members(JsonFrames.Payload(f)) + "}";
    FrameLayout(f);
    assert rest[0] == JsonFrames.Kind(f)[0];
    DiffersAfter(TypePrefix, rest, LeadRest);
  }
}
