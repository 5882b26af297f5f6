/**
 * The newline-delimited JSON frames the streaming handlers of
 * backend/main.py yield: `json.dumps({...}).encode('utf-8') + b'\n'`.
 *
 * `json.dumps` with its defaults writes the keys in insertion order,
 * separates items with ", " and keys from values with ": ", and, because
 * `ensure_ascii` is on, escapes every character outside printable ASCII:
 * the two-character escapes for quote, backslash, backspace, form feed,
 * line feed, carriage return and tab, and `\uXXXX` (lower-case hex) for
 * the rest, with a surrogate pair above U+FFFF. The text is therefore pure
 * ASCII and its UTF-8 encoding is byte for byte the same.
 */
module JsonFrames {

  import JsText

  /** One frame of the protocol. The chat stream uses Start(timestamp) and
      End(timestamp); the web-summary streams use StartUrl(url) and EndPlain. */
  datatype Frame =
    | Start(timestamp: string)
    | StartUrl(url: string)
    | Content(content: string)
    | End(timestamp: string)
    | EndPlain
    | Error(message: string)

  /** A character `json.dumps` writes as itself. */
  predicate IsPrintableAscii(c: char) {
    ' ' <= c <= '~'
  }

  /** A text made of printable ASCII only. */
  predicate Printable(s: string) {
    forall i | 0 <= i < |s| :: IsPrintableAscii(s[i])
  }

  /** A lower-case hexadecimal digit. */
  predicate IsHexDigitChar(c: char) {
    '0' <= c <= '9' || 'a' <= c <= 'f'
  }

  function HexDigit(d: int): (c: char)
    requires 0 <= d < 16
    ensures IsHexDigitChar(c)
    ensures d < 10 ==> c as int == '0' as int + d
    ensures d >= 10 ==> c as int == 'a' as int + d - 10
  {
    if d < 10 then ('0' as int + d) as char else ('a' as int + d - 10) as char
  }

  /** `'{0:04x}'.format(n)`. */
  function Hex4(n: int): (r: string)
    requires 0 <= n < 0x1_0000
    ensures |r| == 4 && forall i | 0 <= i < 4 :: IsHexDigitChar(r[i])
  {
    [HexDigit(n / 0x10 / 0x10 / 0x10), HexDigit(n / 0x10 / 0x10 % 0x10), HexDigit(n / 0x10 % 0x10), HexDigit(n % 0x10)]
  }

  /** `\uXXXX` escapes of a sequence of UTF-16 code units. */
  function UnicodeEscapes(units: seq<JsText.Unit>): (r: string)
    ensures |r| == 6 * |units|
  {
    if units == [] then []
    else "\\u" + Hex4(units[0]) + UnicodeEscapes(units[1..])
  }

  /** The escape `json.dumps` writes for one character. */
  function EscapeChar(c: char): (r: string)
    ensures |r| >= 1
    ensures Printable(r)
  {
    if c == '"' then "\\\""
    else if c == '\\' then "\\\\"
    else if c == '\n' then "\\n"
    else if c == '\r' then "\\r"
    else if c == '\t' then "\\t"
    else if c as int == 0x08 then "\\b"
    else if c as int == 0x0C then "\\f"
    else if IsPrintableAscii(c) then [c]
    else
      var units := JsText.Utf16Units(c);
      var r := UnicodeEscapes(units);
      assert Printable(r) by {
        UnicodeEscapesPrintable(units);
      }
      r
  }

  lemma {:induction false} UnicodeEscapesPrintable(units: seq<JsText.Unit>)
    ensures Printable(UnicodeEscapes(units))
  {
    if units != [] {
      UnicodeEscapesPrintable(units[1..]);
    }
  }

  /** The body of a JSON string literal for `s`, without the quotes. */
  function Escape(s: string): (r: string)
    ensures |r| >= |s|
    ensures Printable(r)
  {
    if s == [] then []
    else
      EscapeChar(s[0]) + Escape(s[1..])
  }

  /** A JSON string literal. */
  function Quote(s: string): string {
    "\"" + Escape(s) + "\""
  }

  /** The value of the frame's "type" key. */
  function Kind(f: Frame): string {
    match f
    case Start(_) => "start"
    case StartUrl(_) => "start"
    case Content(_) => "content"
    case End(_) => "end"
    case EndPlain => "end"
    case Error(_) => "error"
  }

  /** The keys and values that follow "type", in the order the handlers
      write them. */
  function Payload(f: Frame): seq<(string, string)> {
    match f
    case Start(ts) => [("timestamp", ts)]
    case StartUrl(url) => [("url", url)]
    case Content(text) => [("content", text)]
    case End(ts) => [("timestamp", ts)]
    case EndPlain => []
    case Error(msg) => [("message", msg)]
  }

  /** `, "key": "value"` for each member. The keys are plain lower-case
      words, which `json.dumps` writes unchanged (PlainNames). */
  function Members(kvs: seq<(string, string)>): string {
    if kvs == [] then [] else ", \"" + kvs[0].0 + "\": " + Quote(kvs[0].1) + Members(kvs[1..])
  }

  /** The text of the frame's JSON object, as `json.dumps` writes it. */
  function EncodeFrame(f: Frame): string {
    "{\"type\": \"" + Kind(f) + "\"" + Members(Payload(f)) + "}"
  }

  /** One line of the stream: the frame followed by a single line feed. */
  function FrameLine(f: Frame): string {
    EncodeFrame(f) + "\n"
  }

  /** Everything the handler yields, concatenated. */
  function Wire(frames: seq<Frame>): string {
    if frames == [] then [] else FrameLine(frames[0]) + Wire(frames[1..])
  }

  lemma QuotePrintable(s: string)
    ensures Printable(Quote(s))
  {
  }

  lemma {:induction false} MembersPrintable(kvs: seq<(string, string)>)
    requires forall i | 0 <= i < |kvs| :: Printable(kvs[i].0)
    ensures Printable(Members(kvs))
  {
    if kvs != [] {
      MembersPrintable(kvs[1..]);
      QuotePrintable(kvs[0].1);
      MemberPrintable(kvs[0].0, Quote(kvs[0].1), Members(kvs[1..]));
    }
  }

  lemma MemberPrintable(k: string, q: string, m: string)
    requires Printable(k) && Printable(q) && Printable(m)
    ensures Printable(", \"" + k + "\": " + q + m)
  {
  }

  /** Every frame is printable ASCII: it holds no line feed of its own, so
      the single line feed after it is the only line break, and its UTF-8
      bytes are its characters. */
  lemma EncodeFramePrintable(f: Frame)
    ensures Printable(EncodeFrame(f))
  {
    var k, m := Kind(f), Members(Payload(f));
    MembersPrintable(Payload(f));
    ObjectPrintable(k, m);
  }

  lemma ObjectPrintable(k: string, m: string)
    requires Printable(k) && Printable(m)
    ensures Printable("{\"type\": \"" + k + "\"" + m + "}")
  {
  }

  /** Printable text without quotes or backslashes: `json.dumps` writes it
      unchanged. */
  predicate PlainText(s: string) {
    forall i | 0 <= i < |s| :: IsPrintableAscii(s[i]) && s[i] != '"' && s[i] != '\\'
  }

  lemma {:induction false} EscapePlain(s: string)
    requires PlainText(s)
    ensures Escape(s) == s
  {
    if s != [] {
      assert PlainText(s[1..]);
      EscapePlain(s[1..]);
      assert s == [s[0]] + s[1..];
    }
  }

  /** The frame's kind and keys are plain text, so (EscapePlain) writing
      them without escapes is what `json.dumps` does. */
  lemma PlainNames(f: Frame)
    ensures PlainText(Kind(f))
    ensures forall i | 0 <= i < |Payload(f)| :: PlainText(Payload(f)[i].0)
  {
  }
}
