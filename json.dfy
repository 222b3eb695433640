/**
 * The part of Python's `json.dumps` the relay uses: encoding a str as a JSON
 * string literal with the default `ensure_ascii=True`.  A decoder for such
 * literals is the encoder's partner: whatever `Quote` writes, `Unquote` reads
 * back unchanged.
 */
module Json {
  import opened Wrappers

  function HexDigit(d: nat): (c: char)
    requires d < 16
  {
    if d < 10 then (('0' as int) + d) as char else (('a' as int) + d - 10) as char
  }

  /** Four lower-case hex digits, as `'\\u{0:04x}'` prints them. */
  function Hex4(n: nat): (r: string)
    requires n < 0x10000
    ensures |r| == 4
  {
    var q1 := n / 16;
    var q2 := q1 / 16;
    [HexDigit(q2 / 16), HexDigit(q2 % 16), HexDigit(q1 % 16), HexDigit(n % 16)]
  }

  /** Python's `\uXXXX` escape of one character, using a surrogate pair above U+FFFF. */
  function UnicodeEscape(c: char): string {
    var n := c as int;
    if n < 0x10000 then
      "\\u" + Hex4(n)
    else
      var m := n - 0x10000;
      "\\u" + Hex4(0xD800 + m / 0x400) + "\\u" + Hex4(0xDC00 + m % 0x400)
  }

  /**
   * One character of a JSON string body: the two-character escapes for `"`,
   * `\`, backspace, form feed, newline, carriage return and tab, the
   * printable ASCII range kept as it is, and `\uXXXX` for everything else.
   */
  function EscapeChar(c: char): string {
    match c
    case '"' => "\\\""
    case '\\' => "\\\\"
    case '\U{8}' => "\\b"
    case '\U{C}' => "\\f"
    case '\n' => "\\n"
    case '\r' => "\\r"
    case '\t' => "\\t"
    case _ => if ' ' <= c <= '~' then [c] else UnicodeEscape(c)
  }

  function Escape(s: string): string {
    if s == [] then [] else EscapeChar(s[0]) + Escape(s[1..])
  }

  /** `json.dumps(s)` for a str `s`. */
  function Quote(s: string): string {
    "\"" + Escape(s) + "\""
  }

  /** `json.dumps` of a value that is a str or None. */
  function QuoteOrNull(s: Option<string>): string {
    match s
    case Some(v) => Quote(v)
    case None => "null"
  }

  // ---------------------------------------------------------------- decoding

  function HexValue(c: char): (r: Option<nat>)
    ensures r.Some? ==> r.value < 16
  {
    if '0' <= c <= '9' then Some((c as int) - ('0' as int))
    else if 'a' <= c <= 'f' then Some((c as int) - ('a' as int) + 10)
    else if 'A' <= c <= 'F' then Some((c as int) - ('A' as int) + 10)
    else None
  }

  function ReadHex4(s: string): (r: Option<nat>)
    requires |s| >= 4
    ensures r.Some? ==> r.value < 0x10000
  {
    var a :- HexValue(s[0]);
    var b :- HexValue(s[1]);
    var c :- HexValue(s[2]);
    var d :- HexValue(s[3]);
    Some(((a * 16 + b) * 16 + c) * 16 + d)
  }

  predicate IsHighSurrogate(n: nat) { 0xD800 <= n < 0xDC00 }
  predicate IsLowSurrogate(n: nat) { 0xDC00 <= n < 0xE000 }

  /**
   * Reads the body of a JSON string literal up to its closing quote; gives
   * the decoded text and what follows the quote.  Control characters and
   * lone surrogates are refused.
   */
  function Unescape(s: string): Option<(string, string)>
    decreases |s|
  {
    if s == [] then None
    else if s[0] == '"' then Some(([], s[1..]))
    else if s[0] < ' ' then None
    else if s[0] != '\\' then
      var tail :- Unescape(s[1..]);
      Some(([s[0]] + tail.0, tail.1))
    else if |s| < 2 then None
    else if s[1] == 'u' then
      if |s| < 6 then None
      else
        var n :- ReadHex4(s[2..6]);
        if IsLowSurrogate(n) then None
        else if !IsHighSurrogate(n) then
          var tail :- Unescape(s[6..]);
          Some(([n as char] + tail.0, tail.1))
        else if |s| < 12 || s[6..8] != "\\u" then None
        else
          var lo :- ReadHex4(s[8..12]);
          if !IsLowSurrogate(lo) then None
          else
            var tail :- Unescape(s[12..]);
            Some(([(0x10000 + (n - 0xD800) * 0x400 + (lo - 0xDC00)) as char] + tail.0, tail.1))
    else
      var c :- SimpleEscape(s[1]);
      var tail :- Unescape(s[2..]);
      Some(([c] + tail.0, tail.1))
  }

  function SimpleEscape(e: char): Option<char> {
    match e
    case '"' => Some('"')
    case '\\' => Some('\\')
    case '/' => Some('/')
    case 'b' => Some('\U{8}')
    case 'f' => Some('\U{C}')
    case 'n' => Some('\n')
    case 'r' => Some('\r')
    case 't' => Some('\t')
    case _ => None
  }

  /** Reads one JSON string literal at the start of `s`. */
  function Unquote(s: string): Option<(string, string)> {
    if s == [] || s[0] != '"' then None else Unescape(s[1..])
  }

  // ------------------------------------------------------------------ proofs

  lemma HexDigitRoundTrip(d: nat)
    requires d < 16
    ensures HexValue(HexDigit(d)) == Some(d)
  {
  }

  lemma Hex4RoundTrip(n: nat)
    requires n < 0x10000
    ensures ReadHex4(Hex4(n)) == Some(n)
  {
    var q1 := n / 16;
    var q2 := q1 / 16;
    HexDigitRoundTrip(q2 / 16);
    HexDigitRoundTrip(q2 % 16);
    HexDigitRoundTrip(q1 % 16);
    HexDigitRoundTrip(n % 16);
    assert ((q2 / 16 * 16 + q2 % 16) * 16 + q1 % 16) * 16 + n % 16 == n;
  }

  /** What `Unescape` does after one decoded character. */
  function Cons(c: char, r: Option<(string, string)>): Option<(string, string)> {
    match r
    case Some(t) => Some(([c] + t.0, t.1))
    case None => None
  }

  lemma SimpleEscapeStep(e: char, rest: string)
    requires e != 'u' && SimpleEscape(e).Some?
    ensures Unescape(['\\', e] + rest) == Cons(SimpleEscape(e).value, Unescape(rest))
  {
    assert (['\\', e] + rest)[2..] == rest;
  }

  lemma TwoCharEscapeRoundTrip(c: char, rest: string)
    requires c in "\"\\\U{8}\U{C}\n\r\t"
    ensures Unescape(EscapeChar(c) + rest) == Cons(c, Unescape(rest))
  {
    var e := match c
      case '"' => '"'
      case '\\' => '\\'
      case '\U{8}' => 'b'
      case '\U{C}' => 'f'
      case '\n' => 'n'
      case '\r' => 'r'
      case _ => 't';
    assert EscapeChar(c) == ['\\', e];
    SimpleEscapeStep(e, rest);
  }

  lemma BmpEscapeRoundTrip(c: char, rest: string)
    requires (c as int) < 0x10000
    ensures Unescape(UnicodeEscape(c) + rest) == Cons(c, Unescape(rest))
  {
    var n := c as int;
    Hex4RoundTrip(n);
    var s := UnicodeEscape(c) + rest;
    assert s[..2] == "\\u";
    assert s[2..6] == Hex4(n);
    assert s[6..] == rest;
  }

  lemma AstralEscapeRoundTrip(c: char, rest: string)
    requires (c as int) >= 0x10000
    ensures Unescape(UnicodeEscape(c) + rest) == Cons(c, Unescape(rest))
  {
    var n := c as int;
    var m := n - 0x10000;
    var hi, lo := 0xD800 + m / 0x400, 0xDC00 + m % 0x400;
    SurrogateSplit(n);
    assert UnicodeEscape(c) == "\\u" + Hex4(hi) + "\\u" + Hex4(lo);
    SurrogatePairStep(hi, lo, rest);
    assert (0x10000 + (hi - 0xD800) * 0x400 + (lo - 0xDC00)) as char == c;
  }

  /** The high and low halves of a code point above U+FFFF are surrogates that recombine to it. */
  lemma SurrogateSplit(n: int)
    requires 0x10000 <= n < 0x110000
    ensures var m := n - 0x10000;
      && IsHighSurrogate(0xD800 + m / 0x400) && IsLowSurrogate(0xDC00 + m % 0x400)
      && 0x10000 + m / 0x400 * 0x400 + m % 0x400 == n
  {
  }

  /** A `\uXXXX\uXXXX` surrogate pair decodes to the one character it encodes. */
  lemma SurrogatePairStep(hi: nat, lo: nat, rest: string)
    requires IsHighSurrogate(hi) && IsLowSurrogate(lo)
    ensures Unescape("\\u" + Hex4(hi) + "\\u" + Hex4(lo) + rest)
         == Cons((0x10000 + (hi - 0xD800) * 0x400 + (lo - 0xDC00)) as char, Unescape(rest))
  {
    Hex4RoundTrip(hi);
    Hex4RoundTrip(lo);
    var s := "\\u" + Hex4(hi) + "\\u" + Hex4(lo) + rest;
    assert s[..2] == "\\u";
    assert s[2..6] == Hex4(hi);
    assert s[6..8] == "\\u";
    assert s[8..12] == Hex4(lo);
    assert s[12..] == rest;
  }

  /** Every escape is printable ASCII, so no raw `"` inside it ends the literal early. */
  lemma EscapeCharRoundTrip(c: char, rest: string)
    ensures Unescape(EscapeChar(c) + rest) == Cons(c, Unescape(rest))
  {
    if c in "\"\\\U{8}\U{C}\n\r\t" {
      TwoCharEscapeRoundTrip(c, rest);
    } else if ' ' <= c <= '~' {
      assert (EscapeChar(c) + rest)[1..] == rest;
    } else if (c as int) < 0x10000 {
      BmpEscapeRoundTrip(c, rest);
    } else {
      AstralEscapeRoundTrip(c, rest);
    }
  }

  lemma {:induction false} EscapeRoundTrip(s: string, rest: string)
    ensures Unescape(Escape(s) + "\"" + rest) == Some((s, rest))
  {
    if s == [] {
      assert Escape(s) + "\"" + rest == "\"" + rest;
    } else {
      EscapeRoundTrip(s[1..], rest);
      assert Escape(s) + "\"" + rest == EscapeChar(s[0]) + (Escape(s[1..]) + "\"" + rest);
      EscapeCharRoundTrip(s[0], Escape(s[1..]) + "\"" + rest);
      assert [s[0]] + s[1..] == s;
    }
  }

  /** `json.loads(json.dumps(s)) == s`, with anything after the literal left over. */
  lemma QuoteRoundTrip(s: string, rest: string)
    ensures Unquote(Quote(s) + rest) == Some((s, rest))
  {
    EscapeRoundTrip(s, rest);
    assert (Quote(s) + rest)[1..] == Escape(s) + "\"" + rest;
  }
}
