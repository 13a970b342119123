/**
 * `JSON.stringify` on an array of strings, which is how the frontend sends the `options`
 * field of a chat request, together with a decoder for the text it produces and the
 * proof that decoding recovers the array exactly.
 */
module JsonText {
  import opened Wrappers
  import opened Strings

  /** A lower-case hexadecimal digit. */
  function HexDigit(d: nat): char
    requires d < 16
  {
    if d < 10 then (48 + d) as char else (87 + d) as char
  }

  function HexValue(c: char): (r: Option<nat>)
    ensures r.Some? ==> r.value < 16
  {
    if '0' <= c <= '9' then Some(c as int - 48)
    else if 'a' <= c <= 'f' then Some(c as int - 87)
    else if 'A' <= c <= 'F' then Some(c as int - 55)
    else None
  }

  /**
   * How `JSON.stringify` writes one character inside a string literal: the quote, the
   * backslash and the five control characters with a short escape get it, the other
   * control characters become `\u00XX` with lower-case hex, and the rest are kept.
   */
  function EscapeChar(c: char): string {
    if c == '"' then "\\\""
    else if c == '\\' then "\\\\"
    else if c == '\U{0008}' then "\\b"
    else if c == '\t' then "\\t"
    else if c == '\n' then "\\n"
    else if c == '\U{000C}' then "\\f"
    else if c == '\r' then "\\r"
    else if c < ' ' then "\\u00" + [HexDigit(c as int / 16), HexDigit(c as int % 16)]
    else [c]
  }

  function EscapeString(s: string): string
    decreases |s|
  {
    if s == [] then "" else EscapeChar(s[0]) + EscapeString(s[1..])
  }

  /** `JSON.stringify(s)` for a string. */
  function Quote(s: string): string {
    "\"" + EscapeString(s) + "\""
  }

  function QuoteAll(xs: seq<string>): (r: seq<string>)
    ensures |r| == |xs|
    ensures forall i :: 0 <= i < |xs| ==> r[i] == Quote(xs[i])
  {
    seq(|xs|, i requires 0 <= i < |xs| => Quote(xs[i]))
  }

  /** `JSON.stringify(xs)` for an array of strings: no spaces, elements separated by commas. */
  function StringifyArray(xs: seq<string>): string {
    "[" + Join(QuoteAll(xs), ",") + "]"
  }

  // ----- decoding -----

  /** Puts a decoded character in front of a decoded remainder. */
  function Cons(c: char, r: Option<(string, string)>): Option<(string, string)> {
    match r
    case None => None
    case Some((x, rest)) => Some(([c] + x, rest))
  }

  /** Decodes the escape that follows a backslash: the character and how many characters it used. */
  function DecodeEscape(t: string): (r: Option<(char, nat)>)
    ensures r.Some? ==> 1 <= r.value.1 <= |t|
  {
    if |t| == 0 then None
    else if t[0] == '"' then Some(('"', 1))
    else if t[0] == '\\' then Some(('\\', 1))
    else if t[0] == '/' then Some(('/', 1))
    else if t[0] == 'b' then Some(('\U{0008}', 1))
    else if t[0] == 't' then Some(('\t', 1))
    else if t[0] == 'n' then Some(('\n', 1))
    else if t[0] == 'f' then Some(('\U{000C}', 1))
    else if t[0] == 'r' then Some(('\r', 1))
    else if t[0] == 'u' && |t| >= 5 then
      match (HexValue(t[1]), HexValue(t[2]), HexValue(t[3]), HexValue(t[4]))
      case (Some(a), Some(b), Some(c), Some(d)) =>
        var v := ((a * 16 + b) * 16 + c) * 16 + d;
        assert v < 0x10000 by {
          assert a * 16 + b < 256;
          assert (a * 16 + b) * 16 + c < 4096;
        }
        // a lone UTF-16 surrogate is not a character; this decoder does not pair them up
        if 0xD800 <= v < 0xE000 then None else Some((v as char, 5))
      case _ => None
    else None
  }

  /**
   * Decodes the body of a string literal up to its closing quote: the string, and the
   * text that follows the quote.
   */
  function DecodeString(s: string): (r: Option<(string, string)>)
    ensures r.Some? ==> |r.value.1| < |s|
    decreases |s|
  {
    if |s| == 0 then None
    else if s[0] == '"' then Some(("", s[1..]))
    else if s[0] == '\\' then
      match DecodeEscape(s[1..])
      case None => None
      case Some((c, n)) => Cons(c, DecodeString(s[1 + n..]))
    else if s[0] < ' ' then None
    else Cons(s[0], DecodeString(s[1..]))
  }

  /** Decodes one or more comma-separated string literals closed by `]`. */
  function DecodeElements(s: string): Option<seq<string>>
    decreases |s|
  {
    if |s| == 0 || s[0] != '"' then None
    else
      match DecodeString(s[1..])
      case None => None
      case Some((x, rest)) =>
        if rest == "]" then Some([x])
        else if |rest| > 0 && rest[0] == ',' then
          match DecodeElements(rest[1..])
          case None => None
          case Some(ys) => Some([x] + ys)
        else None
  }

  /** `JSON.parse` for a JSON array of strings without whitespace. */
  function DecodeArray(s: string): Option<seq<string>> {
    if s == "[]" then Some([])
    else if |s| > 0 && s[0] == '[' then DecodeElements(s[1..])
    else None
  }

  // ----- round trip -----

  lemma HexRoundTrip(d: nat)
    requires d < 16
    ensures HexValue(HexDigit(d)) == Some(d)
  {
  }

  /** The characters `JSON.stringify` writes as a backslash and one letter or symbol. */
  predicate ShortEscaped(c: char) {
    c == '"' || c == '\\' || c == '\U{0008}' || c == '\t' || c == '\n' || c == '\U{000C}' || c == '\r'
  }

  lemma ShortEscapeDecodes(c: char, t: string)
    requires ShortEscaped(c)
    ensures DecodeString(EscapeChar(c) + t) == Cons(c, DecodeString(t))
  {
    var s := EscapeChar(c) + t;
    assert |EscapeChar(c)| == 2 && s[0] == '\\';
    assert DecodeEscape(s[1..]) == Some((c, 1));
    assert s[1 + 1..] == t;
  }

  lemma UnicodeEscapeDecodes(c: char, t: string)
    requires !ShortEscaped(c) && c < ' '
    ensures DecodeString(EscapeChar(c) + t) == Cons(c, DecodeString(t))
  {
    var s := EscapeChar(c) + t;
    var hi, lo := c as int / 16, c as int % 16;
    HexRoundTrip(hi);
    HexRoundTrip(lo);
    assert s[1..][..5] == ['u', '0', '0', HexDigit(hi), HexDigit(lo)];
    assert DecodeEscape(s[1..]) == Some((c, 5));
    assert s[1 + 5..] == t;
  }

  /** Every escaped character decodes back to itself, leaving what follows untouched. */
  lemma EscapeCharDecodes(c: char, t: string)
    ensures DecodeString(EscapeChar(c) + t) == Cons(c, DecodeString(t))
  {
    if ShortEscaped(c) {
      ShortEscapeDecodes(c, t);
    } else if c < ' ' {
      UnicodeEscapeDecodes(c, t);
    } else {
      assert ([c] + t)[1..] == t;
    }
  }

  /** An escaped string followed by its closing quote decodes to the string and what follows. */
  lemma {:induction false} EscapeStringDecodes(x: string, rest: string)
    ensures DecodeString(EscapeString(x) + "\"" + rest) == Some((x, rest))
    decreases |x|
  {
    if x == [] {
      assert EscapeString(x) + "\"" + rest == "\"" + rest;
      assert ("\"" + rest)[1..] == rest;
    } else {
      var tail := EscapeString(x[1..]) + "\"" + rest;
      assert EscapeString(x) + "\"" + rest == EscapeChar(x[0]) + tail;
      EscapeCharDecodes(x[0], tail);
      EscapeStringDecodes(x[1..], rest);
      assert [x[0]] + x[1..] == x;
    }
  }

  lemma {:induction false} ElementsRoundTrip(xs: seq<string>)
    requires |xs| >= 1
    ensures DecodeElements(Join(QuoteAll(xs), ",") + "]") == Some(xs)
    decreases |xs|
  {
    var q := QuoteAll(xs);
    var s := Join(q, ",") + "]";
    if |xs| == 1 {
      assert s == "\"" + (EscapeString(xs[0]) + "\"" + "]");
      EscapeStringDecodes(xs[0], "]");
      assert s[1..] == EscapeString(xs[0]) + "\"" + "]";
      assert [xs[0]] == xs;
    } else {
      var after := "," + (Join(QuoteAll(xs[1..]), ",") + "]");
      assert QuoteAll(xs)[1..] == QuoteAll(xs[1..]);
      assert s == "\"" + (EscapeString(xs[0]) + "\"" + after);
      EscapeStringDecodes(xs[0], after);
      assert s[1..] == EscapeString(xs[0]) + "\"" + after;
      assert after != "]";
      ElementsRoundTrip(xs[1..]);
      assert after[1..] == Join(QuoteAll(xs[1..]), ",") + "]";
      assert [xs[0]] + xs[1..] == xs;
    }
  }

  /** Parsing the `options` field recovers the option list exactly, whatever its strings contain. */
  lemma ArrayRoundTrip(xs: seq<string>)
    ensures DecodeArray(StringifyArray(xs)) == Some(xs)
  {
    if xs == [] {
      assert StringifyArray(xs) == "[]";
    } else {
      var s := StringifyArray(xs);
      ElementsRoundTrip(xs);
      assert s[1..] == Join(QuoteAll(xs), ",") + "]";
      assert |s| >= 4 by {
        JoinLength(QuoteAll(xs), ",");
      }
    }
  }

  /** A join is at least as long as its first part. */
  lemma JoinLength(q: seq<string>, sep: string)
    requires |q| >= 1
    ensures |Join(q, sep)| >= |q[0]|
  {
  }
}
