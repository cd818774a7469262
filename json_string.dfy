/**
 * JSON string literals as Python's `json.dumps` writes them with its default
 * `ensure_ascii=True`: a quote and a backslash are escaped, the control
 * characters \b \f \n \r \t get their short escapes, and every other character
 * outside space..tilde becomes `\uXXXX` in lower-case hexadecimal, as a
 * surrogate pair above U+FFFF. A reader for such literals is the inverse of
 * the writer, used to state round trips.
 */
module JsonString {
  import opened Wrappers

  const Backspace: char := 8 as char
  const FormFeed: char := 12 as char

  /** The characters `ensure_ascii` lets through: space through tilde. */
  predicate IsPrintableAscii(c: char) { ' ' <= c <= '~' }

  predicate AllPrintable(s: string) { forall k :: 0 <= k < |s| ==> IsPrintableAscii(s[k]) }

  predicate IsHexDigit(c: char) { '0' <= c <= '9' || 'a' <= c <= 'f' || 'A' <= c <= 'F' }

  function HexValue(c: char): (d: nat)
    requires IsHexDigit(c)
    ensures d < 16
  {
    if c <= '9' then (c as int) - ('0' as int)
    else if c <= 'F' then (c as int) - ('A' as int) + 10
    else (c as int) - ('a' as int) + 10
  }

  /** Lower-case hexadecimal digit, as Python's `{:04x}` format writes it. */
  function HexDigit(d: nat): (c: char)
    requires d < 16
    ensures IsPrintableAscii(c) && IsHexDigit(c) && HexValue(c) == d
  {
    if d < 10 then (('0' as int) + d) as char else (('a' as int) + d - 10) as char
  }

  /** `'{0:04x}'.format(n)` for `0 <= n < 0x10000`. */
  function Hex4(n: nat): (s: string)
    requires n < 0x10000
    ensures |s| == 4 && AllPrintable(s)
  {
    [HexDigit(n / 0x10 / 0x10 / 0x10), HexDigit(n / 0x10 / 0x10 % 0x10), HexDigit(n / 0x10 % 0x10), HexDigit(n % 0x10)]
  }

  /** Reads four hexadecimal digits (either case) at the front of `s`. */
  function ParseHex4(s: string): (r: Option<nat>)
    ensures r.Some? ==> |s| >= 4 && r.value < 0x10000
  {
    if |s| >= 4 && IsHexDigit(s[0]) && IsHexDigit(s[1]) && IsHexDigit(s[2]) && IsHexDigit(s[3]) then
      Some(HexValue(s[0]) * 0x1000 + HexValue(s[1]) * 0x100 + HexValue(s[2]) * 0x10 + HexValue(s[3]))
    else
      None
  }

  lemma Hex4RoundTrip(n: nat, rest: string)
    requires n < 0x10000
    ensures ParseHex4(Hex4(n) + rest) == Some(n)
  {
    var s := Hex4(n) + rest;
    assert s[..4] == Hex4(n);
    var q1 := n / 0x10;
    var q2 := q1 / 0x10;
    var q3 := q2 / 0x10;
    assert n == q1 * 0x10 + n % 0x10;
    assert q1 == q2 * 0x10 + q1 % 0x10;
    assert q2 == q3 * 0x10 + q2 % 0x10;
    assert q3 < 0x10;
  }

  /** The characters with a two-character escape: quote, backslash, \b \f \n \r \t. */
  predicate HasShortEscape(c: char)
  {
    c == '"' || c == '\\' || c == '\n' || c == '\r' || c == '\t' || c == Backspace || c == FormFeed
  }

  /** The letter that follows the backslash in a two-character escape. */
  function ShortEscapeLetter(c: char): (l: char)
    requires HasShortEscape(c)
    ensures IsPrintableAscii(l)
  {
    if c == '"' then '"'
    else if c == '\\' then '\\'
    else if c == '\n' then 'n'
    else if c == '\r' then 'r'
    else if c == '\t' then 't'
    else if c == Backspace then 'b'
    else 'f'
  }

  /** `'\\u{0:04x}'.format(n)`. */
  function UnicodeEscape(n: nat): (e: string)
    requires n < 0x10000
    ensures |e| == 6 && AllPrintable(e)
  {
    "\\u" + Hex4(n)
  }

  /** First half of the UTF-16 surrogate pair for a code point above U+FFFF. */
  function HighSurrogate(cp: int): (h: nat)
    requires 0x10000 <= cp < 0x110000
    ensures 0xD800 <= h < 0xDC00
  {
    0xD800 + (cp - 0x10000) / 0x400
  }

  /** Second half of the UTF-16 surrogate pair for a code point above U+FFFF. */
  function LowSurrogate(cp: int): (l: nat)
    requires 0x10000 <= cp < 0x110000
    ensures 0xDC00 <= l < 0xE000
  {
    0xDC00 + (cp - 0x10000) % 0x400
  }

  /** One character as `json.dumps` writes it inside a string literal. */
  function EscapeChar(c: char): (e: string)
    ensures AllPrintable(e)
    ensures e == [c] <==> IsPrintableAscii(c) && c != '"' && c != '\\'
    ensures e != [c] ==> |e| >= 2 && e[0] == '\\'
  {
    if HasShortEscape(c) then ['\\', ShortEscapeLetter(c)]
    else if IsPrintableAscii(c) then [c]
    else if (c as int) < 0x10000 then UnicodeEscape(c as int)
    else UnicodeEscape(HighSurrogate(c as int)) + UnicodeEscape(LowSurrogate(c as int))
  }

  /** The body of a string literal: every character escaped in turn. */
  function Escape(s: string): (e: string)
    ensures AllPrintable(e)
    ensures |e| >= |s|
  {
    if s == [] then [] else EscapeChar(s[0]) + Escape(s[1..])
  }

  /** A complete JSON string literal. */
  function Quote(s: string): (q: string)
    ensures AllPrintable(q)
    ensures |q| >= 2 && q[0] == '"' && q[|q| - 1] == '"'
  {
    "\"" + Escape(s) + "\""
  }

  /**
   * Reads one escape sequence, given the text after its backslash; returns the
   * character it stands for and how many characters it used.
   */
  function DecodeEscape(t: string): (r: Option<(char, nat)>)
    ensures r.Some? ==> 1 <= r.value.1 <= |t|
  {
    if |t| == 0 then None
    else if t[0] == '"' then Some(('"', 1))
    else if t[0] == '\\' then Some(('\\', 1))
    else if t[0] == '/' then Some(('/', 1))
    else if t[0] == 'b' then Some((Backspace, 1))
    else if t[0] == 'f' then Some((FormFeed, 1))
    else if t[0] == 'n' then Some(('\n', 1))
    else if t[0] == 'r' then Some(('\r', 1))
    else if t[0] == 't' then Some(('\t', 1))
    else if t[0] == 'u' then
      match ParseHex4(t[1..])
      case None => None
      case Some(v) =>
        if v < 0xD800 || 0xE000 <= v then Some((v as char, 5))
        else if 0xDC00 <= v then None
        else if |t| >= 7 && t[5] == '\\' && t[6] == 'u' then
          match ParseHex4(t[7..])
          case None => None
          case Some(w) =>
            if 0xDC00 <= w < 0xE000 then
              Some(((0x10000 + (v - 0xD800) * 0x400 + (w - 0xDC00)) as char, 11))
            else
              None
        else None
    else None
  }

  /**
   * Reads the body of a string literal up to and including its closing quote;
   * returns the decoded text and what follows the quote.
   */
  function DecodeBody(s: string): (r: Option<(string, string)>)
    ensures r.Some? ==> |r.value.1| < |s|
    decreases |s|
  {
    if |s| == 0 then None
    else if s[0] == '"' then Some(([], s[1..]))
    else if s[0] == '\\' then
      match DecodeEscape(s[1..])
      case None => None
      case Some((c, n)) =>
        match DecodeBody(s[1 + n..])
        case None => None
        case Some((body, rest)) => Some(([c] + body, rest))
    else if (s[0] as int) < 0x20 then None
    else
      match DecodeBody(s[1..])
      case None => None
      case Some((body, rest)) => Some(([s[0]] + body, rest))
  }

  /** Reads a string literal at the front of `s`. */
  function DecodeString(s: string): (r: Option<(string, string)>)
    ensures r.Some? ==> |r.value.1| < |s|
  {
    if |s| > 0 && s[0] == '"' then DecodeBody(s[1..]) else None
  }

  function Prepend(c: char, r: Option<(string, string)>): Option<(string, string)>
  {
    match r
    case None => None
    case Some((body, rest)) => Some(([c] + body, rest))
  }

  /**
   * Concatenation regrouped to the right; the decoders read from the left.
   * Stated on its own so that callers regroup without unfolding the encoders.
   */
  lemma Associate(a: string, b: string, c: string)
    ensures a + b + c == a + (b + c)
  {
  }

  /** Five pieces regrouped to the right, kept separate for the same reason as `Associate`. */
  lemma Regroup(a: string, b: string, c: string, d: string, e: string)
    ensures a + b + c + d + e == a + (b + (c + d + e))
  {
  }

  /**
   * Reading a body that starts with an escape sequence. Stated over an
   * arbitrary `s` so that callers take this one reading step without the
   * encoder terms of their own context entering the unfolding of `DecodeBody`.
   */
  lemma BodyAfterEscape(s: string, c: char, n: nat)
    requires |s| > 0 && s[0] == '\\' && DecodeEscape(s[1..]) == Some((c, n))
    ensures DecodeBody(s) == Prepend(c, DecodeBody(s[1 + n..]))
  {
  }

  /** Reading `\uXXXX` outside the surrogate range. */
  lemma BmpEscapeDecodes(t: string, v: nat)
    requires |t| >= 1 && t[0] == 'u' && ParseHex4(t[1..]) == Some(v)
    requires v < 0xD800 || 0xE000 <= v
    ensures DecodeEscape(t) == Some((v as char, 5))
  {
  }

  /** Reading a surrogate pair `\uD8XX\uDCXX`. */
  lemma PairEscapeDecodes(t: string, hi: nat, lo: nat)
    requires |t| >= 7 && t[0] == 'u' && ParseHex4(t[1..]) == Some(hi) && 0xD800 <= hi < 0xDC00
    requires t[5] == '\\' && t[6] == 'u' && ParseHex4(t[7..]) == Some(lo) && 0xDC00 <= lo < 0xE000
    ensures DecodeEscape(t) == Some(((0x10000 + (hi - 0xD800) * 0x400 + (lo - 0xDC00)) as char, 11))
  {
  }

  /** The surrogate halves put the code point back together. */
  lemma SurrogateHalves(cp: int)
    requires 0x10000 <= cp < 0x110000
    ensures 0x10000 + (HighSurrogate(cp) - 0xD800) * 0x400 + (LowSurrogate(cp) - 0xDC00) == cp
  {
  }

  /** The pieces of a `\\uXXXX` escape followed by other text. */
  lemma UnicodeEscapeParts(n: nat, rest: string)
    requires n < 0x10000
    ensures var s := UnicodeEscape(n) + rest;
      |s| >= 6 && s[0] == '\\' && s[1] == 'u' && ParseHex4(s[2..]) == Some(n) && s[6..] == rest
  {
    var s := UnicodeEscape(n) + rest;
    assert s[2..] == Hex4(n) + rest;
    Hex4RoundTrip(n, rest);
    assert s[6..] == rest;
  }

  /** Reading a two-character escape, given the text after its backslash. */
  lemma ShortEscapeDecodes(c: char, t: string)
    requires HasShortEscape(c) && |t| >= 1 && t[0] == ShortEscapeLetter(c)
    ensures DecodeEscape(t) == Some((c, 1))
  {
  }

  lemma ShortEscapeRoundTrip(c: char, rest: string)
    requires HasShortEscape(c)
    ensures DecodeBody(EscapeChar(c) + rest) == Prepend(c, DecodeBody(rest))
  {
    var s := EscapeChar(c) + rest;
    assert EscapeChar(c) == ['\\', ShortEscapeLetter(c)];
    assert s[0] == '\\' && s[1] == ShortEscapeLetter(c);
    ShortEscapeDecodes(c, s[1..]);
    BodyAfterEscape(s, c, 1);
    assert s[2..] == rest;
  }

  lemma BmpEscapeRoundTrip(c: char, rest: string)
    requires !HasShortEscape(c) && !IsPrintableAscii(c) && (c as int) < 0x10000
    ensures DecodeBody(EscapeChar(c) + rest) == Prepend(c, DecodeBody(rest))
  {
    var s := UnicodeEscape(c as int) + rest;
    UnicodeEscapeParts(c as int, rest);
    assert s[1..][1..] == s[2..];
    BmpEscapeDecodes(s[1..], c as int);
    BodyAfterEscape(s, c, 5);
  }

  lemma AstralEscapeRoundTrip(c: char, rest: string)
    requires !HasShortEscape(c) && (c as int) >= 0x10000
    ensures DecodeBody(EscapeChar(c) + rest) == Prepend(c, DecodeBody(rest))
  {
    var hi, lo := HighSurrogate(c as int), LowSurrogate(c as int);
    var low := UnicodeEscape(lo) + rest;
    var s := UnicodeEscape(hi) + low;
    Associate(UnicodeEscape(hi), UnicodeEscape(lo), rest);
    UnicodeEscapeParts(hi, low);
    UnicodeEscapeParts(lo, rest);
    var t := s[1..];
    assert t[1..] == s[2..];
    assert t[5] == low[0] && t[6] == low[1];
    assert t[7..] == low[2..];
    PairEscapeDecodes(t, hi, lo);
    SurrogateHalves(c as int);
    BodyAfterEscape(s, c, 11);
    assert s[12..] == rest;
  }

  /** An escaped character reads back as that character, and reading continues after it. */
  lemma EscapeCharRoundTrip(c: char, rest: string)
    ensures DecodeBody(EscapeChar(c) + rest) == Prepend(c, DecodeBody(rest))
  {
    if HasShortEscape(c) {
      ShortEscapeRoundTrip(c, rest);
    } else if IsPrintableAscii(c) {
      assert (EscapeChar(c) + rest)[1..] == rest;
    } else if (c as int) < 0x10000 {
      BmpEscapeRoundTrip(c, rest);
    } else {
      AstralEscapeRoundTrip(c, rest);
    }
  }

  /** A written literal body reads back as the original text, followed by what came after it. */
  lemma {:induction false} EscapeRoundTrip(s: string, rest: string)
    ensures DecodeBody(Escape(s) + "\"" + rest) == Some((s, rest))
  {
    if s == [] {
      assert (Escape(s) + "\"" + rest)[1..] == rest;
    } else {
      var q := "\"" + rest;
      Associate(Escape(s), "\"", rest);
      Associate(EscapeChar(s[0]), Escape(s[1..]), q);
      Associate(Escape(s[1..]), "\"", rest);
      EscapeCharRoundTrip(s[0], Escape(s[1..]) + q);
      EscapeRoundTrip(s[1..], rest);
      assert [s[0]] + s[1..] == s;
    }
  }

  /** A quoted string reads back as the original text, whatever follows the closing quote. */
  lemma QuoteRoundTrip(s: string, rest: string)
    ensures DecodeString(Quote(s) + rest) == Some((s, rest))
  {
    assert (Quote(s) + rest)[1..] == Escape(s) + "\"" + rest;
    EscapeRoundTrip(s, rest);
  }

  /** A character `json.dumps` writes as itself. */
  predicate IsPlain(c: char) { IsPrintableAscii(c) && c != '"' && c != '\\' }

  predicate AllPlain(s: string) { forall k :: 0 <= k < |s| ==> IsPlain(s[k]) }

  /**
   * Escaping leaves a text unchanged exactly when every character is plain,
   * and lengthens it otherwise.
   */
  lemma {:induction false} EscapeKeepsPlainText(s: string)
    ensures AllPlain(s) <==> |Escape(s)| == |s|
    ensures AllPlain(s) <==> Escape(s) == s
  {
    if s != [] {
      EscapeKeepsPlainText(s[1..]);
      var e := EscapeChar(s[0]);
      assert |e| == 1 <==> IsPlain(s[0]);
      assert AllPlain(s) <==> IsPlain(s[0]) && AllPlain(s[1..]) by {
        if IsPlain(s[0]) && AllPlain(s[1..]) {
          forall k | 0 <= k < |s| ensures IsPlain(s[k]) {
            if k > 0 { assert s[k] == s[1..][k - 1]; }
          }
        }
      }
      assert s == [s[0]] + s[1..];
    }
  }

  /** A text between double quotes exactly as it is, with nothing escaped. */
  function Verbatim(s: string): string
  {
    "\"" + s + "\""
  }

  /** A plain text is quoted verbatim. */
  lemma PlainTextQuotesVerbatim(s: string)
    requires AllPlain(s)
    ensures Quote(s) == Verbatim(s)
  {
    EscapeKeepsPlainText(s);
  }

  lemma PlainConcat(a: string, b: string)
    requires AllPlain(a) && AllPlain(b)
    ensures AllPlain(a + b)
  {
    forall k | 0 <= k < |a + b|
      ensures IsPlain((a + b)[k])
    {
      if k >= |a| {
        assert (a + b)[k] == b[k - |a|];
      }
    }
  }
}
