/**
 * JSON string literals as `JSON.stringify` writes them (the quotation mark, the reverse
 * solidus and the control characters escaped, lower-case hexadecimal in `\u00XX`), and
 * a reader for string literals that undoes the escaping.
 */
module JsonText {
  import opened Wrappers

  function HexDigit(d: nat): char
    requires d < 16
  {
    "0123456789abcdef"[d]
  }

  function HexValue(c: char): Option<nat> {
    if '0' <= c <= '9' then Some(c as int - '0' as int)
    else if 'a' <= c <= 'f' then Some(c as int - 'a' as int + 10)
    else if 'A' <= c <= 'F' then Some(c as int - 'A' as int + 10)
    else None
  }

  lemma HexValueOfHexDigit(d: nat)
    requires d < 16
    ensures HexValue(HexDigit(d)) == Some(d)
  {
  }

  /** How `JSON.stringify` writes one character inside a string literal. */
  function EscapeChar(c: char): string {
    if c == '"' then "\\\""
    else if c == '\\' then "\\\\"
    else if c == '\U{8}' then "\\b"
    else if c == '\t' then "\\t"
    else if c == '\n' then "\\n"
    else if c == '\U{C}' then "\\f"
    else if c == '\r' then "\\r"
    else if c < ' ' then "\\u00" + [HexDigit(c as int / 16), HexDigit(c as int % 16)]
    else [c]
  }

  function Escape(s: string): string {
    if s == [] then [] else EscapeChar(s[0]) + Escape(s[1..])
  }

  /** The JSON string literal of `s`. */
  function Quote(s: string): string {
    "\"" + Escape(s) + "\""
  }

  /** The character denoted by the escape sequence at the front of `s` (just after a
    * backslash) and how many characters the sequence takes. */
  function EscapeSequence(s: string): (r: Option<(char, nat)>)
    ensures r.Some? ==> 1 <= r.value.1 <= |s|
  {
    if s == [] then None
    else if s[0] == '"' then Some(('"', 1))
    else if s[0] == '\\' then Some(('\\', 1))
    else if s[0] == '/' then Some(('/', 1))
    else if s[0] == 'b' then Some(('\U{8}', 1))
    else if s[0] == 't' then Some(('\t', 1))
    else if s[0] == 'n' then Some(('\n', 1))
    else if s[0] == 'f' then Some(('\U{C}', 1))
    else if s[0] == 'r' then Some(('\r', 1))
    else if s[0] == 'u' && |s| >= 5 then
      match (HexValue(s[1]), HexValue(s[2]), HexValue(s[3]), HexValue(s[4]))
      case (Some(a), Some(b), Some(c), Some(d)) =>
        var v := 4096 * a + 256 * b + 16 * c + d;
        if v < 0x1_0000 && !(0xD800 <= v <= 0xDFFF) then Some((v as char, 5)) else None
      case _ => None
    else None
  }

  function Prepend(c: char, r: Option<(string, string)>): Option<(string, string)> {
    match r
    case None => None
    case Some((text, rest)) => Some(([c] + text, rest))
  }

  /**
   * Reads the inside of a JSON string literal, from just after its opening quote: the
   * decoded text and what follows the closing quote, or None when the literal is malformed.
   */
  function ReadString(s: string): (r: Option<(string, string)>)
    ensures r.Some? ==> |r.value.1| < |s|
    decreases |s|
  {
    if s == [] then None
    else if s[0] == '"' then Some(("", s[1..]))
    else if s[0] == '\\' then
      match EscapeSequence(s[1..])
      case None => None
      case Some((c, n)) => Prepend(c, ReadString(s[1 + n..]))
    else if s[0] < ' ' then None
    else Prepend(s[0], ReadString(s[1..]))
  }

  /** A control character without a short escape is written `\u00XX` and read back. */
  lemma ReadUnicodeEscape(c: char, tail: string)
    requires c < ' ' && c != '\U{8}' && c != '\t' && c != '\n' && c != '\U{C}' && c != '\r'
    ensures ReadString(EscapeChar(c) + tail) == Prepend(c, ReadString(tail))
  {
    var s := EscapeChar(c) + tail;
    var hi, lo := c as int / 16, c as int % 16;
    HexValueOfHexDigit(hi);
    HexValueOfHexDigit(lo);
    assert s[..6] == ['\\', 'u', '0', '0', HexDigit(hi), HexDigit(lo)];
    assert 4096 * 0 + 256 * 0 + 16 * hi + lo == c as int;
    assert EscapeSequence(s[1..]) == Some((c, 5));
    assert s[6..] == tail;
  }

  lemma ReadEscapedChar(c: char, tail: string)
    ensures ReadString(EscapeChar(c) + tail) == Prepend(c, ReadString(tail))
  {
    if c == '"' || c == '\\' || c == '\U{8}' || c == '\t' || c == '\n' || c == '\U{C}' || c == '\r' {
      ReadShortEscape(c, tail);
    } else if c < ' ' {
      ReadUnicodeEscape(c, tail);
    } else {
      var s := EscapeChar(c) + tail;
      assert s[1..] == tail;
    }
  }

  /** A character with a two-character escape is read back from it. */
  lemma ReadShortEscape(c: char, tail: string)
    requires c == '"' || c == '\\' || c == '\U{8}' || c == '\t' || c == '\n' || c == '\U{C}' || c == '\r'
    ensures ReadString(EscapeChar(c) + tail) == Prepend(c, ReadString(tail))
  {
    var s := EscapeChar(c) + tail;
    assert |EscapeChar(c)| == 2 && s[0] == '\\';
    assert s[2..] == tail;
    assert EscapeSequence(s[1..]) == Some((c, 1)) by {
      if c == '"' { assert s[1] == '"'; }
      else if c == '\\' { assert s[1] == '\\'; }
      else if c == '\U{8}' { assert s[1] == 'b'; }
      else if c == '\t' { assert s[1] == 't'; }
      else if c == '\n' { assert s[1] == 'n'; }
      else if c == '\U{C}' { assert s[1] == 'f'; }
      else { assert s[1] == 'r'; }
    }
  }

  /** Reading back an escaped string and its closing quote yields the string and what follows. */
  lemma {:induction false} ReadEscaped(s: string, rest: string)
    ensures ReadString(Escape(s) + "\"" + rest) == Some((s, rest))
  {
    if s == [] {
      assert Escape(s) + "\"" + rest == ['"'] + rest;
    } else {
      var tail := Escape(s[1..]) + "\"" + rest;
      assert Escape(s) + "\"" + rest == EscapeChar(s[0]) + tail;
      ReadEscapedChar(s[0], tail);
      ReadEscaped(s[1..], rest);
      assert [s[0]] + s[1..] == s;
    }
  }
}
