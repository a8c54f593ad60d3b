// Go's strconv.Quote (what fmt's %q writes for a string) and JavaScript's
// JSON.stringify of a string, each with the decoder it is proved against.
module Quoting {
  import opened Wrappers

  const HexDigits: string := "0123456789abcdef"

  function HexValue(c: char): Option<nat>
  {
    if '0' <= c <= '9' then Some((c as int) - ('0' as int))
    else if 'a' <= c <= 'f' then Some((c as int) - ('a' as int) + 10)
    else if 'A' <= c <= 'F' then Some((c as int) - ('A' as int) + 10)
    else None
  }

  lemma HexValueOfDigit(d: nat)
    requires d < 16
    ensures HexValue(HexDigits[d]) == Some(d)
  {
  }

  /** Lower-case hexadecimal digits of n, exactly width of them. */
  function Hex(n: nat, width: nat): (r: string)
    ensures |r| == width
  {
    if width == 0 then "" else Hex(n / 16, width - 1) + [HexDigits[n % 16]]
  }

  /** The number a string of hexadecimal digits denotes. */
  function HexNumber(s: string): Option<nat>
  {
    if |s| == 0 then Some(0)
    else match (HexNumber(s[..|s| - 1]), HexValue(s[|s| - 1]))
      case (Some(a), Some(b)) => Some(a * 16 + b)
      case _ => None
  }

  function Pow16(k: nat): nat { if k == 0 then 1 else 16 * Pow16(k - 1) }

  lemma {:induction false} HexNumberOfHex(n: nat, width: nat)
    requires n < Pow16(width)
    ensures HexNumber(Hex(n, width)) == Some(n)
  {
    if width > 0 {
      var r := Hex(n, width);
      assert r[..|r| - 1] == Hex(n / 16, width - 1);
      HexNumberOfHex(n / 16, width - 1);
      HexValueOfDigit(n % 16);
    }
  }

  // ---- strconv.Quote ----

  /** unicode.IsPrint on the Latin-1 range; every code point above U+00FF is
      taken as printable. */
  predicate IsGoPrint(c: char)
  {
    if c < '\U{0100}' then (' ' <= c <= '~') || ('\U{00A1}' <= c && c != '\U{00AD}')
    else true
  }

  /** How strconv.Quote writes one character inside the quotes. */
  function GoEscape(c: char): string
  {
    if c == '"' || c == '\\' then ['\\', c]
    else if IsGoPrint(c) then [c]
    else if c == '\U{0007}' then "\\a"
    else if c == '\U{0008}' then "\\b"
    else if c == '\U{000C}' then "\\f"
    else if c == '\n' then "\\n"
    else if c == '\r' then "\\r"
    else if c == '\t' then "\\t"
    else if c == '\U{000B}' then "\\v"
    else if c < ' ' || c == '\U{007F}' then "\\x" + Hex(c as nat, 2)
    else "\\u" + Hex(c as nat, 4)
  }

  function GoEscapeAll(s: string): string
  {
    if |s| == 0 then "" else GoEscape(s[0]) + GoEscapeAll(s[1..])
  }

  /** strconv.Quote(s), as written by fmt's %q verb. */
  function GoQuote(s: string): (r: string)
    ensures |r| >= 2 && r[0] == '"' && r[|r| - 1] == '"'
  {
    "\"" + GoEscapeAll(s) + "\""
  }

  /** Decodes the escapes strconv.Quote writes (Go's escape syntax for a
      double-quoted literal without octal escapes). */
  function GoUnescape(s: string): Option<string>
  {
    if |s| == 0 then Some("")
    else if s[0] == '"' then None
    else if s[0] != '\\' then
      match GoUnescape(s[1..]) case Some(t) => Some([s[0]] + t) case None => None
    else if |s| < 2 then None
    else
      var e := s[1];
      var simple :=
        if e == 'a' then Some('\U{0007}') else if e == 'b' then Some('\U{0008}')
        else if e == 'f' then Some('\U{000C}') else if e == 'n' then Some('\n')
        else if e == 'r' then Some('\r') else if e == 't' then Some('\t')
        else if e == 'v' then Some('\U{000B}') else if e == '\\' || e == '"' then Some(e)
        else None;
      if simple.Some? then
        match GoUnescape(s[2..]) case Some(t) => Some([simple.value] + t) case None => None
      else if e == 'x' || e == 'u' then
        var w := if e == 'x' then 2 else 4;
        if |s| < 2 + w then None
        else match HexNumber(s[2..2 + w])
          case Some(n) =>
            if n < 0xD800 then
              match GoUnescape(s[2 + w..]) case Some(t) => Some([n as char] + t) case None => None
            else None
          case None => None
      else None
  }

  /** The inverse of GoQuote: strips the quotes and decodes the escapes. */
  function GoUnquote(q: string): Option<string>
  {
    if |q| < 2 || q[0] != '"' || q[|q| - 1] != '"' then None else GoUnescape(q[1..|q| - 1])
  }

  /** The characters strconv.Quote writes as they are or as a backslash
      and one letter. */
  predicate ShortEscape(c: char)
  {
    c == '"' || c == '\\' || IsGoPrint(c) || c == '\U{0007}' || c == '\U{0008}' || c == '\U{000C}'
    || c == '\n' || c == '\r' || c == '\t' || c == '\U{000B}'
  }

  lemma UnescapeShort(c: char, rest: string)
    requires ShortEscape(c)
    ensures GoUnescape(GoEscape(c) + rest) ==
      match GoUnescape(rest) case Some(t) => Some([c] + t) case None => None
  {
    var e := GoEscape(c);
    assert (e + rest)[|e|..] == rest;
  }

  lemma UnescapeHex(c: char, rest: string, width: nat)
    requires !ShortEscape(c)
    requires width == (if c < ' ' || c == '\U{007F}' then 2 else 4)
    ensures GoUnescape(GoEscape(c) + rest) ==
      match GoUnescape(rest) case Some(t) => Some([c] + t) case None => None
  {
    var e := GoEscape(c);
    var s := e + rest;
    assert s[2..2 + width] == Hex(c as nat, width);
    HexNumberOfHex(c as nat, width);
    assert s[2 + width..] == rest;
  }

  lemma GoUnescapeStep(c: char, rest: string)
    ensures GoUnescape(GoEscape(c) + rest) ==
      match GoUnescape(rest) case Some(t) => Some([c] + t) case None => None
  {
    if ShortEscape(c) {
      UnescapeShort(c, rest);
    } else {
      UnescapeHex(c, rest, if c < ' ' || c == '\U{007F}' then 2 else 4);
    }
  }

  lemma {:induction false} GoUnescapeEscapeAll(s: string)
    ensures GoUnescape(GoEscapeAll(s)) == Some(s)
  {
    if |s| > 0 {
      GoUnescapeEscapeAll(s[1..]);
      GoUnescapeStep(s[0], GoEscapeAll(s[1..]));
      assert [s[0]] + s[1..] == s;
    }
  }

  /** Quoting is lossless: unquoting what GoQuote writes gives back the text. */
  lemma GoQuoteRoundTrip(s: string)
    ensures GoUnquote(GoQuote(s)) == Some(s)
  {
    var q := GoQuote(s);
    assert q[1..|q| - 1] == GoEscapeAll(s);
    GoUnescapeEscapeAll(s);
  }

  // ---- JSON.stringify of a string ----

  /** How JSON.stringify writes one character inside the quotes: the
      quote and the backslash escaped, the control characters by their short
      escapes or as \u00xx, anything else as it is. */
  function JsonEscape(c: char): (r: string)
    ensures c >= ' ' && c != '"' && c != '\\' ==> r == [c]
    ensures c == '"' || c == '\\' ==> r == ['\\', c]
    ensures c < ' ' ==> |r| >= 2 && r[0] == '\\'
  {
    if c == '"' || c == '\\' then ['\\', c]
    else if c == '\U{0008}' then "\\b"
    else if c == '\t' then "\\t"
    else if c == '\n' then "\\n"
    else if c == '\U{000C}' then "\\f"
    else if c == '\r' then "\\r"
    else if c < ' ' then "\\u" + Hex(c as nat, 4)
    else [c]
  }

  function JsonEscapeAll(s: string): string
  {
    if |s| == 0 then "" else JsonEscape(s[0]) + JsonEscapeAll(s[1..])
  }

  /** JSON.stringify(s) for a string s. */
  function JsonQuote(s: string): (r: string)
    ensures |r| >= 2 && r[0] == '"' && r[|r| - 1] == '"'
  {
    "\"" + JsonEscapeAll(s) + "\""
  }

  /** Decodes the escapes of a JSON string body (JSON.parse's grammar). */
  function JsonUnescape(s: string): Option<string>
  {
    if |s| == 0 then Some("")
    else if s[0] == '"' || s[0] < ' ' then None
    else if s[0] != '\\' then
      match JsonUnescape(s[1..]) case Some(t) => Some([s[0]] + t) case None => None
    else if |s| < 2 then None
    else
      var e := s[1];
      var simple :=
        if e == 'b' then Some('\U{0008}') else if e == 'f' then Some('\U{000C}')
        else if e == 'n' then Some('\n') else if e == 'r' then Some('\r')
        else if e == 't' then Some('\t') else if e == '\\' || e == '"' || e == '/' then Some(e)
        else None;
      if simple.Some? then
        match JsonUnescape(s[2..]) case Some(t) => Some([simple.value] + t) case None => None
      else if e == 'u' && |s| >= 6 then
        match HexNumber(s[2..6])
          case Some(n) =>
            if n < 0xD800 then
              match JsonUnescape(s[6..]) case Some(t) => Some([n as char] + t) case None => None
            else None
          case None => None
      else None
  }

  function JsonUnquote(q: string): Option<string>
  {
    if |q| < 2 || q[0] != '"' || q[|q| - 1] != '"' then None else JsonUnescape(q[1..|q| - 1])
  }

  lemma JsonUnescapeStep(c: char, rest: string)
    ensures JsonUnescape(JsonEscape(c) + rest) ==
      match JsonUnescape(rest) case Some(t) => Some([c] + t) case None => None
  {
    var e := JsonEscape(c);
    var s := e + rest;
    if c < ' ' && c != '\U{0008}' && c != '\t' && c != '\n' && c != '\U{000C}' && c != '\r' {
      assert s[2..6] == Hex(c as nat, 4);
      HexNumberOfHex(c as nat, 4);
      assert s[6..] == rest;
    } else {
      assert s[|e|..] == rest;
    }
  }

  lemma {:induction false} JsonUnescapeEscapeAll(s: string)
    ensures JsonUnescape(JsonEscapeAll(s)) == Some(s)
  {
    if |s| > 0 {
      JsonUnescapeEscapeAll(s[1..]);
      JsonUnescapeStep(s[0], JsonEscapeAll(s[1..]));
      assert [s[0]] + s[1..] == s;
    }
  }

  /** JSON.parse(JSON.stringify(s)) === s for every string s. */
  lemma JsonQuoteRoundTrip(s: string)
    ensures JsonUnquote(JsonQuote(s)) == Some(s)
  {
    var q := JsonQuote(s);
    assert q[1..|q| - 1] == JsonEscapeAll(s);
    JsonUnescapeEscapeAll(s);
  }
}
