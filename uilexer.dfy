// The tokenizer of the web UI (ui/src/lib/parser.ts): a Parser over the
// remaining text with a one-character pushback (last position and last
// character) and a one-token lookahead (peeked).
//
// Characters are read as strings of length 0 or 1, and the character classes
// are checked with String.prototype.includes, for which the empty string is
// included in every string. The functions below take a Mode: AsWritten
// follows the source, where the loops testing a character read at end of
// input never stop (Hang) and run keeps the character that ends it;
// Corrected tests that the character is one of the set's characters and
// has run put the ending character back, as the Go tokenizer does. The
// Parser class implements the corrected tokenizer.
module UiLexer {
  import opened Wrappers
  import Text

  /** The character sets the source tests with includes: alpha + digits +
      "_" (isIdentChar), digits (isDigit), " \t\n" (isSpace), ExponentChars and SignChars. */
  datatype CharClass = IdentChars | DigitChars | SpaceChars | ExponentChars | SignChars

  /** A character is in one of those strings. */
  predicate InClass(cls: CharClass, ch: char)
  {
    match cls
    case IdentChars => 'a' <= ch <= 'z' || 'A' <= ch <= 'Z' || '0' <= ch <= '9' || ch == '_'
    case DigitChars => '0' <= ch <= '9'
    case SpaceChars => ch == ' ' || ch == '\t' || ch == '\n'
    case ExponentChars => ch == 'e' || ch == 'E'
    case SignChars => ch == '+' || ch == '-'
  }

  datatype Mode = AsWritten | Corrected

  /** includes applied to a character read: a character is included when it
      is one of the string's characters, and the empty string read at end of
      input is included in every string. The corrected test is membership,
      which "" never passes. */
  predicate OneOf(mode: Mode, cls: CharClass, c: string)
  {
    if c == "" then mode == AsWritten else InClass(cls, c[0])
  }

  // ---- tokens ----

  datatype TokenType = Invalid | Eof | Ident | Number | Str | Newline | BadEscape
    | Eq | Neq | EqRegexp | NeqRegexp | LBrace | RBrace | LParen | RParen | Comma

  /** The string value of each member of the TokenType enumeration. */
  function Description(t: TokenType): string
  {
    match t
    case Invalid => "invalid"
    case Eof => "end of input"
    case Ident => "ident"
    case Number => "number"
    case Str => "string"
    case Newline => "new line"
    case BadEscape => "bad escape"
    case Eq => "equal"
    case Neq => "not equal"
    case EqRegexp => "equal pattern"
    case NeqRegexp => "not equal pattern"
    case LBrace => "left brace"
    case RBrace => "right brace"
    case LParen => "left parenthesis"
    case RParen => "right parenthesis"
    case Comma => "comma"
  }

  /** The type a description names, when it names one. */
  function TypeOfDescription(d: string): (t: Option<TokenType>)
    ensures t.Some? ==> Description(t.value) == d
  {
    if d == "invalid" then Some(Invalid)
    else if d == "end of input" then Some(Eof)
    else if d == "ident" then Some(Ident)
    else if d == "number" then Some(Number)
    else if d == "string" then Some(Str)
    else if d == "new line" then Some(Newline)
    else if d == "bad escape" then Some(BadEscape)
    else if d == "equal" then Some(Eq)
    else if d == "not equal" then Some(Neq)
    else if d == "equal pattern" then Some(EqRegexp)
    else if d == "not equal pattern" then Some(NeqRegexp)
    else if d == "left brace" then Some(LBrace)
    else if d == "right brace" then Some(RBrace)
    else if d == "left parenthesis" then Some(LParen)
    else if d == "right parenthesis" then Some(RParen)
    else if d == "comma" then Some(Comma)
    else None
  }

  /** Distinct types have distinct descriptions, so comparing the enum's
      string values compares the types. */
  lemma DescriptionNames(t: TokenType)
    ensures TypeOfDescription(Description(t)) == Some(t)
  {
  }

  datatype Position = Position(line: nat, character: nat)

  /** formatPosition: "<line>:<character>". */
  function FormatPosition(p: Position): (s: string)
    ensures var k := |Text.NatToString(p.line)|;
      k < |s| && s[k] == ':' && Text.AllDigits(s[..k]) && Text.AllDigits(s[k + 1..])
      && Text.DecimalValue(s[..k]) == p.line && Text.DecimalValue(s[k + 1..]) == p.character
  {
    var a, b := Text.NatToString(p.line), Text.NatToString(p.character);
    var s := a + ":" + b;
    assert s[..|a|] == a && s[|a| + 1..] == b;
    Text.DecimalValueOfNatToString(p.line);
    Text.DecimalValueOfNatToString(p.character);
    s
  }

  datatype Token = Token(typ: TokenType, pos: Position, text: string)

  /** The outcome of an operation that may throw or, as written, never end. */
  datatype Outcome<T> = Done(value: T) | Thrown(message: string) | Hang

  // ---- the parser state and its operations, as functions ----

  datatype Lexer = Lexer(text: string, pos: Position, last: Option<Position>,
                         lastCh: Option<string>, peeked: Option<Token>)

  /** A new parser: the whole text ahead, at line 1, character 1. */
  function Start(text: string): Lexer
  {
    Lexer(text, Position(1, 1), None, None, None)
  }

  /** tokenAtPos: a token stamped with the current position. */
  function TokenAt(l: Lexer, typ: TokenType, text: string): Token
  {
    Token(typ, l.pos, text)
  }

  /** The text the parser would hold after an unread. */
  function Span(l: Lexer): nat
  {
    |l.text| + (if l.last.Some? && l.lastCh.Some? then |l.lastCh.value| else 0)
  }

  /** read: the first character ("" at end of input) is removed from the
      text and remembered with the position it was read at; a newline moves
      to the start of the next line, anything else, end of input included,
      one character along. */
  function ReadChar(l: Lexer): (r: (string, Lexer))
    ensures r.0 + r.1.text == l.text && |r.0| <= 1 && (l.text != "" ==> |r.0| == 1)
    ensures r.1.last == Some(l.pos) && r.1.lastCh == Some(r.0) && r.1.peeked == l.peeked
    ensures r.1.pos == if r.0 == "\n" then Position(l.pos.line + 1, 1)
                       else Position(l.pos.line, l.pos.character + 1)
    ensures Span(r.1) == |l.text|
  {
    var c := if l.text == "" then "" else l.text[..1];
    var rest := if l.text == "" then "" else l.text[1..];
    var pos := if c == "\n" then Position(l.pos.line + 1, 1) else Position(l.pos.line, l.pos.character + 1);
    (c, Lexer(rest, pos, Some(l.pos), Some(c), l.peeked))
  }

  /** unread: when a character is remembered, it goes back in front of the
      text and its position is restored; the memory is then cleared. */
  function UnreadChar(l: Lexer): (r: Lexer)
    ensures r.peeked == l.peeked && !(r.last.Some? && r.lastCh.Some?)
    ensures Span(r) == Span(l) && |r.text| == Span(l)
    ensures l.last.Some? && l.lastCh.Some? ==> r.text == l.lastCh.value + l.text && r.pos == l.last.value
    ensures !(l.last.Some? && l.lastCh.Some?) ==> r == l
  {
    if l.last.Some? && l.lastCh.Some? then Lexer(l.lastCh.value + l.text, l.last.value, None, None, l.peeked)
    else l
  }

  /** Reading a character and unreading it gives the state back, with no
      character remembered. */
  lemma ReadUnread(l: Lexer)
    ensures UnreadChar(ReadChar(l).1) == l.(last := None, lastCh := None)
  {
    var (c, l1) := ReadChar(l);
    assert c + l1.text == l.text;
  }

  /** A second unread does nothing. */
  lemma UnreadOnce(l: Lexer)
    ensures UnreadChar(UnreadChar(l)) == UnreadChar(l)
  {
  }

  /** The state after n reads. */
  function Reads(l: Lexer, n: nat): Lexer
    decreases n
  {
    if n == 0 then l else Reads(ReadChar(l).1, n - 1)
  }

  /** As written, a loop whose guard tests the character read never stops once the input is exhausted: every later read gives "", and
      "" passes every test. */
  lemma {:induction false} EndOfInputForever(l: Lexer, n: nat, cls: CharClass)
    decreases n
    requires l.text == ""
    ensures Reads(l, n).text == ""
    ensures ReadChar(Reads(l, n)).0 == "" && OneOf(AsWritten, cls, ReadChar(Reads(l, n)).0)
  {
    if n > 0 {
      EndOfInputForever(ReadChar(l).1, n - 1, cls);
    }
  }

  // ---- loops ----

  /** The number of leading characters of text that are in the class. */
  function Leading(cls: CharClass, text: string): (k: nat)
    ensures k <= |text|
  {
    if text != "" && InClass(cls, text[0]) then 1 + Leading(cls, text[1..]) else 0
  }

  /** run: reads characters while they pass the test, accumulating them. */
  function RunSet(mode: Mode, l: Lexer, cls: CharClass, s: string): (r: Outcome<(string, Lexer)>)
    ensures r.Done? ==> r.value.1.peeked == l.peeked && Span(r.value.1) + |r.value.0| <= |l.text| + |s|
    ensures r.Done? ==> |r.value.0| >= |s|
    ensures !r.Thrown?
    decreases |l.text|
  {
    var (c, l1) := ReadChar(l);
    if !OneOf(mode, cls, c) then Done((s, if mode == Corrected then UnreadChar(l1) else l1))
    else if c == "" then Hang
    else RunSet(mode, l1, cls, s + c)
  }

  /** Cutting a text after its first character. */
  lemma PrefixStep(t: string, k: nat)
    requires 1 <= k <= |t|
    ensures t[..k] == t[..1] + t[1..][..k - 1] && t[k..] == t[1..][k - 1..]
    ensures k < |t| ==> t[k + 1..] == t[1..][k..]
  {
  }

  /** The accumulated text followed by the first character and then the
      next k characters. */
  lemma Extend(s: string, t: string, k: nat)
    requires k + 1 <= |t|
    ensures (s + t[..1]) + t[1..][..k] == s + t[..k + 1]
  {
    assert t[..k + 1] == t[..1] + t[1..][..k];
  }

  /** What is left after the first character and then k more. */
  lemma Skip(t: string, k: nat)
    requires k + 1 <= |t|
    ensures t[1..][k..] == t[k + 1..]
    ensures k + 2 <= |t| ==> t[1..][k + 1..] == t[k + 2..]
  {
  }

  /** A character of the class is taken and run goes on after it. */
  lemma RunStep(mode: Mode, l: Lexer, cls: CharClass, s: string)
    requires l.text != "" && InClass(cls, l.text[0])
    ensures ReadChar(l).1.text == l.text[1..] && Leading(cls, l.text) == 1 + Leading(cls, l.text[1..])
    ensures RunSet(mode, l, cls, s) == RunSet(mode, ReadChar(l).1, cls, s + l.text[..1])
  {
    assert ReadChar(l).0 == [l.text[0]];
  }

  /** Run stops at the first character outside the class, putting it back when
      corrected and consuming it as written; as written it never stops at
      end of input. */
  lemma RunStop(mode: Mode, l: Lexer, cls: CharClass, s: string)
    requires l.text == "" || !InClass(cls, l.text[0])
    ensures Leading(cls, l.text) == 0
    ensures var r := RunSet(mode, l, cls, s);
      (mode == Corrected ==> r.Done? && r.value.0 == s && r.value.1.text == l.text)
      && (mode == AsWritten ==> (r.Done? <==> l.text != ""))
      && (mode == AsWritten && r.Done? ==> r.value.0 == s && r.value.1.text == l.text[1..])
  {
    if l.text != "" {
      assert ReadChar(l).0 == [l.text[0]];
      ReadUnread(l);
    }
  }

  /** The corrected run takes the longest prefix of characters of the class and
      leaves the rest of the text. */
  lemma {:induction false} RunCorrected(l: Lexer, cls: CharClass, s: string)
    ensures var k := Leading(cls, l.text); var r := RunSet(Corrected, l, cls, s);
      r.Done? && r.value.0 == s + l.text[..k] && r.value.1.text == l.text[k..]
    decreases |l.text|
  {
    if l.text != "" && InClass(cls, l.text[0]) {
      RunStep(Corrected, l, cls, s);
      var l1 := ReadChar(l).1;
      RunCorrected(l1, cls, s + l.text[..1]);
      Extend(s, l.text, Leading(cls, l1.text));
      Skip(l.text, Leading(cls, l1.text));
    } else {
      RunStop(Corrected, l, cls, s);
    }
  }

  /** As written, run stops only when a character outside the class
      follows the prefix; when the text ends inside the run it never stops. */
  lemma {:induction false} RunAsWrittenStops(l: Lexer, cls: CharClass, s: string)
    ensures RunSet(AsWritten, l, cls, s).Done? <==> Leading(cls, l.text) < |l.text|
    decreases |l.text|
  {
    if l.text != "" && InClass(cls, l.text[0]) {
      RunStep(AsWritten, l, cls, s);
      RunAsWrittenStops(ReadChar(l).1, cls, s + l.text[..1]);
    } else {
      RunStop(AsWritten, l, cls, s);
    }
  }

  /** When it stops, run as written has taken the same prefix as the
      corrected run but has also consumed the character after it. */
  lemma {:induction false} RunAsWritten(l: Lexer, cls: CharClass, s: string)
    requires RunSet(AsWritten, l, cls, s).Done?
    ensures var k := Leading(cls, l.text); var r := RunSet(AsWritten, l, cls, s).value;
      k < |l.text| && r.0 == s + l.text[..k] && r.1.text == l.text[k + 1..]
    decreases |l.text|
  {
    RunAsWrittenStops(l, cls, s);
    if l.text != "" && InClass(cls, l.text[0]) {
      RunStep(AsWritten, l, cls, s);
      var l1 := ReadChar(l).1;
      RunAsWritten(l1, cls, s + l.text[..1]);
      Extend(s, l.text, Leading(cls, l1.text));
      Skip(l.text, Leading(cls, l1.text));
    } else {
      RunStop(AsWritten, l, cls, s);
    }
  }

  /** The white-space loop of scan: reads until a character fails isSpace. */
  function SkipBlanks(mode: Mode, l: Lexer): (r: Outcome<(string, Lexer)>)
    ensures r.Done? ==> r.value.1.peeked == l.peeked && |r.value.0| <= 1
    ensures r.Done? ==> Span(r.value.1) <= |l.text| && Span(r.value.1) == |r.value.1.text| + |r.value.0|
    ensures r.Done? ==> r.value.1.last.Some? && r.value.1.lastCh == Some(r.value.0)
    ensures !r.Thrown?
    decreases |l.text|
  {
    var (c, l1) := ReadChar(l);
    if !OneOf(mode, SpaceChars, c) then Done((c, l1))
    else if c == "" then Hang
    else SkipBlanks(mode, l1)
  }

  /** scanIdent's loop: stops at end of input without an unread, and puts
      back any other character that is not an identifier character. */
  function IdentLoop(l: Lexer, s: string): (r: (string, Lexer))
    ensures r.1.peeked == l.peeked && Span(r.1) + |r.0| <= |l.text| + |s| && |r.0| >= |s|
    decreases |l.text|
  {
    var (c, l1) := ReadChar(l);
    if c == "" then (s, l1)
    else if OneOf(Corrected, IdentChars, c) then IdentLoop(l1, s + c)
    else (s, UnreadChar(l1))
  }

  function ScanIdentToken(l: Lexer): (r: (Token, Lexer))
    ensures r.1.peeked == l.peeked && Span(r.1) + |r.0.text| <= |l.text|
  {
    var (s, l1) := IdentLoop(l, "");
    (TokenAt(l1, Ident, s), l1)
  }

  lemma IdentStep(l: Lexer, s: string)
    requires l.text != "" && InClass(IdentChars, l.text[0])
    ensures ReadChar(l).1.text == l.text[1..] && Leading(IdentChars, l.text) == 1 + Leading(IdentChars, l.text[1..])
    ensures ReadChar(l).1.pos == Position(l.pos.line, l.pos.character + 1)
    ensures IdentLoop(l, s) == IdentLoop(ReadChar(l).1, s + l.text[..1])
  {
    assert ReadChar(l).0 == [l.text[0]];
  }

  lemma IdentStop(l: Lexer, s: string)
    requires l.text == "" || !InClass(IdentChars, l.text[0])
    ensures Leading(IdentChars, l.text) == 0 && IdentLoop(l, s).0 == s && IdentLoop(l, s).1.text == l.text
    ensures IdentLoop(l, s).1.pos == Position(l.pos.line, l.pos.character + (if l.text == "" then 1 else 0))
  {
    if l.text != "" {
      assert ReadChar(l).0 == [l.text[0]];
      ReadUnread(l);
    }
  }

  /** The identifier a text starts with is its longest prefix of
      identifier characters. */
  lemma {:induction false} IdentLoopText(l: Lexer, s: string)
    ensures IdentLoop(l, s).0 == s + l.text[..Leading(IdentChars, l.text)]
    decreases |l.text|
  {
    if l.text != "" && InClass(IdentChars, l.text[0]) {
      IdentStep(l, s);
      var l1 := ReadChar(l).1;
      var c, k1 := l.text[..1], Leading(IdentChars, l1.text);
      IdentLoopText(l1, s + c);
      Extend(s, l.text, k1);
    } else {
      IdentStop(l, s);
    }
  }

  /** The text after the identifier stays. */
  lemma {:induction false} IdentLoopRest(l: Lexer, s: string)
    ensures IdentLoop(l, s).1.text == l.text[Leading(IdentChars, l.text)..]
    decreases |l.text|
  {
    if l.text != "" && InClass(IdentChars, l.text[0]) {
      IdentStep(l, s);
      var l1 := ReadChar(l).1;
      IdentLoopRest(l1, s + l.text[..1]);
      PrefixStep(l.text, Leading(IdentChars, l1.text) + 1);
    } else {
      IdentStop(l, s);
    }
  }

  /** The identifier is stamped just past its last character, or one
      further at end of input, where the read of "" still moves along. */
  lemma {:induction false} IdentLoopPosition(l: Lexer, s: string)
    ensures var k := Leading(IdentChars, l.text);
      IdentLoop(l, s).1.pos == Position(l.pos.line, l.pos.character + k + (if k < |l.text| then 0 else 1))
    decreases |l.text|
  {
    if l.text != "" && InClass(IdentChars, l.text[0]) {
      IdentStep(l, s);
      IdentLoopPosition(ReadChar(l).1, s + l.text[..1]);
    } else {
      IdentStop(l, s);
    }
  }

  /** scanString's loop after the opening quote. */
  function StringLoop(l: Lexer, quote: string, s: string): (r: (Token, Lexer))
    ensures r.1.peeked == l.peeked && Span(r.1) <= |l.text|
    decreases |l.text|
  {
    var (c, l1) := ReadChar(l);
    if c == quote then (TokenAt(l1, Str, s), l1)
    else if c == "" then (TokenAt(l1, Eof, s), l1)
    else if c == "\n" then (TokenAt(l1, Newline, s), l1)
    else if c == "\\" then
      var (n, l2) := ReadChar(l1);
      if n == "\\" || n == "\"" || n == "'" then StringLoop(l2, quote, s + n)
      else (TokenAt(l2, BadEscape, c + n), l2)
    else StringLoop(l1, quote, s + c)
  }

  /** scanString: the quote is read, then the loop runs. */
  function ScanStringToken(l: Lexer): (r: (Token, Lexer))
    ensures r.1.peeked == l.peeked && (l.text != "" ==> Span(r.1) < |l.text|)
  {
    var (quote, l1) := ReadChar(l);
    StringLoop(l1, quote, "")
  }

  /** The leading '-' of a number, kept, or the character put back. */
  function NumberSign(l: Lexer): (r: (string, Lexer))
    ensures r.1.peeked == l.peeked && |r.1.text| + |r.0| <= |l.text|
  {
    var (n, l1) := ReadChar(l);
    if n == "-" then ("-", l1) else ("", UnreadChar(l1))
  }

  /** The optional '.' and digits of a number. */
  function NumberFraction(mode: Mode, l: Lexer, s: string): (r: Outcome<(string, Lexer)>)
    ensures r.Done? ==> r.value.1.peeked == l.peeked && Span(r.value.1) + |r.value.0| <= Span(l) + |s|
    ensures r.Done? ==> |r.value.0| >= |s|
    ensures !r.Thrown?
  {
    var (n, l1) := ReadChar(l);
    if n == "." then RunSet(mode, l1, DigitChars, s + ".") else Done((s, UnreadChar(l1)))
  }

  /** The optional exponent of a number: 'e' or 'E', an optional sign, digits. */
  function NumberExponent(mode: Mode, l: Lexer, s: string): (r: Outcome<(string, Lexer)>)
    ensures r.Done? ==> r.value.1.peeked == l.peeked && Span(r.value.1) + |r.value.0| <= Span(l) + |s|
    ensures r.Done? ==> |r.value.0| >= |s|
    ensures !r.Thrown?
  {
    var (n, l1) := ReadChar(l);
    if OneOf(mode, ExponentChars, n) then
      var (n2, l2) := ReadChar(l1);
      if OneOf(mode, SignChars, n2) then RunSet(mode, l2, DigitChars, s + n + n2)
      else RunSet(mode, UnreadChar(l2), DigitChars, s + n)
    else Done((s, UnreadChar(l1)))
  }

  /** scanNumber. */
  function ScanNumberToken(mode: Mode, l: Lexer): (r: Outcome<(Token, Lexer)>)
    ensures r.Done? ==> r.value.1.peeked == l.peeked && Span(r.value.1) + |r.value.0.text| <= |l.text|
    ensures !r.Thrown?
  {
    var (sign, l1) := NumberSign(l);
    var r1 := RunSet(mode, l1, DigitChars, sign);
    if !r1.Done? then Hang else
    var r2 := NumberFraction(mode, r1.value.1, r1.value.0);
    if !r2.Done? then Hang else
    var r3 := NumberExponent(mode, r2.value.1, r2.value.0);
    if !r3.Done? then Hang else
    Done((TokenAt(r3.value.1, Number, r3.value.0), r3.value.1))
  }

  /** The one-character punctuation tokens. */
  function Punctuation(c: string): Option<TokenType>
  {
    if c == "{" then Some(LBrace)
    else if c == "}" then Some(RBrace)
    else if c == "(" then Some(LParen)
    else if c == ")" then Some(RParen)
    else if c == "," then Some(Comma)
    else None
  }

  /** The operators: '=' and '!' each look at the character after them. */
  function ScanOperator(l: Lexer, c: string): (r: (Token, Lexer))
    requires c == "=" || c == "!"
    ensures r.1.peeked == l.peeked && Span(r.1) <= |l.text|
  {
    var (n, l1) := ReadChar(l);
    if c == "=" && n == "~" then (TokenAt(l1, EqRegexp, ""), l1)
    else if c == "!" && n == "=" then (TokenAt(l1, Neq, ""), l1)
    else if c == "!" && n == "~" then (TokenAt(l1, NeqRegexp, ""), l1)
    else
      var l2 := UnreadChar(l1);
      if c == "=" then (TokenAt(l2, Eq, ""), l2) else (TokenAt(l2, Invalid, c), l2)
  }

  /** The branches of scan after the white space, c being the character
      that ended it and l the state just after reading c. */
  function ScanAfter(mode: Mode, l: Lexer, c: string): (r: Outcome<(Token, Lexer)>)
    requires |c| == 1 && l.last.Some? && l.lastCh == Some(c)
    ensures r.Done? ==> r.value.1.peeked == l.peeked && |r.value.1.text| < |c| + |l.text|
    ensures !r.Thrown?
  {
    if c == "-" || OneOf(mode, DigitChars, c) then
      var l0 := UnreadChar(l);
      assert l0.text == c + l.text;
      var r := ScanNumberToken(mode, l0);
      if r.Done? then
        NumberNotEmpty(mode, l0, c);
        r
      else r
    else if OneOf(mode, IdentChars, c) then
      var l0 := UnreadChar(l);
      IdentNotEmpty(l0, c);
      Done(ScanIdentToken(l0))
    else if c == "\"" || c == "'" then Done(ScanStringToken(UnreadChar(l)))
    else if c == "=" || c == "!" then Done(ScanOperator(l, c))
    else if Punctuation(c).Some? then Done((TokenAt(l, Punctuation(c).value, ""), l))
    else Done((TokenAt(l, Invalid, c), l))
  }

  lemma NumberNotEmpty(mode: Mode, l: Lexer, c: string)
    requires |c| == 1 && (c == "-" || OneOf(mode, DigitChars, c)) && Text.HasPrefix(l.text, c)
    requires ScanNumberToken(mode, l).Done?
    ensures |ScanNumberToken(mode, l).value.1.text| < |l.text|
  {
    if c != "-" {
      ReadUnread(l);
      var l1 := NumberSign(l).1;
      assert l1.text == l.text;
      RunStep(mode, l1, DigitChars, "");
    }
  }

  lemma IdentNotEmpty(l: Lexer, c: string)
    requires |c| == 1 && OneOf(Corrected, IdentChars, c) && Text.HasPrefix(l.text, c)
    ensures |ScanIdentToken(l).0.text| >= 1
  {
    var (d, l1) := ReadChar(l);
    assert d == l.text[..1] == c;
  }

  /** scan: skips white space, then dispatches on the character; end of
      input gives EOF. */
  function ScanToken(mode: Mode, l: Lexer): (r: Outcome<(Token, Lexer)>)
    ensures r.Done? ==> r.value.1.peeked == l.peeked && |r.value.1.text| <= |l.text|
    ensures r.Done? && r.value.0.typ != Eof ==> |r.value.1.text| < |l.text|
    ensures !r.Thrown?
  {
    var b := SkipBlanks(mode, l);
    if !b.Done? then Hang
    else if b.value.0 == "" then Done((TokenAt(b.value.1, Eof, ""), b.value.1))
    else ScanAfter(mode, b.value.1, b.value.0)
  }

  /** peek: the memoised next token. */
  function PeekToken(mode: Mode, l: Lexer): (r: Outcome<(Token, Lexer)>)
    ensures r.Done? ==> r.value.1.peeked == Some(r.value.0) && Pending(r.value.1) <= Pending(l)
    ensures !r.Thrown?
  {
    if l.peeked.Some? then Done((l.peeked.value, l))
    else
      var s := ScanToken(mode, l);
      if s.Done? then Done((s.value.0, s.value.1.(peeked := Some(s.value.0)))) else Hang
  }

  /** next: the peeked token, cleared, or else a newly scanned one. */
  function NextToken(mode: Mode, l: Lexer): (r: Outcome<(Token, Lexer)>)
    ensures r.Done? ==> r.value.1.peeked == None && Pending(r.value.1) <= Pending(l)
    ensures r.Done? && r.value.0.typ != Eof ==> Pending(r.value.1) < Pending(l)
    ensures !r.Thrown?
  {
    if l.peeked.Some? then Done((l.peeked.value, l.(peeked := None))) else ScanToken(mode, l)
  }

  /** The message expect throws. */
  function Mismatch(want: TokenType, got: Token): string
  {
    "expected " + Description(want) + " but got " + Description(got.typ) + " at " + FormatPosition(got.pos)
  }

  /** expect: the next token when it has the wanted type; otherwise the
      mismatch is thrown. */
  function ExpectToken(mode: Mode, l: Lexer, want: TokenType): (r: Outcome<(Token, Lexer)>)
    ensures r.Done? <==> NextToken(mode, l).Done? && NextToken(mode, l).value.0.typ == want
    ensures r.Done? ==> r == NextToken(mode, l)
    ensures r.Thrown? <==> NextToken(mode, l).Done? && NextToken(mode, l).value.0.typ != want
    ensures r.Thrown? ==> var got := NextToken(mode, l).value.0;
      r.message == "expected " + Description(want) + " but got " + Description(got.typ) + " at " + FormatPosition(got.pos)
  {
    var n := NextToken(mode, l);
    if !n.Done? then Hang
    else if n.value.0.typ != want then Thrown(Mismatch(want, n.value.0))
    else n
  }

  /** A measure that next never increases and that a token other than EOF
      decreases: the text left, plus one for a peeked token that is not EOF. */
  function Pending(l: Lexer): nat
  {
    |l.text| + (if l.peeked.Some? && l.peeked.value.typ != Eof then 1 else 0)
  }

  // ---- what the tokenizer promises ----

  /** peek is memoised: peeking again gives the same token and state, and
      next after a peek gives what next alone would have. */
  lemma PeekThenNext(mode: Mode, l: Lexer)
    requires PeekToken(mode, l).Done?
    ensures var (t, l1) := PeekToken(mode, l).value;
      l1.peeked == Some(t) && PeekToken(mode, l1) == Done((t, l1)) && NextToken(mode, l1) == NextToken(mode, l)
  {
  }

  /** A scan at a character other than white space dispatches on it. */
  lemma ScanAt(mode: Mode, l: Lexer)
    requires l.text != "" && !InClass(SpaceChars, l.text[0])
    ensures ScanToken(mode, l) == ScanAfter(mode, ReadChar(l).1, l.text[..1])
  {
    assert ReadChar(l).0 == [l.text[0]];
  }

  /** Leading white space is read past one character at a time. */
  lemma {:induction false} BlanksSkipped(mode: Mode, l: Lexer, w: string)
    requires Text.HasPrefix(l.text, w) && forall i :: 0 <= i < |w| ==> InClass(SpaceChars, w[i])
    ensures Reads(l, |w|).text == l.text[|w|..] && Reads(l, |w|).peeked == l.peeked
    ensures SkipBlanks(mode, l) == SkipBlanks(mode, Reads(l, |w|))
    decreases |w|
  {
    if w != "" {
      var l1 := ReadChar(l).1;
      assert ReadChar(l).0 == [w[0]];
      assert Text.HasPrefix(l1.text, w[1..]);
      BlanksSkipped(mode, l1, w[1..]);
    }
  }

  /** With only white space left, scan as written never returns: its loop
      goes on reading "" at end of input. The corrected scan gives EOF. */
  lemma OnlyBlanksLeft(l: Lexer)
    requires forall i :: 0 <= i < |l.text| ==> InClass(SpaceChars, l.text[i])
    ensures ScanToken(AsWritten, l) == Hang
    ensures ScanToken(Corrected, l).Done? && ScanToken(Corrected, l).value.0.typ == Eof
  {
    BlanksSkipped(AsWritten, l, l.text);
    BlanksSkipped(Corrected, l, l.text);
    assert Reads(l, |l.text|).text == "";
  }

  /** The number of leading characters of a class-only prefix. */
  lemma {:induction false} LeadingExactly(cls: CharClass, w: string, rest: string)
    requires forall i :: 0 <= i < |w| ==> InClass(cls, w[i])
    requires rest == "" || !InClass(cls, rest[0])
    ensures Leading(cls, w + rest) == |w|
    decreases |w|
  {
    if w != "" {
      assert (w + rest)[1..] == w[1..] + rest;
      LeadingExactly(cls, w[1..], rest);
    }
  }

  /** An identifier is stamped just past its last character, which at end
      of input is one further, since the read of "" moves the position. */
  lemma IdentToken(mode: Mode, l: Lexer, name: string, rest: string)
    requires l.text == name + rest && name != ""
    requires forall i :: 0 <= i < |name| ==> InClass(IdentChars, name[i])
    requires !InClass(DigitChars, name[0])
    requires rest == "" || !InClass(IdentChars, rest[0])
    ensures var r := ScanToken(mode, l);
      r.Done? && r.value.1.text == rest && r.value.1.peeked == l.peeked && r.value.1.pos == r.value.0.pos
      && r.value.0 == Token(Ident, Position(l.pos.line, l.pos.character + |name| + (if rest == "" then 1 else 0)), name)
  {
    IdentScan(mode, l);
    IdentRun(l.(last := None, lastCh := None), name, rest);
  }

  lemma IdentScan(mode: Mode, l: Lexer)
    requires l.text != "" && InClass(IdentChars, l.text[0]) && !InClass(DigitChars, l.text[0])
    ensures ScanToken(mode, l) == Done(ScanIdentToken(l.(last := None, lastCh := None)))
  {
    ScanAt(mode, l);
    ReadUnread(l);
  }

  lemma IdentRun(l: Lexer, name: string, rest: string)
    requires l.text == name + rest && name != ""
    requires forall i :: 0 <= i < |name| ==> InClass(IdentChars, name[i])
    requires rest == "" || !InClass(IdentChars, rest[0])
    ensures var r := IdentLoop(l, "");
      r.0 == name && r.1.text == rest && r.1.peeked == l.peeked
      && r.1.pos == Position(l.pos.line, l.pos.character + |name| + (if rest == "" then 1 else 0))
  {
    LeadingExactly(IdentChars, name, rest);
    IdentLoopText(l, "");
    IdentLoopRest(l, "");
    IdentLoopPosition(l, "");
    assert l.text[..|name|] == name && l.text[|name|..] == rest;
  }

  /** The two-character operators, and '=' or '!' alone: the character
      after is read and put back unless it completes the operator. */
  lemma OperatorTokens(mode: Mode, l: Lexer, c: char, rest: string)
    requires l.text == [c] + rest && (c == '=' || c == '!')
    ensures var r := ScanToken(mode, l); var p := l.pos; var two := rest != "" && (rest[0] == '~' || (c == '!' && rest[0] == '='));
      r.Done? && r.value.1.text == (if two then rest[1..] else rest)
      && r.value.0.pos == Position(p.line, p.character + (if two then 2 else 1))
      && r.value.0.typ == (if c == '=' then (if two then EqRegexp else Eq)
                           else if !two then Invalid else if rest[0] == '=' then Neq else NeqRegexp)
      && r.value.0.text == (if c == '!' && !two then "!" else "")
  {
    OperatorDispatch(mode, l, c, rest);
    OperatorAfter(ReadChar(l).1, c, rest);
  }

  /** '=' and '!' go to the operator branch. */
  lemma OperatorDispatch(mode: Mode, l: Lexer, c: char, rest: string)
    requires l.text == [c] + rest && (c == '=' || c == '!')
    ensures var l1 := ReadChar(l).1;
      ScanToken(mode, l) == Done(ScanOperator(l1, [c]))
      && l1.text == rest && l1.pos == Position(l.pos.line, l.pos.character + 1)
  {
    ScanAt(mode, l);
  }

  /** The operator branch, once '=' or '!' has been read. */
  lemma OperatorAfter(l: Lexer, c: char, rest: string)
    requires l.text == rest && (c == '=' || c == '!')
    ensures var r := ScanOperator(l, [c]); var p := l.pos; var two := rest != "" && (rest[0] == '~' || (c == '!' && rest[0] == '='));
      r.1.text == (if two then rest[1..] else rest)
      && r.0.pos == Position(p.line, p.character + (if two then 1 else 0))
      && r.0.typ == (if c == '=' then (if two then EqRegexp else Eq)
                     else if !two then Invalid else if rest[0] == '=' then Neq else NeqRegexp)
      && r.0.text == (if c == '!' && !two then "!" else "")
  {
    if rest != "" {
      assert ReadChar(l).0 == [rest[0]];
    }
    ReadUnread(l);
  }

  /** '{', '}', '(', ')' and ',' are tokens by themselves; any other
      character that starts no token is INVALID, carrying it. */
  lemma SingleTokens(mode: Mode, l: Lexer, c: char, rest: string)
    requires l.text == [c] + rest && !InClass(SpaceChars, c) && !InClass(IdentChars, c)
    requires c != '-' && c != '"' && c != '\'' && c != '=' && c != '!'
    ensures var r := ScanToken(mode, l);
      r.Done? && r.value.1.text == rest && r.value.0.pos == Position(l.pos.line, l.pos.character + 1) && r.value.1.pos == r.value.0.pos
      && r.value.0 == (if Punctuation([c]).Some? then Token(Punctuation([c]).value, r.value.0.pos, "")
                      else Token(Invalid, r.value.0.pos, [c]))
  {
    ScanAt(mode, l);
  }

  /** Inside quotes: the closing quote ends a STRING, end of input gives EOF
      and a newline NEWLINE, each carrying the text so far. */
  lemma StringStops(l: Lexer, quote: string, s: string)
    requires quote == "\"" || quote == "'"
    ensures var r := StringLoop(l, quote, s);
      (l.text == "" ==> r.0.typ == Eof && r.0.text == s)
      && (Text.HasPrefix(l.text, quote) ==> r.0.typ == Str && r.0.text == s && r.1.text == l.text[1..])
      && (Text.HasPrefix(l.text, "\n") ==> r.0.typ == Newline && r.0.text == s && r.1.text == l.text[1..])
  {
    if l.text != "" {
      var (c, l1) := ReadChar(l);
      assert c == [l.text[0]];
    }
  }

  /** A backslash followed by a backslash or either quote stands for that
      character. */
  lemma StringEscaped(l: Lexer, quote: string, s: string)
    requires quote == "\"" || quote == "'"
    requires |l.text| >= 2 && l.text[0] == '\\' && l.text[1] in "\\\"'"
    ensures StringLoop(l, quote, s) == StringLoop(Reads(l, 2), quote, s + l.text[1..2])
    ensures Reads(l, 2).text == l.text[2..]
  {
    var (c, l1) := ReadChar(l);
    assert c == "\\";
    var (n, l2) := ReadChar(l1);
    assert n == l.text[1..2];
    assert Reads(l, 2) == l2;
  }

  /** Followed by anything else, a backslash gives BADESCAPE with the two
      characters, or with itself alone at end of input. */
  lemma StringBadEscape(l: Lexer, quote: string, s: string)
    requires quote == "\"" || quote == "'"
    requires |l.text| >= 1 && l.text[0] == '\\' && (|l.text| == 1 || l.text[1] !in "\\\"'")
    ensures var r := StringLoop(l, quote, s);
      r.0.typ == BadEscape && r.0.text == l.text[..if |l.text| == 1 then 1 else 2]
  {
    var (c, l1) := ReadChar(l);
    assert c == "\\";
    var (n, l2) := ReadChar(l1);
    assert c + n == l.text[..if |l.text| == 1 then 1 else 2];
  }

  /** Any other character inside quotes is taken as it is. */
  lemma StringPlain(l: Lexer, quote: string, s: string)
    requires quote == "\"" || quote == "'"
    requires l.text != "" && l.text[0] != quote[0] && l.text[0] != '\n' && l.text[0] != '\\'
    ensures StringLoop(l, quote, s) == StringLoop(ReadChar(l).1, quote, s + l.text[..1]) && ReadChar(l).1.text == l.text[1..]
  {
    var (c, l1) := ReadChar(l);
    assert c == [l.text[0]];
  }


  /** The corrected scanner reads a run of digits not followed by '.', 'e'
      or 'E' as a NUMBER and stops right after it. */
  lemma NumberToken(l: Lexer, d: string, rest: string)
    requires l.text == d + rest && d != "" && forall i :: 0 <= i < |d| ==> InClass(DigitChars, d[i])
    requires rest == "" || (!InClass(DigitChars, rest[0]) && rest[0] != '.' && !InClass(ExponentChars, rest[0]))
    ensures var r := ScanToken(Corrected, l);
      r.Done? && r.value.0.typ == Number && r.value.0.text == d && r.value.1.text == rest
  {
    ScanAt(Corrected, l);
    ReadUnread(l);
    var l0 := l.(last := None, lastCh := None);
    ReadUnread(l0);
    LeadingExactly(DigitChars, d, rest);
    RunCorrected(l0, DigitChars, "");
    assert l.text[..|d|] == d && l.text[|d|..] == rest;
    var l2 := RunSet(Corrected, l0, DigitChars, "").value.1;
    assert l2.text == rest;
    if rest != "" {
      assert ReadChar(l2).0 == [rest[0]];
    }
    ReadUnread(l2);
    var l3 := NumberFraction(Corrected, l2, d).value.1;
    assert l3.text == rest;
    if rest != "" {
      assert ReadChar(l3).0 == [rest[0]];
    }
    ReadUnread(l3);
  }

  /** As written, the character that ends a run of digits is lost: in
      "1)x" the number is followed by "x", where the corrected scanner
      (NumberToken) leaves ")x". */
  lemma RunSwallows()
    ensures var a := ScanToken(AsWritten, Start("1)x"));
      a.Done? && a.value.0 == Token(Number, Position(1, 3), "1") && a.value.1.text == "x"
  {
    var l := Start("1)x");
    SwallowScan();
    assert NumberSign(l) == ("", l) by { assert ReadChar(l).0 == "1"; ReadUnread(l); }
    var l2 := SwallowRun();
    SwallowTail(l2);
  }

  /** The scan of "1)x" starts a number at its first character. */
  lemma SwallowScan()
    ensures ScanToken(AsWritten, Start("1)x")) == ScanNumberToken(AsWritten, Start("1)x"))
  {
    var l := Start("1)x");
    ScanAt(AsWritten, l);
    ReadUnread(l);
    assert l.(last := None, lastCh := None) == l;
  }

  /** As written, the run of digits of "1)x" reads the ')' too. */
  lemma SwallowRun() returns (l2: Lexer)
    ensures RunSet(AsWritten, Start("1)x"), DigitChars, "") == Done(("1", l2))
    ensures l2 == Lexer("x", Position(1, 3), Some(Position(1, 2)), Some(")"), None)
  {
    var l := Start("1)x");
    var l1 := ReadChar(l).1;
    assert ReadChar(l).0 == "1";
    assert l1 == Lexer(")x", Position(1, 2), Some(Position(1, 1)), Some("1"), None);
    l2 := ReadChar(l1).1;
    assert ReadChar(l1).0 == ")";
    assert l2 == Lexer("x", Position(1, 3), Some(Position(1, 2)), Some(")"), None);
    assert !OneOf(AsWritten, DigitChars, ")");
    assert RunSet(AsWritten, l1, DigitChars, "1") == Done(("1", l2));
    assert "" + "1" == "1";
  }

  /** Neither a fraction nor an exponent follows: "x" is put back. */
  lemma SwallowTail(l2: Lexer)
    requires l2 == Lexer("x", Position(1, 3), Some(Position(1, 2)), Some(")"), None)
    ensures var l3 := Lexer("x", Position(1, 3), None, None, None);
      NumberFraction(AsWritten, l2, "1") == Done(("1", l3))
      && NumberExponent(AsWritten, l3, "1") == Done(("1", l3))
  {
    assert ReadChar(l2).0 == "x";
    ReadUnread(l2);
    var l3 := Lexer("x", Position(1, 3), None, None, None);
    assert ReadChar(l3).0 == "x";
    ReadUnread(l3);
  }

  /** The corrected scanner always returns a token. */
  lemma {:induction false} CorrectedBlanksEnd(l: Lexer)
    ensures SkipBlanks(Corrected, l).Done?
    decreases |l.text|
  {
    var (c, l1) := ReadChar(l);
    if OneOf(Corrected, SpaceChars, c) {
      CorrectedBlanksEnd(l1);
    }
  }

  // ---- the Parser class ----

  /** The parser of the source, with the corrected character tests. */
  class Parser {
    var text: string
    var pos: Position
    var last: Option<Position>
    var lastCh: Option<string>
    var peeked: Option<Token>

    function State(): Lexer
      reads this
    {
      Lexer(text, pos, last, lastCh, peeked)
    }

    constructor(input: string)
      ensures State() == Start(input)
    {
      text := input;
      pos := Position(1, 1);
      last := None;
      lastCh := None;
      peeked := None;
    }

    method Read() returns (c: string)
      modifies this
      ensures (c, State()) == ReadChar(old(State()))
    {
      c := if text == "" then "" else text[..1];
      text := if text == "" then "" else text[1..];
      last := Some(pos);
      lastCh := Some(c);
      if c == "\n" {
        pos := Position(pos.line + 1, 1);
      } else {
        pos := Position(pos.line, pos.character + 1);
      }
    }

    method Unread()
      modifies this
      ensures State() == UnreadChar(old(State()))
    {
      if last.Some? && lastCh.Some? {
        text := lastCh.value + text;
        pos := last.value;
        last := None;
        lastCh := None;
      }
    }

    function TokenAtPos(typ: TokenType, t: string): (tok: Token)
      reads this
      ensures tok == TokenAt(State(), typ, t)
    {
      Token(typ, pos, t)
    }

    /** run, putting back the character that ends it; s0 is the text
        already scanned. */
    method Run(cls: CharClass, s0: string) returns (s: string)
      modifies this
      ensures RunSet(Corrected, old(State()), cls, s0) == Done((s, State()))
    {
      s := s0;
      while true
        invariant RunSet(Corrected, old(State()), cls, s0) == RunSet(Corrected, State(), cls, s)
        decreases |text|
      {
        var c := Read();
        if !OneOf(Corrected, cls, c) {
          Unread();
          return;
        }
        s := s + c;
      }
    }

    method ScanIdent() returns (tok: Token)
      modifies this
      ensures ScanIdentToken(old(State())) == (tok, State())
    {
      var s := "";
      while true
        invariant IdentLoop(old(State()), "") == IdentLoop(State(), s)
        decreases |text|
      {
        var c := Read();
        if c == "" {
          break;
        } else if OneOf(Corrected, IdentChars, c) {
          s := s + c;
        } else {
          Unread();
          break;
        }
      }
      tok := TokenAtPos(Ident, s);
    }

    method Sign() returns (s: string)
      modifies this
      ensures NumberSign(old(State())) == (s, State())
    {
      var next := Read();
      if next == "-" {
        s := next;
      } else {
        s := "";
        Unread();
      }
    }

    method Fraction(s0: string) returns (s: string)
      modifies this
      ensures NumberFraction(Corrected, old(State()), s0) == Done((s, State()))
    {
      var next := Read();
      if next == "." {
        s := Run(DigitChars, s0 + next);
      } else {
        s := s0;
        Unread();
      }
    }

    method Exponent(s0: string) returns (s: string)
      modifies this
      ensures NumberExponent(Corrected, old(State()), s0) == Done((s, State()))
    {
      var next := Read();
      if OneOf(Corrected, ExponentChars, next) {
        var sign := Read();
        if OneOf(Corrected, SignChars, sign) {
          s := Run(DigitChars, s0 + next + sign);
        } else {
          Unread();
          s := Run(DigitChars, s0 + next);
        }
      } else {
        s := s0;
        Unread();
      }
    }

    method ScanNumber() returns (tok: Token)
      modifies this
      ensures ScanNumberToken(Corrected, old(State())) == Done((tok, State()))
    {
      var s := Sign();
      s := Run(DigitChars, s);
      s := Fraction(s);
      s := Exponent(s);
      tok := TokenAtPos(Number, s);
    }

    method ScanString() returns (tok: Token)
      modifies this
      ensures ScanStringToken(old(State())) == (tok, State())
    {
      var quote := Read();
      var s := "";
      while true
        invariant StringLoop(State(), quote, s) == ScanStringToken(old(State()))
        decreases |text|
      {
        ghost var before := State();
        var c := Read();
        if c == quote {
          return TokenAtPos(Str, s);
        } else if c == "" {
          return TokenAtPos(Eof, s);
        } else if c == "\n" {
          return TokenAtPos(Newline, s);
        } else if c == "\\" {
          var next := Read();
          if next == "\\" || next == "\"" || next == "'" {
            s := s + next;
          } else {
            return TokenAtPos(BadEscape, c + next);
          }
        } else {
          s := s + c;
        }
      }
    }

    method Scan() returns (tok: Token)
      modifies this
      ensures ScanToken(Corrected, old(State())) == Done((tok, State()))
    {
      var c := Read();
      while OneOf(Corrected, SpaceChars, c)
        invariant SkipBlanks(Corrected, old(State())) == (if OneOf(Corrected, SpaceChars, c) then SkipBlanks(Corrected, State()) else Done((c, State())))
        decreases |text| + |c|
      {
        c := Read();
      }
      if c == "" {
        tok := TokenAtPos(Eof, "");
      } else if c == "-" || OneOf(Corrected, DigitChars, c) {
        Unread();
        tok := ScanNumber();
      } else if OneOf(Corrected, IdentChars, c) {
        Unread();
        tok := ScanIdent();
      } else if c == "\"" || c == "'" {
        Unread();
        tok := ScanString();
      } else if c == "=" || c == "!" {
        var next := Read();
        if c == "=" && next == "~" {
          tok := TokenAtPos(EqRegexp, "");
        } else if c == "!" && next == "=" {
          tok := TokenAtPos(Neq, "");
        } else if c == "!" && next == "~" {
          tok := TokenAtPos(NeqRegexp, "");
        } else {
          Unread();
          tok := if c == "=" then TokenAtPos(Eq, "") else TokenAtPos(Invalid, c);
        }
      } else if Punctuation(c).Some? {
        tok := TokenAtPos(Punctuation(c).value, "");
      } else {
        tok := TokenAtPos(Invalid, c);
      }
    }

    method Peek() returns (tok: Token)
      modifies this
      ensures PeekToken(Corrected, old(State())) == Done((tok, State()))
    {
      if peeked.None? {
        var t := Scan();
        peeked := Some(t);
      }
      tok := peeked.value;
    }

    method Next() returns (tok: Token)
      modifies this
      ensures NextToken(Corrected, old(State())) == Done((tok, State()))
    {
      if peeked.Some? {
        tok := peeked.value;
        peeked := None;
      } else {
        tok := Scan();
      }
    }

    /** expect: err is the message thrown when the next token is not of the
        wanted type. */
    method Expect(want: TokenType) returns (tok: Token, err: Option<string>)
      modifies this
      ensures NextToken(Corrected, old(State())) == Done((tok, State()))
      ensures err.None? <==> ExpectToken(Corrected, old(State()), want).Done?
      ensures err.Some? ==> ExpectToken(Corrected, old(State()), want) == Thrown(err.value)
    {
      tok := Next();
      if tok.typ != want {
        err := Some(Mismatch(want, tok));
      } else {
        err := None;
      }
    }
  }
}
