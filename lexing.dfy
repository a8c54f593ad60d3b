// What the operations of the Go lexical parser (pkg/parser/parser.go) compute.
//
// The scanner state is a Cursor over the whole input: the read offset, the
// current and previous positions, and whether the reader would accept an
// UnreadRune (bufio.Reader allows it only right after a successful
// ReadRune). A Lexer adds the peeked token. The class Parser (module
// GoParser) runs the same operations with loops over mutable fields, and its
// methods are proved to agree with these functions.
module Lexing {
  import opened Wrappers
  import opened Text
  import opened Tokens
  import Quoting

  /** The value read returns at end of input; a NUL character in the input
      reads as the same value, so the scanners stop at it as at the end. */
  const Eof: char := '\0'

  const Digits: string := "0123456789"

  /** bytes.ContainsRune(members, ch) */
  predicate Member(ch: char, members: string) { ch in members }

  predicate IsSpace(c: char) { c == ' ' || c == '\t' || c == '\n' }
  predicate IsDigit(c: char) { '0' <= c <= '9' }
  predicate IsAlpha(c: char) { 'a' <= c <= 'z' || 'A' <= c <= 'Z' }
  predicate IsIdentChar(c: char) { IsDigit(c) || IsAlpha(c) || c == '_' }

  // ---- positions ----

  function NewlineCount(s: string): nat
  {
    if |s| == 0 then 0 else NewlineCount(s[..|s| - 1]) + (if s[|s| - 1] == '\n' then 1 else 0)
  }

  /** Index just past the last newline of s (0 when there is none). */
  function LineStart(s: string): (r: nat)
    ensures r <= |s|
  {
    if |s| == 0 then 0 else if s[|s| - 1] == '\n' then |s| else LineStart(s[..|s| - 1])
  }

  /** Where the scanner stands after reading s from the start: line one plus
      the newlines read, column one plus the characters since the last one. */
  function PosAfter(s: string): Position
  {
    Position(1 + NewlineCount(s), 1 + |s| - LineStart(s))
  }

  /** The step read takes for one character. */
  function Advance(p: Position, ch: char): Position
  {
    if ch == '\n' then Position(p.line + 1, 1) else Position(p.line, p.column + 1)
  }

  /** Where the scanner stands after reading the first i characters,
      computed the way read computes it, one step per character. */
  function PosAt(text: string, i: nat): Position
    requires i <= |text|
  {
    if i == 0 then Position(1, 1) else Advance(PosAt(text, i - 1), text[i - 1])
  }

  /** The step-by-step position is the line/column of the text read. */
  lemma {:induction false} PosAtIsPosAfter(text: string, i: nat)
    requires i <= |text|
    ensures PosAt(text, i) == PosAfter(text[..i])
  {
    if i > 0 {
      PosAtIsPosAfter(text, i - 1);
      assert text[..i][..i - 1] == text[..i - 1];
    }
  }

  /** Before the first newline the scanner is on line one, one column past
      the characters read. */
  lemma {:induction false} PosOnFirstLine(text: string, i: nat)
    requires i <= |text| && forall j :: 0 <= j < i ==> text[j] != '\n'
    ensures PosAt(text, i) == Position(1, i + 1)
  {
    if i > 0 {
      PosOnFirstLine(text, i - 1);
    }
  }

  // ---- the reader ----

  datatype Input = Input(chars: string)

  datatype Cursor = Cursor(input: Input, off: nat, pos: Position, last: Position, canUnread: bool) {
    const text: string := input.chars
  }

  predicate CursorOk(c: Cursor)
  {
    c.off <= |c.text| && (c.canUnread ==> c.off > 0)
  }

  /** The positions agree with the text read so far. */
  predicate Tracks(c: Cursor)
  {
    CursorOk(c) && c.pos == PosAt(c.text, c.off)
    && (c.canUnread ==> c.last == PosAt(c.text, c.off - 1))
  }

  function Start(text: string): (c: Cursor)
    ensures Tracks(c) && c.off == 0
  {
    Cursor(Input(text), 0, Position(1, 1), Position(0, 0), false)
  }

  datatype ReadResult = ReadResult(ch: char, pos: Position, next: Cursor)

  /** read: the next character and its position; at end of input Eof and
      the current position, with nothing changed except that the reader no
      longer accepts an unread. */
  function Read(c: Cursor): (r: ReadResult)
    requires CursorOk(c)
    ensures CursorOk(r.next) && r.next.text == c.text && r.pos == c.pos
    ensures c.off == |c.text| ==> r.ch == Eof && r.next == c.(canUnread := false)
    ensures c.off < |c.text| ==>
      r.ch == c.text[c.off] && r.next.off == c.off + 1 && r.next.canUnread && r.next.last == c.pos
    ensures Tracks(c) ==> Tracks(r.next)
  {
    if c.off == |c.text| then ReadResult(Eof, c.pos, c.(canUnread := false))
    else
      var ch := c.text[c.off];
      ReadResult(ch, c.pos, c.(off := c.off + 1, pos := Advance(c.pos, ch), last := c.pos, canUnread := true))
  }

  /** unread: steps back over the last character read and restores its
      position, once; otherwise it does nothing. */
  function Unread(c: Cursor): (r: Cursor)
    requires CursorOk(c)
    ensures CursorOk(r) && r.text == c.text && !r.canUnread
    ensures c.canUnread ==> r.off == c.off - 1 && r.pos == c.last
    ensures !c.canUnread ==> r == c
    ensures Tracks(c) ==> Tracks(r)
  {
    if c.canUnread then c.(off := c.off - 1, pos := c.last, canUnread := false) else c
  }

  datatype Chunk = Chunk(s: string, next: Cursor)

  function RunLoop(c: Cursor, members: string, acc: string): (r: Chunk)
    requires CursorOk(c) && !Member(Eof, members)
    ensures CursorOk(r.next) && r.next.text == c.text
    decreases |c.text| - c.off
  {
    var rd := Read(c);
    if !Member(rd.ch, members) then Chunk(acc, rd.next)
    else RunLoop(rd.next, members, acc + [rd.ch])
  }

  /** The loop of run stops after reading the first character at the
      cursor that is not one of members ... */
  lemma {:induction false} RunLoopSpan(c: Cursor, members: string, acc: string)
    requires CursorOk(c) && !Member(Eof, members)
    ensures var r := RunLoop(c, members, acc); var k := c.off + |r.s| - |acc|;
      c.off <= k <= |c.text| && (forall i :: c.off <= i < k ==> Member(c.text[i], members))
      && (if k < |c.text| then !Member(c.text[k], members) && r.next.off == k + 1 && r.next.canUnread
          else r.next.off == k && !r.next.canUnread)
    decreases |c.text| - c.off
  {
    var rd := Read(c);
    if Member(rd.ch, members) {
      RunLoopSpan(rd.next, members, acc + [rd.ch]);
    }
  }

  /** ... and appends to acc the characters before it. */
  lemma {:induction false} RunLoopText(c: Cursor, members: string, acc: string)
    requires CursorOk(c) && !Member(Eof, members)
    ensures var r := RunLoop(c, members, acc); var k := c.off + |r.s| - |acc|;
      c.off <= k <= |c.text| && r.s == acc + c.text[c.off..k]
    decreases |c.text| - c.off
  {
    var rd := Read(c);
    if Member(rd.ch, members) {
      RunLoopText(rd.next, members, acc + [rd.ch]);
      var r := RunLoop(rd.next, members, acc + [rd.ch]);
      var k := c.off + |r.s| - |acc|;
      assert c.text[c.off..k] == [rd.ch] + c.text[c.off + 1..k];
    }
  }

  /** run: the longest run of characters from set at the cursor. */
  function Run(c: Cursor, members: string): (r: Chunk)
    requires CursorOk(c) && !Member(Eof, members)
    ensures CursorOk(r.next) && r.next.text == c.text && !r.next.canUnread
    ensures r.next.off == c.off + |r.s| && r.s == c.text[c.off..r.next.off]
    ensures forall i :: c.off <= i < r.next.off ==> Member(c.text[i], members)
    ensures r.next.off < |c.text| ==> !Member(c.text[r.next.off], members)
  {
    RunLoopSpan(c, members, "");
    RunLoopText(c, members, "");
    var l := RunLoop(c, members, "");
    Chunk(l.s, Unread(l.next))
  }

  // ---- scanning ----

  datatype Scanned = Scanned(tok: Token, next: Cursor)

  /** The whitespace loop at the top of scan: reads until a character that is
      not a space, tab or newline. */
  function SkipSpaces(c: Cursor): (r: ReadResult)
    requires CursorOk(c)
    ensures CursorOk(r.next) && r.next.text == c.text
    ensures var k := if r.next.canUnread then r.next.off - 1 else r.next.off;
      c.off <= k <= |c.text| && (forall i :: c.off <= i < k ==> IsSpace(c.text[i]))
      && (k < |c.text| ==> r.ch == c.text[k] && !IsSpace(r.ch) && r.next.canUnread)
      && (k == |c.text| ==> r.ch == Eof && !r.next.canUnread)
    decreases |c.text| - c.off
  {
    var rd := Read(c);
    if IsSpace(rd.ch) then SkipSpaces(rd.next) else rd
  }

  /** text[from..k] is a maximal run of identifier characters. */
  predicate IdentSpan(text: string, from: nat, k: int)
  {
    from <= k <= |text| && (forall i :: from <= i < k ==> IsIdentChar(text[i]))
    && (k < |text| ==> !IsIdentChar(text[k]))
  }

  function IdentLoop(c: Cursor, acc: string): (r: Chunk)
    requires CursorOk(c)
    ensures CursorOk(r.next) && r.next.text == c.text
    decreases |c.text| - c.off
  {
    var rd := Read(c);
    if rd.ch == Eof then Chunk(acc, rd.next)
    else if IsIdentChar(rd.ch) then IdentLoop(rd.next, acc + [rd.ch])
    else Chunk(acc, Unread(rd.next))
  }

  /** The loop of scanIdent stops at the end of the longest run of
      identifier characters at the cursor; a NUL that ends it is consumed,
      any other character is unread. */
  lemma {:induction false} IdentLoopSpan(c: Cursor, acc: string)
    requires CursorOk(c)
    ensures var r := IdentLoop(c, acc); var k := c.off + |r.s| - |acc|;
      IdentSpan(c.text, c.off, k) && r.next.off == (if k < |c.text| && c.text[k] == Eof then k + 1 else k)
    decreases |c.text| - c.off
  {
    var rd := Read(c);
    if rd.ch != Eof && IsIdentChar(rd.ch) {
      IdentLoopSpan(rd.next, acc + [rd.ch]);
    }
  }

  /** ... and appends that run to acc. */
  lemma {:induction false} IdentLoopText(c: Cursor, acc: string)
    requires CursorOk(c)
    ensures var r := IdentLoop(c, acc); var k := c.off + |r.s| - |acc|;
      c.off <= k <= |c.text| && r.s == acc + c.text[c.off..k]
    decreases |c.text| - c.off
  {
    var rd := Read(c);
    if rd.ch != Eof && IsIdentChar(rd.ch) {
      IdentLoopText(rd.next, acc + [rd.ch]);
      var r := IdentLoop(rd.next, acc + [rd.ch]);
      var k := c.off + |r.s| - |acc|;
      assert c.text[c.off..k] == [rd.ch] + c.text[c.off + 1..k];
    }
  }

  /** scanIdent: the identifier characters at the cursor, stamped with the
      position where they start. A NUL that ends the identifier is consumed. */
  function ScanIdent(c: Cursor): (r: Scanned)
    requires CursorOk(c)
    ensures CursorOk(r.next) && r.next.text == c.text
    ensures r.tok.typ == IDENT && r.tok.pos == c.pos
    ensures var k := c.off + |r.tok.text|;
      IdentSpan(c.text, c.off, k) && r.tok.text == c.text[c.off..k]
      && r.next.off == (if k < |c.text| && c.text[k] == Eof then k + 1 else k)
  {
    IdentLoopSpan(c, "");
    IdentLoopText(c, "");
    var l := IdentLoop(c, "");
    Scanned(Token(IDENT, c.pos, l.s), l.next)
  }

  /** The step scanNumber takes four times: read one character, keep it
      when it is one of allowed, otherwise unread it. */
  function Accept(c: Cursor, allowed: string): (r: Chunk)
    requires CursorOk(c) && !Member(Eof, allowed)
    ensures CursorOk(r.next) && r.next.text == c.text && r.next.off == c.off + |r.s|
    ensures r.s == (if c.off < |c.text| && Member(c.text[c.off], allowed) then [c.text[c.off]] else "")
    ensures r.s == c.text[c.off..r.next.off]
  {
    var rd := Read(c);
    if Member(rd.ch, allowed) then Chunk([rd.ch], rd.next) else Chunk("", Unread(rd.next))
  }

  /** The optional fraction of scanNumber: a dot and the digits after it. */
  function NumberFraction(c: Cursor): (r: Chunk)
    requires CursorOk(c)
    ensures CursorOk(r.next) && r.next.text == c.text && c.off <= r.next.off
    ensures r.s == c.text[c.off..r.next.off]
  {
    var dot := Accept(c, ".");
    if dot.s == "" then dot
    else
      var d := Run(dot.next, Digits);
      SliceConcat(c.text, c.off, dot.next.off, d.next.off);
      Chunk(dot.s + d.s, d.next)
  }

  /** The optional exponent of scanNumber: e or E, an optional sign, digits. */
  function NumberExponent(c: Cursor): (r: Chunk)
    requires CursorOk(c)
    ensures CursorOk(r.next) && r.next.text == c.text && c.off <= r.next.off
    ensures r.s == c.text[c.off..r.next.off]
  {
    var e := Accept(c, "eE");
    if e.s == "" then e
    else
      var sign := Accept(e.next, "+-");
      var d := Run(sign.next, Digits);
      SliceConcat(c.text, c.off, e.next.off, sign.next.off);
      SliceConcat(c.text, c.off, sign.next.off, d.next.off);
      Chunk(e.s + sign.s + d.s, d.next)
  }

  /** scanNumber: sign, digits, fraction and exponent, stamped with the
      position where the number starts. */
  function ScanNumber(c: Cursor): (r: Scanned)
    requires CursorOk(c)
    ensures CursorOk(r.next) && r.next.text == c.text
    ensures r.tok.typ == NUMBER && r.tok.pos == c.pos && c.off <= r.next.off
    ensures c.off < |c.text| && (c.text[c.off] == '-' || IsDigit(c.text[c.off])) ==> r.next.off > c.off
  {
    var sign := Accept(c, "-");
    var whole := Run(sign.next, Digits);
    var frac := NumberFraction(whole.next);
    var exp := NumberExponent(frac.next);
    assert c.off < |c.text| && IsDigit(c.text[c.off]) && sign.s == "" ==> Member(c.text[c.off], Digits);
    Scanned(Token(NUMBER, c.pos, sign.s + whole.s + frac.s + exp.s), exp.next)
  }

  /** The text of the NUMBER is exactly the characters scanNumber consumed. */
  lemma ScanNumberText(c: Cursor)
    requires CursorOk(c)
    ensures ScanNumber(c).tok.text == c.text[c.off..ScanNumber(c).next.off]
  {
    var sign := Accept(c, "-");
    var whole := Run(sign.next, Digits);
    var frac := NumberFraction(whole.next);
    var exp := NumberExponent(frac.next);
    SliceConcat(c.text, c.off, sign.next.off, whole.next.off);
    SliceConcat(c.text, c.off, whole.next.off, frac.next.off);
    SliceConcat(c.text, c.off, frac.next.off, exp.next.off);
  }

  /** The text of the BADESCAPE token: Go adds the two runes (a backslash and
      the character after it) and converts the sum back to a string, which
      gives U+FFFD when the sum is not a valid code point. */
  function RuneSumText(a: char, b: char): string
  {
    var code := (a as int) + (b as int);
    if code < 0xD800 || (0xE000 <= code < 0x110000) then [code as char] else "\U{FFFD}"
  }

  function StringLoop(c: Cursor, quote: char, start: Position, acc: string): (r: Scanned)
    requires CursorOk(c) && quote != Eof
    ensures CursorOk(r.next) && r.next.text == c.text && c.off <= r.next.off
    ensures r.tok.typ in {STRING, EOF, NEWLINE, BADESCAPE}
    ensures r.tok.typ == STRING ==> r.tok.pos == start
    decreases |c.text| - c.off
  {
    var rd := Read(c);
    if rd.ch == quote then Scanned(Token(STRING, start, acc), rd.next)
    else if rd.ch == Eof then Scanned(Token(EOF, rd.pos, acc), rd.next)
    else if rd.ch == '\n' then Scanned(Token(NEWLINE, rd.pos, acc), rd.next)
    else if rd.ch == '\\' then
      var nx := Read(rd.next);
      if nx.ch == '\\' || nx.ch == '"' || nx.ch == '\'' then StringLoop(nx.next, quote, start, acc + [nx.ch])
      else Scanned(Token(BADESCAPE, rd.pos, RuneSumText(rd.ch, nx.ch)), nx.next)
    else StringLoop(rd.next, quote, start, acc + [rd.ch])
  }

  /** scanString: reads the opening quote and the body up to the matching
      quote, a newline, a bad escape or the end of input. */
  function ScanString(c: Cursor): (r: Scanned)
    requires CursorOk(c) && c.off < |c.text| && c.text[c.off] != Eof
    ensures CursorOk(r.next) && r.next.text == c.text && c.off < r.next.off
    ensures r.tok.typ in {STRING, EOF, NEWLINE, BADESCAPE}
    ensures r.tok.typ == STRING ==> r.tok.pos == c.pos
  {
    var q := Read(c);
    StringLoop(q.next, q.ch, q.pos, "")
  }

  function Single(typ: int, pos: Position, c: Cursor): Scanned { Scanned(Token(typ, pos, ""), c) }

  /** The characters that are a token by themselves. */
  const Punctuation: string := "{}(),"

  /** The token type of each punctuation character, one case of scan's
      switch each. */
  function PunctuationType(ch: char): int
  {
    if ch == '{' then LBRACE else if ch == '}' then RBRACE else if ch == '(' then LPAREN
    else if ch == ')' then RPAREN else COMMA
  }

  /** ch is what c1 has just read: the character before its offset, or the
      end of input. */
  predicate JustRead(ch: char, c1: Cursor)
  {
    CursorOk(c1) && (ch != Eof ==> c1.canUnread && c1.text[c1.off - 1] == ch)
  }

  /** scan: skips blanks, then dispatches on the first character. */
  function Scan(c: Cursor): (r: Scanned)
    requires CursorOk(c)
    ensures CursorOk(r.next) && r.next.text == c.text && c.off <= r.next.off
    ensures r.tok.typ != EOF ==> c.off < r.next.off
    ensures IsKnownType(r.tok.typ) && r.tok.typ != BeginOperators
  {
    var sp := SkipSpaces(c);
    ScanAfter(sp.ch, sp.pos, sp.next)
  }

  /** The switch of scan, on the character ch read at pos, with c1 the
      reader right after it. */
  function ScanAfter(ch: char, pos: Position, c1: Cursor): (r: Scanned)
    requires JustRead(ch, c1)
    ensures CursorOk(r.next) && r.next.text == c1.text
    ensures ch == Eof ==> r == Single(EOF, pos, c1)
    ensures ch != Eof ==> c1.off <= r.next.off
    ensures IsKnownType(r.tok.typ) && r.tok.typ != BeginOperators
  {
    if ch == Eof then Single(EOF, pos, c1)
    else if ch == '-' || IsDigit(ch) then ScanNumber(Unread(c1))
    else if IsIdentChar(ch) then ScanIdent(Unread(c1))
    else if ch == '"' || ch == '\'' then ScanString(Unread(c1))
    else ScanSymbol(ch, pos, c1)
  }

  /** The cases of the switch of scan for the operators, the punctuation
      and the characters that start no token. */
  function ScanSymbol(ch: char, pos: Position, c1: Cursor): (r: Scanned)
    requires CursorOk(c1)
    ensures CursorOk(r.next) && r.next.text == c1.text && c1.off <= r.next.off
    ensures IsKnownType(r.tok.typ) && r.tok.typ != BeginOperators
  {
    if ch == '=' then
      var nx := Read(c1);
      if nx.ch == '~' then Single(EQREGEXP, pos, nx.next) else Single(EQ, pos, Unread(nx.next))
    else if ch == '!' then
      var nx := Read(c1);
      if nx.ch == '=' then Single(NEQ, pos, nx.next)
      else if nx.ch == '~' then Single(NEQREGEXP, pos, nx.next)
      else Scanned(Token(INVALID, pos, "!"), Unread(nx.next))
    else if Member(ch, Punctuation) then Single(PunctuationType(ch), pos, c1)
    else Scanned(Token(INVALID, pos, [ch]), c1)
  }

  // ---- positions stay in step with the text ----

  lemma {:induction false} RunLoopTracks(c: Cursor, members: string, acc: string)
    requires Tracks(c) && !Member(Eof, members)
    ensures Tracks(RunLoop(c, members, acc).next)
    decreases |c.text| - c.off
  {
    var rd := Read(c);
    if Member(rd.ch, members) { RunLoopTracks(rd.next, members, acc + [rd.ch]); }
  }

  lemma {:induction false} SkipSpacesTracks(c: Cursor)
    requires Tracks(c)
    ensures var r := SkipSpaces(c);
      var k := if r.next.canUnread then r.next.off - 1 else r.next.off;
      Tracks(r.next) && r.pos == PosAt(c.text, k)
    decreases |c.text| - c.off
  {
    var rd := Read(c);
    if IsSpace(rd.ch) { SkipSpacesTracks(rd.next); }
  }

  lemma {:induction false} IdentLoopTracks(c: Cursor, acc: string)
    requires Tracks(c)
    ensures Tracks(IdentLoop(c, acc).next)
    decreases |c.text| - c.off
  {
    var rd := Read(c);
    if rd.ch != Eof && IsIdentChar(rd.ch) { IdentLoopTracks(rd.next, acc + [rd.ch]); }
  }

  lemma {:induction false} StringLoopTracks(c: Cursor, quote: char, start: Position, acc: string)
    requires Tracks(c) && quote != Eof
    ensures Tracks(StringLoop(c, quote, start, acc).next)
    decreases |c.text| - c.off
  {
    var rd := Read(c);
    if rd.ch != quote && rd.ch != Eof && rd.ch != '\n' {
      if rd.ch == '\\' {
        var nx := Read(rd.next);
        if nx.ch == '\\' || nx.ch == '"' || nx.ch == '\'' { StringLoopTracks(nx.next, quote, start, acc + [nx.ch]); }
      } else {
        StringLoopTracks(rd.next, quote, start, acc + [rd.ch]);
      }
    }
  }

  lemma RunTracks(c: Cursor, members: string)
    requires Tracks(c) && !Member(Eof, members)
    ensures Tracks(Run(c, members).next)
  {
    RunLoopTracks(c, members, "");
  }

  lemma AcceptTracks(c: Cursor, allowed: string)
    requires Tracks(c) && !Member(Eof, allowed)
    ensures Tracks(Accept(c, allowed).next)
  {
  }

  lemma FractionTracks(c: Cursor)
    requires Tracks(c)
    ensures Tracks(NumberFraction(c).next)
  {
    AcceptTracks(c, ".");
    var dot := Accept(c, ".");
    if dot.s != "" { RunTracks(dot.next, Digits); }
  }

  lemma ExponentTracks(c: Cursor)
    requires Tracks(c)
    ensures Tracks(NumberExponent(c).next)
  {
    AcceptTracks(c, "eE");
    var e := Accept(c, "eE");
    if e.s != "" {
      AcceptTracks(e.next, "+-");
      RunTracks(Accept(e.next, "+-").next, Digits);
    }
  }

  lemma NumberTracks(c: Cursor)
    requires Tracks(c)
    ensures Tracks(ScanNumber(c).next)
  {
    AcceptTracks(c, "-");
    var sign := Accept(c, "-");
    RunTracks(sign.next, Digits);
    var whole := Run(sign.next, Digits);
    FractionTracks(whole.next);
    ExponentTracks(NumberFraction(whole.next).next);
  }

  lemma AfterTracks(ch: char, pos: Position, c1: Cursor)
    requires JustRead(ch, c1) && Tracks(c1)
    ensures Tracks(ScanAfter(ch, pos, c1).next)
  {
    var u := Unread(c1);
    if ch != Eof {
      if ch == '-' || IsDigit(ch) { NumberTracks(u); }
      else if IsIdentChar(ch) { IdentLoopTracks(u, ""); }
      else if ch == '"' || ch == '\'' {
        var q := Read(u);
        StringLoopTracks(q.next, q.ch, q.pos, "");
      }
    }
  }

  /** Every cursor scan leaves behind keeps its positions in step with the text. */
  lemma ScanTracks(c: Cursor)
    requires Tracks(c)
    ensures Tracks(Scan(c).next)
  {
    SkipSpacesTracks(c);
    var sp := SkipSpaces(c);
    AfterTracks(sp.ch, sp.pos, sp.next);
  }

  // ---- one token of lookahead ----

  datatype Lexer = Lexer(cur: Cursor, peeked: Option<Token>)

  predicate LexerOk(l: Lexer) { CursorOk(l.cur) }

  /** Decreases with every token consumed: two units per character left,
      one for a peeked token that is not the end of input. */
  function Rank(l: Lexer): nat
    requires LexerOk(l)
  {
    2 * (|l.cur.text| - l.cur.off) + (if l.peeked.Some? && l.peeked.value.typ != EOF then 1 else 0)
  }

  datatype Step = Step(tok: Token, next: Lexer)

  /** Next: the peeked token if there is one (and it is cleared), otherwise a
      freshly scanned one. */
  function Next(l: Lexer): (r: Step)
    requires LexerOk(l)
    ensures LexerOk(r.next) && r.next.cur.text == l.cur.text && r.next.peeked == None
    ensures l.peeked.Some? ==> r.tok == l.peeked.value && r.next.cur == l.cur
    ensures Rank(r.next) <= Rank(l) && (r.tok.typ != EOF ==> Rank(r.next) < Rank(l))
  {
    match l.peeked
    case Some(t) => Step(t, l.(peeked := None))
    case None => var s := Scan(l.cur); Step(s.tok, Lexer(s.next, None))
  }

  /** Peek: scans a token only when none is peeked, and keeps it. */
  function Peek(l: Lexer): (r: Step)
    requires LexerOk(l)
    ensures LexerOk(r.next) && r.next.cur.text == l.cur.text && r.next.peeked == Some(r.tok)
    ensures l.peeked.Some? ==> r == Step(l.peeked.value, l)
    ensures r.tok == Next(l).tok
    ensures Rank(r.next) <= Rank(l)
  {
    match l.peeked
    case Some(t) => Step(t, l)
    case None => var s := Scan(l.cur); Step(s.tok, Lexer(s.next, Some(s.tok)))
  }

  /** Peek is memoised, and the token Next returns after a Peek is the peeked
      one, leaving the same state Next would have left without the Peek. */
  lemma PeekThenNext(l: Lexer)
    requires LexerOk(l)
    ensures Peek(Peek(l).next) == Peek(l)
    ensures Next(Peek(l).next) == Next(l)
  {
  }

  function ExpectMessage(want: int, got: Token): string
  {
    "expected " + TypeString(want) + " but got " + TypeString(got.typ) + " at " + PositionString(got.pos)
  }

  datatype Expected = Expected(tok: Token, err: Option<string>, next: Lexer)

  /** Expect: the next token, and an error exactly when its type is not the
      one wanted. */
  function Expect(l: Lexer, want: int): (r: Expected)
    requires LexerOk(l)
    ensures LexerOk(r.next) && Step(r.tok, r.next) == Next(l)
    ensures r.err.None? <==> r.tok.typ == want
    ensures r.err.Some? ==> r.err.value == ExpectMessage(want, r.tok)
  {
    var s := Next(l);
    Expected(s.tok, if s.tok.typ == want then None else Some(ExpectMessage(want, s.tok)), s.next)
  }

  datatype RuneStep = RuneStep(ch: char, next: Lexer)

  /** PeekRune: the character after the last one consumed, leaving the read
      offset, the position and the peeked token as they were. */
  function PeekRune(l: Lexer): (r: RuneStep)
    requires LexerOk(l)
    ensures LexerOk(r.next) && r.next.cur.text == l.cur.text && r.next.peeked == l.peeked
    ensures r.next.cur.off == l.cur.off && r.next.cur.pos == l.cur.pos
    ensures r.ch == if l.cur.off < |l.cur.text| then l.cur.text[l.cur.off] else Eof
    ensures Tracks(l.cur) ==> Tracks(r.next.cur)
  {
    var rd := Read(l.cur);
    RuneStep(rd.ch, Lexer(Unread(rd.next), l.peeked))
  }

  // ---- what scan produces, stated on the text ----

  /** The first index at or after from that does not hold a blank. */
  function SpaceEnd(text: string, from: nat): (k: nat)
    requires from <= |text|
    ensures from <= k <= |text| && (forall i :: from <= i < k ==> IsSpace(text[i]))
    ensures k < |text| ==> !IsSpace(text[k])
    decreases |text| - from
  {
    if from < |text| && IsSpace(text[from]) then SpaceEnd(text, from + 1) else from
  }

  /** The character read at index i, Eof past the end. */
  function CharAt(text: string, i: nat): char
  {
    if i < |text| then text[i] else Eof
  }

  /** SpaceEnd is the only index with its two properties. */
  lemma {:induction false} SpaceEndUnique(text: string, from: nat, j: nat)
    requires from <= j <= |text| && (forall i :: from <= i < j ==> IsSpace(text[i]))
    requires j < |text| ==> !IsSpace(text[j])
    ensures SpaceEnd(text, from) == j
    decreases j - from
  {
    if from < j { SpaceEndUnique(text, from + 1, j); }
  }

  lemma SkipSpacesEnd(c: Cursor)
    requires CursorOk(c)
    ensures var r := SkipSpaces(c); var k := SpaceEnd(c.text, c.off);
      r.ch == CharAt(c.text, k) && r.next.canUnread == (k < |c.text|)
      && r.next.off == (if k < |c.text| then k + 1 else k)
  {
    var r := SkipSpaces(c);
    var j := if r.next.canUnread then r.next.off - 1 else r.next.off;
    SpaceEndUnique(c.text, c.off, j);
  }

  /** Skipping the blanks reads the first other character, at SpaceEnd, and
      leaves the cursor just past it. */
  lemma AfterBlanks(c: Cursor)
    requires CursorOk(c)
    ensures var sp := SkipSpaces(c); var k := SpaceEnd(c.text, c.off);
      Scan(c) == ScanAfter(sp.ch, sp.pos, sp.next) && JustRead(sp.ch, sp.next)
      && sp.ch == CharAt(c.text, k) && sp.next.text == c.text
      && (sp.ch != Eof ==> sp.next.off == k + 1)
  {
    SkipSpacesEnd(c);
  }

  /** The switch after the blanks, for '=' and '!': the character after
      them decides between the one- and two-character operators, and a lone
      '!' is an INVALID token holding it. */
  lemma AfterOperatorType(ch: char, pos: Position, c1: Cursor)
    requires JustRead(ch, c1)
    ensures var t := ScanAfter(ch, pos, c1).tok; var after := CharAt(c1.text, c1.off);
      (ch == '=' ==> t.typ == (if after == '~' then EQREGEXP else EQ) && t.text == "")
      && (ch == '!' ==> t.typ == (if after == '=' then NEQ else if after == '~' then NEQREGEXP else INVALID))
      && (ch == '!' && after != '=' && after != '~' ==> t.text == "!")
  {
  }

  /** The switch after the blanks, for the punctuation characters. */
  lemma AfterPunctuationType(ch: char, pos: Position, c1: Cursor)
    requires JustRead(ch, c1)
    ensures var t := ScanAfter(ch, pos, c1).tok;
      (ch == '{' ==> t.typ == LBRACE) && (ch == '}' ==> t.typ == RBRACE)
      && (ch == '(' ==> t.typ == LPAREN) && (ch == ')' ==> t.typ == RPAREN)
      && (ch == ',' ==> t.typ == COMMA)
  {
  }

  /** The switch after the blanks: end of input (or a NUL) gives EOF, and a
      character that starts no token an INVALID token holding it. */
  lemma AfterOther(ch: char, pos: Position, c1: Cursor)
    requires JustRead(ch, c1)
    ensures var t := ScanAfter(ch, pos, c1).tok;
      (ch == Eof ==> t.typ == EOF && t.text == "")
      && (ch != Eof && !IsIdentChar(ch) && !Member(ch, "-\"'=!{}(),") ==>
            t.typ == INVALID && t.text == [ch])
  {
  }

  /** Which token scan returns is decided by the first character after the
      blanks, and for '=' and '!' by the one after it. */
  lemma ScanDispatch(c: Cursor)
    requires CursorOk(c)
    ensures var k := SpaceEnd(c.text, c.off); var t := Scan(c).tok;
      var ch := CharAt(c.text, k); var after := CharAt(c.text, k + 1);
      (ch == Eof ==> t.typ == EOF && t.text == "")
      && (ch == '=' ==> t.typ == (if after == '~' then EQREGEXP else EQ) && t.text == "")
      && (ch == '!' ==> t.typ == (if after == '=' then NEQ else if after == '~' then NEQREGEXP else INVALID))
      && (ch == '!' && after != '=' && after != '~' ==> t.text == "!")
      && (ch == '{' ==> t.typ == LBRACE) && (ch == '}' ==> t.typ == RBRACE)
      && (ch == '(' ==> t.typ == LPAREN) && (ch == ')' ==> t.typ == RPAREN)
      && (ch == ',' ==> t.typ == COMMA)
      && (ch != Eof && !IsIdentChar(ch) && !Member(ch, "-\"'=!{}(),") ==>
            t.typ == INVALID && t.text == [ch])
  {
    AfterBlanks(c);
    var sp := SkipSpaces(c);
    AfterOperatorType(sp.ch, sp.pos, sp.next);
    AfterPunctuationType(sp.ch, sp.pos, sp.next);
    AfterOther(sp.ch, sp.pos, sp.next);
  }

  lemma AfterLiteral(ch: char, pos: Position, c1: Cursor)
    requires JustRead(ch, c1)
    ensures var t := ScanAfter(ch, pos, c1).tok;
      (ch == '-' || IsDigit(ch) ==> t.typ == NUMBER)
      && (ch == '"' || ch == '\'' ==> t.typ in {STRING, EOF, NEWLINE, BADESCAPE})
  {
  }

  /** A minus sign or a digit starts a NUMBER; a quote starts a string,
      which ends as STRING or as one of its three error tokens. */
  lemma ScanNumberOrString(c: Cursor)
    requires CursorOk(c)
    ensures var k := SpaceEnd(c.text, c.off); var t := Scan(c).tok;
      var ch := CharAt(c.text, k);
      (ch == '-' || IsDigit(ch) ==> t.typ == NUMBER)
      && (ch == '"' || ch == '\'' ==> t.typ in {STRING, EOF, NEWLINE, BADESCAPE})
  {
    AfterBlanks(c);
    var sp := SkipSpaces(c);
    AfterLiteral(sp.ch, sp.pos, sp.next);
  }

  lemma AfterIdent(ch: char, pos: Position, c1: Cursor)
    requires JustRead(ch, c1) && (IsAlpha(ch) || ch == '_')
    ensures var u := Unread(c1);
      u.off + 1 == c1.off && u.text == c1.text && CursorOk(u) && u.text[u.off] == ch
      && ScanAfter(ch, pos, c1) == ScanIdent(u)
  {
  }

  /** After the blanks, a letter or underscore hands the rest to scanIdent,
      which starts at that character. */
  lemma ScanAtIdent(c: Cursor)
    requires CursorOk(c)
    requires var ch := CharAt(c.text, SpaceEnd(c.text, c.off)); (IsAlpha(ch) || ch == '_')
    ensures Unread(SkipSpaces(c).next).off == SpaceEnd(c.text, c.off)
    ensures Scan(c) == ScanIdent(Unread(SkipSpaces(c).next))
  {
    AfterBlanks(c);
    var sp := SkipSpaces(c);
    AfterIdent(sp.ch, sp.pos, sp.next);
  }

  /** A letter or underscore starts an IDENT made of the longest run of
      identifier characters from there, so no IDENT starts with a digit. */
  lemma ScanIdentStart(c: Cursor)
    requires CursorOk(c)
    ensures var k := SpaceEnd(c.text, c.off); var t := Scan(c).tok;
      var ch := CharAt(c.text, k);
      IsAlpha(ch) || ch == '_' ==>
        t.typ == IDENT && 0 < |t.text| && !IsDigit(t.text[0])
        && IdentSpan(c.text, k, k + |t.text|) && t.text == c.text[k..k + |t.text|]
  {
    var k := SpaceEnd(c.text, c.off);
    var ch := CharAt(c.text, k);
    if IsAlpha(ch) || ch == '_' {
      ScanAtIdent(c);
      assert IsIdentChar(c.text[k]);
    }
  }

  lemma AfterPosition(ch: char, pos: Position, c1: Cursor)
    requires JustRead(ch, c1) && (ch != Eof ==> c1.last == pos)
    ensures var t := ScanAfter(ch, pos, c1).tok;
      (ch != '"' && ch != '\'') || t.typ == STRING ==> t.pos == pos
  {
  }

  /** Every token except the error tokens of a string body carries the
      position of its first character; EOF at the end of the input carries
      the position just past it. */
  lemma ScanPosition(c: Cursor)
    requires Tracks(c)
    ensures var k := SpaceEnd(c.text, c.off); var t := Scan(c).tok;
      ((CharAt(c.text, k) != '"' && CharAt(c.text, k) != '\'') || t.typ == STRING)
      ==> t.pos == PosAt(c.text, k)
  {
    AfterBlanks(c);
    SkipSpacesTracks(c);
    var sp := SkipSpaces(c);
    AfterPosition(sp.ch, sp.pos, sp.next);
  }

  // ---- quoted strings decode what strconv.Quote writes ----

  /** text holds w at index i. */
  /** Two adjacent slices make up the slice that spans both. */
  lemma SliceConcat(text: string, a: nat, b: nat, d: nat)
    requires a <= b <= d <= |text|
    ensures text[a..b] + text[b..d] == text[a..d]
  {
  }

  predicate SliceIs(text: string, i: nat, w: string)
  {
    i + |w| <= |text| && forall k :: 0 <= k < |w| ==> text[i + k] == w[k]
  }

  lemma SliceIsSplit(text: string, i: nat, u: string, v: string)
    requires SliceIs(text, i, u + v)
    ensures SliceIs(text, i, u) && SliceIs(text, i + |u|, v)
  {
    forall k | 0 <= k < |u| ensures text[i + k] == u[k] { assert (u + v)[k] == u[k]; }
    forall k | 0 <= k < |v| ensures text[i + |u| + k] == v[k] { assert (u + v)[|u| + k] == v[k]; }
  }

  lemma SliceIsJoin(text: string, i: nat, u: string, v: string)
    requires SliceIs(text, i, u) && SliceIs(text, i + |u|, v)
    ensures SliceIs(text, i, u + v)
  {
    forall k | 0 <= k < |u| + |v| ensures text[i + k] == (u + v)[k] {
      if k < |u| { assert u[k] == (u + v)[k]; } else { assert v[k - |u|] == (u + v)[k]; }
    }
  }

  /** Every character is one strconv.Quote writes as itself or with a
      backslash in front: no control characters, so no newline and no NUL. */
  predicate Printable(s: string)
  {
    forall i :: 0 <= i < |s| ==> Quoting.IsGoPrint(s[i])
  }

  /** The body strconv.Quote writes for printable text: a backslash before
      each double quote and backslash, every other character as itself. */
  function QuoteBody(s: string): string
  {
    if s == [] then ""
    else (if s[0] == '"' || s[0] == '\\' then ['\\', s[0]] else [s[0]]) + QuoteBody(s[1..])
  }

  lemma {:induction false} QuoteBodyIsEscape(s: string)
    requires Printable(s)
    ensures Quoting.GoEscapeAll(s) == QuoteBody(s)
    decreases |s|
  {
    if s != [] {
      assert Quoting.IsGoPrint(s[0]);
      assert Printable(s[1..]) by {
        forall i | 0 <= i < |s[1..]| ensures Quoting.IsGoPrint(s[1..][i]) { assert s[1..][i] == s[i + 1]; }
      }
      QuoteBodyIsEscape(s[1..]);
    }
  }

  predicate NoBreak(s: string)
  {
    forall i :: 0 <= i < |s| ==> s[i] != Eof && s[i] != '\n'
  }

  lemma StringLoopPlain(c: Cursor, quote: char, start: Position, acc: string)
    requires CursorOk(c) && quote != Eof && c.off < |c.text|
    requires var ch := c.text[c.off]; ch != quote && ch != Eof && ch != '\n' && ch != '\\'
    ensures StringLoop(c, quote, start, acc)
      == StringLoop(Read(c).next, quote, start, acc + [c.text[c.off]])
  {
  }

  lemma StringLoopEscaped(c: Cursor, quote: char, start: Position, acc: string)
    requires CursorOk(c) && quote != Eof && quote != '\\' && c.off + 1 < |c.text|
    requires c.text[c.off] == '\\'
    requires var ch := c.text[c.off + 1]; ch == '\\' || ch == '"' || ch == '\''
    ensures StringLoop(c, quote, start, acc)
      == StringLoop(Read(Read(c).next).next, quote, start, acc + [c.text[c.off + 1]])
  {
  }

  /** The characters after the first escaped one are still quoted text. */
  lemma QuotedTail(text: string, i: nat, s: string)
    requires s != [] && NoBreak(s) && SliceIs(text, i, QuoteBody(s) + "\"")
    ensures var n := if s[0] == '"' || s[0] == '\\' then 2 else 1;
      NoBreak(s[1..]) && SliceIs(text, i + n, QuoteBody(s[1..]) + "\"")
      && (n == 2 ==> i + 1 < |text| && text[i] == '\\' && text[i + 1] == s[0])
      && (n == 1 ==> i < |text| && text[i] == s[0])
  {
    var e := if s[0] == '"' || s[0] == '\\' then ['\\', s[0]] else [s[0]];
    var rest := QuoteBody(s[1..]);
    assert QuoteBody(s) + "\"" == e + (rest + "\"");
    SliceIsSplit(text, i, e, rest + "\"");
    assert text[i + 0] == e[0];
    assert |e| == 2 ==> text[i + 1] == e[1];
    forall j | 0 <= j < |s[1..]| ensures s[1..][j] != Eof && s[1..][j] != '\n' { assert s[1..][j] == s[j + 1]; }
  }

  lemma {:induction false} StringLoopQuoted(c: Cursor, s: string, start: Position, acc: string)
    requires CursorOk(c) && NoBreak(s)
    requires SliceIs(c.text, c.off, QuoteBody(s) + "\"")
    ensures var r := StringLoop(c, '"', start, acc);
      r.tok == Token(STRING, start, acc + s) && r.next.canUnread
      && r.next.off == c.off + |QuoteBody(s)| + 1
    decreases |s|
  {
    if s == [] {
      assert c.text[c.off + 0] == (QuoteBody(s) + "\"")[0];
    } else {
      QuotedTail(c.text, c.off, s);
      assert s[0] != Eof && s[0] != '\n';
      assert acc + [s[0]] + s[1..] == acc + s;
      if s[0] == '"' || s[0] == '\\' {
        StringLoopEscaped(c, '"', start, acc);
        StringLoopQuoted(Read(Read(c).next).next, s[1..], start, acc + [s[0]]);
      } else {
        StringLoopPlain(c, '"', start, acc);
        StringLoopQuoted(Read(c).next, s[1..], start, acc + [s[0]]);
      }
    }
  }

  lemma PrintableNoBreak(s: string)
    requires Printable(s)
    ensures NoBreak(s)
  {
    forall i | 0 <= i < |s| ensures s[i] != Eof && s[i] != '\n' { assert Quoting.IsGoPrint(s[i]); }
  }

  /** Scanning text that holds strconv.Quote(s) after the blanks gives back
      the STRING token s, for printable s, and stops right after the closing
      quote. */
  lemma ScanGoQuoted(c: Cursor, s: string)
    requires CursorOk(c) && Printable(s)
    requires SliceIs(c.text, SpaceEnd(c.text, c.off), Quoting.GoQuote(s))
    ensures var r := Scan(c); var k := SpaceEnd(c.text, c.off);
      r.tok.typ == STRING && r.tok.text == s && r.next.off == k + |Quoting.GoQuote(s)|
      && r.next.canUnread
  {
    var k := SpaceEnd(c.text, c.off);
    QuoteBodyIsEscape(s);
    PrintableNoBreak(s);
    ScanQuoted(c, s);
  }

  lemma AfterQuote(ch: char, pos: Position, c1: Cursor)
    requires JustRead(ch, c1) && ch == '"'
    ensures var u := Unread(c1);
      u.off + 1 == c1.off && Read(u).next.off == c1.off
      && ScanAfter(ch, pos, c1) == StringLoop(Read(u).next, '"', Read(u).pos, "")
  {
  }

  /** After the blanks, a double quote hands the rest to the string body
      loop, which starts right after the quote. */
  lemma ScanAtQuote(c: Cursor)
    requires CursorOk(c) && CharAt(c.text, SpaceEnd(c.text, c.off)) == '"'
    ensures var k := SpaceEnd(c.text, c.off); var u := Unread(SkipSpaces(c).next);
      u.off == k && Read(u).next.off == k + 1
      && Scan(c) == StringLoop(Read(u).next, '"', Read(u).pos, "")
  {
    AfterBlanks(c);
    var sp := SkipSpaces(c);
    AfterQuote(sp.ch, sp.pos, sp.next);
  }

  lemma ScanQuoted(c: Cursor, s: string)
    requires CursorOk(c) && NoBreak(s)
    requires SliceIs(c.text, SpaceEnd(c.text, c.off), "\"" + QuoteBody(s) + "\"")
    ensures var r := Scan(c); var k := SpaceEnd(c.text, c.off);
      r.tok.typ == STRING && r.tok.text == s && r.next.off == k + |QuoteBody(s)| + 2
      && r.next.canUnread
  {
    var k := SpaceEnd(c.text, c.off);
    assert "\"" + QuoteBody(s) + "\"" == "\"" + (QuoteBody(s) + "\"");
    SliceIsSplit(c.text, k, "\"", QuoteBody(s) + "\"");
    assert c.text[k + 0] == "\""[0];
    assert CharAt(c.text, k) == '"';
    ScanAtQuote(c);
    var u := Unread(SkipSpaces(c).next);
    StringLoopQuoted(Read(u).next, s, Read(u).pos, "");
    assert "" + s == s;
  }

  // ---- where scan stops, for the tokens a printer writes ----

  lemma AfterPunctuation(ch: char, pos: Position, c1: Cursor)
    requires JustRead(ch, c1) && Member(ch, Punctuation)
    ensures ScanAfter(ch, pos, c1).next == c1
  {
  }

  /** Braces, parentheses and the comma are one character long. */
  lemma ScanPunctuation(c: Cursor)
    requires CursorOk(c) && Member(CharAt(c.text, SpaceEnd(c.text, c.off)), Punctuation)
    ensures Scan(c).next.off == SpaceEnd(c.text, c.off) + 1
  {
    AfterBlanks(c);
    var sp := SkipSpaces(c);
    AfterPunctuation(sp.ch, sp.pos, sp.next);
  }

  lemma AfterOperator(ch: char, pos: Position, c1: Cursor)
    requires JustRead(ch, c1)
    ensures var after := CharAt(c1.text, c1.off); var r := ScanAfter(ch, pos, c1);
      (ch == '=' && after != '~' ==> r.next.off == c1.off)
      && (ch == '=' && after == '~' ==> r.next.off == c1.off + 1)
      && (ch == '!' && (after == '=' || after == '~') ==> r.next.off == c1.off + 1)
  {
  }

  /** '=' alone is one character; '=~', '!=' and '!~' are two. */
  lemma ScanOperatorLength(c: Cursor)
    requires CursorOk(c)
    ensures var k := SpaceEnd(c.text, c.off); var ch := CharAt(c.text, k);
      var after := CharAt(c.text, k + 1);
      (ch == '=' && after != '~' ==> Scan(c).next.off == k + 1)
      && (ch == '=' && after == '~' ==> Scan(c).next.off == k + 2)
      && (ch == '!' && (after == '=' || after == '~') ==> Scan(c).next.off == k + 2)
  {
    AfterBlanks(c);
    var sp := SkipSpaces(c);
    AfterOperator(sp.ch, sp.pos, sp.next);
  }

  /** At the end of the input scan returns EOF and stays there. */
  lemma ScanAtEnd(c: Cursor)
    requires CursorOk(c) && SpaceEnd(c.text, c.off) == |c.text|
    ensures Scan(c).tok.typ == EOF && Scan(c).next.off == |c.text|
  {
    SkipSpacesEnd(c);
  }

  /** A name with no digit first. */
  predicate Identifier(w: string)
  {
    w != [] && !IsDigit(w[0]) && forall i :: 0 <= i < |w| ==> IsIdentChar(w[i])
  }

  /** text holds the identifier w after the blanks, followed by the end of
      the input or a character that is neither an identifier character nor
      a NUL: scan returns exactly w and stops right after it. */
  lemma ScanIdentifier(c: Cursor, w: string)
    requires CursorOk(c) && Identifier(w)
    requires var k := SpaceEnd(c.text, c.off);
      SliceIs(c.text, k, w)
      && (k + |w| < |c.text| ==> !IsIdentChar(c.text[k + |w|]) && c.text[k + |w|] != Eof)
    ensures var k := SpaceEnd(c.text, c.off);
      Scan(c).tok.typ == IDENT && Scan(c).tok.text == w && Scan(c).next.off == k + |w|
  {
    var k := SpaceEnd(c.text, c.off);
    assert c.text[k + 0] == w[0];
    ScanAtIdent(c);
    ScanIdentFrom(Unread(SkipSpaces(c).next), w);
  }

  lemma ScanIdentFrom(u: Cursor, w: string)
    requires CursorOk(u) && w != [] && (forall i :: 0 <= i < |w| ==> IsIdentChar(w[i]))
    requires SliceIs(u.text, u.off, w)
    requires u.off + |w| < |u.text| ==> !IsIdentChar(u.text[u.off + |w|]) && u.text[u.off + |w|] != Eof
    ensures ScanIdent(u).tok.text == w && ScanIdent(u).next.off == u.off + |w|
  {
    var k := u.off;
    assert IdentSpan(u.text, k, k + |w|) by {
      forall i | k <= i < k + |w| ensures IsIdentChar(u.text[i]) { assert u.text[i] == w[i - k]; }
    }
    var t := ScanIdent(u).tok;
    IdentSpanUnique(u.text, k, k + |t.text|, k + |w|);
  }

  lemma IdentSpanUnique(text: string, from: nat, j: int, k: int)
    requires IdentSpan(text, from, j) && IdentSpan(text, from, k)
    ensures j == k
  {
  }

  /** Blanks are skipped only when there are some. */
  lemma SpaceEndHere(text: string, k: nat)
    requires k < |text| && !IsSpace(text[k])
    ensures SpaceEnd(text, k) == k
  {
  }
}
