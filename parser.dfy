// The Go lexical parser of pkg/parser/parser.go as a class: the reader state
// (read offset, position, previous position, whether an unread is allowed)
// and the peeked token are fields, and each method is the source's loop or
// case analysis, proved to compute what the matching function of module
// Lexing computes.
module GoParser {
  import opened Wrappers
  import opened Tokens
  import L = Lexing

  class Parser {
    /** The input behind the scanner (the io.Reader given to New). */
    const text: string
    var off: nat
    var pos: Position
    var last: Position
    var canUnread: bool
    var peeked: Option<Token>

    function Cur(): L.Cursor
      reads this
    {
      L.Cursor(L.Input(text), off, pos, last, canUnread)
    }

    function State(): L.Lexer
      reads this
    {
      L.Lexer(Cur(), peeked)
    }

    ghost predicate Valid()
      reads this
    {
      L.CursorOk(Cur())
    }

    /** New: position 1:1, nothing read, nothing peeked. */
    constructor New(input: string)
      ensures Valid() && text == input && Cur() == L.Start(input) && peeked == None
      ensures L.Tracks(Cur())
    {
      text := input;
      off := 0;
      pos := Position(1, 1);
      last := Position(0, 0);
      canUnread := false;
      peeked := None;
    }

    method Read() returns (ch: char, at: Position)
      requires Valid()
      modifies this
      ensures Valid() && peeked == old(peeked)
      ensures L.ReadResult(ch, at, Cur()) == L.Read(old(Cur()))
    {
      if off == |text| {
        canUnread := false;
        return L.Eof, pos;
      }
      ch := text[off];
      off := off + 1;
      canUnread := true;
      last := pos;
      if ch == '\n' {
        pos := Position(pos.line + 1, 1);
      } else {
        pos := Position(pos.line, pos.column + 1);
      }
      at := last;
    }

    method Unread()
      requires Valid()
      modifies this
      ensures Valid() && peeked == old(peeked)
      ensures Cur() == L.Unread(old(Cur()))
    {
      if canUnread {
        off := off - 1;
        canUnread := false;
        pos := last;
      }
    }

    method Run(members: string) returns (s: string)
      requires Valid() && !L.Member(L.Eof, members)
      modifies this
      ensures Valid() && peeked == old(peeked)
      ensures L.Chunk(s, Cur()) == L.Run(old(Cur()), members)
    {
      ghost var c0 := Cur();
      s := "";
      while true
        invariant Valid() && peeked == old(peeked) && Cur().text == c0.text
        invariant L.RunLoop(Cur(), members, s) == L.RunLoop(c0, members, "")
        decreases |text| - off
      {
        var ch, _ := Read();
        if !L.Member(ch, members) {
          break;
        }
        s := s + [ch];
      }
      Unread();
    }

    method Scan() returns (tok: Token)
      requires Valid()
      modifies this
      ensures Valid() && peeked == old(peeked)
      ensures L.Scanned(tok, Cur()) == L.Scan(old(Cur()))
    {
      ghost var c0 := Cur();
      var c, at := Read();
      while L.IsSpace(c)
        invariant Valid() && peeked == old(peeked) && Cur().text == c0.text
        invariant L.SkipSpaces(c0) == if L.IsSpace(c) then L.SkipSpaces(Cur()) else L.ReadResult(c, at, Cur())
        decreases |text| - off + (if L.IsSpace(c) then 1 else 0)
      {
        c, at := Read();
      }
      tok := ScanAfter(c, at);
    }

    /** The switch of scan on the first character c after the blanks, read
        at position at. */
    method ScanAfter(c: char, at: Position) returns (tok: Token)
      requires Valid() && L.JustRead(c, Cur())
      modifies this
      ensures Valid() && peeked == old(peeked)
      ensures L.Scanned(tok, Cur()) == L.ScanAfter(c, at, old(Cur()))
    {
      if c == L.Eof {
        return Token(EOF, at, "");
      } else if c == '-' || L.IsDigit(c) {
        Unread();
        tok := ScanNumber();
      } else if L.IsIdentChar(c) {
        Unread();
        tok := ScanIdent();
      } else if c == '"' || c == '\'' {
        Unread();
        tok := ScanString();
      } else {
        tok := ScanSymbol(c, at);
      }
    }

    /** The operator, punctuation and invalid cases of the switch. */
    method ScanSymbol(c: char, at: Position) returns (tok: Token)
      requires Valid()
      modifies this
      ensures Valid() && peeked == old(peeked)
      ensures L.Scanned(tok, Cur()) == L.ScanSymbol(c, at, old(Cur()))
    {
      if c == '=' {
        var next, _ := Read();
        if next == '~' {
          return Token(EQREGEXP, at, "");
        }
        Unread();
        tok := Token(EQ, at, "");
      } else if c == '!' {
        var next, _ := Read();
        if next == '=' {
          return Token(NEQ, at, "");
        } else if next == '~' {
          return Token(NEQREGEXP, at, "");
        }
        Unread();
        tok := Token(INVALID, at, "!");
      } else if c == '{' {
        tok := Token(LBRACE, at, "");
      } else if c == '}' {
        tok := Token(RBRACE, at, "");
      } else if c == '(' {
        tok := Token(LPAREN, at, "");
      } else if c == ')' {
        tok := Token(RPAREN, at, "");
      } else if c == ',' {
        tok := Token(COMMA, at, "");
      } else {
        tok := Token(INVALID, at, [c]);
      }
    }

    method ScanIdent() returns (tok: Token)
      requires Valid()
      modifies this
      ensures Valid() && peeked == old(peeked)
      ensures L.Scanned(tok, Cur()) == L.ScanIdent(old(Cur()))
    {
      ghost var c0 := Cur();
      var start := pos;
      var buf := "";
      while true
        invariant Valid() && peeked == old(peeked) && Cur().text == c0.text
        invariant L.IdentLoop(Cur(), buf) == L.IdentLoop(c0, "")
        decreases |text| - off
      {
        var ch, _ := Read();
        if ch == L.Eof {
          break;
        } else if L.IsIdentChar(ch) {
          buf := buf + [ch];
        } else {
          Unread();
          break;
        }
      }
      tok := Token(IDENT, start, buf);
    }

    /** scanNumber, part by part: sign, integer digits, fraction, exponent. */
    method ScanNumber() returns (tok: Token)
      requires Valid()
      modifies this
      ensures Valid() && peeked == old(peeked)
      ensures L.Scanned(tok, Cur()) == L.ScanNumber(old(Cur()))
    {
      var start := pos;
      var sign := Accept("-");
      var digits := Run(L.Digits);
      var fraction := ScanFraction();
      var exponent := ScanExponent();
      tok := Token(NUMBER, start, sign + digits + fraction + exponent);
    }

    /** One read, kept when it is one of allowed and unread otherwise. */
    method Accept(allowed: string) returns (buf: string)
      requires Valid() && !L.Member(L.Eof, allowed)
      modifies this
      ensures Valid() && peeked == old(peeked)
      ensures L.Chunk(buf, Cur()) == L.Accept(old(Cur()), allowed)
    {
      var next, _ := Read();
      if L.Member(next, allowed) {
        buf := [next];
      } else {
        Unread();
        buf := "";
      }
    }

    method ScanFraction() returns (buf: string)
      requires Valid()
      modifies this
      ensures Valid() && peeked == old(peeked)
      ensures L.Chunk(buf, Cur()) == L.NumberFraction(old(Cur()))
    {
      buf := Accept(".");
      if buf != "" {
        var digits := Run(L.Digits);
        buf := buf + digits;
      }
    }

    method ScanExponent() returns (buf: string)
      requires Valid()
      modifies this
      ensures Valid() && peeked == old(peeked)
      ensures L.Chunk(buf, Cur()) == L.NumberExponent(old(Cur()))
    {
      buf := Accept("eE");
      if buf != "" {
        var sign := Accept("+-");
        var digits := Run(L.Digits);
        buf := buf + sign + digits;
      }
    }

    method ScanString() returns (tok: Token)
      requires Valid() && off < |text| && text[off] != L.Eof
      modifies this
      ensures Valid() && peeked == old(peeked)
      ensures L.Scanned(tok, Cur()) == L.ScanString(old(Cur()))
    {
      ghost var c0 := Cur();
      var quote, start := Read();
      var buf := "";
      while true
        invariant Valid() && peeked == old(peeked) && Cur().text == c0.text
        invariant L.StringLoop(Cur(), quote, start, buf) == L.ScanString(c0)
        decreases |text| - off
      {
        var ch, at := Read();
        if ch == quote {
          return Token(STRING, start, buf);
        } else if ch == L.Eof {
          return Token(EOF, at, buf);
        } else if ch == '\n' {
          return Token(NEWLINE, at, buf);
        } else if ch == '\\' {
          var next, _ := Read();
          if next == '\\' || next == '"' || next == '\'' {
            buf := buf + [next];
          } else {
            return Token(BADESCAPE, at, L.RuneSumText(ch, next));
          }
        } else {
          buf := buf + [ch];
        }
      }
    }

    method Next() returns (tok: Token)
      requires Valid()
      modifies this
      ensures Valid()
      ensures L.Step(tok, State()) == L.Next(old(State()))
    {
      if peeked.Some? {
        tok := peeked.value;
        peeked := None;
      } else {
        tok := Scan();
      }
    }

    method Peek() returns (tok: Token)
      requires Valid()
      modifies this
      ensures Valid()
      ensures L.Step(tok, State()) == L.Peek(old(State()))
    {
      if peeked.None? {
        var t := Scan();
        peeked := Some(t);
      }
      tok := peeked.value;
    }

    method PeekRune() returns (ch: char)
      requires Valid()
      modifies this
      ensures Valid()
      ensures L.RuneStep(ch, State()) == L.PeekRune(old(State()))
    {
      var at;
      ch, at := Read();
      Unread();
    }

    method Expect(want: int) returns (tok: Token, err: Option<string>)
      requires Valid()
      modifies this
      ensures Valid()
      ensures L.Expected(tok, err, State()) == L.Expect(old(State()), want)
    {
      tok := Next();
      if tok.typ != want {
        return tok, Some(L.ExpectMessage(want, tok));
      }
      return tok, None;
    }
  }
}
