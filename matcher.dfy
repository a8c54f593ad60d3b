// Label matchers (pkg/labels/matcher.go): the grammar
//   matcher := [IDENT] [ '{' [ cond { ',' cond } [','] ] '}' ]
//   cond    := IDENT op STRING
// read from the Go lexical parser, the printed form, and the test of one
// condition against one label.
module Matchers {
  import opened Wrappers
  import opened Tokens
  import opened LabelPair
  import Text
  import Quoting
  import L = Lexing
  import GoParser

  datatype Op = OpEq | OpNotEq | OpEqRegexp | OpNotEqRegexp

  datatype MatchCond = MatchCond(op: Op, name: string, value: string)

  /** A parsed matcher: the conditions in source order. Go's nil matcher
      (no matcher at all) is None where it is distinguished. */
  type Matcher = seq<MatchCond>

  /** The regular-expression engine behind =~ and !~, given from outside:
      the error regexp.Compile reports for a pattern (None when it
      compiles), and whether a compiled pattern matches a string. */
  datatype Regexp = Regexp(compileError: string -> Option<string>, matches: (string, string) -> bool)

  predicate IsRegexpOp(op: Op) { op == OpEqRegexp || op == OpNotEqRegexp }

  /** NewMatchCond: only the pattern operators compile their value, and a
      compile error is the result. */
  function NewMatchCond(op: Op, name: string, value: string, re: Regexp): (r: Result<MatchCond>)
    ensures r.Ok? <==> !IsRegexpOp(op) || re.compileError(value).None?
    ensures r.Ok? ==> r.value == MatchCond(op, name, value)
    ensures r.Err? ==> r.error == re.compileError(value).value
  {
    if IsRegexpOp(op) && re.compileError(value).Some? then Err(re.compileError(value).value)
    else Ok(MatchCond(op, name, value))
  }

  /** MatchCond.Match. */
  function Match(cond: MatchCond, l: Label, re: Regexp): bool
  {
    if l.name != cond.name then false
    else match cond.op
      case OpEq => l.value == cond.value
      case OpNotEq => l.value != cond.value
      case OpEqRegexp => re.matches(cond.value, l.value)
      case OpNotEqRegexp => !re.matches(cond.value, l.value)
  }

  /** A condition never matches a label of another name; = matches exactly
      the label (name, value), and each negated operator matches exactly the
      labels of that name its positive form does not. */
  lemma MatchMeaning(name: string, value: string, l: Label, re: Regexp)
    ensures Match(MatchCond(OpEq, name, value), l, re) <==> l == Label(name, value)
    ensures Match(MatchCond(OpNotEq, name, value), l, re)
      <==> l.name == name && !Match(MatchCond(OpEq, name, value), l, re)
    ensures Match(MatchCond(OpNotEqRegexp, name, value), l, re)
      <==> l.name == name && !Match(MatchCond(OpEqRegexp, name, value), l, re)
    ensures forall op :: l.name != name ==> !Match(MatchCond(op, name, value), l, re)
  {
  }

  // ---- printing ----

  function OpString(op: Op): string
  {
    match op
    case OpEq => "="
    case OpNotEq => "!="
    case OpEqRegexp => "=~"
    case OpNotEqRegexp => "!~"
  }

  /** The token type the lexer gives each operator's text. */
  function OpType(op: Op): int
  {
    match op
    case OpEq => EQ
    case OpNotEq => NEQ
    case OpEqRegexp => EQREGEXP
    case OpNotEqRegexp => NEQREGEXP
  }

  /** The operator an operator token stands for. */
  function OpOf(typ: int): Op
    requires BeginOperators < typ < EndOperators
  {
    if typ == EQ then OpEq else if typ == NEQ then OpNotEq
    else if typ == EQREGEXP then OpEqRegexp else OpNotEqRegexp
  }

  lemma OpTypeInverse(op: Op, typ: int)
    requires BeginOperators < typ < EndOperators
    ensures OpOf(OpType(op)) == op && OpType(OpOf(typ)) == typ
    ensures IsOperator(Token(OpType(op), Position(0, 0), ""))
  {
  }

  /** MatchCond.String: name, operator, then the value as %q writes it. */
  function CondString(c: MatchCond): string
  {
    c.name + OpString(c.op) + Quoting.GoQuote(c.value)
  }

  /** What Matcher.String writes: the conditions in order, comma-separated,
      in braces. */
  function Format(m: Matcher): string
  {
    "{" + Text.Join(CondStrings(m), ",") + "}"
  }

  function CondStrings(m: Matcher): (r: seq<string>)
    ensures |r| == |m|
  {
    if m == [] then [] else [CondString(m[0])] + CondStrings(m[1..])
  }

  lemma {:induction false} CondStringsAppend(m: Matcher, c: MatchCond)
    ensures CondStrings(m + [c]) == CondStrings(m) + [CondString(c)]
  {
    if m != [] {
      assert (m + [c])[1..] == m[1..] + [c];
      CondStringsAppend(m[1..], c);
    }
  }

  /** Matcher.String: the loop that fills the buffer. */
  method String(m: Matcher) returns (s: string)
    ensures s == Format(m)
  {
    var b := "{";
    var idx := 0;
    while idx < |m|
      invariant 0 <= idx <= |m|
      invariant b == Filled(m, idx)
    {
      FilledStep(m, idx);
      if idx > 0 {
        b := b + ",";
      }
      b := b + CondString(m[idx]);
      idx := idx + 1;
    }
    assert m[..idx] == m;
    s := b + "}";
  }

  /** The buffer of String after idx turns of its loop. */
  function Filled(m: Matcher, idx: nat): string
    requires idx <= |m|
  {
    "{" + Text.Join(CondStrings(m[..idx]), ",")
  }

  /** A turn of the loop writes a comma unless it is the first turn, then
      the next condition. */
  lemma FilledStep(m: Matcher, idx: nat)
    requires idx < |m|
    ensures Filled(m, idx + 1) == Filled(m, idx) + (if idx > 0 then "," else "") + CondString(m[idx])
  {
    var sep: string := if idx > 0 then "," else "";
    var joined := Text.Join(CondStrings(m[..idx]), ",");
    assert m[..idx + 1] == m[..idx] + [m[idx]];
    CondStringsAppend(m[..idx], m[idx]);
    JoinAppend(CondStrings(m[..idx]), CondString(m[idx]));
    assert Text.Join(CondStrings(m[..idx + 1]), ",") == joined + sep + CondString(m[idx]);
    Text.AppendAssoc("{", joined + sep, CondString(m[idx]));
    Text.AppendAssoc("{", joined, sep);
    assert Filled(m, idx) == "{" + joined;
  }

  lemma {:induction false} JoinAppend(parts: seq<string>, x: string)
    ensures Text.Join(parts + [x], ",") == if parts == [] then x else Text.Join(parts, ",") + "," + x
  {
    if |parts| > 1 {
      assert (parts + [x])[1..] == parts[1..] + [x];
      JoinAppend(parts[1..], x);
    } else if |parts| == 1 {
      assert (parts + [x])[1..] == [x];
    }
  }

  // ---- parsing ----

  /** The result of a parse step and the lexer state it leaves. */
  datatype Parsed<T> = Parsed(result: Result<T>, next: L.Lexer)

  function OperatorMessage(tok: Token): string
  {
    "expected operator but got " + TypeString(tok.typ) + " at " + PositionString(tok.pos)
  }

  /** parseMatchCond: IDENT, an operator token, STRING. */
  function CondFrom(l: L.Lexer, re: Regexp): (r: Parsed<MatchCond>)
    requires L.LexerOk(l)
    ensures L.LexerOk(r.next) && r.next.cur.text == l.cur.text
    ensures L.Rank(r.next) <= L.Rank(l) && (r.result.Ok? ==> L.Rank(r.next) < L.Rank(l))
  {
    var id := L.Expect(l, IDENT);
    if id.err.Some? then Parsed(Err(id.err.value), id.next)
    else
      var op := L.Next(id.next);
      if !IsOperator(op.tok) then Parsed(Err(OperatorMessage(op.tok)), op.next)
      else
        var v := L.Expect(op.next, STRING);
        if v.err.Some? then Parsed(Err(v.err.value), v.next)
        else Parsed(NewMatchCond(OpOf(op.tok.typ), id.tok.text, v.tok.text, re), v.next)
  }

  /** The loop of MatcherFromParser over the conditions: each turn parses
      one condition, then AfterCond decides whether the list goes on. */
  function CondLoop(l: L.Lexer, re: Regexp, acc: Matcher): (r: Parsed<Matcher>)
    requires L.LexerOk(l)
    ensures L.LexerOk(r.next) && r.next.cur.text == l.cur.text && L.Rank(r.next) <= L.Rank(l)
    decreases L.Rank(l), 1
  {
    AfterCond(CondFrom(l, re), re, acc)
  }

  /** The rest of a turn of the loop, after the condition c: a comma
      continues the list, and a comma followed by '}' ends it. */
  function AfterCond(c: Parsed<MatchCond>, re: Regexp, acc: Matcher): (r: Parsed<Matcher>)
    requires L.LexerOk(c.next)
    ensures L.LexerOk(r.next) && r.next.cur.text == c.next.cur.text && L.Rank(r.next) <= L.Rank(c.next)
    decreases L.Rank(c.next), 0
  {
    if c.result.Err? then Parsed(Err(c.result.error), c.next)
    else
      var acc' := acc + [c.result.value];
      var p := L.Peek(c.next);
      if p.tok.typ != COMMA then Parsed(Ok(acc'), p.next)
      else
        var n := L.Next(p.next);
        var p2 := L.Peek(n.next);
        if p2.tok.typ == RBRACE then Parsed(Ok(acc'), p2.next)
        else
          CondLoop(p2.next, re, acc')
  }

  /** MatcherFromParser: an optional leading name, which alone is a whole
      matcher, then the braced conditions. */
  function MatcherFrom(l: L.Lexer, re: Regexp): (r: Parsed<Matcher>)
    requires L.LexerOk(l)
    ensures L.LexerOk(r.next) && r.next.cur.text == l.cur.text && L.Rank(r.next) <= L.Rank(l)
  {
    var p := L.Peek(l);
    var isName := p.tok.typ == IDENT;
    var m: Matcher := if isName then [MatchCond(OpEq, Name, p.tok.text)] else [];
    var l1 := if isName then L.Next(p.next).next else p.next;
    var p2 := L.Peek(l1);
    if p2.tok.typ != LBRACE && isName then Parsed(Ok(m), p2.next)
    else
      var lb := L.Expect(p2.next, LBRACE);
      if lb.err.Some? then Parsed(Err(lb.err.value), lb.next)
      else BracedFrom(lb.next, re, m)
  }

  /** The rest of MatcherFromParser after the opening brace: the
      conditions, if the next token is not '}', then the closing brace. */
  function BracedFrom(l: L.Lexer, re: Regexp, m: Matcher): (r: Parsed<Matcher>)
    requires L.LexerOk(l)
    ensures L.LexerOk(r.next) && r.next.cur.text == l.cur.text && L.Rank(r.next) <= L.Rank(l)
  {
    var p3 := L.Peek(l);
    var body := if p3.tok.typ != RBRACE then CondLoop(p3.next, re, m) else Parsed(Ok(m), p3.next);
    if body.result.Err? then body
    else
      var rb := L.Expect(body.next, RBRACE);
      if rb.err.Some? then Parsed(Err(rb.err.value), rb.next)
      else Parsed(body.result, rb.next)
  }

  /** ParseMatcher: a matcher that runs to the end of the input. */
  function MatcherOfText(text: string, re: Regexp): Result<Matcher>
  {
    var r := MatcherFrom(L.Lexer(L.Start(text), None), re);
    if r.result.Err? then r.result
    else
      var e := L.Expect(r.next, EOF);
      if e.err.Some? then Err(e.err.value) else r.result
  }

  // ---- the same parse, driving the stateful parser ----

  method ParseMatchCond(p: GoParser.Parser, re: Regexp) returns (cond: Result<MatchCond>)
    requires p.Valid()
    modifies p
    ensures p.Valid() && Parsed(cond, p.State()) == CondFrom(old(p.State()), re)
  {
    var tok, err := p.Expect(IDENT);
    if err.Some? {
      return Err(err.value);
    }
    var name := TokenString(tok);
    tok := p.Next();
    if !IsOperator(tok) {
      return Err(OperatorMessage(tok));
    }
    var op := OpOf(tok.typ);
    tok, err := p.Expect(STRING);
    if err.Some? {
      return Err(err.value);
    }
    var value := TokenString(tok);
    return NewMatchCond(op, name, value, re);
  }

  /** The loop of MatcherFromParser over the conditions. */
  method CondsFromParser(p: GoParser.Parser, re: Regexp, m0: Matcher) returns (matcher: Result<Matcher>)
    requires p.Valid()
    modifies p
    ensures p.Valid() && Parsed(matcher, p.State()) == CondLoop(old(p.State()), re, m0)
  {
    var m := m0;
    ghost var s0 := p.State();
    while true
      invariant p.Valid() && p.State().cur.text == s0.cur.text
      invariant CondLoop(p.State(), re, m) == CondLoop(s0, re, m0)
      decreases L.Rank(p.State())
    {
      ghost var before := p.State();
      var cond := ParseMatchCond(p, re);
      if cond.Err? {
        return Err(cond.error);
      }
      m := m + [cond.value];
      var tok := p.Peek();
      if tok.typ != COMMA {
        return Ok(m);
      }
      var _ := p.Next();
      tok := p.Peek();
      if tok.typ == RBRACE {
        return Ok(m);
      }
    }
  }

  method MatcherFromParser(p: GoParser.Parser, re: Regexp) returns (matcher: Result<Matcher>)
    requires p.Valid()
    modifies p
    ensures p.Valid() && Parsed(matcher, p.State()) == MatcherFrom(old(p.State()), re)
  {
    var m: Matcher := [];
    var tok := p.Peek();
    var isName := tok.typ == IDENT;
    if isName {
      m := [MatchCond(OpEq, Name, TokenString(tok))];
      var _ := p.Next();
    }
    ghost var l1 := p.State();
    tok := p.Peek();
    assert L.Step(tok, p.State()) == L.Peek(l1);
    if tok.typ != LBRACE && isName {
      return Ok(m);
    }
    var err;
    tok, err := p.Expect(LBRACE);
    if err.Some? {
      return Err(err.value);
    }
    matcher := BracedFromParser(p, re, m);
  }

  method BracedFromParser(p: GoParser.Parser, re: Regexp, m0: Matcher) returns (matcher: Result<Matcher>)
    requires p.Valid()
    modifies p
    ensures p.Valid() && Parsed(matcher, p.State()) == BracedFrom(old(p.State()), re, m0)
  {
    var m := m0;
    var tok := p.Peek();
    if tok.typ != RBRACE {
      matcher := CondsFromParser(p, re, m);
      if matcher.Err? {
        return;
      }
      m := matcher.value;
    }
    var err;
    tok, err := p.Expect(RBRACE);
    if err.Some? {
      return Err(err.value);
    }
    return Ok(m);
  }

  method ParseMatcher(text: string, re: Regexp) returns (matcher: Result<Matcher>)
    ensures matcher == MatcherOfText(text, re)
  {
    var p := new GoParser.Parser.New(text);
    matcher := MatcherFromParser(p, re);
    if matcher.Err? {
      return;
    }
    var _, err := p.Expect(EOF);
    if err.Some? {
      return Err(err.value);
    }
  }

  // ---- what String writes, ParseMatcher reads back ----

  /** The conditions String writes in a form ParseMatcher reads back: names
      that NameValid accepts, values with no control characters, and
      patterns that compile. */
  predicate Printable(c: MatchCond, re: Regexp)
  {
    ValidName(c.name) && L.Printable(c.value) && (IsRegexpOp(c.op) ==> re.compileError(c.value).None?)
  }

  /** A valid label name is exactly a lexer identifier with no digit first. */
  lemma ValidNameIsIdentifier(name: string)
    ensures ValidName(name) <==> L.Identifier(name)
  {
    if ValidName(name) {
      forall i | 0 <= i < |name| ensures L.IsIdentChar(name[i]) { assert NameChar(name[i], i); }
    }
    if L.Identifier(name) {
      forall i | 0 <= i < |name| ensures NameChar(name[i], i) { assert L.IsIdentChar(name[i]); }
    }
  }

  /** An operator's text, followed by the opening quote of the value, scans
      as that operator's token and nothing more. */
  lemma ScanOperatorText(c: L.Cursor, op: Op)
    requires L.CursorOk(c) && L.SliceIs(c.text, c.off, OpString(op) + "\"")
    ensures L.Scan(c).tok.typ == OpType(op) && L.Scan(c).next.off == c.off + |OpString(op)|
  {
    var w := OpString(op) + "\"";
    assert c.text[c.off..c.off + |w|] == w;
    assert c.text[c.off] == w[0] && c.text[c.off + 1] == w[1];
    if |OpString(op)| == 2 { assert c.text[c.off + 2] == w[2]; }
    L.SpaceEndHere(c.text, c.off);
    L.ScanDispatch(c);
    L.ScanOperatorLength(c);
  }

  lemma ThreePieces(text: string, i: nat, a: string, b: string, q: string)
    requires L.SliceIs(text, i, a + b + q) && |b| > 0 && |q| > 0
    ensures L.SliceIs(text, i + |a| + |b|, q) && L.SliceIs(text, i + |a|, b + [q[0]])
    ensures text[i + |a|] == b[0]
  {
    assert a + b + q == a + (b + q);
    L.SliceIsSplit(text, i, a, b + q);
    L.SliceIsSplit(text, i + |a|, b, q);
    var j := i + |a|;
    var j2 := j + |b|;
    assert text[j2..j2 + |q|] == q;
    assert text[j2] == q[0];
    assert text[j..j2] == b;
    assert text[j] == b[0];
    assert text[j..j2 + 1] == text[j..j2] + text[j2..j2 + 1];
  }

  /** Where the pieces of a printed condition sit in the text. */
  lemma CondText(text: string, i: nat, c: MatchCond)
    requires L.SliceIs(text, i, CondString(c))
    ensures var j := i + |c.name|; var j2 := j + |OpString(c.op)|;
      L.SliceIs(text, j, OpString(c.op) + "\"") && L.SliceIs(text, j2, Quoting.GoQuote(c.value))
      && j < |text| && (text[j] == '=' || text[j] == '!')
      && j2 + |Quoting.GoQuote(c.value)| == i + |CondString(c)|
  {
    var q := Quoting.GoQuote(c.value);
    ThreePieces(text, i, c.name, OpString(c.op), q);
    assert [q[0]] == "\"";
  }

  /** parseMatchCond once its identifier is peeked: the operator and the
      string are the next two scans. */
  lemma CondFromPeeked(l: L.Lexer, re: Regexp)
    requires L.LexerOk(l) && l.peeked.Some? && l.peeked.value.typ == IDENT
    ensures var op := L.Scan(l.cur); var v := L.Next(L.Lexer(op.next, None));
      CondFrom(l, re) ==
        if !IsOperator(op.tok) then Parsed(Err(OperatorMessage(op.tok)), L.Lexer(op.next, None))
        else if v.tok.typ != STRING then Parsed(Err(L.ExpectMessage(STRING, v.tok)), v.next)
        else Parsed(NewMatchCond(OpOf(op.tok.typ), l.peeked.value.text, v.tok.text, re), v.next)
  {
  }

  /** A quoted value starts with its quote, which ends any blank run. */
  lemma QuotedHere(text: string, j: nat, v: string)
    requires L.SliceIs(text, j, Quoting.GoQuote(v))
    ensures L.SpaceEnd(text, j) == j
  {
    var q := Quoting.GoQuote(v);
    assert text[j..j + |q|] == q;
    assert text[j] == '"';
    L.SpaceEndHere(text, j);
  }

  /** parseMatchCond over an operator and a quoted value, once the name
      is peeked. */
  lemma CondAt(l: L.Lexer, re: Regexp, c: MatchCond, j2: nat)
    requires L.LexerOk(l) && Printable(c, re)
    requires L.SliceIs(l.cur.text, l.cur.off, OpString(c.op) + "\"") && j2 == l.cur.off + |OpString(c.op)|
    requires L.SliceIs(l.cur.text, j2, Quoting.GoQuote(c.value))
    requires l.peeked.Some? && l.peeked.value.typ == IDENT && l.peeked.value.text == c.name
    ensures var r := CondFrom(l, re);
      r.result == Ok(c) && r.next.peeked == None && r.next.cur.off == j2 + |Quoting.GoQuote(c.value)|
  {
    ScanOperatorText(l.cur, c.op);
    var op := L.Scan(l.cur);
    OpTypeInverse(c.op, OpType(c.op));
    QuotedHere(l.cur.text, j2, c.value);
    L.ScanGoQuoted(op.next, c.value);
    CondFromPeeked(l, re);
  }

  lemma CondRoundTrip(l: L.Lexer, re: Regexp, c: MatchCond, i: nat)
    requires L.LexerOk(l) && Printable(c, re)
    requires L.SliceIs(l.cur.text, i, CondString(c))
    requires l.peeked.Some? && l.peeked.value.typ == IDENT && l.peeked.value.text == c.name
    requires l.cur.off == i + |c.name|
    ensures var r := CondFrom(l, re);
      r.result == Ok(c) && r.next.peeked == None && r.next.cur.off == i + |CondString(c)|
  {
    CondText(l.cur.text, i, c);
    CondAt(l, re, c, i + |c.name| + |OpString(c.op)|);
  }

  /** The closing characters after the last printed condition. */
  function Tail(trailing: bool): string
  {
    if trailing then ",}" else "}"
  }

  /** A brace or a comma scans as one character. */
  lemma ScanMark(c: L.Cursor)
    requires L.CursorOk(c) && c.off < |c.text| && L.Member(c.text[c.off], "{},")
    ensures var t := L.Scan(c).tok.typ; var ch := c.text[c.off];
      L.Scan(c).next.off == c.off + 1
      && (ch == '{' ==> t == LBRACE) && (ch == '}' ==> t == RBRACE) && (ch == ',' ==> t == COMMA)
  {
    L.SpaceEndHere(c.text, c.off);
    L.ScanDispatch(c);
    L.ScanPunctuation(c);
  }

  /** A label name sits at offset k, followed by an operator's first
      character. */
  predicate NameAt(text: string, k: nat, name: string)
  {
    L.Identifier(name) && L.SliceIs(text, k, name)
    && k + |name| < |text| && (text[k + |name|] == '=' || text[k + |name|] == '!')
  }

  lemma PrintedNameAt(text: string, k: nat, c: MatchCond)
    requires ValidName(c.name) && L.SliceIs(text, k, CondString(c))
    ensures NameAt(text, k, c.name)
  {
    CondText(text, k, c);
    ValidNameIsIdentifier(c.name);
    assert CondString(c) == c.name + (OpString(c.op) + Quoting.GoQuote(c.value));
    L.SliceIsSplit(text, k, c.name, OpString(c.op) + Quoting.GoQuote(c.value));
  }

  /** A name followed by an operator scans as that identifier. */
  lemma ScanName(cur: L.Cursor, name: string)
    requires L.CursorOk(cur) && NameAt(cur.text, cur.off, name)
    ensures L.Scan(cur).tok.typ == IDENT && L.Scan(cur).tok.text == name
    ensures L.Scan(cur).next.off == cur.off + |name|
  {
    var text := cur.text;
    assert text[cur.off..cur.off + |name|] == name;
    assert text[cur.off] == name[0];
    L.SpaceEndHere(text, cur.off);
    L.ScanIdentifier(cur, name);
  }

  predicate AllPrintable(m: Matcher, re: Regexp)
  {
    forall i {:trigger Printable(m[i], re)} :: 0 <= i < |m| ==> Printable(m[i], re)
  }

  /** The pieces of a joined list: the first part, then either the tail or
      a comma and the rest of the list. */
  lemma ListText(text: string, i: nat, parts: seq<string>, tail: string)
    requires parts != [] && L.SliceIs(text, i, Text.Join(parts, ",") + tail)
    ensures var j := i + |parts[0]|;
      L.SliceIs(text, i, parts[0])
      && (|parts| == 1 ==> L.SliceIs(text, j, tail))
      && (|parts| > 1 ==> L.SliceIs(text, j, ",") && L.SliceIs(text, j + 1, Text.Join(parts[1..], ",") + tail))
      && |Text.Join(parts, ",")| == (if |parts| == 1 then |parts[0]| else |parts[0]| + 1 + |Text.Join(parts[1..], ",")|)
  {
    var c := parts[0];
    if |parts| == 1 {
      L.SliceIsSplit(text, i, c, tail);
    } else {
      var rest := Text.Join(parts[1..], ",");
      assert Text.Join(parts, ",") == c + "," + rest;
      L.SliceIsSplit(text, i, c + "," + rest, tail);
      L.SliceIsSplit(text, i, c + ",", rest);
      L.SliceIsSplit(text, i, c, ",");
      L.SliceIsJoin(text, i + |c| + 1, rest, tail);
    }
  }

  /** After a condition: a '}' ends the list and is left peeked. */
  lemma AfterCondCloses(c: Parsed<MatchCond>, re: Regexp, acc: Matcher)
    requires L.LexerOk(c.next) && c.result.Ok? && c.next.peeked == None
    requires var j := c.next.cur.off; j < |c.next.cur.text| && c.next.cur.text[j] == '}'
    ensures Ends(AfterCond(c, re, acc), acc + [c.result.value], c.next.cur.off + 1)
  {
    ScanMark(c.next.cur);
  }

  /** After a condition: a comma and then '}' end the list, '}' peeked. */
  lemma AfterCondTrailing(c: Parsed<MatchCond>, re: Regexp, acc: Matcher)
    requires L.LexerOk(c.next) && c.result.Ok? && c.next.peeked == None
    requires var j := c.next.cur.off; j + 1 < |c.next.cur.text| && c.next.cur.text[j] == ',' && c.next.cur.text[j + 1] == '}'
    ensures Ends(AfterCond(c, re, acc), acc + [c.result.value], c.next.cur.off + 2)
  {
    ScanMark(c.next.cur);
    var p := L.Peek(c.next);
    var n := L.Next(p.next);
    ScanMark(n.next.cur);
  }

  /** After a condition: a comma and a printed condition continue the list,
      with that condition's name peeked. */
  lemma AfterCondContinues(c: Parsed<MatchCond>, re: Regexp, acc: Matcher, name: string) returns (l2: L.Lexer)
    requires L.LexerOk(c.next) && c.result.Ok? && c.next.peeked == None
    requires var j := c.next.cur.off;
      j < |c.next.cur.text| && c.next.cur.text[j] == ',' && NameAt(c.next.cur.text, j + 1, name)
    ensures L.LexerOk(l2) && l2.cur.text == c.next.cur.text
    ensures l2.peeked.Some? && l2.peeked.value.typ == IDENT && l2.peeked.value.text == name
    ensures l2.cur.off == c.next.cur.off + 1 + |name|
    ensures AfterCond(c, re, acc) == CondLoop(l2, re, acc + [c.result.value])
  {
    ScanMark(c.next.cur);
    var p := L.Peek(c.next);
    var n := L.Next(p.next);
    ScanName(n.next.cur, name);
    l2 := L.Peek(n.next).next;
  }

  /** The text holds the printed conditions m from offset i, joined with
      commas, then the tail, which ends at offset end; every condition is
      printable. */
  predicate ListAt(text: string, re: Regexp, m: Matcher, i: nat, tail: string, end: nat)
  {
    m != [] && AllPrintable(m, re) && (tail == "}" || tail == ",}")
    && L.SliceIs(text, i, Text.Join(CondStrings(m), ",") + tail)
    && end == i + |Text.Join(CondStrings(m), ",")| + |tail|
  }

  /** A printed list starts with its first condition. */
  lemma ListHead(text: string, re: Regexp, m: Matcher, i: nat, tail: string, end: nat)
    requires ListAt(text, re, m, i, tail, end)
    ensures Printable(m[0], re) && L.SliceIs(text, i, CondString(m[0]))
  {
    var parts := CondStrings(m);
    assert parts[0] == CondString(m[0]);
    ListText(text, i, parts, tail);
  }

  /** A printed list of one condition is that condition, then the tail. */
  lemma ListOne(text: string, re: Regexp, m: Matcher, i: nat, tail: string, end: nat)
    requires ListAt(text, re, m, i, tail, end) && |m| == 1
    ensures L.SliceIs(text, i + |CondString(m[0])|, tail) && end == i + |CondString(m[0])| + |tail|
  {
    var parts := CondStrings(m);
    assert parts[0] == CondString(m[0]);
    ListText(text, i, parts, tail);
  }

  /** A printed list of several conditions is the first one, a comma and
      the printed rest, then the tail. */
  lemma ListMore(text: string, re: Regexp, m: Matcher, i: nat, tail: string, end: nat)
    requires ListAt(text, re, m, i, tail, end) && |m| > 1
    ensures var j := i + |CondString(m[0])|;
      j < |text| && text[j] == ',' && ListAt(text, re, m[1..], j + 1, tail, end)
  {
    var parts := CondStrings(m);
    assert parts[0] == CondString(m[0]);
    AllPrintableTail(m, re);
    ListText(text, i, parts, tail);
    assert parts[1..] == CondStrings(m[1..]);
    var j := i + |parts[0]|;
    assert text[j + 0] == ","[0];
  }

  /** A printed list starts with its first name, followed by an operator. */
  lemma ListAtName(text: string, re: Regexp, m: Matcher, i: nat, tail: string, end: nat)
    requires ListAt(text, re, m, i, tail, end)
    ensures NameAt(text, i, m[0].name)
  {
    ListHead(text, re, m, i, tail, end);
    PrintedNameAt(text, i, m[0]);
  }

  /** The conditions that make a lexer state the start of a printed list
      ending at offset end: its first name is peeked and the text holds the
      rest of the list, then the tail. */
  predicate AtList(l: L.Lexer, re: Regexp, m: Matcher, i: nat, tail: string, end: nat)
  {
    L.LexerOk(l) && ListAt(l.cur.text, re, m, i, tail, end)
    && l.peeked.Some? && l.peeked.value.typ == IDENT && l.peeked.value.text == m[0].name
    && l.cur.off == i + |m[0].name|
  }

  /** A parse that gave want and stopped at offset end with the closing
      brace peeked. */
  predicate Ends(r: Parsed<Matcher>, want: Matcher, end: nat)
  {
    r.result == Ok(want) && r.next.peeked.Some? && r.next.peeked.value.typ == RBRACE && r.next.cur.off == end
  }

  /** The condition loop returns the conditions m after acc, stopping at
      offset end with the closing brace peeked. */
  predicate LoopEnds(l: L.Lexer, re: Regexp, acc: Matcher, m: Matcher, end: nat)
    requires L.LexerOk(l)
  {
    Ends(CondLoop(l, re, acc), acc + m, end)
  }

  /** The characters of the tail. */
  lemma TailText(text: string, j: nat, tail: string)
    requires (tail == "}" || tail == ",}") && L.SliceIs(text, j, tail)
    ensures j < |text| && text[j] == tail[0] && (tail == ",}" ==> j + 1 < |text| && text[j + 1] == '}')
  {
    assert text[j + 0] == tail[0];
    if tail == ",}" {
      assert text[j + 1] == tail[1];
    }
  }

  /** One turn of the condition loop: parseMatchCond, then the rest. */
  lemma CondLoopTurn(l: L.Lexer, re: Regexp, acc: Matcher, pc: Parsed<MatchCond>)
    requires L.LexerOk(l) && pc == CondFrom(l, re)
    ensures CondLoop(l, re, acc) == AfterCond(pc, re, acc)
  {
  }

  /** A parsed condition, the only one of m, followed by the tail ends the
      list. */
  lemma AfterCondTail(pc: Parsed<MatchCond>, re: Regexp, acc: Matcher, m: Matcher, tail: string)
    requires L.LexerOk(pc.next) && |m| == 1 && pc.result == Ok(m[0]) && pc.next.peeked == None
    requires (tail == "}" || tail == ",}") && L.SliceIs(pc.next.cur.text, pc.next.cur.off, tail)
    ensures Ends(AfterCond(pc, re, acc), acc + m, pc.next.cur.off + |tail|)
  {
    TailText(pc.next.cur.text, pc.next.cur.off, tail);
    if tail == ",}" {
      AfterCondTrailing(pc, re, acc);
    } else {
      AfterCondCloses(pc, re, acc);
    }
    assert m == [m[0]];
  }

  /** The last condition of a printed list parses, and the tail follows. */
  lemma CondBeforeTail(l: L.Lexer, re: Regexp, m: Matcher, i: nat, tail: string, end: nat)
    requires AtList(l, re, m, i, tail, end) && |m| == 1
    ensures var pc := CondFrom(l, re);
      pc.result == Ok(m[0]) && pc.next.peeked == None && (tail == "}" || tail == ",}")
      && L.SliceIs(pc.next.cur.text, pc.next.cur.off, tail) && end == pc.next.cur.off + |tail|
  {
    ListHead(l.cur.text, re, m, i, tail, end);
    ListOne(l.cur.text, re, m, i, tail, end);
    CondRoundTrip(l, re, m[0], i);
  }

  /** The last condition of a printed list: the loop ends after the tail. */
  lemma CondLoopLast(l: L.Lexer, re: Regexp, acc: Matcher, m: Matcher, i: nat, tail: string, end: nat)
    requires AtList(l, re, m, i, tail, end) && |m| == 1
    ensures LoopEnds(l, re, acc, m, end)
  {
    CondBeforeTail(l, re, m, i, tail, end);
    AfterCondTail(CondFrom(l, re), re, acc, m, tail);
    CondLoopTurn(l, re, acc, CondFrom(l, re));
  }

  /** Any other turn leads to the state at the start of the rest of the
      list, with the first condition added. */
  lemma CondLoopMore(l: L.Lexer, re: Regexp, acc: Matcher, m: Matcher, i: nat, tail: string, end: nat)
    returns (l2: L.Lexer)
    requires AtList(l, re, m, i, tail, end) && |m| > 1
    ensures AtList(l2, re, m[1..], i + |CondString(m[0])| + 1, tail, end)
    ensures CondLoop(l, re, acc) == CondLoop(l2, re, acc + [m[0]])
  {
    var j := i + |CondString(m[0])|;
    ListHead(l.cur.text, re, m, i, tail, end);
    ListMore(l.cur.text, re, m, i, tail, end);
    CondRoundTrip(l, re, m[0], i);
    ListAtName(l.cur.text, re, m[1..], j + 1, tail, end);
    l2 := AfterCondContinues(CondFrom(l, re), re, acc, m[1].name);
  }

  lemma SplitFirst(acc: Matcher, m: Matcher)
    requires m != []
    ensures acc + [m[0]] + m[1..] == acc + m
  {
  }

  lemma {:induction false} CondLoopRoundTrip(l: L.Lexer, re: Regexp, acc: Matcher, m: Matcher, i: nat, tail: string,
                                             end: nat)
    requires AtList(l, re, m, i, tail, end)
    ensures LoopEnds(l, re, acc, m, end)
    decreases |m|
  {
    if |m| == 1 {
      CondLoopLast(l, re, acc, m, i, tail, end);
    } else {
      var l2 := CondLoopMore(l, re, acc, m, i, tail, end);
      CondLoopRoundTrip(l2, re, acc + [m[0]], m[1..], i + |CondString(m[0])| + 1, tail, end);
      SplitFirst(acc, m);
    }
  }

  lemma AllPrintableTail(m: Matcher, re: Regexp)
    requires AllPrintable(m, re) && m != []
    ensures AllPrintable(m[1..], re) && Printable(m[0], re)
  {
    forall k | 0 <= k < |m[1..]| ensures Printable(m[1..][k], re) { assert m[1..][k] == m[k + 1]; }
  }

  /** What String writes for m, optionally with a comma before the closing
      brace, which the parser accepts after the last condition. */
  function Printed(m: Matcher, trailing: bool): string
  {
    "{" + Text.Join(CondStrings(m), ",") + Tail(trailing && m != [])
  }

  lemma PrintedFormat(m: Matcher)
    ensures Printed(m, false) == Format(m)
  {
  }

  /** Where the pieces of a printed matcher sit in its text. */
  lemma PrintedText(m: Matcher, trailing: bool)
    ensures var text := Printed(m, trailing); var tail := Tail(trailing && m != []);
      |text| > 1 && text[0] == '{' && L.SliceIs(text, 1, Text.Join(CondStrings(m), ",") + tail)
      && |text| == 1 + |Text.Join(CondStrings(m), ",")| + |tail|
      && (m == [] ==> text[1] == '}' && |text| == 2)
  {
    var text := Printed(m, trailing);
    var tail := Tail(trailing && m != []);
    var j := Text.Join(CondStrings(m), ",");
    assert text == "{" + (j + tail);
    L.SliceIsSplit(text, 0, "{", j + tail);
    assert text[0 + 0] == "{"[0];
    if m == [] {
      assert text == "{}";
    }
  }

  /** The opening brace is the first token. */
  lemma OpeningBrace(text: string)
    requires |text| > 0 && text[0] == '{'
    ensures var p := L.Peek(L.Lexer(L.Start(text), None));
      p.tok.typ == LBRACE && p.next.cur.off == 1 && p.next.peeked == Some(p.tok)
  {
    ScanMark(L.Start(text));
  }

  /** A text starting with '{' is parsed as a braced list from offset 1. */
  lemma MatcherFromOpen(text: string, re: Regexp) returns (c1: L.Cursor)
    requires |text| > 0 && text[0] == '{'
    ensures L.CursorOk(c1) && c1.text == text && c1.off == 1
    ensures MatcherFrom(L.Lexer(L.Start(text), None), re) == BracedFrom(L.Lexer(c1, None), re, [])
  {
    OpeningBrace(text);
    c1 := L.Peek(L.Lexer(L.Start(text), None)).next.cur;
  }

  /** "{}": no conditions. */
  lemma BracedEmpty(c1: L.Cursor, re: Regexp)
    requires L.CursorOk(c1) && c1.off < |c1.text| && c1.text[c1.off] == '}'
    ensures var r := BracedFrom(L.Lexer(c1, None), re, []);
      r.result == Ok([]) && r.next.peeked == None && r.next.cur.off == c1.off + 1
  {
    ScanMark(c1);
  }

  /** A printed list and its tail, after the opening brace. */
  lemma BracedPrinted(c1: L.Cursor, re: Regexp, m: Matcher, tail: string, end: nat)
    requires L.CursorOk(c1) && ListAt(c1.text, re, m, c1.off, tail, end)
    ensures var r := BracedFrom(L.Lexer(c1, None), re, []);
      r.result == Ok(m) && r.next.peeked == None && r.next.cur.off == end
  {
    ListAtName(c1.text, re, m, c1.off, tail, end);
    ScanName(c1, m[0].name);
    var p3 := L.Peek(L.Lexer(c1, None));
    CondLoopRoundTrip(p3.next, re, [], m, c1.off, tail, end);
    assert [] + m == m;
  }

  /** The braces and conditions of a printed matcher parse back to it, and
      the parse stops after the closing brace. */
  lemma MatcherFromPrinted(m: Matcher, re: Regexp, trailing: bool)
    requires AllPrintable(m, re)
    ensures var text := Printed(m, trailing); var r := MatcherFrom(L.Lexer(L.Start(text), None), re);
      r.result == Ok(m) && r.next.peeked == None && r.next.cur.off == |text|
  {
    var text := Printed(m, trailing);
    PrintedText(m, trailing);
    var c1 := MatcherFromOpen(text, re);
    if m == [] {
      BracedEmpty(c1, re);
    } else {
      BracedPrinted(c1, re, m, Tail(trailing), |text|);
    }
  }

  /** Parsing what String writes gives back the matcher, for every matcher
      whose names are valid, whose values are printable and whose regular
      expressions compile; a comma before the closing brace changes nothing. */
  lemma ParsePrinted(m: Matcher, re: Regexp, trailing: bool)
    requires AllPrintable(m, re)
    ensures MatcherOfText(Printed(m, trailing), re) == Ok(m)
  {
    var text := Printed(m, trailing);
    MatcherFromPrinted(m, re, trailing);
    var r := MatcherFrom(L.Lexer(L.Start(text), None), re);
    L.ScanAtEnd(r.next.cur);
  }

  lemma ParseFormat(m: Matcher, re: Regexp)
    requires AllPrintable(m, re)
    ensures MatcherOfText(Format(m), re) == Ok(m)
  {
    ParsePrinted(m, re, false);
  }

  // ---- cases of the test table of ParseMatcher ----

  /** A name at the start of the text, followed by the end of the input or
      by a character that cannot continue it, is peeked as an IDENT; once
      consumed, the parse stands right after it. */
  lemma LeadingName(text: string, name: string) returns (l1: L.Lexer)
    requires L.Identifier(name) && L.SliceIs(text, 0, name)
    requires |name| < |text| ==> !L.IsIdentChar(text[|name|]) && text[|name|] != L.Eof
    ensures var p := L.Peek(L.Lexer(L.Start(text), None));
      p.tok.typ == IDENT && p.tok.text == name && l1 == L.Next(p.next).next
    ensures L.LexerOk(l1) && L.Tracks(l1.cur) && l1.cur.text == text
    ensures l1.cur.off == |name| && l1.peeked == None
  {
    var c := L.Start(text);
    assert text[0] == name[0];
    L.SpaceEndHere(text, 0);
    L.ScanIdentifier(c, name);
    L.ScanTracks(c);
    l1 := L.Next(L.Peek(L.Lexer(c, None)).next).next;
  }

  /** A name not followed by '{' is the whole matcher. */
  lemma LoneName(l: L.Lexer, re: Regexp)
    requires L.LexerOk(l) && L.Peek(l).tok.typ == IDENT
    requires L.Peek(L.Next(L.Peek(l).next).next).tok.typ != LBRACE
    ensures MatcherFrom(l, re)
      == Parsed(Ok([MatchCond(OpEq, Name, L.Peek(l).tok.text)]), L.Peek(L.Next(L.Peek(l).next).next).next)
  {
  }

  /** A name is peeked and only blanks follow it: the name alone is the
      matcher, and the end of the input comes next. */
  lemma NameAtEnd(l: L.Lexer, re: Regexp)
    requires L.LexerOk(l) && l.peeked.Some? && l.peeked.value.typ == IDENT
    requires L.SpaceEnd(l.cur.text, l.cur.off) == |l.cur.text|
    ensures var r := MatcherFrom(l, re);
      r.result == Ok([MatchCond(OpEq, Name, l.peeked.value.text)]) && L.Expect(r.next, EOF).err == None
  {
    L.ScanAtEnd(l.cur);
    LoneName(l, re);
  }

  /** A name is peeked and a mark other than '{' follows it: the name alone
      is the matcher, and the mark is left peeked. */
  lemma NameBeforeMark(l: L.Lexer, re: Regexp) returns (mark: Token)
    requires L.LexerOk(l) && L.Tracks(l.cur) && l.peeked.Some? && l.peeked.value.typ == IDENT
    requires var text := l.cur.text; var k := l.cur.off;
      k < |text| && L.Member(text[k], L.Punctuation) && text[k] != '{'
      && forall j :: 0 <= j < k ==> text[j] != '\n'
    ensures mark.typ == L.PunctuationType(l.cur.text[l.cur.off]) && mark.pos == Position(1, l.cur.off + 1)
    ensures var r := MatcherFrom(l, re);
      r.result == Ok([MatchCond(OpEq, Name, l.peeked.value.text)])
      && r.next.peeked == Some(mark) && r.next.cur.off == l.cur.off + 1 && L.Tracks(r.next.cur)
  {
    var l1 := l.(peeked := None);
    MarkOnFirstLine(l1);
    mark := L.Next(l1).tok;
    LoneName(l, re);
  }

  /** A name alone is a whole matcher: the one condition __name__ = name. */
  lemma BareName(name: string, re: Regexp)
    requires L.Identifier(name)
    ensures MatcherOfText(name, re) == Ok([MatchCond(OpEq, Name, name)])
  {
    var l1 := LeadingName(name, name);
    NameAtEnd(L.Peek(L.Lexer(L.Start(name), None)).next, re);
  }

  /** name{} laid out in text. */
  lemma NameEmptyBracesAt(text: string, name: string, re: Regexp)
    requires L.Identifier(name)
    requires var n := |name|;
      |text| == n + 2 && L.SliceIs(text, 0, name) && text[n] == '{' && text[n + 1] == '}'
    ensures MatcherOfText(text, re) == Ok([MatchCond(OpEq, Name, name)])
  {
    var m := [MatchCond(OpEq, Name, name)];
    var l1 := LeadingName(text, name);
    ScanMark(l1.cur);
    var lb := L.Expect(L.Peek(l1).next, LBRACE);
    ScanMark(lb.next.cur);
    var rb := L.Expect(L.Peek(lb.next).next, RBRACE);
    assert BracedFrom(lb.next, re, m) == Parsed(Ok(m), rb.next);
    assert MatcherFrom(L.Lexer(L.Start(text), None), re) == Parsed(Ok(m), rb.next);
    L.ScanAtEnd(rb.next.cur);
  }

  /** A name followed by empty braces is the same matcher as the name alone. */
  lemma NameEmptyBraces(name: string, re: Regexp)
    requires L.Identifier(name)
    ensures MatcherOfText(name + "{}", re) == Ok([MatchCond(OpEq, Name, name)])
  {
    var text := name + "{}";
    assert L.SliceIs(text, 0, name) && text[|name|] == '{' && text[|name| + 1] == '}';
    NameEmptyBracesAt(text, name, re);
  }

  /** A closing brace right after the name is where the matcher ends, and
      ParseMatcher then fails on it, since it is not the end of the input. */
  lemma NameThenClosingBrace(name: string, re: Regexp)
    requires L.Identifier(name)
    ensures MatcherOfText(name + "}", re)
      == Err(L.ExpectMessage(EOF, Token(RBRACE, Position(1, |name| + 1), "")))
  {
    var text := name + "}";
    var n := |name|;
    assert L.SliceIs(text, 0, name) && text[n] == '}';
    assert forall j :: 0 <= j < n ==> text[j] == name[j] && L.IsIdentChar(name[j]);
    NameThenMark(text, name, re);
  }

  /** The text is a name and then '}': the name is the matcher, and the
      brace is where ParseMatcher wants the end of the input. */
  lemma NameThenMark(text: string, name: string, re: Regexp)
    requires L.Identifier(name) && L.SliceIs(text, 0, name)
    requires |name| < |text| && text[|name|] == '}'
    requires forall j :: 0 <= j < |name| ==> text[j] != '\n'
    ensures MatcherOfText(text, re) == Err(L.ExpectMessage(EOF, Token(RBRACE, Position(1, |name| + 1), "")))
  {
    var l1 := LeadingName(text, name);
    var mark := NameBeforeMark(L.Peek(L.Lexer(L.Start(text), None)).next, re);
    var r := MatcherFrom(L.Lexer(L.Start(text), None), re);
    assert r.result.Ok? && r.next.peeked == Some(mark);
    assert L.ExpectMessage(EOF, mark) == L.ExpectMessage(EOF, Token(RBRACE, Position(1, |name| + 1), ""));
  }

  /** Empty input has no name and no opening brace. */
  lemma EmptyInput(re: Regexp)
    ensures MatcherOfText("", re) == Err(L.ExpectMessage(LBRACE, Token(EOF, Position(1, 1), "")))
  {
    var c := L.Start("");
    var p := L.Peek(L.Lexer(c, None));
    assert p.tok.typ == EOF && p.tok.pos == Position(1, 1) by {
      L.ScanAtEnd(c);
      L.ScanPosition(c);
    }
    var r := MatcherFrom(L.Lexer(c, None), re);
    assert r.result == Err(L.ExpectMessage(LBRACE, p.tok));
  }

  /** A brace, a parenthesis or a comma at the cursor, on the first line:
      the next token is that mark, at the column after the characters before
      it, and the parse stands right after it. */
  lemma MarkOnFirstLine(l: L.Lexer)
    requires L.LexerOk(l) && L.Tracks(l.cur) && l.peeked == None
    requires l.cur.off < |l.cur.text| && L.Member(l.cur.text[l.cur.off], L.Punctuation)
    requires forall j :: 0 <= j < l.cur.off ==> l.cur.text[j] != '\n'
    ensures var s := L.Next(l); var ch := l.cur.text[l.cur.off];
      s.tok.typ == L.PunctuationType(ch) && s.tok.pos == Position(1, l.cur.off + 1)
      && s.next.cur.off == l.cur.off + 1 && L.Tracks(s.next.cur) && s.next.peeked == None
  {
    L.SpaceEndHere(l.cur.text, l.cur.off);
    L.ScanDispatch(l.cur);
    L.ScanPunctuation(l.cur);
    L.ScanPosition(l.cur);
    L.ScanTracks(l.cur);
    L.PosOnFirstLine(l.cur.text, l.cur.off);
  }

  /** The layout of name{key}. */
  lemma BracedKeyText(name: string, key: string)
    requires L.Identifier(name) && L.Identifier(key)
    ensures var text := name + "{" + key + "}"; var n := |name|; var k := |key|;
      |text| == n + k + 2 && L.SliceIs(text, 0, name) && text[n] == '{'
      && L.SliceIs(text, n + 1, key) && text[n + 1 + k] == '}'
      && forall j :: 0 <= j < n + 1 + k ==> text[j] != '\n'
  {
    var text := name + "{" + key + "}";
    var n, k := |name|, |key|;
    forall j | 0 <= j < n ensures text[j] == name[j] { }
    forall i | 0 <= i < k ensures text[n + 1 + i] == key[i] { }
    forall j | 0 <= j < n + 1 + k ensures text[j] != '\n' {
      if j < n { assert text[j] == name[j]; } else if j > n { assert text[j] == key[j - n - 1]; }
    }
  }

  /** The message names only the token's type and position. */
  lemma SameOperatorMessage(t: Token, u: Token)
    requires t.typ == u.typ && t.pos == u.pos
    ensures OperatorMessage(t) == OperatorMessage(u)
  {
  }

  /** After the opening brace, a label name followed by '}': the
      conditions fail on the brace where the operator should be. */
  lemma KeyWithoutOperator(l: L.Lexer, key: string, re: Regexp, m: Matcher)
    requires L.LexerOk(l) && L.Tracks(l.cur) && l.peeked == None && L.Identifier(key)
    requires var text := l.cur.text; var j := l.cur.off + |key|;
      L.SliceIs(text, l.cur.off, key) && j < |text| && text[j] == '}'
      && forall i :: 0 <= i < j ==> text[i] != '\n'
    ensures BracedFrom(l, re, m).result
      == Err(OperatorMessage(Token(RBRACE, Position(1, l.cur.off + |key| + 1), "")))
  {
    assert l.cur.text[l.cur.off] == key[0];
    L.SpaceEndHere(l.cur.text, l.cur.off);
    L.ScanIdentifier(l.cur, key);
    L.ScanTracks(l.cur);
    var p3 := L.Peek(l);
    var id := L.Expect(p3.next, IDENT);
    MarkOnFirstLine(id.next);
    var op := L.Next(id.next);
    var err := OperatorMessage(op.tok);
    assert CondFrom(p3.next, re).result == Err(err);
    assert CondLoop(p3.next, re, m).result == Err(err);
    SameOperatorMessage(op.tok, Token(RBRACE, Position(1, l.cur.off + |key| + 1), ""));
  }

  /** name{key} laid out in text: the parse stops at the closing brace
      where the operator should be. */
  lemma MissingOperatorAt(text: string, name: string, key: string, re: Regexp)
    requires L.Identifier(name) && L.Identifier(key)
    requires var n := |name|; var k := |key|;
      |text| == n + k + 2 && L.SliceIs(text, 0, name) && text[n] == '{'
      && L.SliceIs(text, n + 1, key) && text[n + 1 + k] == '}'
      && forall j :: 0 <= j < n + 1 + k ==> text[j] != '\n'
    ensures MatcherOfText(text, re) == Err(OperatorMessage(Token(RBRACE, Position(1, |name| + |key| + 2), "")))
  {
    var l1 := LeadingName(text, name);
    ScanMark(l1.cur);
    L.ScanTracks(l1.cur);
    var lb := L.Expect(L.Peek(l1).next, LBRACE);
    KeyWithoutOperator(lb.next, key, re, [MatchCond(OpEq, Name, name)]);
    assert MatcherFrom(L.Lexer(L.Start(text), None), re).result
      == BracedFrom(lb.next, re, [MatchCond(OpEq, Name, name)]).result;
  }

  /** A label name with no operator after it, inside the braces after a
      name, fails on the closing brace that follows it. */
  lemma MissingOperator(name: string, key: string, re: Regexp)
    requires L.Identifier(name) && L.Identifier(key)
    ensures MatcherOfText(name + "{" + key + "}", re)
      == Err(OperatorMessage(Token(RBRACE, Position(1, |name| + |key| + 2), "")))
  {
    BracedKeyText(name, key);
    MissingOperatorAt(name + "{" + key + "}", name, key, re);
  }
}
