// Lexical token types, tokens and positions of the Go expression parser
// (pkg/parser/token.go).
module Tokens {
  import opened Text

  // Type is an int numbered by iota; beginOperators and endOperators are
  // markers that no token carries.
  const INVALID: int := 0
  const EOF: int := 1
  const IDENT: int := 2
  const NUMBER: int := 3
  const STRING: int := 4
  const NEWLINE: int := 5
  const BADESCAPE: int := 6
  const BeginOperators: int := 7
  const EQ: int := 8
  const NEQ: int := 9
  const EQREGEXP: int := 10
  const NEQREGEXP: int := 11
  const EndOperators: int := 12
  const LBRACE: int := 13
  const RBRACE: int := 14
  const LPAREN: int := 15
  const RPAREN: int := 16
  const COMMA: int := 17

  /** The sixteen types listed in the description table. */
  predicate IsKnownType(t: int)
  {
    0 <= t <= 17 && t != BeginOperators && t != EndOperators
  }

  datatype Position = Position(line: int, column: int)

  datatype Token = Token(typ: int, pos: Position, text: string)

  /** Type.String: the fixed description, or "token" for a value outside the table. */
  function TypeString(t: int): string
  {
    if t == INVALID then "invalid"
    else if t == EOF then "end of input"
    else if t == IDENT then "identifier"
    else if t == NUMBER then "number"
    else if t == STRING then "string"
    else if t == NEWLINE then "new line"
    else if t == BADESCAPE then "bad escape"
    else if t == EQ then "equal"
    else if t == NEQ then "not equal"
    else if t == EQREGEXP then "equal pattern"
    else if t == NEQREGEXP then "not equal pattern"
    else if t == LBRACE then "left brace"
    else if t == RBRACE then "right brace"
    else if t == LPAREN then "left parenthesis"
    else if t == RPAREN then "right parenthesis"
    else if t == COMMA then "comma"
    else "token"
  }

  /** The description is "token" exactly for the values outside the table,
      and the sixteen table entries are pairwise different. */
  lemma TypeStringTable(a: int, b: int)
    ensures TypeString(a) == "token" <==> !IsKnownType(a)
    ensures IsKnownType(a) && IsKnownType(b) && TypeString(a) == TypeString(b) ==> a == b
  {
    if IsKnownType(a) {
      assert TypeString(a)[0] != 't' || TypeString(a) == "invalid";
    }
    if IsKnownType(a) && IsKnownType(b) && a != b {
      TypeStringsDiffer(a, b);
    }
  }

  lemma TypeStringsDiffer(a: int, b: int)
    requires IsKnownType(a) && IsKnownType(b) && a != b
    ensures TypeString(a) != TypeString(b)
  {
    var sa, sb := TypeString(a), TypeString(b);
    // no two descriptions share both their length and their first letter
    if |sa| == |sb| {
      assert sa[0] != sb[0];
    }
  }

  /** Token.IsOperator: the type lies between the two operator markers. */
  predicate IsOperator(tok: Token)
  {
    tok.typ >= BeginOperators && tok.typ <= EndOperators
  }

  lemma IsOperatorExactly(tok: Token)
    requires IsKnownType(tok.typ)
    ensures IsOperator(tok) <==> tok.typ in {EQ, NEQ, EQREGEXP, NEQREGEXP}
  {
  }

  /** Token.String returns the token's text unchanged. */
  function TokenString(tok: Token): (r: string)
    ensures r == tok.text
  {
    tok.text
  }

  /** Position.String: "<line>:<column>". */
  function PositionString(p: Position): string
  {
    IntToString(p.line) + ":" + IntToString(p.column)
  }

  /** For non-negative positions the text splits at its only colon into the
      two decimal numbers. */
  lemma PositionStringParts(p: Position)
    requires p.line >= 0 && p.column >= 0
    ensures var s := PositionString(p); var k := |IntToString(p.line)|;
      k < |s| && s[k] == ':'
      && (forall i :: 0 <= i < |s| && i != k ==> IsDecimalDigit(s[i]))
      && AllDigits(s[..k]) && AllDigits(s[k + 1..])
      && DecimalValue(s[..k]) == p.line && DecimalValue(s[k + 1..]) == p.column
  {
    var s := PositionString(p);
    var a, b := NatToString(p.line), NatToString(p.column);
    assert s == a + ":" + b;
    assert s[..|a|] == a && s[|a| + 1..] == b;
    DecimalValueOfNatToString(p.line);
    DecimalValueOfNatToString(p.column);
  }
}
