// Series expressions (pkg/series/expr.go, pkg/series/func.go): the
// recursive-descent grammar
//   expr := matcher | FUNC '(' args [','] ')'
//   alias(expr, STRING)   avg(expr {, expr} [,])   sum(expr {, expr} [,])
//   sample(expr [with MODE])   scale(expr, NUMBER)
// read from the Go lexical parser, and the walk that collects the matchers
// of a list of expressions.
module Exprs {
  import opened Wrappers
  import opened Tokens
  import L = Lexing
  import M = Matchers
  import LabelPair
  import Quoting
  import Text
  import GoParser

  // ---- func.go ----

  /** Func is a string type; these are the names it accepts. */
  type Func = string

  const FuncAlias: Func := "alias"
  const FuncAvg: Func := "avg"
  const FuncSample: Func := "sample"
  const FuncScale: Func := "scale"
  const FuncSum: Func := "sum"

  const FuncNames: seq<Func> := [FuncAlias, FuncAvg, FuncSample, FuncScale, FuncSum]

  /** Func.UnmarshalText into the receiver recv. */
  function UnmarshalFunc(recv: Func, text: string): (r: Unmarshaled<Func>)
    ensures r.err.None? <==> text == "alias" || text == "avg" || text == "sample" || text == "scale" || text == "sum"
    ensures r.err.None? ==> r.value == text
    ensures r.err.Some? ==> r.value == recv && r.err.value == "unsupported function: " + text
  {
    if text in FuncNames then Unmarshaled(text, None)
    else Unmarshaled(recv, Some("unsupported function: " + text))
  }

  // ---- the expression tree ----

  datatype AggregateOp = AggregateOpAverage | AggregateOpSum

  datatype SampleMode =
    | SampleModeAverage | SampleModeFirst | SampleModeLast
    | SampleModeMax | SampleModeMin | SampleModeSum

  /** The key of each mode in the sampleModes table. */
  function SampleModeName(m: SampleMode): string
  {
    match m
    case SampleModeAverage => "avg"
    case SampleModeFirst => "first"
    case SampleModeLast => "last"
    case SampleModeMax => "max"
    case SampleModeMin => "min"
    case SampleModeSum => "sum"
  }

  /** SampleMode.UnmarshalText: a lookup in the sampleModes table. */
  function UnmarshalSampleMode(recv: SampleMode, text: string): (r: Unmarshaled<SampleMode>)
    ensures r.err.None? ==> SampleModeName(r.value) == text
    ensures r.err.Some? ==> forall m :: SampleModeName(m) != text
    ensures r.err.Some? ==> r.value == recv && r.err.value == "unsupported sample mode: " + text
  {
    if text == "avg" then Unmarshaled(SampleModeAverage, None)
    else if text == "first" then Unmarshaled(SampleModeFirst, None)
    else if text == "last" then Unmarshaled(SampleModeLast, None)
    else if text == "max" then Unmarshaled(SampleModeMax, None)
    else if text == "min" then Unmarshaled(SampleModeMin, None)
    else if text == "sum" then Unmarshaled(SampleModeSum, None)
    else Unmarshaled(recv, Some("unsupported sample mode: " + text))
  }

  /** Each mode is read back from its own name, whatever the receiver held. */
  lemma SampleModeRoundTrip(m: SampleMode, recv: SampleMode)
    ensures UnmarshalSampleMode(recv, SampleModeName(m)) == Unmarshaled(m, None)
  {
  }

  /** A scale factor is kept as the text of its NUMBER token. */
  datatype Expr =
    | AggregateExpr(exprs: seq<Expr>, op: AggregateOp)
    | AliasExpr(expr: Expr, alias: string)
    | MatcherExpr(matcher: M.Matcher)
    | SampleExpr(expr: Expr, mode: SampleMode)
    | ScaleExpr(expr: Expr, factor: string)

  /** What the parse needs from outside: the regular-expression engine of
      the matchers, and the error strconv.ParseFloat reports for a number
      text (None when it parses). */
  datatype Env = Env(re: M.Regexp, floatError: string -> Option<string>)

  // ---- the grammar ----

  /** A matcher in expression position. */
  function MatcherExprFrom(l: L.Lexer, env: Env): (r: M.Parsed<Expr>)
    requires L.LexerOk(l)
    ensures L.LexerOk(r.next) && r.next.cur.text == l.cur.text && L.Rank(r.next) <= L.Rank(l)
    ensures r.result.Ok? ==> r.result.value.MatcherExpr?
  {
    var m := M.MatcherFrom(l, env.re);
    if m.result.Err? then M.Parsed(Err(m.result.error), m.next)
    else M.Parsed(Ok(MatcherExpr(m.result.value)), m.next)
  }

  /** parseExpr: '{' starts a matcher; an identifier is a call only when it
      names a function and '(' follows it at once, and a matcher otherwise;
      anything else is an error. A call may end with one extra comma before
      its ')'. */
  function ExprFrom(l: L.Lexer, env: Env): (r: M.Parsed<Expr>)
    requires L.LexerOk(l)
    ensures L.LexerOk(r.next) && r.next.cur.text == l.cur.text && L.Rank(r.next) <= L.Rank(l)
    decreases L.Rank(l), 1
  {
    var p := L.Peek(l);
    if p.tok.typ == LBRACE then MatcherExprFrom(p.next, env)
    else if p.tok.typ == IDENT then
      var fn := UnmarshalFunc("", p.tok.text);
      if fn.err.Some? then MatcherExprFrom(p.next, env)
      else
        var pr := L.PeekRune(p.next);
        if pr.ch != '(' then MatcherExprFrom(pr.next, env)
        else
          var id := L.Next(pr.next);
          var lp := L.Next(id.next);
          var call := CallFrom(fn.value, lp.next, env);
          if call.result.Err? then call else CallEnd(call)
    else
      var lb := L.Expect(p.next, LBRACE);
      assert lb.err.Some?;
      M.Parsed(Err(lb.err.value), lb.next)
  }

  /** The end of a call whose arguments parsed: one extra comma may come
      before the ')'. */
  function CallEnd(call: M.Parsed<Expr>): (r: M.Parsed<Expr>)
    requires L.LexerOk(call.next) && call.result.Ok?
    ensures L.LexerOk(r.next) && r.next.cur.text == call.next.cur.text && L.Rank(r.next) <= L.Rank(call.next)
  {
    var p2 := L.Peek(call.next);
    var l3 := if p2.tok.typ == COMMA then L.Next(p2.next).next else p2.next;
    var rp := L.Expect(l3, RPAREN);
    if rp.err.Some? then M.Parsed(Err(rp.err.value), rp.next)
    else M.Parsed(call.result, rp.next)
  }

  /** The switch over the function name, after its '('. */
  function CallFrom(fn: Func, l: L.Lexer, env: Env): (r: M.Parsed<Expr>)
    requires L.LexerOk(l) && fn in FuncNames
    ensures L.LexerOk(r.next) && r.next.cur.text == l.cur.text && L.Rank(r.next) <= L.Rank(l)
    decreases L.Rank(l) + 1, 2
  {
    if fn == FuncAlias then AliasFrom(l, env)
    else if fn == FuncAvg || fn == FuncSum then AggregateFrom(l, env, fn)
    else if fn == FuncSample then SampleFrom(l, env)
    else ScaleFrom(l, env)
  }

  /** parseAggregateExpr: avg averages and sum sums the list. */
  function AggregateFrom(l: L.Lexer, env: Env, fn: Func): (r: M.Parsed<Expr>)
    requires L.LexerOk(l)
    ensures L.LexerOk(r.next) && r.next.cur.text == l.cur.text && L.Rank(r.next) <= L.Rank(l)
    decreases L.Rank(l) + 1, 1
  {
    AggregateLoop(l, env, if fn == FuncAvg then AggregateOpAverage else AggregateOpSum, [])
  }

  /** The loop of parseAggregateExpr: expressions separated by commas; a
      comma followed by ')' ends the list. */
  function AggregateLoop(l: L.Lexer, env: Env, op: AggregateOp, acc: seq<Expr>): (r: M.Parsed<Expr>)
    requires L.LexerOk(l)
    ensures L.LexerOk(r.next) && r.next.cur.text == l.cur.text && L.Rank(r.next) <= L.Rank(l)
    decreases L.Rank(l) + 1, 0
  {
    var e := ExprFrom(l, env);
    if e.result.Err? then M.Parsed(Err(e.result.error), e.next)
    else
      var acc' := acc + [e.result.value];
      var p := L.Peek(e.next);
      if p.tok.typ != COMMA then M.Parsed(Ok(AggregateExpr(acc', op)), p.next)
      else
        var n := L.Next(p.next);
        var p2 := L.Peek(n.next);
        if p2.tok.typ == RPAREN then M.Parsed(Ok(AggregateExpr(acc', op)), p2.next)
        else AggregateLoop(p2.next, env, op, acc')
  }

  /** parseAliasExpr: an expression, a comma, a STRING. */
  function AliasFrom(l: L.Lexer, env: Env): (r: M.Parsed<Expr>)
    requires L.LexerOk(l)
    ensures L.LexerOk(r.next) && r.next.cur.text == l.cur.text && L.Rank(r.next) <= L.Rank(l)
    decreases L.Rank(l) + 1, 0
  {
    var e := ExprFrom(l, env);
    if e.result.Err? then e
    else
      var c := L.Expect(e.next, COMMA);
      if c.err.Some? then M.Parsed(Err(c.err.value), c.next)
      else
        var s := L.Expect(c.next, STRING);
        if s.err.Some? then M.Parsed(Err(s.err.value), s.next)
        else M.Parsed(Ok(AliasExpr(e.result.value, s.tok.text)), s.next)
  }

  function WithMessage(tok: Token): string
  {
    "expected \"with\" keyword but got " + Quoting.GoQuote(tok.text) + " at " + PositionString(tok.pos)
  }

  function ModeMessage(tok: Token): string
  {
    "expected sample mode but got " + Quoting.GoQuote(tok.text) + " at " + PositionString(tok.pos)
  }

  /** parseSampleExpr: an expression, then the average mode when ',' or ')'
      follows, otherwise the keyword with and a mode name. */
  function SampleFrom(l: L.Lexer, env: Env): (r: M.Parsed<Expr>)
    requires L.LexerOk(l)
    ensures L.LexerOk(r.next) && r.next.cur.text == l.cur.text && L.Rank(r.next) <= L.Rank(l)
    decreases L.Rank(l) + 1, 0
  {
    var e := ExprFrom(l, env);
    if e.result.Err? then e
    else
      var p := L.Peek(e.next);
      if p.tok.typ == COMMA || p.tok.typ == RPAREN then
        M.Parsed(Ok(SampleExpr(e.result.value, SampleModeAverage)), p.next)
      else
        var w := L.Expect(p.next, IDENT);
        if w.err.Some? then M.Parsed(Err(w.err.value), w.next)
        else if w.tok.text != "with" then M.Parsed(Err(WithMessage(w.tok)), w.next)
        else
          var md := L.Expect(w.next, IDENT);
          if md.err.Some? then M.Parsed(Err(md.err.value), md.next)
          else
            var mode := UnmarshalSampleMode(SampleModeAverage, md.tok.text);
            if mode.err.Some? then M.Parsed(Err(ModeMessage(md.tok)), md.next)
            else M.Parsed(Ok(SampleExpr(e.result.value, mode.value)), md.next)
  }

  /** parseScaleExpr: an expression, a comma, a NUMBER that ParseFloat
      accepts. */
  function ScaleFrom(l: L.Lexer, env: Env): (r: M.Parsed<Expr>)
    requires L.LexerOk(l)
    ensures L.LexerOk(r.next) && r.next.cur.text == l.cur.text && L.Rank(r.next) <= L.Rank(l)
    decreases L.Rank(l) + 1, 0
  {
    var e := ExprFrom(l, env);
    if e.result.Err? then e
    else
      var c := L.Expect(e.next, COMMA);
      if c.err.Some? then M.Parsed(Err(c.err.value), c.next)
      else
        var n := L.Expect(c.next, NUMBER);
        if n.err.Some? then M.Parsed(Err(n.err.value), n.next)
        else if env.floatError(n.tok.text).Some? then M.Parsed(Err(env.floatError(n.tok.text).value), n.next)
        else M.Parsed(Ok(ScaleExpr(e.result.value, n.tok.text)), n.next)
  }

  /** ParseExpr: an expression that runs to the end of the input. */
  function ExprOfText(text: string, env: Env): Result<Expr>
  {
    var r := ExprFrom(L.Lexer(L.Start(text), None), env);
    if r.result.Err? then r.result
    else
      var e := L.Expect(r.next, EOF);
      if e.err.Some? then Err(e.err.value) else r.result
  }

  // ---- the same parse, driving the stateful parser ----

  method ParseExpr(text: string, env: Env) returns (expr: Result<Expr>)
    ensures expr == ExprOfText(text, env)
  {
    var p := new GoParser.Parser.New(text);
    expr := ParseExprFrom(p, env);
    if expr.Err? {
      return;
    }
    var _, err := p.Expect(EOF);
    if err.Some? {
      return Err(err.value);
    }
  }

  method ParseExprFrom(p: GoParser.Parser, env: Env) returns (expr: Result<Expr>)
    requires p.Valid()
    modifies p
    ensures p.Valid() && M.Parsed(expr, p.State()) == ExprFrom(old(p.State()), env)
    decreases L.Rank(p.State()), 1
  {
    var tok := p.Peek();
    if tok.typ == LBRACE {
      var v := M.MatcherFromParser(p, env.re);
      if v.Err? {
        return Err(v.error);
      }
      return Ok(MatcherExpr(v.value));
    } else if tok.typ == IDENT {
      var fn := UnmarshalFunc("", TokenString(tok));
      var isCall := false;
      if fn.err.None? {
        var ch := p.PeekRune();
        isCall := ch == '(';
      }
      if !isCall {
        var v := M.MatcherFromParser(p, env.re);
        if v.Err? {
          return Err(v.error);
        }
        return Ok(MatcherExpr(v.value));
      }
      // the function name, then the left parenthesis
      var _ := p.Next();
      var _ := p.Next();
      if fn.value == FuncAlias {
        expr := ParseAlias(p, env);
      } else if fn.value == FuncAvg || fn.value == FuncSum {
        expr := ParseAggregate(p, env, fn.value);
      } else if fn.value == FuncSample {
        expr := ParseSample(p, env);
      } else {
        expr := ParseScale(p, env);
      }
      if expr.Err? {
        return;
      }
      // one extraneous comma is allowed
      tok := p.Peek();
      if tok.typ == COMMA {
        var _ := p.Next();
      }
      var _, err := p.Expect(RPAREN);
      if err.Some? {
        return Err(err.value);
      }
    } else {
      var _, err := p.Expect(LBRACE);
      return Err(err.value);
    }
  }

  method ParseAggregate(p: GoParser.Parser, env: Env, fn: Func) returns (expr: Result<Expr>)
    requires p.Valid()
    modifies p
    ensures p.Valid() && M.Parsed(expr, p.State()) == AggregateFrom(old(p.State()), env, fn)
    decreases L.Rank(p.State()) + 1, 1
  {
    var op := if fn == FuncAvg then AggregateOpAverage else AggregateOpSum;
    var exprs: seq<Expr> := [];
    ghost var l0 := p.State();
    while true
      invariant p.Valid() && p.State().cur.text == l0.cur.text && L.Rank(p.State()) <= L.Rank(l0)
      invariant AggregateLoop(p.State(), env, op, exprs) == AggregateFrom(l0, env, fn)
      decreases L.Rank(p.State())
    {
      var v := ParseExprFrom(p, env);
      if v.Err? {
        return Err(v.error);
      }
      exprs := exprs + [v.value];
      var tok := p.Peek();
      if tok.typ != COMMA {
        return Ok(AggregateExpr(exprs, op));
      }
      var _ := p.Next();
      tok := p.Peek();
      if tok.typ == RPAREN {
        return Ok(AggregateExpr(exprs, op));
      }
    }
  }

  method ParseAlias(p: GoParser.Parser, env: Env) returns (expr: Result<Expr>)
    requires p.Valid()
    modifies p
    ensures p.Valid() && M.Parsed(expr, p.State()) == AliasFrom(old(p.State()), env)
    decreases L.Rank(p.State()) + 1, 0
  {
    var v := ParseExprFrom(p, env);
    if v.Err? {
      return v;
    }
    var tok, err := p.Expect(COMMA);
    if err.Some? {
      return Err(err.value);
    }
    tok, err := p.Expect(STRING);
    if err.Some? {
      return Err(err.value);
    }
    return Ok(AliasExpr(v.value, TokenString(tok)));
  }

  method ParseSample(p: GoParser.Parser, env: Env) returns (expr: Result<Expr>)
    requires p.Valid()
    modifies p
    ensures p.Valid() && M.Parsed(expr, p.State()) == SampleFrom(old(p.State()), env)
    decreases L.Rank(p.State()) + 1, 0
  {
    var v := ParseExprFrom(p, env);
    if v.Err? {
      return v;
    }
    var mode := SampleModeAverage;
    var tok := p.Peek();
    if tok.typ != COMMA && tok.typ != RPAREN {
      var err;
      tok, err := p.Expect(IDENT);
      if err.Some? {
        return Err(err.value);
      } else if tok.text != "with" {
        return Err(WithMessage(tok));
      }
      tok, err := p.Expect(IDENT);
      if err.Some? {
        return Err(err.value);
      }
      var m := UnmarshalSampleMode(mode, TokenString(tok));
      if m.err.Some? {
        return Err(ModeMessage(tok));
      }
      mode := m.value;
    }
    return Ok(SampleExpr(v.value, mode));
  }

  method ParseScale(p: GoParser.Parser, env: Env) returns (expr: Result<Expr>)
    requires p.Valid()
    modifies p
    ensures p.Valid() && M.Parsed(expr, p.State()) == ScaleFrom(old(p.State()), env)
    decreases L.Rank(p.State()) + 1, 0
  {
    var v := ParseExprFrom(p, env);
    if v.Err? {
      return v;
    }
    var tok, err := p.Expect(COMMA);
    if err.Some? {
      return Err(err.value);
    }
    tok, err := p.Expect(NUMBER);
    if err.Some? {
      return Err(err.value);
    }
    var f := env.floatError(TokenString(tok));
    if f.Some? {
      return Err(f.value);
    }
    return Ok(ScaleExpr(v.value, TokenString(tok)));
  }

  // ---- MatchersFromExprs ----

  function Size(e: Expr): nat
  {
    match e
    case AggregateExpr(es, _) => 1 + SizeAll(es)
    case AliasExpr(x, _) => 1 + Size(x)
    case MatcherExpr(_) => 1
    case SampleExpr(x, _) => 1 + Size(x)
    case ScaleExpr(x, _) => 1 + Size(x)
  }

  function SizeAll(es: seq<Expr>): nat
  {
    if es == [] then 0 else Size(es[0]) + SizeAll(es[1..])
  }

  lemma {:induction false} SizeAllAppend(a: seq<Expr>, b: seq<Expr>)
    ensures SizeAll(a + b) == SizeAll(a) + SizeAll(b)
  {
    if a != [] {
      assert (a + b)[1..] == a[1..] + b;
      SizeAllAppend(a[1..], b);
    } else {
      assert a + b == b;
    }
  }

  /** The children the walk pushes for an expression. */
  function Children(e: Expr): (r: seq<Expr>)
    ensures SizeAll(r) < Size(e)
  {
    match e
    case AggregateExpr(es, _) => es
    case AliasExpr(x, _) => assert [x][1..] == []; [x]
    case MatcherExpr(_) => []
    case SampleExpr(x, _) => assert [x][1..] == []; [x]
    case ScaleExpr(x, _) => assert [x][1..] == []; [x]
  }

  /** The matchers the walk meets, in the order it meets them: the queue is
      taken from the front and children are pushed at the back. */
  function Visit(queue: seq<Expr>): seq<M.Matcher>
    decreases SizeAll(queue)
  {
    if queue == [] then []
    else
      var rest := queue[1..] + Children(queue[0]);
      SizeAllAppend(queue[1..], Children(queue[0]));
      if queue[0].MatcherExpr? then [queue[0].matcher] + Visit(rest) else Visit(rest)
  }

  /** What Matcher.Hash reads of a matcher: the name and value of each
      condition, in order, and not the operator. */
  function HashKey(m: M.Matcher): (k: seq<(string, string)>)
    ensures |k| == |m|
    ensures forall i :: 0 <= i < |m| ==> k[i] == (m[i].name, m[i].value)
  {
    if m == [] then [] else [(m[0].name, m[0].value)] + HashKey(m[1..])
  }

  /** The matchers whose key has not been seen yet, each kept the first time
      its key appears. */
  function Dedup(ms: seq<M.Matcher>, seen: set<seq<(string, string)>>): seq<M.Matcher>
  {
    if ms == [] then []
    else if HashKey(ms[0]) in seen then Dedup(ms[1..], seen)
    else [ms[0]] + Dedup(ms[1..], seen + {HashKey(ms[0])})
  }

  /** MatchersFromExprs: the worklist loop with its set of seen hashes. */
  method MatchersFromExprs(exprs: seq<Expr>) returns (matchers: seq<M.Matcher>)
    ensures matchers == Dedup(Visit(exprs), {})
  {
    var hashes: set<seq<(string, string)>> := {};
    matchers := [];
    var stack := exprs;
    while |stack| > 0
      invariant Dedup(Visit(exprs), {}) == matchers + Dedup(Visit(stack), hashes)
      decreases SizeAll(stack)
    {
      var cur := stack[0];
      ghost var next := stack[1..] + Children(cur);
      SizeAllAppend(stack[1..], Children(cur));
      assert Visit(stack) == if cur.MatcherExpr? then [cur.matcher] + Visit(next) else Visit(next);
      stack := stack[1..];
      match cur {
        case AggregateExpr(es, _) =>
          stack := stack + es;
        case AliasExpr(x, _) =>
          stack := stack + [x];
        case MatcherExpr(m) =>
          assert stack == next;
          var hash := HashKey(m);
          assert ([m] + Visit(next))[1..] == Visit(next);
          if hash !in hashes {
            Text.AppendAssoc(matchers, [m], Dedup(Visit(stack), hashes + {hash}));
            matchers := matchers + [m];
            hashes := hashes + {hash};
          }
        case SampleExpr(x, _) =>
          stack := stack + [x];
        case ScaleExpr(x, _) =>
          stack := stack + [x];
      }
      assert stack == next;
    }
  }

  // ---- what the walk promises ----

  /** Every matcher nested in e, by structure. */
  function Nested(e: Expr): set<M.Matcher>
  {
    match e
    case AggregateExpr(es, _) => NestedAll(es)
    case AliasExpr(x, _) => Nested(x)
    case MatcherExpr(m) => {m}
    case SampleExpr(x, _) => Nested(x)
    case ScaleExpr(x, _) => Nested(x)
  }

  function NestedAll(es: seq<Expr>): set<M.Matcher>
  {
    if es == [] then {} else Nested(es[0]) + NestedAll(es[1..])
  }

  lemma {:induction false} NestedAllAppend(a: seq<Expr>, b: seq<Expr>)
    ensures NestedAll(a + b) == NestedAll(a) + NestedAll(b)
  {
    if a != [] {
      assert (a + b)[1..] == a[1..] + b;
      NestedAllAppend(a[1..], b);
    } else {
      assert a + b == b;
    }
  }

  lemma NestedChildren(e: Expr)
    ensures Nested(e) == (if e.MatcherExpr? then {e.matcher} else {}) + NestedAll(Children(e))
  {
    match e
    case AggregateExpr(es, _) =>
    case MatcherExpr(_) =>
    case AliasExpr(x, _) => assert NestedAll([x]) == Nested(x) + NestedAll([x][1..]);
    case SampleExpr(x, _) => assert NestedAll([x]) == Nested(x) + NestedAll([x][1..]);
    case ScaleExpr(x, _) => assert NestedAll([x]) == Nested(x) + NestedAll([x][1..]);
  }

  /** The walk meets exactly the matchers nested in the queue. */
  lemma {:induction false} VisitMeetsNested(queue: seq<Expr>)
    ensures (set m | m in Visit(queue)) == NestedAll(queue)
    decreases SizeAll(queue)
  {
    if queue != [] {
      var rest := queue[1..] + Children(queue[0]);
      SizeAllAppend(queue[1..], Children(queue[0]));
      VisitMeetsNested(rest);
      NestedAllAppend(queue[1..], Children(queue[0]));
      NestedChildren(queue[0]);
    }
  }

  /** The index of the first matcher of ms with key k, |ms| if none. */
  function FirstWithKey(ms: seq<M.Matcher>, k: seq<(string, string)>): (i: nat)
    ensures i <= |ms| && (i < |ms| ==> HashKey(ms[i]) == k)
    ensures forall j :: 0 <= j < i ==> HashKey(ms[j]) != k
  {
    if ms == [] then 0 else if HashKey(ms[0]) == k then 0 else 1 + FirstWithKey(ms[1..], k)
  }

  predicate KeysUnseen(r: seq<M.Matcher>, seen: set<seq<(string, string)>>)
  {
    forall i :: 0 <= i < |r| ==> HashKey(r[i]) !in seen
  }

  predicate KeysDistinct(r: seq<M.Matcher>)
  {
    forall i, j :: 0 <= i < j < |r| ==> HashKey(r[i]) != HashKey(r[j])
  }

  /** Each matcher of r is the first of ms with its key. */
  predicate FirstOfKey(r: seq<M.Matcher>, ms: seq<M.Matcher>)
  {
    forall i :: 0 <= i < |r| ==> FirstWithKey(ms, HashKey(r[i])) < |ms| && ms[FirstWithKey(ms, HashKey(r[i]))] == r[i]
  }

  /** Every matcher of ms has its key seen or kept in r. */
  predicate KeysCovered(r: seq<M.Matcher>, ms: seq<M.Matcher>, seen: set<seq<(string, string)>>)
  {
    forall m :: m in ms ==> HashKey(m) in seen || exists i :: 0 <= i < |r| && HashKey(r[i]) == HashKey(m)
  }

  /** Dedup keeps no matcher whose key was already seen. */
  lemma {:induction false} DedupUnseen(ms: seq<M.Matcher>, seen: set<seq<(string, string)>>)
    ensures KeysUnseen(Dedup(ms, seen), seen)
  {
    if ms != [] {
      var k0 := HashKey(ms[0]);
      if k0 in seen {
        assert Dedup(ms, seen) == Dedup(ms[1..], seen);
        DedupUnseen(ms[1..], seen);
      } else {
        DedupUnseen(ms[1..], seen + {k0});
        var r := Dedup(ms, seen);
        forall i | 0 < i < |r| ensures HashKey(r[i]) !in seen {
          assert r[i] == Dedup(ms[1..], seen + {k0})[i - 1];
        }
      }
    }
  }

  /** Dedup keeps at most one matcher per key. */
  lemma {:induction false} DedupDistinct(ms: seq<M.Matcher>, seen: set<seq<(string, string)>>)
    ensures KeysDistinct(Dedup(ms, seen))
  {
    if ms != [] {
      var k0 := HashKey(ms[0]);
      if k0 in seen {
        assert Dedup(ms, seen) == Dedup(ms[1..], seen);
        DedupDistinct(ms[1..], seen);
      } else {
        var tail := Dedup(ms[1..], seen + {k0});
        DedupDistinct(ms[1..], seen + {k0});
        DedupUnseen(ms[1..], seen + {k0});
        var r := Dedup(ms, seen);
        assert r == [ms[0]] + tail;
        forall i, j | 0 <= i < j < |r| ensures HashKey(r[i]) != HashKey(r[j]) {
          assert r[j] == tail[j - 1];
          if i > 0 { assert r[i] == tail[i - 1]; }
        }
      }
    }
  }

  /** Each matcher Dedup keeps is the first of ms with its key. */
  lemma {:induction false} DedupFirst(ms: seq<M.Matcher>, seen: set<seq<(string, string)>>)
    ensures FirstOfKey(Dedup(ms, seen), ms)
  {
    if ms != [] {
      var k0 := HashKey(ms[0]);
      var r := Dedup(ms, seen);
      if k0 in seen {
        assert r == Dedup(ms[1..], seen);
        DedupFirst(ms[1..], seen);
        DedupUnseen(ms[1..], seen);
        forall i | 0 <= i < |r| ensures FirstWithKey(ms, HashKey(r[i])) == 1 + FirstWithKey(ms[1..], HashKey(r[i])) {
        }
      } else {
        var tail := Dedup(ms[1..], seen + {k0});
        DedupFirst(ms[1..], seen + {k0});
        DedupUnseen(ms[1..], seen + {k0});
        assert r == [ms[0]] + tail;
        forall i | 0 < i < |r| ensures FirstWithKey(ms, HashKey(r[i])) < |ms| && ms[FirstWithKey(ms, HashKey(r[i]))] == r[i] {
          assert r[i] == tail[i - 1];
          assert FirstWithKey(ms, HashKey(r[i])) == 1 + FirstWithKey(ms[1..], HashKey(r[i]));
        }
      }
    }
  }

  /** Dedup drops a matcher only when its key was seen or is kept. */
  lemma {:induction false} DedupCovers(ms: seq<M.Matcher>, seen: set<seq<(string, string)>>)
    ensures KeysCovered(Dedup(ms, seen), ms, seen)
  {
    if ms != [] {
      var k0 := HashKey(ms[0]);
      var r := Dedup(ms, seen);
      if k0 in seen {
        assert r == Dedup(ms[1..], seen);
        DedupCovers(ms[1..], seen);
        forall m | m in ms ensures HashKey(m) in seen || exists i :: 0 <= i < |r| && HashKey(r[i]) == HashKey(m) {
          if m != ms[0] { assert m in ms[1..]; }
        }
      } else {
        var tail := Dedup(ms[1..], seen + {k0});
        DedupCovers(ms[1..], seen + {k0});
        assert r == [ms[0]] + tail;
        forall m | m in ms ensures HashKey(m) in seen || exists i :: 0 <= i < |r| && HashKey(r[i]) == HashKey(m) {
          if HashKey(m) == k0 {
            assert HashKey(r[0]) == HashKey(m);
          } else {
            assert m in ms[1..];
            if HashKey(m) !in seen {
              var i :| 0 <= i < |tail| && HashKey(tail[i]) == HashKey(m);
              assert r[i + 1] == tail[i];
            }
          }
        }
      }
    }
  }

  /** MatchersFromExprs returns no two matchers with the same names and
      values; every matcher nested in the expressions has its key among
      them; each one returned is nested in the expressions and is the first
      the walk meets with its key. */
  lemma MatchersFromExprsMeaning(exprs: seq<Expr>)
    ensures KeysDistinct(Dedup(Visit(exprs), {}))
    ensures KeysCovered(Dedup(Visit(exprs), {}), Visit(exprs), {})
    ensures (set m | m in Visit(exprs)) == NestedAll(exprs)
    ensures FirstOfKey(Dedup(Visit(exprs), {}), Visit(exprs))
  {
    var ms := Visit(exprs);
    VisitMeetsNested(exprs);
    DedupDistinct(ms, {});
    DedupFirst(ms, {});
    DedupCovers(ms, {});
  }

  // ---- cases of the test table of ParseExpr ----

  /** The one condition of a matcher that is a metric name. */
  function NameMatcher(name: string): Expr
  {
    MatcherExpr([M.MatchCond(M.OpEq, LabelPair.Name, name)])
  }

  /** A name alone is a metric, even a function name: a call needs '('
      right after the name. */
  lemma PlainName(name: string, env: Env)
    requires L.Identifier(name)
    ensures ExprOfText(name, env) == Ok(NameMatcher(name))
  {
    var l0 := L.Lexer(L.Start(name), None);
    var q := NameRead(name);
    PlainNameStep(l0, q, env);
    M.NameAtEnd(q, env.re);
    var r := M.MatcherFrom(q, env.re);
    assert ExprFrom(l0, env) == M.Parsed(Ok(NameMatcher(name)), r.next);
  }

  /** The state from which the matcher of a lone name is read: the name is
      peeked and only the end of input follows it. */
  lemma NameRead(name: string) returns (q: L.Lexer)
    requires L.Identifier(name)
    ensures var p := L.Peek(L.Lexer(L.Start(name), None));
      p.tok.typ == IDENT && p.next.cur.off == |name|
      && q == if UnmarshalFunc("", p.tok.text).err.Some? then p.next else L.PeekRune(p.next).next
    ensures L.LexerOk(q) && q.peeked == Some(L.Peek(L.Lexer(L.Start(name), None)).tok)
    ensures q.peeked.value.text == name && q.cur.text == name && q.cur.off == |name|
    ensures L.SpaceEnd(q.cur.text, q.cur.off) == |q.cur.text|
  {
    var l1 := M.LeadingName(name, name);
    var p := L.Peek(L.Lexer(L.Start(name), None));
    assert p.next.cur == l1.cur;
    q := if UnmarshalFunc("", p.tok.text).err.Some? then p.next else L.PeekRune(p.next).next;
  }

  /** The name at the start is read as a matcher from q, the state after the
      name is peeked (and, for a function name, the rune after it). */
  lemma PlainNameStep(l0: L.Lexer, q: L.Lexer, env: Env)
    requires L.LexerOk(l0) && L.Peek(l0).tok.typ == IDENT
    requires L.Peek(l0).next.cur.off == |l0.cur.text|
    requires q == if UnmarshalFunc("", L.Peek(l0).tok.text).err.Some? then L.Peek(l0).next
      else L.PeekRune(L.Peek(l0).next).next
    ensures L.LexerOk(q) && ExprFrom(l0, env) == MatcherExprFrom(q, env)
  {
  }

  /** An expression position holding neither a name nor '{' fails, asking
      for the brace of a matcher. */
  lemma NoExpression(l: L.Lexer, env: Env)
    requires L.LexerOk(l) && L.Peek(l).tok.typ != LBRACE && L.Peek(l).tok.typ != IDENT
    ensures ExprFrom(l, env).result == Err(L.ExpectMessage(LBRACE, L.Peek(l).tok))
  {
  }

  /** A name that is not a function, followed by '(': the name is a metric,
      and ParseExpr then fails on the parenthesis. */
  lemma NotACall(name: string, env: Env)
    requires L.Identifier(name) && name !in FuncNames
    ensures ExprOfText(name + "()", env) == Err(L.ExpectMessage(EOF, Token(LPAREN, Position(1, |name| + 1), "")))
  {
    var text := name + "()";
    var n := |name|;
    assert L.SliceIs(text, 0, name) && text[n] == '(';
    assert forall j :: 0 <= j < n ==> text[j] == name[j] && L.IsIdentChar(name[j]);
    NotACallAt(text, name, env);
  }

  lemma NotACallAt(text: string, name: string, env: Env)
    requires L.Identifier(name) && name !in FuncNames
    requires L.SliceIs(text, 0, name) && |name| < |text| && text[|name|] == '('
    requires forall j :: 0 <= j < |name| ==> text[j] != '\n'
    ensures ExprOfText(text, env) == Err(L.ExpectMessage(EOF, Token(LPAREN, Position(1, |name| + 1), "")))
  {
    var l1 := M.LeadingName(text, name);
    var p := L.Peek(L.Lexer(L.Start(text), None));
    var mark := M.NameBeforeMark(p.next, env.re);
    var r := ExprFrom(L.Lexer(L.Start(text), None), env);
    assert r.result.Ok? && r.next.peeked == Some(mark);
    assert L.ExpectMessage(EOF, mark) == L.ExpectMessage(EOF, Token(LPAREN, Position(1, |name| + 1), ""));
  }

  /** fn( at the start of the text, fn a function: the arguments are parsed
      from right after the parenthesis, then the end of the call. */
  lemma CallStart(text: string, fn: Func, env: Env) returns (l2: L.Lexer)
    requires fn in FuncNames && L.SliceIs(text, 0, fn) && |fn| < |text| && text[|fn|] == '('
    ensures L.LexerOk(l2) && L.Tracks(l2.cur) && l2.cur.text == text
    ensures l2.peeked == None && l2.cur.off == |fn| + 1
    ensures var call := CallFrom(fn, l2, env);
      ExprFrom(L.Lexer(L.Start(text), None), env) == if call.result.Err? then call else CallEnd(call)
  {
    FuncNameIdentifier(fn);
    forall j | 0 <= j < |fn| ensures text[j] == fn[j] && text[j] != '\n' {
      assert text[0 + j] == fn[j];
    }
    var l1 := M.LeadingName(text, fn);
    var p := L.Peek(L.Lexer(L.Start(text), None));
    var pr := L.PeekRune(p.next);
    assert pr.ch == '(';
    var id := L.Next(pr.next);
    M.MarkOnFirstLine(id.next);
    l2 := L.Next(id.next).next;
  }

  /** Each function name is an identifier without a newline. */
  lemma FuncNameIdentifier(fn: Func)
    requires fn in FuncNames
    ensures L.Identifier(fn) && forall j :: 0 <= j < |fn| ==> fn[j] != '\n'
  {
    assert fn == "alias" || fn == "avg" || fn == "sample" || fn == "scale" || fn == "sum";
  }

  /** A name that is not a function, as an argument followed by ')' or ',':
      the argument is that metric, and the mark after it is left peeked. */
  lemma ArgumentName(l: L.Lexer, name: string, env: Env) returns (mark: Token)
    requires L.LexerOk(l) && L.Tracks(l.cur) && l.peeked == None
    requires L.Identifier(name) && name !in FuncNames
    requires var text := l.cur.text; var k := l.cur.off + |name|;
      L.SliceIs(text, l.cur.off, name) && k < |text| && (text[k] == ')' || text[k] == ',')
      && forall j :: 0 <= j < k ==> text[j] != '\n'
    ensures var k := l.cur.off + |name|;
      mark.typ == (if l.cur.text[k] == ')' then RPAREN else COMMA) && mark.pos == Position(1, k + 1)
    ensures var r := ExprFrom(l, env);
      r.result == Ok(NameMatcher(name)) && r.next.peeked == Some(mark)
      && r.next.cur.off == l.cur.off + |name| + 1 && L.Tracks(r.next.cur)
  {
    var k := l.cur.off + |name|;
    var q := NamePeeked(l, name, k);
    NonFunctionName(l, env);
    mark := NameBeforeArgumentEnd(q, name, env);
  }

  /** A peeked name before ')' or ',' is a matcher alone. */
  lemma NameBeforeArgumentEnd(q: L.Lexer, name: string, env: Env) returns (mark: Token)
    requires L.LexerOk(q) && L.Tracks(q.cur) && q.peeked.Some? && q.peeked.value.typ == IDENT
    requires q.peeked.value.text == name
    requires var text := q.cur.text; var k := q.cur.off;
      k < |text| && (text[k] == ')' || text[k] == ',') && forall j :: 0 <= j < k ==> text[j] != '\n'
    ensures mark.typ == (if q.cur.text[q.cur.off] == ')' then RPAREN else COMMA)
    ensures mark.pos == Position(1, q.cur.off + 1)
    ensures var r := MatcherExprFrom(q, env);
      r.result == Ok(NameMatcher(name)) && r.next.peeked == Some(mark)
      && r.next.cur.off == q.cur.off + 1 && L.Tracks(r.next.cur)
  {
    assert L.Member(q.cur.text[q.cur.off], L.Punctuation) && q.cur.text[q.cur.off] != '{';
    mark := M.NameBeforeMark(q, env.re);
  }

  /** The name at the cursor, peeked: the cursor moves to just after it. */
  lemma NamePeeked(l: L.Lexer, name: string, k: nat) returns (q: L.Lexer)
    requires L.LexerOk(l) && L.Tracks(l.cur) && l.peeked == None
    requires L.Identifier(name) && k == l.cur.off + |name|
    requires L.SliceIs(l.cur.text, l.cur.off, name) && k < |l.cur.text|
    requires !L.IsIdentChar(l.cur.text[k]) && l.cur.text[k] != L.Eof
    ensures q == L.Peek(l).next && q.peeked == Some(L.Peek(l).tok)
    ensures L.Peek(l).tok.typ == IDENT && L.Peek(l).tok.text == name
    ensures L.LexerOk(q) && L.Tracks(q.cur) && q.cur.text == l.cur.text && q.cur.off == k
  {
    assert l.cur.text[l.cur.off + 0] == name[0];
    L.SpaceEndHere(l.cur.text, l.cur.off);
    L.ScanIdentifier(l.cur, name);
    L.ScanTracks(l.cur);
    q := L.Peek(l).next;
  }

  /** An identifier that names no function is the start of a matcher. */
  lemma NonFunctionName(l: L.Lexer, env: Env)
    requires L.LexerOk(l) && L.Peek(l).tok.typ == IDENT && L.Peek(l).tok.text !in FuncNames
    ensures ExprFrom(l, env) == MatcherExprFrom(L.Peek(l).next, env)
  {
  }

  /** avg(name) and sum(name), name no function: the call aggregates that
      one metric. */
  lemma AggregateOfName(fn: Func, name: string, env: Env)
    requires (fn == FuncAvg || fn == FuncSum) && L.Identifier(name) && name !in FuncNames
    ensures ExprOfText(fn + "(" + name + ")", env)
      == Ok(AggregateExpr([NameMatcher(name)], if fn == FuncAvg then AggregateOpAverage else AggregateOpSum))
  {
    var text := fn + "(" + name + ")";
    CallText(fn, name, text);
    var l2 := CallStart(text, fn, env);
    var call := OneArgument(l2, fn, name, env);
    CallEndClose(call);
  }

  /** The arguments of avg or sum: one name running to a ')' that ends the
      text. */
  lemma OneArgument(l2: L.Lexer, fn: Func, name: string, env: Env) returns (call: M.Parsed<Expr>)
    requires (fn == FuncAvg || fn == FuncSum) && L.Identifier(name) && name !in FuncNames
    requires L.LexerOk(l2) && L.Tracks(l2.cur) && l2.peeked == None
    requires var text := l2.cur.text; var k := l2.cur.off + |name|;
      L.SliceIs(text, l2.cur.off, name) && k + 1 == |text| && text[k] == ')'
      && forall j :: 0 <= j < k ==> text[j] != '\n'
    ensures call == CallFrom(fn, l2, env) && L.LexerOk(call.next)
    ensures call.result == Ok(AggregateExpr([NameMatcher(name)], if fn == FuncAvg then AggregateOpAverage else AggregateOpSum))
    ensures call.next.peeked.Some? && call.next.peeked.value.typ == RPAREN
    ensures call.next.cur.off == |call.next.cur.text|
  {
    var mark := ArgumentName(l2, name, env);
    var e := ExprFrom(l2, env);
    assert e.result == Ok(NameMatcher(name)) && e.next.peeked == Some(mark) && mark.typ == RPAREN;
    assert e.next.cur.off == |e.next.cur.text|;
    var op := if fn == FuncAvg then AggregateOpAverage else AggregateOpSum;
    AggregateCall(l2, fn, env);
    AggregateLast(l2, env, op, []);
    call := M.Parsed(Ok(AggregateExpr([NameMatcher(name)], op)), e.next);
    assert [] + [NameMatcher(name)] == [NameMatcher(name)];
  }

  /** avg and sum start the loop of parseAggregateExpr with no expression. */
  lemma AggregateCall(l: L.Lexer, fn: Func, env: Env)
    requires L.LexerOk(l) && (fn == FuncAvg || fn == FuncSum)
    ensures CallFrom(fn, l, env)
      == AggregateLoop(l, env, if fn == FuncAvg then AggregateOpAverage else AggregateOpSum, [])
  {
  }

  /** An expression followed by no comma is the last of the list. */
  lemma AggregateLast(l: L.Lexer, env: Env, op: AggregateOp, acc: seq<Expr>)
    requires L.LexerOk(l)
    requires var e := ExprFrom(l, env);
      e.result.Ok? && e.next.peeked.Some? && e.next.peeked.value.typ != COMMA
    ensures var e := ExprFrom(l, env);
      AggregateLoop(l, env, op, acc) == M.Parsed(Ok(AggregateExpr(acc + [e.result.value], op)), e.next)
  {
  }

  /** sample(name), name no function: with no mode given, the metric is
      sampled by average. */
  lemma SampleOfName(name: string, env: Env)
    requires L.Identifier(name) && name !in FuncNames
    ensures ExprOfText(FuncSample + "(" + name + ")", env) == Ok(SampleExpr(NameMatcher(name), SampleModeAverage))
  {
    var text := FuncSample + "(" + name + ")";
    CallText(FuncSample, name, text);
    var l2 := CallStart(text, FuncSample, env);
    var mark := ArgumentName(l2, name, env);
    var e := ExprFrom(l2, env);
    assert NextTok(e.next) == mark && L.Peek(e.next).next == e.next;
    SampleGrammar(l2, env);
    var call := SampleFrom(l2, env);
    assert call == CallFrom(FuncSample, l2, env);
    CallEndClose(call);
  }

  /** A call whose arguments parsed and whose ')' ends the text. */
  lemma CallEndClose(call: M.Parsed<Expr>)
    requires L.LexerOk(call.next) && call.result.Ok?
    requires call.next.peeked.Some? && call.next.peeked.value.typ == RPAREN
    requires call.next.cur.off == |call.next.cur.text|
    ensures CallEnd(call).result == call.result && L.Expect(CallEnd(call).next, EOF).err == None
  {
    CloseAtEnd(call.next);
  }

  /** The layout of fn(name). */
  lemma CallText(fn: Func, name: string, text: string)
    requires fn in FuncNames && L.Identifier(name) && text == fn + "(" + name + ")"
    ensures var n := |fn|; var k := n + 1 + |name|;
      |text| == k + 1 && L.SliceIs(text, 0, fn) && text[n] == '('
      && L.SliceIs(text, n + 1, name) && text[k] == ')'
      && forall j :: 0 <= j < k ==> text[j] != '\n'
  {
    FuncNameIdentifier(fn);
    var n := |fn|;
    forall j | 0 <= j < n ensures text[0 + j] == fn[j] {
    }
    forall j | 0 <= j < |name| ensures text[n + 1 + j] == name[j] {
    }
    forall j | 0 <= j < n + 1 + |name| ensures text[j] != '\n' {
      if n < j {
        assert text[n + 1 + (j - n - 1)] == name[j - n - 1];
      }
    }
  }

  /** A ')' peeked as the last character: the call closes and the input
      ends. */
  lemma CloseAtEnd(l: L.Lexer)
    requires L.LexerOk(l) && l.peeked.Some? && l.peeked.value.typ == RPAREN
    requires l.cur.off == |l.cur.text|
    ensures L.Expect(L.Expect(l, RPAREN).next, EOF).err == None
    ensures L.Peek(l).tok.typ == RPAREN && L.Peek(l).next == l
  {
    L.ScanAtEnd(L.Expect(l, RPAREN).next.cur);
  }

  // ---- the grammar of each call, token by token ----

  /** The token the parser reads next, and the state after reading it. */
  function NextTok(l: L.Lexer): Token
    requires L.LexerOk(l)
  {
    L.Next(l).tok
  }

  function Past(l: L.Lexer): (r: L.Lexer)
    requires L.LexerOk(l)
    ensures L.LexerOk(r)
  {
    L.Next(l).next
  }

  /** The end of a call: the ')' closes it, one comma may come before it,
      and any other token is an error asking for the ')'. */
  lemma CallEndGrammar(call: M.Parsed<Expr>)
    requires L.LexerOk(call.next) && call.result.Ok?
    ensures var t := NextTok(call.next); var r := CallEnd(call);
      && (t.typ == RPAREN ==> r == M.Parsed(call.result, Past(call.next)))
      && (t.typ == COMMA && NextTok(Past(call.next)).typ == RPAREN ==>
            r == M.Parsed(call.result, Past(Past(call.next))))
      && (t.typ == COMMA && NextTok(Past(call.next)).typ != RPAREN ==>
            r.result == Err(L.ExpectMessage(RPAREN, NextTok(Past(call.next)))))
      && (t.typ != COMMA && t.typ != RPAREN ==> r.result == Err(L.ExpectMessage(RPAREN, t)))
  {
    L.PeekThenNext(call.next);
  }

  /** alias(e, "name"): an expression, a comma and a STRING, whose text is
      the alias; the first of them that is missing is the error. */
  lemma AliasGrammar(l: L.Lexer, env: Env)
    requires L.LexerOk(l)
    ensures var e := ExprFrom(l, env); var r := AliasFrom(l, env);
      && (e.result.Err? ==> r.result == e.result)
      && (e.result.Ok? && NextTok(e.next).typ != COMMA ==>
            r.result == Err(L.ExpectMessage(COMMA, NextTok(e.next))))
      && (e.result.Ok? && NextTok(e.next).typ == COMMA && NextTok(Past(e.next)).typ != STRING ==>
            r.result == Err(L.ExpectMessage(STRING, NextTok(Past(e.next)))))
      && (r.result.Ok? <==>
            e.result.Ok? && NextTok(e.next).typ == COMMA && NextTok(Past(e.next)).typ == STRING)
      && (r.result.Ok? ==>
            r == M.Parsed(Ok(AliasExpr(e.result.value, NextTok(Past(e.next)).text)), Past(Past(e.next))))
  {
  }

  /** scale(e, n): an expression, a comma and a NUMBER that converts to a
      float; otherwise the first missing token, or the conversion error. */
  lemma ScaleGrammar(l: L.Lexer, env: Env)
    requires L.LexerOk(l)
    ensures var e := ExprFrom(l, env); var r := ScaleFrom(l, env);
      && (e.result.Err? ==> r.result == e.result)
      && (e.result.Ok? && NextTok(e.next).typ != COMMA ==>
            r.result == Err(L.ExpectMessage(COMMA, NextTok(e.next))))
      && (e.result.Ok? && NextTok(e.next).typ == COMMA && NextTok(Past(e.next)).typ != NUMBER ==>
            r.result == Err(L.ExpectMessage(NUMBER, NextTok(Past(e.next)))))
      && (e.result.Ok? && NextTok(e.next).typ == COMMA && NextTok(Past(e.next)).typ == NUMBER
          && env.floatError(NextTok(Past(e.next)).text).Some? ==>
            r.result == Err(env.floatError(NextTok(Past(e.next)).text).value))
      && (r.result.Ok? <==>
            e.result.Ok? && NextTok(e.next).typ == COMMA && NextTok(Past(e.next)).typ == NUMBER
            && env.floatError(NextTok(Past(e.next)).text).None?)
      && (r.result.Ok? ==>
            r == M.Parsed(Ok(ScaleExpr(e.result.value, NextTok(Past(e.next)).text)), Past(Past(e.next))))
  {
  }

  /** sample(e) and sample(e, ...) average; otherwise sample(e with mode)
      takes the named mode, and a wrong keyword or mode has its own
      message. */
  lemma SampleGrammar(l: L.Lexer, env: Env)
    requires L.LexerOk(l)
    ensures var e := ExprFrom(l, env); var r := SampleFrom(l, env); var w := NextTok(e.next);
      && (e.result.Err? ==> r.result == e.result)
      && (e.result.Ok? && (w.typ == COMMA || w.typ == RPAREN) ==>
            r == M.Parsed(Ok(SampleExpr(e.result.value, SampleModeAverage)), L.Peek(e.next).next))
      && (e.result.Ok? && w.typ != COMMA && w.typ != RPAREN && w.typ != IDENT ==>
            r.result == Err(L.ExpectMessage(IDENT, w)))
      && (e.result.Ok? && w.typ == IDENT && w.text != "with" ==> r.result == Err(WithMessage(w)))
      && (e.result.Ok? && w.typ == IDENT && w.text == "with" && NextTok(Past(e.next)).typ != IDENT ==>
            r.result == Err(L.ExpectMessage(IDENT, NextTok(Past(e.next)))))
      && (e.result.Ok? && w.typ == IDENT && w.text == "with" && NextTok(Past(e.next)).typ == IDENT
          && (forall m :: SampleModeName(m) != NextTok(Past(e.next)).text) ==>
            r.result == Err(ModeMessage(NextTok(Past(e.next)))))
      && (e.result.Ok? && w.typ == IDENT && w.text == "with" ==> r.result.Ok? ==>
            r.next == Past(Past(e.next)) && r.result.value.SampleExpr?
            && r.result.value.expr == e.result.value
            && SampleModeName(r.result.value.mode) == NextTok(Past(e.next)).text)
      && (e.result.Ok? && w.typ == IDENT && w.text == "with" && NextTok(Past(e.next)).typ == IDENT ==>
            forall m :: SampleModeName(m) == NextTok(Past(e.next)).text ==>
              r == M.Parsed(Ok(SampleExpr(e.result.value, m)), Past(Past(e.next))))
  {
    L.PeekThenNext(ExprFrom(l, env).next);
    forall m {
      SampleWithMode(l, env, m);
    }
  }

  /** `with` followed by the name of a mode gives the sample in that mode. */
  lemma SampleWithMode(l: L.Lexer, env: Env, m: SampleMode)
    requires L.LexerOk(l)
    ensures var e := ExprFrom(l, env); var w := NextTok(e.next); var t := NextTok(Past(e.next));
      e.result.Ok? && w.typ == IDENT && w.text == "with" && t.typ == IDENT && SampleModeName(m) == t.text ==>
        SampleFrom(l, env) == M.Parsed(Ok(SampleExpr(e.result.value, m)), Past(Past(e.next)))
  {
    L.PeekThenNext(ExprFrom(l, env).next);
    SampleModeRoundTrip(m, SampleModeAverage);
  }

  /** Every call gives the expression of its function: alias an alias,
      avg an average, sum a sum, sample a sample and scale a scale. */
  lemma CallKinds(fn: Func, l: L.Lexer, env: Env)
    requires L.LexerOk(l) && fn in FuncNames
    ensures var r := CallFrom(fn, l, env);
      r.result.Ok? ==>
        && (fn == FuncAlias <==> r.result.value.AliasExpr?)
        && (fn == FuncSample <==> r.result.value.SampleExpr?)
        && (fn == FuncScale <==> r.result.value.ScaleExpr?)
        && (fn == FuncAvg <==> r.result.value.AggregateExpr? && r.result.value.op == AggregateOpAverage)
        && (fn == FuncSum <==> r.result.value.AggregateExpr? && r.result.value.op == AggregateOpSum)
  {
    if fn == FuncAlias {
      AliasGrammar(l, env);
    } else if fn == FuncSample {
      SampleGrammar(l, env);
    } else if fn == FuncScale {
      ScaleGrammar(l, env);
    } else {
      AggregateCall(l, fn, env);
      AggregateKeeps(l, env, if fn == FuncAvg then AggregateOpAverage else AggregateOpSum, []);
    }
  }

  /** One round of the list of avg and sum: an expression, then the list
      ends unless a comma follows; a comma right before ')' ends it too. */
  lemma AggregateGrammar(l: L.Lexer, env: Env, op: AggregateOp, acc: seq<Expr>)
    requires L.LexerOk(l)
    ensures var e := ExprFrom(l, env); var r := AggregateLoop(l, env, op, acc);
      && (e.result.Err? ==> r == M.Parsed(Err(e.result.error), e.next))
      && (e.result.Ok? && NextTok(e.next).typ != COMMA ==>
            r == M.Parsed(Ok(AggregateExpr(acc + [e.result.value], op)), L.Peek(e.next).next))
      && (e.result.Ok? && NextTok(e.next).typ == COMMA && NextTok(Past(e.next)).typ == RPAREN ==>
            r == M.Parsed(Ok(AggregateExpr(acc + [e.result.value], op)), L.Peek(Past(e.next)).next))
      && (e.result.Ok? && NextTok(e.next).typ == COMMA && NextTok(Past(e.next)).typ != RPAREN ==>
            r == AggregateLoop(L.Peek(Past(e.next)).next, env, op, acc + [e.result.value]))
  {
    L.PeekThenNext(l);
    var e := ExprFrom(l, env);
    L.PeekThenNext(e.next);
    L.PeekThenNext(Past(e.next));
  }

  /** A list that parsed is the expressions read before it followed by at
      least one more, under the operator it was started with. */
  lemma {:induction false} AggregateKeeps(l: L.Lexer, env: Env, op: AggregateOp, acc: seq<Expr>)
    requires L.LexerOk(l)
    ensures var r := AggregateLoop(l, env, op, acc);
      r.result.Ok? ==>
        && r.result.value.AggregateExpr? && r.result.value.op == op
        && |r.result.value.exprs| > |acc| && r.result.value.exprs[..|acc|] == acc
    decreases L.Rank(l)
  {
    var e := ExprFrom(l, env);
    if Continues(e) {
      var l' := L.Peek(Past(e.next)).next;
      var acc' := acc + [e.result.value];
      AggregateStep(l, env, op, acc);
      AggregateKeeps(l', env, op, acc');
      var r := AggregateLoop(l', env, op, acc');
      if r.result.Ok? {
        assert r.result.value.exprs[..|acc|] == acc'[..|acc|] == acc;
      }
    } else {
      AggregateGrammar(l, env, op, acc);
    }
  }

  /** The expressions read before are put in front of the list that follows
      them. */
  function Prepend(acc: seq<Expr>, r: Result<Expr>): Result<Expr>
  {
    if r.Ok? && r.value.AggregateExpr? then Ok(r.value.(exprs := acc + r.value.exprs)) else r
  }

  /** The list does not depend on what was read before it: parsing from l
      with acc already read gives acc followed by the list parsed from l
      alone. So avg(a, b, c) lists a, b and c in that order. */
  lemma {:induction false} AggregatePrefix(l: L.Lexer, env: Env, op: AggregateOp, acc: seq<Expr>)
    requires L.LexerOk(l)
    ensures AggregateLoop(l, env, op, acc).result == Prepend(acc, AggregateLoop(l, env, op, []).result)
    decreases L.Rank(l)
  {
    var e := ExprFrom(l, env);
    if Continues(e) {
      var x := e.result.value;
      var l' := L.Peek(Past(e.next)).next;
      AggregateStep(l, env, op, acc);
      AggregateStep(l, env, op, []);
      assert [] + [x] == [x];
      AggregatePrefix(l', env, op, acc + [x]);
      AggregatePrefix(l', env, op, [x]);
      var r := AggregateLoop(l', env, op, []).result;
      if r.Ok? && r.value.AggregateExpr? {
        Text.AppendAssoc(acc, [x], r.value.exprs);
      }
    } else {
      AggregateStops(l, env, op, acc);
    }
  }

  /** The list goes on after this expression: it parsed, and a comma that
      no ')' follows comes after it. */
  predicate Continues(e: M.Parsed<Expr>)
    requires L.LexerOk(e.next)
  {
    e.result.Ok? && NextTok(e.next).typ == COMMA && NextTok(Past(e.next)).typ != RPAREN
  }

  lemma AggregateStep(l: L.Lexer, env: Env, op: AggregateOp, acc: seq<Expr>)
    requires L.LexerOk(l) && Continues(ExprFrom(l, env))
    ensures var e := ExprFrom(l, env);
      AggregateLoop(l, env, op, acc) == AggregateLoop(L.Peek(Past(e.next)).next, env, op, acc + [e.result.value])
  {
    AggregateGrammar(l, env, op, acc);
  }

  lemma AggregateStops(l: L.Lexer, env: Env, op: AggregateOp, acc: seq<Expr>)
    requires L.LexerOk(l) && !Continues(ExprFrom(l, env))
    ensures AggregateLoop(l, env, op, acc).result == Prepend(acc, AggregateLoop(l, env, op, []).result)
  {
    var e := ExprFrom(l, env);
    AggregateGrammar(l, env, op, acc);
    AggregateGrammar(l, env, op, []);
    if e.result.Ok? {
      assert acc + [e.result.value] == acc + ([] + [e.result.value]);
    }
  }

  /** The list of avg and sum, as a whole: the first expression, then, after
      a comma not followed by ')', the rest of the list. */
  lemma AggregateCons(l: L.Lexer, env: Env, op: AggregateOp)
    requires L.LexerOk(l)
    ensures var e := ExprFrom(l, env);
      e.result.Ok? && NextTok(e.next).typ == COMMA && NextTok(Past(e.next)).typ != RPAREN ==>
        var rest := AggregateLoop(L.Peek(Past(e.next)).next, env, op, []);
        AggregateLoop(l, env, op, []).result == Prepend([e.result.value], rest.result)
  {
    var e := ExprFrom(l, env);
    AggregateGrammar(l, env, op, []);
    if e.result.Ok? && NextTok(e.next).typ == COMMA && NextTok(Past(e.next)).typ != RPAREN {
      assert [] + [e.result.value] == [e.result.value];
      AggregatePrefix(L.Peek(Past(e.next)).next, env, op, [e.result.value]);
    }
  }
}
