// The UI's template engine (ui/src/helpers/template.ts): a text split into
// text nodes and variable nodes, $name or ${name}, read from the front of a
// string that the reader shortens and the unread lengthens again.
//
// The functions below say what each reader takes from the front of the
// text; the class Template runs the engine's loops over its fields and is
// proved to build exactly those nodes. Rendering and the variable list are
// functions of the node list, and rendering is proved equal to Expand, a
// one-pass reading of the substitution the engine performs.
module UiTemplate {
  import opened Wrappers

  datatype Node = TextNode(value: string) | VariableNode(value: string)

  /** isVariableChar: ASCII letters, digits and underscore. */
  predicate IsVariableChar(c: char)
  {
    'a' <= c <= 'z' || 'A' <= c <= 'Z' || '0' <= c <= '9' || c == '_'
  }

  predicate AllVariableChars(name: string)
  {
    forall k :: 0 <= k < |name| ==> IsVariableChar(name[k])
  }

  /** A variable starts the text: a dollar followed by an identifier
      character or an opening brace. */
  predicate StartsVariable(s: string)
  {
    |s| >= 2 && s[0] == '$' && (IsVariableChar(s[1]) || s[1] == '{')
  }

  /** The error readVariable throws. */
  const UnbalancedBrace := "unbalanced brace"

  // ---- what the readers take from the front of the text ----

  /** readText: the text node's value and what is left after it. It stops
      at the end, or before a variable whose dollar does not follow a
      backslash; escaped says the character before s was a backslash. */
  function TextFrom(s: string, escaped: bool): (r: (string, string))
    ensures |r.1| <= |s| && (r.1 == [] || StartsVariable(r.1))
    ensures s != [] && (escaped || !StartsVariable(s)) ==> |r.1| < |s|
    decreases |s|
  {
    if s == [] then ("", "")
    else if !escaped && StartsVariable(s) then ("", s)
    else
      var r := TextFrom(s[1..], s[0] == '\\');
      ([s[0]] + r.0, r.1)
  }

  /** The identifier characters at the front of s, and what follows them. */
  function NameRun(s: string): (r: (string, string))
    ensures |r.1| <= |s| && (s != [] && IsVariableChar(s[0]) ==> |r.1| < |s|)
    ensures r.1 != [] ==> !IsVariableChar(r.1[0])
    decreases |s|
  {
    if s == [] || !IsVariableChar(s[0]) then ("", s)
    else
      var r := NameRun(s[1..]);
      ([s[0]] + r.0, r.1)
  }

  datatype Var = Var(name: string, rest: string) | Unbalanced(rest: string)

  /** readVariable, just past the dollar: ${name} when the closing brace
      follows the identifier characters, else an unbalanced brace; or the
      identifier characters alone. rest is what the reader leaves. */
  function VariableFrom(s: string): (r: Var)
    ensures |r.rest| <= |s|
    ensures r.Var? && s != [] && (IsVariableChar(s[0]) || s[0] == '{') ==> |r.rest| < |s|
  {
    if s != [] && s[0] == '{' then
      var (n, t) := NameRun(s[1..]);
      if t != [] && t[0] == '}' then Var(n, t[1..]) else Unbalanced(t)
    else
      var (n, t) := NameRun(s);
      Var(n, t)
  }

  /** One round of the loop of parse on a non-empty text: the final single
      character; a variable and the text after it; a text run; or an
      unbalanced brace. */
  datatype Round = Last(tail: string) | More(got: seq<Node>, rest: string) | Broken(rest: string)

  function RoundOf(s: string): (r: Round)
    requires s != []
    ensures r.More? ==> |r.rest| < |s|
  {
    if |s| < 2 then Last(s)
    else if StartsVariable(s) then
      match VariableFrom(s[1..])
      case Unbalanced(t) => Broken(t)
      case Var(n, t) =>
        var (x, u) := TextFrom(t, false);
        More([VariableNode(n), TextNode(x)], u)
    else
      var (x, u) := TextFrom(s, false);
      More([TextNode(x)], u)
  }

  /** The nodes parse leaves, the error it throws, and the text it leaves
      unread. */
  datatype Parsed = Parsed(nodes: seq<Node>, err: Option<string>, left: string)

  function NodesFrom(s: string, acc: seq<Node>): Parsed
    decreases |s|
  {
    if s == [] then Parsed(acc, None, s)
    else
      match RoundOf(s)
      case Last(t) => Parsed(acc + [TextNode(t)], None, t)
      case Broken(t) => Parsed(acc, Some(UnbalancedBrace), t)
      case More(got, u) => NodesFrom(u, acc + got)
  }

  function NodesOf(text: string): Parsed
  {
    NodesFrom(text, [])
  }

  // ---- render and variables ----

  /** data[name] || "": a missing name and an empty value both give "". */
  function Lookup(data: map<string, string>, name: string): string
  {
    if name in data then data[name] else ""
  }

  /** render: the text nodes as they are, each variable by its value. */
  function Render(nodes: seq<Node>, data: map<string, string>): string
  {
    if nodes == [] then ""
    else (if nodes[0].TextNode? then nodes[0].value else Lookup(data, nodes[0].value)) + Render(nodes[1..], data)
  }

  /** The names of the variable nodes, in order, repeats included. */
  function Names(nodes: seq<Node>): seq<string>
  {
    if nodes == [] then []
    else
      var last := nodes[|nodes| - 1];
      Names(nodes[..|nodes| - 1]) + (if last.VariableNode? then [last.value] else [])
  }

  /** variables: the reduce over the nodes that appends each variable's name
      unless the list already holds it. */
  function Variables(nodes: seq<Node>): seq<string>
  {
    if nodes == [] then []
    else
      var vars := Variables(nodes[..|nodes| - 1]);
      var last := nodes[|nodes| - 1];
      if last.VariableNode? && last.value !in vars then vars + [last.value] else vars
  }

  // ---- the engine ----

  class Template {
    /** The text not read yet. */
    var s: string
    var nodes: seq<Node>

    constructor ()
      ensures s == "" && nodes == []
    {
      s, nodes := "", [];
    }

    /** discard: drop the first character, if any. */
    method Discard()
      modifies this
      ensures s == if old(s) == [] then [] else old(s)[1..]
      ensures nodes == old(nodes)
    {
      if s != [] {
        s := s[1..];
      }
    }

    /** peek: the first n characters, or the whole text if shorter. */
    method Peek(n: nat) returns (next: string)
      ensures next == s[..if n < |s| then n else |s|]
    {
      next := s[..if n < |s| then n else |s|];
    }

    /** read: the first character, or "" at the end. */
    method Read() returns (c: string)
      modifies this
      ensures old(s) == [] ==> c == "" && s == []
      ensures old(s) != [] ==> c == [old(s)[0]] && s == old(s)[1..]
      ensures nodes == old(nodes)
    {
      if s == [] {
        return "";
      }
      c := [s[0]];
      s := s[1..];
    }

    /** unread: put c back in front. */
    method Unread(c: string)
      modifies this
      ensures s == c + old(s) && nodes == old(nodes)
    {
      s := c + s;
    }

    /** readText: the text up to the next variable whose dollar does not
        follow a backslash, or to the end. */
    method ReadText() returns (node: Node)
      modifies this
      ensures node == TextNode(TextFrom(old(s), false).0) && s == TextFrom(old(s), false).1
      ensures nodes == old(nodes)
    {
      ghost var whole := TextFrom(s, false);
      var prev := "";
      var value := "";
      assert value + whole.0 == whole.0;
      while true
        invariant nodes == old(nodes)
        invariant value + TextFrom(s, prev == "\\").0 == whole.0 && TextFrom(s, prev == "\\").1 == whole.1
        decreases |s|
      {
        ghost var before := s;
        var c := Read();
        if c == "" {
          assert value + "" == value;
          break;
        }
        if c == "$" && prev != "\\" {
          Unread(c);
          var next := Peek(2);
          if |next| == 2 && (IsVariableChar(next[1]) || next[1] == '{') {
            assert StartsVariable(s) && value + "" == value;
            break;
          }
          Discard();
        }
        TextStep(before, prev == "\\", value);
        value := value + c;
        prev := c;
      }
      node := TextNode(value);
    }

    /** readVariable, just past the dollar: ${name} or name. */
    method ReadVariable() returns (r: Result<Node>)
      modifies this
      ensures match VariableFrom(old(s))
        case Var(n, t) => r == Ok(VariableNode(n)) && s == t
        case Unbalanced(t) => r == Err(UnbalancedBrace) && s == t
      ensures nodes == old(nodes)
    {
      var lbrace := false;
      var next := Peek(1);
      if next == "{" {
        lbrace := true;
        Discard();
      }
      var value, rbrace := ReadName(lbrace);
      if lbrace && !rbrace {
        return Err(UnbalancedBrace);
      }
      return Ok(VariableNode(value));
    }

    /** The loop of readVariable: identifier characters, up to the closing
        brace when there was an opening one, or up to the first other
        character, which is unread. */
    method ReadName(lbrace: bool) returns (value: string, rbrace: bool)
      modifies this
      ensures var (n, t) := NameRun(old(s));
        && value == n
        && (rbrace <==> lbrace && t != [] && t[0] == '}')
        && s == if rbrace then t[1..] else t
      ensures nodes == old(nodes)
    {
      value, rbrace := "", false;
      assert value + NameRun(s).0 == NameRun(s).0;
      while true
        invariant nodes == old(nodes)
        invariant NameRun(old(s)) == (value + NameRun(s).0, NameRun(s).1)
        invariant !rbrace
        decreases |s|
      {
        ghost var before := s;
        var c := Read();
        if c == "" {
          return;
        }
        if lbrace && c == "}" {
          rbrace := true;
          return;
        } else if IsVariableChar(c[0]) {
          assert value + NameRun(before).0 == (value + c) + NameRun(s).0;
          value := value + c;
        } else {
          Unread(c);
          return;
        }
      }
    }

    /** parse: the nodes of text, replacing those of any earlier parse; an
        unbalanced brace is thrown, and the nodes read before it stay. */
    method Parse(text: string) returns (err: Option<string>)
      modifies this
      ensures var p := NodesOf(text); nodes == p.nodes && err == p.err && s == p.left
    {
      s, nodes := text, [];
      while |s| > 0
        invariant NodesFrom(s, nodes) == NodesOf(text)
        decreases |s|
      {
        var done;
        done, err := ParseRound();
        if done {
          return;
        }
      }
      err := None;
    }

    /** One round of the loop of parse. */
    method ParseRound() returns (done: bool, err: Option<string>)
      requires s != []
      modifies this
      ensures match RoundOf(old(s))
        case Last(t) => done && err == None && nodes == old(nodes) + [TextNode(t)] && s == t
        case Broken(t) => done && err == Some(UnbalancedBrace) && nodes == old(nodes) && s == t
        case More(got, u) => !done && nodes == old(nodes) + got && s == u
    {
      var next := Peek(2);
      if |next| < 2 {
        assert next == s;
        nodes := nodes + [TextNode(next)];
        return true, None;
      }
      if next[0] == '$' && (IsVariableChar(next[1]) || next[1] == '{') {
        assert StartsVariable(s);
        Discard();
        var r := ReadVariable();
        if r.Err? {
          return true, Some(r.error);
        }
        nodes := nodes + [r.value];
      }
      var node := ReadText();
      nodes := nodes + [node];
      return false, None;
    }
  }

  /** renderTemplate: the text with each variable replaced by its value;
      an unbalanced brace is thrown. */
  method RenderTemplate(text: string, data: map<string, string>) returns (r: Result<string>)
    ensures r == Expand(text, data, false)
  {
    var tmpl := new Template();
    var err := tmpl.Parse(text);
    RenderIsExpand(text, data);
    if err.Some? {
      return Err(err.value);
    }
    return Ok(Render(tmpl.nodes, data));
  }

  /** parseVariables: the variables of the text, each once, in the order of
      their first appearance; an unbalanced brace is thrown. */
  method ParseVariables(text: string) returns (r: Result<seq<string>>)
    ensures var p := NodesOf(text);
      if p.err.Some? then r == Err(UnbalancedBrace) else r == Ok(Variables(p.nodes))
  {
    var tmpl := new Template();
    var err := tmpl.Parse(text);
    ErrorIsBrace(text, []);
    if err.Some? {
      return Err(err.value);
    }
    return Ok(Variables(tmpl.nodes));
  }

  // ---- rendering as one pass over the text ----

  /** p in front of a rendered text; an error stays. */
  function Then(p: string, r: Result<string>): Result<string>
  {
    if r.Ok? then Ok(p + r.value) else r
  }

  /** The substitution the engine performs, read off the text in one pass:
      an unescaped $name or ${name} becomes its value, an unbalanced brace
      is an error, every other character stays. */
  function Expand(s: string, data: map<string, string>, escaped: bool): Result<string>
    decreases |s|
  {
    if s == [] then Ok("")
    else if !escaped && StartsVariable(s) then
      match VariableFrom(s[1..])
      case Unbalanced(_) => Err(UnbalancedBrace)
      case Var(n, t) => Then(Lookup(data, n), Expand(t, data, false))
    else Then([s[0]], Expand(s[1..], data, s[0] == '\\'))
  }

  /** One character of a text run. */
  lemma TextStep(t: string, escaped: bool, value: string)
    requires t != [] && (escaped || !StartsVariable(t))
    ensures var r := TextFrom(t[1..], t[0] == '\\');
      && TextFrom(t, escaped).1 == r.1
      && value + TextFrom(t, escaped).0 == (value + [t[0]]) + r.0
  {
  }

  lemma ThenThen(a: string, b: string, r: Result<string>)
    ensures Then(a, Then(b, r)) == Then(a + b, r)
  {
    if r.Ok? {
      assert a + (b + r.value) == (a + b) + r.value;
    }
  }

  lemma {:induction false} RenderAppend(a: seq<Node>, b: seq<Node>, data: map<string, string>)
    ensures Render(a + b, data) == Render(a, data) + Render(b, data)
  {
    if a != [] {
      assert (a + b)[1..] == a[1..] + b;
      RenderAppend(a[1..], b, data);
    } else {
      assert a + b == b;
    }
  }

  /** A text run renders as itself, in front of what follows it. */
  lemma {:induction false} TextExpand(s: string, escaped: bool, data: map<string, string>)
    ensures Expand(s, data, escaped) == Then(TextFrom(s, escaped).0, Expand(TextFrom(s, escaped).1, data, false))
    decreases |s|
  {
    if s == [] {
      assert "" + "" == "";
    } else if !escaped && StartsVariable(s) {
      assert TextFrom(s, escaped) == ("", s);
      var e := Expand(s, data, false);
      assert e.Ok? ==> "" + e.value == e.value;
    } else {
      TextExpand(s[1..], s[0] == '\\', data);
      var r := TextFrom(s[1..], s[0] == '\\');
      ThenThen([s[0]], r.0, Expand(r.1, data, false));
    }
  }

  lemma RenderOne(n: Node, data: map<string, string>)
    ensures Render([n], data) == if n.TextNode? then n.value else Lookup(data, n.value)
  {
    assert [n][1..] == [];
    var v := if n.TextNode? then n.value else Lookup(data, n.value);
    assert v + "" == v;
  }

  /** One round of parse renders as Expand reads the text it consumes. */
  lemma RoundExpand(s: string, data: map<string, string>)
    requires s != []
    ensures var r := RoundOf(s);
      && (r.Last? ==> Expand(s, data, false) == Ok(r.tail))
      && (r.Broken? ==> Expand(s, data, false) == Err(UnbalancedBrace))
      && (r.More? ==> Expand(s, data, false) == Then(Render(r.got, data), Expand(r.rest, data, false)))
  {
    if |s| < 2 {
      assert s[1..] == [] && [s[0]] + "" == s;
    } else if StartsVariable(s) {
      VariableRound(s, data);
    } else {
      var (x, u) := TextFrom(s, false);
      TextExpand(s, false, data);
      RenderOne(TextNode(x), data);
    }
  }

  lemma VariableRound(s: string, data: map<string, string>)
    requires StartsVariable(s)
    ensures var r := RoundOf(s);
      && (r.Broken? ==> Expand(s, data, false) == Err(UnbalancedBrace))
      && (r.More? ==> Expand(s, data, false) == Then(Render(r.got, data), Expand(r.rest, data, false)))
  {
    match VariableFrom(s[1..])
    case Unbalanced(_) =>
    case Var(n, t) =>
      var (x, u) := TextFrom(t, false);
      TextExpand(t, false, data);
      ThenThen(Lookup(data, n), x, Expand(u, data, false));
      var got := [VariableNode(n), TextNode(x)];
      assert got[1..] == [TextNode(x)];
      RenderOne(TextNode(x), data);
      assert Render(got, data) == Lookup(data, n) + x;
  }

  /** The nodes parse builds from s render as Expand reads s, and parse
      throws exactly where Expand fails. */
  lemma {:induction false} NodesExpand(s: string, acc: seq<Node>, data: map<string, string>)
    ensures var p := NodesFrom(s, acc); var e := Expand(s, data, false);
      && (p.err.Some? <==> e.Err?)
      && (p.err.Some? ==> p.err.value == e.error)
      && (e.Ok? ==> Render(p.nodes, data) == Render(acc, data) + e.value)
    decreases |s|
  {
    if s == [] {
      assert Render(acc, data) + "" == Render(acc, data);
    } else {
      match RoundOf(s)
      case Last(_) => LastAgrees(s, acc, data);
      case Broken(_) => RoundExpand(s, data);
      case More(got, u) =>
        NodesExpand(u, acc + got, data);
        MoreAgrees(s, acc, data);
    }
  }

  /** The statement of NodesExpand, for one text and one list of nodes
      already parsed. */
  predicate Agrees(s: string, acc: seq<Node>, data: map<string, string>)
  {
    var p := NodesFrom(s, acc); var e := Expand(s, data, false);
    && (p.err.Some? <==> e.Err?)
    && (p.err.Some? ==> p.err.value == e.error)
    && (e.Ok? ==> Render(p.nodes, data) == Render(acc, data) + e.value)
  }

  lemma LastAgrees(s: string, acc: seq<Node>, data: map<string, string>)
    requires s != [] && RoundOf(s).Last?
    ensures Agrees(s, acc, data)
  {
    var t := RoundOf(s).tail;
    RoundExpand(s, data);
    RenderAppend(acc, [TextNode(t)], data);
    RenderOne(TextNode(t), data);
  }

  lemma MoreAgrees(s: string, acc: seq<Node>, data: map<string, string>)
    requires s != [] && RoundOf(s).More?
    requires Agrees(RoundOf(s).rest, acc + RoundOf(s).got, data)
    ensures Agrees(s, acc, data)
  {
    var got, u := RoundOf(s).got, RoundOf(s).rest;
    RoundExpand(s, data);
    RenderAppend(acc, got, data);
    var e := Expand(u, data, false);
    if e.Ok? {
      assert (Render(acc, data) + Render(got, data)) + e.value == Render(acc, data) + (Render(got, data) + e.value);
    }
  }


  lemma {:induction false} ErrorIsBrace(s: string, acc: seq<Node>)
    ensures NodesFrom(s, acc).err.Some? ==> NodesFrom(s, acc).err == Some(UnbalancedBrace)
    decreases |s|
  {
    if s != [] && RoundOf(s).More? {
      ErrorIsBrace(RoundOf(s).rest, acc + RoundOf(s).got);
    }
  }

  /** renderTemplate is the one-pass substitution. */
  lemma RenderIsExpand(text: string, data: map<string, string>)
    ensures var p := NodesOf(text);
      && (p.err.Some? ==> Expand(text, data, false) == Err(p.err.value))
      && (p.err.None? ==> Expand(text, data, false) == Ok(Render(p.nodes, data)))
  {
    NodesExpand(text, [], data);
    var e := Expand(text, data, false);
    assert e.Ok? ==> Render([], data) + e.value == e.value;
  }

  /** Where no variable starts, the text renders unchanged. */
  lemma {:induction false} PlainExpand(s: string, data: map<string, string>, escaped: bool)
    requires forall k :: 0 <= k < |s| ==> !StartsVariable(s[k..])
    ensures Expand(s, data, escaped) == Ok(s)
    decreases |s|
  {
    if s != [] {
      assert !StartsVariable(s[0..]) && s[0..] == s;
      forall k | 0 <= k < |s[1..]|
        ensures !StartsVariable(s[1..][k..])
      {
        assert s[1..][k..] == s[k + 1..];
      }
      PlainExpand(s[1..], data, s[0] == '\\');
      assert [s[0]] + s[1..] == s;
    }
  }

  // ---- the readers' pieces ----

  /** The text node is the front of the text, and the rest follows it. */
  lemma {:induction false} TextSplits(s: string, escaped: bool)
    ensures TextFrom(s, escaped).0 + TextFrom(s, escaped).1 == s
    decreases |s|
  {
    if s != [] && (escaped || !StartsVariable(s)) {
      TextSplits(s[1..], s[0] == '\\');
      var r := TextFrom(s[1..], s[0] == '\\');
      assert TextFrom(s, escaped) == ([s[0]] + r.0, r.1);
      assert [s[0]] + r.0 + r.1 == [s[0]] + (r.0 + r.1);
      assert [s[0]] + s[1..] == s;
    } else if s != [] {
      assert "" + s == s;
    }
  }

  /** The name is the run of identifier characters at the front. */
  lemma {:induction false} NameRunAt(name: string, rest: string)
    requires AllVariableChars(name) && (rest == [] || !IsVariableChar(rest[0]))
    ensures NameRun(name + rest) == (name, rest)
    decreases |name|
  {
    if name == [] {
      assert name + rest == rest;
    } else {
      assert (name + rest)[1..] == name[1..] + rest;
      NameRunAt(name[1..], rest);
      assert [name[0]] + name[1..] == name;
    }
  }

  /** With no dollar in it, the text is one text run to the end. */
  lemma {:induction false} TextToEnd(s: string, escaped: bool)
    requires forall k :: 0 <= k < |s| ==> s[k] != '$'
    ensures TextFrom(s, escaped) == (s, "")
    decreases |s|
  {
    if s != [] {
      TextToEnd(s[1..], s[0] == '\\');
      assert [s[0]] + s[1..] == s;
    }
  }

  /** Where no variable starts, the text is one text run to the end. */
  lemma {:induction false} TextToEndNoVariable(s: string, escaped: bool)
    requires forall k :: 0 <= k < |s| ==> !StartsVariable(s[k..])
    ensures TextFrom(s, escaped) == (s, "")
    decreases |s|
  {
    if s != [] {
      assert s[0..] == s;
      forall k | 0 <= k < |s[1..]|
        ensures !StartsVariable(s[1..][k..])
      {
        assert s[1..][k..] == s[k + 1..];
      }
      TextToEndNoVariable(s[1..], s[0] == '\\');
      assert [s[0]] + s[1..] == s;
    }
  }

  // ---- what parse builds ----

  /** The empty text gives no nodes; a single character, one text node that
      parse leaves unread. */
  lemma ShortTexts(c: char)
    ensures NodesOf("") == Parsed([], None, "")
    ensures NodesOf([c]) == Parsed([TextNode([c])], None, [c])
  {
    assert [] + [TextNode([c])] == [TextNode([c])];
  }

  /** A text parse reads in one round leaves that round's nodes. */
  lemma OneRound(s: string, got: seq<Node>)
    requires s != [] && RoundOf(s) == More(got, "")
    ensures NodesOf(s) == Parsed(got, None, "")
  {
    assert NodesOf(s) == NodesFrom("", [] + got);
    assert [] + got == got;
  }

  /** A text in which no variable starts is one text node. */
  lemma PlainText(s: string)
    requires s != [] && forall k :: 0 <= k < |s| ==> !StartsVariable(s[k..])
    ensures NodesOf(s).nodes == [TextNode(s)] && NodesOf(s).err == None
  {
    if |s| >= 2 {
      assert s[0..] == s;
      TextToEndNoVariable(s, false);
      assert RoundOf(s) == More([TextNode(s)], "");
      OneRound(s, [TextNode(s)]);
    } else {
      assert [] + [TextNode(s)] == [TextNode(s)];
    }
  }

  /** $name is a variable node, and an empty text node from the readText
      that follows it. */
  lemma Dollar(name: string)
    requires name != "" && AllVariableChars(name)
    ensures NodesOf("$" + name) == Parsed([VariableNode(name), TextNode("")], None, "")
  {
    var s := "$" + name;
    assert s[1..] == name + "";
    NameRunAt(name, "");
    assert s[1] == name[0] && StartsVariable(s);
    assert RoundOf(s) == More([VariableNode(name), TextNode("")], "");
    OneRound(s, [VariableNode(name), TextNode("")]);
  }

  /** ${name} is the variable too, the empty name included. */
  lemma Braced(name: string)
    requires AllVariableChars(name)
    ensures NodesOf("${" + name + "}") == Parsed([VariableNode(name), TextNode("")], None, "")
  {
    var s := "${" + name + "}";
    assert s[1..][1..] == name + "}";
    NameRunAt(name, "}");
    assert StartsVariable(s);
    assert VariableFrom(s[1..]) == Var(name, "");
    assert RoundOf(s) == More([VariableNode(name), TextNode("")], "");
    OneRound(s, [VariableNode(name), TextNode("")]);
  }

  /** An opening brace with no closing one right after the identifier
      characters throws "unbalanced brace". */
  lemma UnclosedBrace(name: string, c: char, rest: string)
    requires AllVariableChars(name) && !IsVariableChar(c) && c != '}'
    ensures NodesOf("${" + name) == Parsed([], Some(UnbalancedBrace), "")
    ensures NodesOf("${" + name + [c] + rest) == Parsed([], Some(UnbalancedBrace), [c] + rest)
  {
    var s := "${" + name;
    assert s[1..][1..] == name + "";
    NameRunAt(name, "");
    assert StartsVariable(s) && VariableFrom(s[1..]) == Unbalanced("");
    var t := "${" + name + [c] + rest;
    assert t[1..][1..] == name + ([c] + rest);
    NameRunAt(name, [c] + rest);
    assert StartsVariable(t) && VariableFrom(t[1..]) == Unbalanced([c] + rest);
  }

  /** A backslash before the dollar keeps both in the text node. */
  lemma Escaped(name: string)
    requires name != "" && AllVariableChars(name)
    ensures NodesOf("\\$" + name).nodes == [TextNode("\\$" + name)]
    ensures NodesOf("\\$" + name).err == None
  {
    var s := "\\$" + name;
    var t := s[1..];
    assert t == "$" + name && t[1..] == name && t[0] == '$';
    TextToEnd(name, false);
    assert TextFrom(t, true) == ([t[0]] + name, "");
    assert [t[0]] + name == t;
    assert !StartsVariable(s);
    assert TextFrom(s, false) == ([s[0]] + t, "");
    assert [s[0]] + t == s;
    assert RoundOf(s) == More([TextNode(s)], "");
    OneRound(s, [TextNode(s)]);
  }

  /** A dollar before a character that starts no identifier and no brace
      is literal text. */
  lemma LiteralDollar(c: char, rest: string)
    requires !IsVariableChar(c) && c != '{' && c != '$' && forall k :: 0 <= k < |rest| ==> rest[k] != '$'
    ensures NodesOf("$" + [c] + rest).nodes == [TextNode("$" + [c] + rest)]
    ensures NodesOf("$" + [c] + rest).err == None
  {
    var s := "$" + [c] + rest;
    var t := s[1..];
    assert t == [c] + rest;
    forall k | 0 <= k < |t|
      ensures t[k] != '$'
    {
      if k > 0 {
        assert t[k] == rest[k - 1];
      }
    }
    TextToEnd(t, false);
    assert !StartsVariable(s);
    assert TextFrom(s, false) == ([s[0]] + t, "");
    assert [s[0]] + t == s;
    assert RoundOf(s) == More([TextNode(s)], "");
    OneRound(s, [TextNode(s)]);
  }

  // ---- what renderTemplate gives ----

  /** $name renders as its value; a missing name and an empty value both
      render as "". */
  lemma RenderDollar(name: string, data: map<string, string>)
    requires name != "" && AllVariableChars(name)
    ensures name in data ==> Expand("$" + name, data, false) == Ok(data[name])
    ensures name !in data ==> Expand("$" + name, data, false) == Ok("")
  {
    var s := "$" + name;
    assert s[1..] == name + "";
    NameRunAt(name, "");
    assert s[1] == name[0] && StartsVariable(s);
    assert VariableFrom(s[1..]) == Var(name, "");
    var v := Lookup(data, name);
    assert v + "" == v;
  }

  /** \$name renders as written, the backslash included. */
  lemma RenderEscaped(name: string, data: map<string, string>)
    requires name != "" && AllVariableChars(name)
    ensures Expand("\\$" + name, data, true) == Ok("\\$" + name)
    ensures Expand("\\$" + name, data, false) == Ok("\\$" + name)
  {
    var s := "\\$" + name;
    assert forall k :: 0 <= k < |name| ==> name[k] != '$';
    forall k | 0 <= k < |name|
      ensures !StartsVariable(name[k..])
    {
    }
    PlainExpand(name, data, false);
    assert s[1..][1..] == name;
    assert !StartsVariable(s);
    assert Expand(s[1..], data, true) == Then("$", Ok(name));
    assert "$" + name == s[1..];
    assert [s[0]] + s[1..] == s;
  }

  // ---- variables ----

  /** The first place x appears in xs. */
  function FirstIndex(xs: seq<string>, x: string): (k: nat)
    requires x in xs
    ensures k < |xs| && xs[k] == x && forall m :: 0 <= m < k ==> xs[m] != x
  {
    if xs[0] == x then 0 else 1 + FirstIndex(xs[1..], x)
  }

  lemma {:induction false} FirstIndexAppend(xs: seq<string>, ys: seq<string>, x: string)
    requires x in xs
    ensures FirstIndex(xs + ys, x) == FirstIndex(xs, x)
  {
    if xs[0] != x {
      assert (xs + ys)[1..] == xs[1..] + ys;
      FirstIndexAppend(xs[1..], ys, x);
    }
  }

  /** A name is among the variables exactly when some variable node holds
      it. */
  lemma {:induction false} VariablesNames(nodes: seq<Node>)
    ensures forall x :: x in Variables(nodes) <==> x in Names(nodes)
  {
    if nodes != [] {
      VariablesNames(nodes[..|nodes| - 1]);
    }
  }

  predicate Distinct(xs: seq<string>)
  {
    forall i, j :: 0 <= i < j < |xs| ==> xs[i] != xs[j]
  }

  /** Each name is listed once. */
  lemma {:induction false} VariablesDistinct(nodes: seq<Node>)
    ensures Distinct(Variables(nodes))
  {
    if nodes != [] {
      var p := nodes[..|nodes| - 1];
      VariablesDistinct(p);
      var r, r' := Variables(nodes), Variables(p);
      var last := nodes[|nodes| - 1];
      assert r == if last.VariableNode? && last.value !in r' then r' + [last.value] else r';
      forall i, j | 0 <= i < j < |r|
        ensures r[i] != r[j]
      {
        assert r[i] == r'[i];
        if j < |r'| {
          assert r[j] == r'[j];
          assert r'[i] != r'[j];
        } else {
          assert r[j] !in r';
          assert r'[i] in r';
        }
      }
    }
  }

  /** The names are listed in the order of their first appearance. */
  predicate FirstAppearanceOrder(r: seq<string>, names: seq<string>)
  {
    && (forall x :: x in r ==> x in names)
    && forall i, j :: 0 <= i < j < |r| ==> FirstIndex(names, r[i]) < FirstIndex(names, r[j])
  }

  lemma {:induction false} VariablesOrder(nodes: seq<Node>)
    ensures FirstAppearanceOrder(Variables(nodes), Names(nodes))
  {
    VariablesNames(nodes);
    if nodes != [] {
      var p := nodes[..|nodes| - 1];
      var last := nodes[|nodes| - 1];
      VariablesOrder(p);
      VariablesNames(p);
      var r, r' := Variables(nodes), Variables(p);
      assert r == if last.VariableNode? && last.value !in r' then r' + [last.value] else r';
      var names, names' := Names(nodes), Names(p);
      var extra := if last.VariableNode? then [last.value] else [];
      assert names == names' + extra;
      forall i, j | 0 <= i < j < |r|
        ensures FirstIndex(names, r[i]) < FirstIndex(names, r[j])
      {
        assert r[i] == r'[i] && r[i] in names';
        FirstIndexAppend(names', extra, r[i]);
        if j < |r'| {
          assert r[j] == r'[j];
          FirstIndexAppend(names', extra, r[j]);
          assert FirstIndex(names', r'[i]) < FirstIndex(names', r'[j]);
        } else {
          assert r[j] == last.value && r[j] !in names';
        }
      }
    }
  }

  /** A text without variables has none to list. */
  lemma PlainVariables(s: string)
    requires forall k :: 0 <= k < |s| ==> !StartsVariable(s[k..])
    ensures Variables(NodesOf(s).nodes) == [] && NodesOf(s).err == None
  {
    if s != [] {
      PlainText(s);
      assert [TextNode(s)][..0] == [];
    }
  }
}
