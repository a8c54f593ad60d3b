// The Go template engine (pkg/template): a text split into text nodes and
// variable nodes, $name or ${name}, read byte by byte through a
// bufio.Reader with one byte of unread.
//
// The functions below say where each node of the text ends; the class
// Template runs the engine's loops over its fields and is proved to build
// exactly those nodes.
module GoTemplate {
  import opened Wrappers
  import opened Tokens
  import L = Lexing
  import Sets
  import Sorting

  datatype Node = TextNode(text: string) | VariableNode(name: string)

  /** isVariableChar: ASCII letters, digits and underscore. */
  predicate IsVariableChar(c: char)
  {
    'a' <= c <= 'z' || 'A' <= c <= 'Z' || '0' <= c <= '9' || c == '_'
  }

  /** The value of Go's zero byte, which readText takes as the byte before
      its first one. */
  const NoByte: char := '\0'

  /** A variable starts at i: a dollar followed by an identifier character
      or an opening brace. */
  predicate StartsVariable(s: string, i: nat)
  {
    i + 1 < |s| && s[i] == '$' && (IsVariableChar(s[i + 1]) || s[i + 1] == '{')
  }

  // ---- what the readers consume ----

  /** Where readText stops when it reads from i and prev is the byte before
      i: at the end, or before a variable whose dollar is not escaped. */
  function TextEnd(s: string, i: nat, prev: char): (j: nat)
    requires i <= |s|
    ensures i <= j <= |s|
    ensures j == i ==> i == |s| || (prev != '\\' && StartsVariable(s, i))
    decreases |s| - i
  {
    if i == |s| then i
    else if s[i] == '$' && prev != '\\' && StartsVariable(s, i) then i
    else TextEnd(s, i + 1, s[i])
  }

  /** The end of the run of identifier characters from i. */
  function NameEnd(s: string, i: nat): (j: nat)
    requires i <= |s|
    ensures i <= j <= |s| && (j < |s| ==> !IsVariableChar(s[j]))
    decreases |s| - i
  {
    if i == |s| || !IsVariableChar(s[i]) then i else NameEnd(s, i + 1)
  }

  datatype Var = Var(name: string, next: nat) | Unbalanced(brace: nat)

  /** What readVariable reads from i, just past the dollar: ${name} with
      the closing brace right after the identifier characters, or else
      the unbalanced brace at i; or the identifier characters alone. */
  function VariableAt(s: string, i: nat): (r: Var)
    requires i <= |s|
    ensures r.Var? ==> i <= r.next <= |s|
    ensures r.Var? && i < |s| && (IsVariableChar(s[i]) || s[i] == '{') ==> r.next > i
  {
    if i < |s| && s[i] == '{' then
      var j := NameEnd(s, i + 1);
      if j < |s| && s[j] == '}' then Var(s[i + 1..j], j + 1) else Unbalanced(i)
    else
      var j := NameEnd(s, i);
      Var(s[i..j], j)
  }

  function UnbalancedBrace(p: Position): string
  {
    "unbalanced brace at " + PositionString(p)
  }

  /** One round of the loop of Parse at i: the last node, if a single byte
      is left; or the next node and where the round after starts; or an
      unbalanced brace. */
  datatype Round = Last(tail: seq<Node>) | More(node: Node, next: nat) | Broken(brace: nat)

  function RoundAt(s: string, i: nat): (r: Round)
    requires i <= |s|
    ensures r.More? ==> i < r.next <= |s|
  {
    if i + 2 > |s| then Last(if i < |s| then [TextNode(s[i..])] else [])
    else if StartsVariable(s, i) then
      var v := VariableAt(s, i + 1);
      if v.Unbalanced? then Broken(v.brace) else More(VariableNode(v.name), v.next)
    else
      var j := TextEnd(s, i, NoByte);
      More(TextNode(s[i..j]), j)
  }

  datatype Parsed = Parsed(nodes: seq<Node>, err: Option<string>)

  /** The nodes Parse appends from i on, after acc. On an unbalanced brace
      the nodes built so far stay. */
  function NodesFrom(s: string, i: nat, acc: seq<Node>): Parsed
    requires i <= |s|
    decreases |s| - i
  {
    match RoundAt(s, i)
    case Last(tail) => Parsed(acc + tail, None)
    case Broken(b) => Parsed(acc, Some(UnbalancedBrace(L.PosAt(s, b))))
    case More(node, j) => NodesFrom(s, j, acc + [node])
  }

  function NodesOf(s: string): Parsed
  {
    NodesFrom(s, 0, [])
  }

  /** The names of the variable nodes, in order. */
  function Names(nodes: seq<Node>): seq<string>
  {
    if nodes == [] then []
    else (if nodes[0].VariableNode? then [nodes[0].name] else []) + Names(nodes[1..])
  }

  // ---- the engine ----

  class Template {
    /** The text of the last Parse, which the reader reads. */
    var text: string
    /** The reader: the bytes consumed, and whether it accepts UnreadByte
        (bufio.Reader does only right after ReadByte). */
    var off: nat
    var canUnread: bool
    var pos: Position
    var last: Position
    var nodes: seq<Node>

    ghost predicate Valid()
      reads this
    {
      off <= |text| && (canUnread ==> off > 0)
      && pos == L.PosAt(text, off) && (canUnread ==> last == L.PosAt(text, off - 1))
    }

    /** New: no nodes. */
    constructor New()
      ensures Valid() && nodes == [] && text == ""
    {
      text, off, canUnread := "", 0, false;
      pos, last := Position(1, 1), Position(0, 0);
      nodes := [];
    }

    /** read: the next byte, advancing the position; at the end of the text
        nothing changes. */
    method Read() returns (b: char, eof: bool)
      requires Valid()
      modifies this
      ensures Valid() && text == old(text) && nodes == old(nodes)
      ensures eof <==> old(off) == |text|
      ensures eof ==> off == old(off) && canUnread == old(canUnread) && pos == old(pos) && last == old(last)
      ensures !eof ==> b == text[old(off)] && off == old(off) + 1 && canUnread
    {
      if off == |text| {
        return NoByte, true;
      }
      b, eof := text[off], false;
      off, canUnread := off + 1, true;
      last := pos;
      if b == '\n' {
        pos := Position(pos.line + 1, 1);
      } else {
        pos := Position(pos.line, pos.column + 1);
      }
    }

    /** unread: back over the byte just read, with its position. */
    method Unread()
      requires Valid()
      modifies this
      ensures Valid() && text == old(text) && nodes == old(nodes) && !canUnread
      ensures off == if old(canUnread) then old(off) - 1 else old(off)
    {
      if canUnread {
        off, canUnread := off - 1, false;
        PositionLine(text, off);
        if last.line != 0 {
          pos := last;
        }
      }
    }

    /** peek: the next n bytes without consuming them, or fewer with io.EOF;
        afterwards the reader refuses an unread. */
    method Peek(n: nat) returns (next: string, eof: bool)
      requires Valid()
      modifies this
      ensures Valid() && text == old(text) && nodes == old(nodes) && off == old(off) && !canUnread
      ensures eof <==> off + n > |text|
      ensures next == text[off..if eof then |text| else off + n]
    {
      canUnread := false;
      eof := off + n > |text|;
      next := text[off..if eof then |text| else off + n];
    }

    method Discard()
      requires Valid()
      modifies this
      ensures Valid() && text == old(text) && nodes == old(nodes)
      ensures off == if old(off) < |text| then old(off) + 1 else old(off)
    {
      var _, _ := Read();
    }

    /** readText: the bytes up to the next variable whose dollar is not
        preceded by a backslash, or to the end. */
    method ReadText() returns (node: Node)
      requires Valid()
      modifies this
      ensures Valid() && text == old(text) && nodes == old(nodes)
      ensures off == TextEnd(text, old(off), NoByte) && node == TextNode(text[old(off)..off])
    {
      var start := off;
      var prev := NoByte;
      var buf := "";
      while true
        invariant Valid() && text == old(text) && nodes == old(nodes) && start <= off
        invariant buf == text[start..off] && prev == (if off == start then NoByte else text[off - 1])
        invariant TextEnd(text, start, NoByte) == TextEnd(text, off, prev)
        decreases |text| - off
      {
        ghost var at := off;
        var c, eof := Read();
        if eof {
          break;
        }
        if c == '$' && prev != '\\' {
          var stop := DollarStops(at);
          if stop {
            break;
          }
        }
        assert off == at + 1 && c == text[at];
        TextEndStep(text, at, prev);
        SliceExtend(text, start, at);
        buf := buf + [c];
        prev := c;
      }
      node := TextNode(buf);
    }

    /** The dollar just read at `at` is put back and the two bytes from it
        peeked: readText stops before it when a variable starts there, and
        otherwise reads it again. */
    method DollarStops(ghost at: nat) returns (stop: bool)
      requires Valid() && canUnread && off == at + 1 && text[at] == '$'
      modifies this
      ensures Valid() && text == old(text) && nodes == old(nodes)
      ensures stop <==> StartsVariable(text, at)
      ensures off == if stop then at else at + 1
    {
      Unread();
      var next, peof := Peek(2);
      if !peof && (IsVariableChar(next[1]) || next[1] == '{') {
        return true;
      }
      Discard();
      return false;
    }

    /** readVariable: ${name} or name, just past the dollar. */
    method ReadVariable() returns (r: Result<Node>)
      requires Valid()
      modifies this
      ensures Valid() && text == old(text) && nodes == old(nodes)
      ensures var v := VariableAt(text, old(off));
        if v.Var? then r == Ok(VariableNode(v.name)) && off == v.next
        else r == Err(UnbalancedBrace(L.PosAt(text, v.brace)))
    {
      var start := off;
      var lbrace := false;
      var bracePos := Position(0, 0);
      var next, peof := Peek(1);
      if !peof && next[0] == '{' {
        lbrace, bracePos := true, pos;
        Discard();
      }
      var buf, rbrace := ReadName(lbrace);
      if lbrace && !rbrace {
        return Err(UnbalancedBrace(bracePos));
      }
      return Ok(VariableNode(buf));
    }

    /** The loop of readVariable: identifier characters up to the closing
        brace when there was an opening one, or up to the first other byte,
        which is unread. */
    method ReadName(lbrace: bool) returns (buf: string, rbrace: bool)
      requires Valid()
      modifies this
      ensures Valid() && text == old(text) && nodes == old(nodes)
      ensures var j := NameEnd(text, old(off));
        && buf == text[old(off)..j]
        && (rbrace <==> lbrace && j < |text| && text[j] == '}')
        && off == if rbrace then j + 1 else j
    {
      ghost var s := text;
      var from := off;
      buf, rbrace := "", false;
      while true
        invariant Valid() && text == s && nodes == old(nodes)
        invariant from <= off && buf == s[from..off] && NameEnd(s, from) == NameEnd(s, off)
        invariant !rbrace
        decreases |s| - off
      {
        ghost var at := off;
        var c, eof := Read();
        if eof {
          return;
        }
        assert off == at + 1 && c == s[at];
        if lbrace && c == '}' {
          rbrace := true;
          return;
        } else if IsVariableChar(c) {
          assert s[from..off] == buf + [c];
          buf := buf + [c];
        } else {
          Unread();
          return;
        }
      }
    }

    /** Parse: the nodes of text, replacing those of any earlier parse. */
    method Parse(s: string) returns (err: Option<string>)
      modifies this
      ensures text == s && nodes == NodesOf(s).nodes && err == NodesOf(s).err
    {
      text, off, canUnread := s, 0, false;
      pos := Position(1, 1);
      nodes := [];
      var done := false;
      err := None;
      while !done
        invariant Valid() && text == s
        invariant !done ==> NodesFrom(s, off, nodes) == NodesOf(s)
        invariant done ==> nodes == NodesOf(s).nodes && err == NodesOf(s).err
        decreases !done, |text| - off
      {
        ghost var at, before := off, nodes;
        done, err := ParseNode();
        assert NodesFrom(s, at, before) == NodesOf(s);
      }
    }

    /** One round of the loop of Parse: the final byte, or a variable, or a
        text run; done when the text is used up or on an error. */
    method ParseNode() returns (done: bool, err: Option<string>)
      requires Valid()
      modifies this
      ensures Valid() && text == old(text)
      ensures var r := RoundAt(text, old(off));
        && (r.Last? ==> done && nodes == old(nodes) + r.tail && err == None)
        && (r.Broken? ==> done && nodes == old(nodes) && err == Some(UnbalancedBrace(L.PosAt(text, r.brace))))
        && (r.More? ==> !done && nodes == old(nodes) + [r.node] && off == r.next)
    {
      var next, eof := Peek(2);
      if eof {
        assert next == text[off..];
        if |next| > 0 {
          nodes := nodes + [TextNode(next)];
        }
        return true, None;
      }
      if next[0] == '$' && (IsVariableChar(next[1]) || next[1] == '{') {
        assert StartsVariable(text, off);
        Discard();
        var r := ReadVariable();
        if r.Err? {
          return true, Some(r.error);
        }
        nodes := nodes + [r.value];
        return false, None;
      }
      var node := ReadText();
      nodes := nodes + [node];
      return false, None;
    }

    /** Variables: the names of the variable nodes, each once, sorted. */
    method Variables() returns (r: seq<string>)
      ensures Sorting.StrictlySorted(r) && Sets.Elems(r) == Sets.Elems(Names(nodes))
    {
      var keys := new Sets.Set<string>.New([]);
      var i := 0;
      while i < |nodes|
        invariant 0 <= i <= |nodes| && keys.entries == Sets.Elems(Names(nodes[..i]))
      {
        NamesAppend(nodes[..i], nodes[i]);
        assert nodes[..i + 1] == nodes[..i] + [nodes[i]];
        if nodes[i].VariableNode? {
          keys.Add([nodes[i].name]);
        }
        i := i + 1;
      }
      assert nodes[..i] == nodes;
      var result := Sets.StringSlice(keys);
      r := Sorting.SortStrings(result);
      Sorting.DistinctPermutation(result, r);
      Sorting.SortedDistinctIsStrict(r);
      assert Sets.Elems(r) == Sets.Elems(result) by {
        assert forall v :: v in r <==> v in multiset(r);
      }
    }
  }

  lemma {:induction false} NameEndAt(s: string, i: nat, j: nat)
    requires i <= j <= |s| && (forall k :: i <= k < j ==> IsVariableChar(s[k]))
    requires j < |s| ==> !IsVariableChar(s[j])
    ensures NameEnd(s, i) == j
    decreases j - i
  {
    if i < j {
      NameEndAt(s, i + 1, j);
    }
  }

  lemma {:induction false} PositionLine(text: string, i: nat)
    requires i <= |text|
    ensures L.PosAt(text, i).line >= 1
  {
    if i > 0 {
      PositionLine(text, i - 1);
    }
  }

  lemma {:induction false} NamesAppend(nodes: seq<Node>, n: Node)
    ensures Names(nodes + [n]) == Names(nodes) + (if n.VariableNode? then [n.name] else [])
  {
    if nodes != [] {
      assert (nodes + [n])[1..] == nodes[1..] + [n];
      NamesAppend(nodes[1..], n);
    } else {
      assert [n][1..] == [];
    }
  }

  // ---- properties of the nodes ----

  predicate AllVariableChars(name: string)
  {
    forall k :: 0 <= k < |name| ==> IsVariableChar(name[k])
  }

  predicate TextsNonEmpty(nodes: seq<Node>)
  {
    forall k :: 0 <= k < |nodes| ==> nodes[k].TextNode? ==> nodes[k].text != ""
  }

  /** readText always consumes at least one byte, so no text node is
      empty. */
  lemma {:induction false} NodesFromTexts(s: string, i: nat, acc: seq<Node>)
    requires i <= |s| && TextsNonEmpty(acc)
    ensures TextsNonEmpty(NodesFrom(s, i, acc).nodes)
    decreases |s| - i
  {
    var r := RoundAt(s, i);
    if r.More? {
      NodesFromTexts(s, r.next, acc + [r.node]);
    }
  }

  lemma TextNodesNonEmpty(s: string)
    ensures TextsNonEmpty(NodesOf(s).nodes)
  {
    NodesFromTexts(s, 0, []);
  }

  /** readText goes past a byte that does not start an unescaped variable. */
  lemma TextEndStep(s: string, i: nat, prev: char)
    requires i < |s| && !(s[i] == '$' && prev != '\\' && StartsVariable(s, i))
    ensures TextEnd(s, i, prev) == TextEnd(s, i + 1, s[i])
  {
  }

  lemma SliceExtend(s: string, i: nat, j: nat)
    requires i <= j < |s|
    ensures s[i..j + 1] == s[i..j] + [s[j]]
  {
  }

  /** With no dollar from i on, readText reads to the end. */
  lemma {:induction false} TextToEnd(s: string, i: nat, prev: char)
    requires i <= |s| && forall k :: i <= k < |s| ==> s[k] != '$'
    ensures TextEnd(s, i, prev) == |s|
    decreases |s| - i
  {
    if i < |s| {
      TextToEnd(s, i + 1, s[i]);
    }
  }

  /** Where no variable starts, readText reads to the end. */
  lemma {:induction false} TextToEndNoVariable(s: string, i: nat, prev: char)
    requires i <= |s| && forall k :: i <= k < |s| ==> !StartsVariable(s, k)
    ensures TextEnd(s, i, prev) == |s|
    decreases |s| - i
  {
    if i < |s| {
      TextToEndNoVariable(s, i + 1, s[i]);
    }
  }

  /** Parse of the empty text gives no nodes; of a single byte, a text node. */
  lemma ShortTexts(c: char)
    ensures NodesOf("") == Parsed([], None)
    ensures NodesOf([c]) == Parsed([TextNode([c])], None)
  {
    assert [c][0..] == [c];
  }

  /** A text in which no variable starts is one text node. */
  lemma PlainText(s: string)
    requires s != "" && forall k :: 0 <= k < |s| ==> !StartsVariable(s, k)
    ensures NodesOf(s) == Parsed([TextNode(s)], None)
  {
    if |s| >= 2 {
      TextToEndNoVariable(s, 0, NoByte);
      assert s[0..|s|] == s;
      assert RoundAt(s, 0) == More(TextNode(s), |s|);
      assert RoundAt(s, |s|) == Last([]);
      assert [] + [TextNode(s)] == [TextNode(s)] == [TextNode(s)] + [];
      assert NodesFrom(s, |s|, [TextNode(s)]) == Parsed([TextNode(s)], None);
    } else {
      assert s[0..] == s;
    }
  }

  /** $name is the variable name. */
  lemma Dollar(name: string)
    requires name != "" && AllVariableChars(name)
    ensures NodesOf("$" + name) == Parsed([VariableNode(name)], None)
  {
    var s := "$" + name;
    assert s[1] == name[0];
    NameEndAt(s, 1, |s|);
    assert s[1..|s|] == name;
    assert StartsVariable(s, 0);
    assert VariableAt(s, 1) == Var(name, |s|);
    assert RoundAt(s, 0) == More(VariableNode(name), |s|);
    assert RoundAt(s, |s|) == Last([]);
    assert [] + [VariableNode(name)] == [VariableNode(name)] == [VariableNode(name)] + [];
    assert NodesFrom(s, |s|, [VariableNode(name)]) == Parsed([VariableNode(name)], None);
  }

  /** ${name} is the variable name too, the empty name included. */
  lemma Braced(name: string)
    requires AllVariableChars(name)
    ensures NodesOf("${" + name + "}") == Parsed([VariableNode(name)], None)
  {
    var s := "${" + name + "}";
    var j := 2 + |name|;
    NameEndAt(s, 2, j);
    assert s[j] == '}';
    assert s[2..j] == name;
    assert StartsVariable(s, 0);
    assert VariableAt(s, 1) == Var(name, |s|);
    assert RoundAt(s, 0) == More(VariableNode(name), |s|);
    assert RoundAt(s, |s|) == Last([]);
    assert [] + [VariableNode(name)] == [VariableNode(name)] == [VariableNode(name)] + [];
    assert NodesFrom(s, |s|, [VariableNode(name)]) == Parsed([VariableNode(name)], None);
  }

  /** An opening brace without the closing one right after the identifier
      characters is an error at the brace, here at 1:2. */
  lemma UnclosedBrace(name: string, c: char, rest: string)
    requires AllVariableChars(name) && !IsVariableChar(c) && c != '}'
    ensures NodesOf("${" + name) == Parsed([], Some("unbalanced brace at 1:2"))
    ensures NodesOf("${" + name + [c] + rest) == Parsed([], Some("unbalanced brace at 1:2"))
  {
    var s := "${" + name;
    NameEndAt(s, 2, |s|);
    var t := "${" + name + [c] + rest;
    NameEndAt(t, 2, 2 + |name|);
    assert StartsVariable(s, 0) && StartsVariable(t, 0);
    assert VariableAt(s, 1) == Unbalanced(1) && VariableAt(t, 1) == Unbalanced(1);
    assert RoundAt(s, 0) == Broken(1) && RoundAt(t, 0) == Broken(1);
    assert L.PosAt(s, 1) == Position(1, 2) && L.PosAt(t, 1) == Position(1, 2);
    assert PositionString(Position(1, 2)) == "1:2";
    assert UnbalancedBrace(Position(1, 2)) == "unbalanced brace at 1:2";
  }

  /** A backslash before the dollar keeps both in the text node. */
  lemma Escaped(name: string)
    requires name != "" && AllVariableChars(name)
    ensures NodesOf("\\$" + name) == Parsed([TextNode("\\$" + name)], None)
  {
    var s := "\\$" + name;
    TextToEnd(s, 2, '$');
    assert TextEnd(s, 0, NoByte) == |s|;
    assert s[0..|s|] == s;
    assert !StartsVariable(s, 0);
    assert RoundAt(s, 0) == More(TextNode(s), |s|);
    assert RoundAt(s, |s|) == Last([]);
    assert [] + [TextNode(s)] == [TextNode(s)] == [TextNode(s)] + [];
    assert NodesFrom(s, |s|, [TextNode(s)]) == Parsed([TextNode(s)], None);
  }

  /** A dollar before a byte that starts no identifier and no brace is
      literal text. */
  lemma LiteralDollar(c: char, rest: string)
    requires !IsVariableChar(c) && c != '{' && c != '$' && forall k :: 0 <= k < |rest| ==> rest[k] != '$'
    ensures NodesOf("$" + [c] + rest) == Parsed([TextNode("$" + [c] + rest)], None)
  {
    var s := "$" + [c] + rest;
    TextToEnd(s, 1, '$');
    assert TextEnd(s, 0, NoByte) == |s|;
    assert s[0..|s|] == s;
    assert !StartsVariable(s, 0);
    assert RoundAt(s, 0) == More(TextNode(s), |s|);
    assert RoundAt(s, |s|) == Last([]);
    assert [] + [TextNode(s)] == [TextNode(s)] == [TextNode(s)] + [];
    assert NodesFrom(s, |s|, [TextNode(s)]) == Parsed([TextNode(s)], None);
  }
}
