/** The label sets of the user interface: parsing `name{key="value",...}`
    with the interface's tokenizer into a record, and printing a record
    back. The helper module of the interface holds the same parser a second
    time; it is modelled once here. */
module UiLabels {
  import opened Wrappers
  import opened UiLexer
  import Text
  import Quoting

  const NameLabel: string := "__name__"
  const HashLabel: string := "_hash"

  /** A record of string values: its keys in insertion order, which is the
      order the keys of a record are listed in, each with its value. */
  type Record = seq<(string, string)>

  predicate DistinctKeys(r: Record)
  {
    forall i, j :: 0 <= i < j < |r| ==> r[i].0 != r[j].0
  }

  /** record[k], or None when the key is absent. */
  function Lookup(r: Record, k: string): Option<string>
  {
    if r == [] then None
    else if r[0].0 == k then Some(r[0].1)
    else Lookup(r[1..], k)
  }

  /** Lookup finds a value exactly when an entry has the key, and the value
      it finds is that of the first such entry. */
  lemma {:induction false} LookupFinds(r: Record, k: string)
    ensures Lookup(r, k).Some? <==> exists i :: 0 <= i < |r| && r[i].0 == k
    ensures Lookup(r, k).Some? ==>
      exists i :: 0 <= i < |r| && r[i] == (k, Lookup(r, k).value) && forall j :: 0 <= j < i ==> r[j].0 != k
  {
    if r != [] && r[0].0 != k {
      LookupFinds(r[1..], k);
      if Lookup(r, k).Some? {
        var i :| 0 <= i < |r[1..]| && r[1..][i] == (k, Lookup(r, k).value) && forall j :: 0 <= j < i ==> r[1..][j].0 != k;
        assert r[i + 1] == (k, Lookup(r, k).value);
        assert forall j :: 0 <= j < i + 1 ==> r[j].0 != k by {
          forall j | 0 <= j < i + 1
            ensures r[j].0 != k
          {
            if j > 0 {
              assert r[j] == r[1..][j - 1];
            }
          }
        }
      }
      if exists i :: 0 <= i < |r| && r[i].0 == k {
        var i :| 0 <= i < |r| && r[i].0 == k;
        assert r[1..][i - 1].0 == k;
      }
    }
  }

  /** record[k] = v: a key already there keeps its place and takes the new
      value; a new key goes last. */
  function Put(r: Record, k: string, v: string): (r': Record)
    ensures Lookup(r', k) == Some(v)
    ensures forall j :: j != k ==> Lookup(r', j) == Lookup(r, j)
    ensures Lookup(r, k).Some? ==> |r'| == |r|
    ensures Lookup(r, k).None? ==> r' == r + [(k, v)]
  {
    if r == [] then [(k, v)]
    else if r[0].0 == k then [(k, v)] + r[1..]
    else
      var t := Put(r[1..], k, v);
      assert ([r[0]] + t)[1..] == t;
      assert r == [r[0]] + r[1..];
      [r[0]] + t
  }

  /** The assignments of a sequence of entries, one after the other. */
  function PutAll(r: Record, es: Record): Record
    decreases |es|
  {
    if es == [] then r else PutAll(Put(r, es[0].0, es[0].1), es[1..])
  }

  /** delete record[k]: every entry with that key goes, the others keep their
      order. */
  function Without(r: Record, k: string): (r': Record)
    ensures Lookup(r', k) == None
    ensures forall j :: j != k ==> Lookup(r', j) == Lookup(r, j)
    ensures Lookup(r, k) == None ==> r' == r
    ensures |r'| <= |r|
  {
    if r == [] then []
    else if r[0].0 == k then Without(r[1..], k)
    else [r[0]] + Without(r[1..], k)
  }

  // ---- parseLabels ----

  /** The failure of a step, passed on. */
  function Abort<T, U>(o: Outcome<T>): Outcome<U>
    requires !o.Done?
  {
    if o.Thrown? then Thrown(o.message) else Hang
  }

  /** One turn of the entry loop: IDENT '=' STRING, the entry put into the
      labels, then what follows it. */
  function EntryStep(mode: Mode, l: Lexer, labels: Record): (r: Outcome<(Record, bool, Lexer)>)
    ensures r.Done? ==> r.value.2.peeked.Some?
    ensures r.Done? ==> Pending(r.value.2) < Pending(l)
  {
    var key := ExpectToken(mode, l, Ident);
    if !key.Done? then Abort(key) else
    var eq := ExpectToken(mode, key.value.1, Eq);
    if !eq.Done? then Abort(eq) else
    var value := ExpectToken(mode, eq.value.1, Str);
    if !value.Done? then Abort(value) else
    EntryEnd(mode, value.value.1, Put(labels, key.value.0.text, value.value.0.text))
  }

  /** After an entry: the token after it is peeked, and the loop goes on
      (more) after a comma that is not followed by '}'. */
  function EntryEnd(mode: Mode, l: Lexer, labels: Record): (r: Outcome<(Record, bool, Lexer)>)
    ensures r.Done? ==> r.value.2.peeked.Some? && r.value.0 == labels
    ensures r.Done? ==> Pending(r.value.2) <= Pending(l)
  {
    var p := PeekToken(mode, l);
    if !p.Done? then Hang
    else if p.value.0.typ != Comma then Done((labels, false, p.value.1))
    else
      var comma := NextToken(mode, p.value.1);
      if !comma.Done? then Hang else
      var q := PeekToken(mode, comma.value.1);
      if !q.Done? then Hang
      else Done((labels, q.value.0.typ != RBrace, q.value.1))
  }

  /** The entry loop: its turns until one does not go on. The state
      returned has the token after the entries peeked. */
  function EntryLoop(mode: Mode, l: Lexer, labels: Record): (r: Outcome<(Record, Lexer)>)
    ensures r.Done? ==> r.value.1.peeked.Some?
    decreases Pending(l)
  {
    var step := EntryStep(mode, l, labels);
    if !step.Done? then Abort(step)
    else if step.value.1 then EntryLoop(mode, step.value.2, step.value.0)
    else Done((step.value.0, step.value.2))
  }

  /** The closing brace after the entries; nothing after it is looked at. */
  function Close(mode: Mode, body: Outcome<(Record, Lexer)>): Outcome<Record>
  {
    if !body.Done? then Abort(body) else
    var e := ExpectToken(mode, body.value.1, RBrace);
    if !e.Done? then Abort(e) else Done(body.value.0)
  }

  /** The start of parseLabels: a leading identifier is taken as the name,
      and the token after it is peeked. */
  function Heading(mode: Mode, text: string): (r: Outcome<(Record, Lexer)>)
    ensures r.Done? ==> r.value.1.peeked.Some?
  {
    var p := PeekToken(mode, Start(text));
    if !p.Done? then Hang else
    var isName := p.value.0.typ == Ident;
    var n := if isName then NextToken(mode, p.value.1) else p;
    if !n.Done? then Hang else
    var p2 := PeekToken(mode, n.value.1);
    if !p2.Done? then Hang
    else Done((if isName then [(NameLabel, p.value.0.text)] else [], p2.value.1))
  }

  /** The braces: '{', the entries unless the next token is '}', and '}'. */
  function Braced(mode: Mode, l: Lexer, labels: Record): Outcome<Record>
  {
    var brace := ExpectToken(mode, l, LBrace);
    if !brace.Done? then Abort(brace) else
    var p := PeekToken(mode, brace.value.1);
    if !p.Done? then Hang
    else if p.value.0.typ != RBrace then Close(mode, EntryLoop(mode, p.value.1, labels))
    else Close(mode, Done((labels, p.value.1)))
  }

  /** parseLabels: after a name (the only way the labels so far are not
      empty) a token other than '{' ends the parse with the name alone;
      otherwise the braces follow. */
  function ParseLabels(mode: Mode, text: string): Outcome<Record>
  {
    var h := Heading(mode, text);
    if !h.Done? then Hang
    else if h.value.1.peeked.value.typ != LBrace && h.value.0 != [] then Done(h.value.0)
    else Braced(mode, h.value.1, h.value.0)
  }

  /** The name and the peek after it, on a new parser object. */
  method ParseHeading(text: string) returns (parser: Parser, labels: Record)
    ensures fresh(parser)
    ensures Heading(Corrected, text) == Done((labels, parser.State()))
  {
    parser := new Parser(text);
    var tok := parser.Peek();
    var isName := tok.typ == Ident;
    labels := [];
    if isName {
      labels := [(NameLabel, tok.text)];
      tok := parser.Next();
    }
    tok := parser.Peek();
  }

  /** One turn of the entry loop on the parser object. */
  method ParseEntry(parser: Parser, labels0: Record) returns (labels: Record, more: bool, err: Option<string>)
    modifies parser
    ensures err.None? ==> EntryStep(Corrected, old(parser.State()), labels0) == Done((labels, more, parser.State()))
    ensures err.Some? ==> EntryStep(Corrected, old(parser.State()), labels0) == Thrown(err.value)
  {
    labels, more := labels0, false;
    var key, value, tok: Token;
    key, err := parser.Expect(Ident);
    if err.Some? {
      return;
    }
    tok, err := parser.Expect(Eq);
    if err.Some? {
      return;
    }
    value, err := parser.Expect(Str);
    if err.Some? {
      return;
    }
    labels := Put(labels, key.text, value.text);
    more := ParseEntryEnd(parser, labels);
  }

  method ParseEntryEnd(parser: Parser, labels: Record) returns (more: bool)
    modifies parser
    ensures EntryEnd(Corrected, old(parser.State()), labels) == Done((labels, more, parser.State()))
  {
    var tok := parser.Peek();
    if tok.typ != Comma {
      return false;
    }
    tok := parser.Next();
    tok := parser.Peek();
    more := tok.typ != RBrace;
  }

  /** The entry loop on the parser object. */
  method ParseEntries(parser: Parser, labels0: Record) returns (labels: Record, err: Option<string>)
    modifies parser
    ensures err.None? ==> EntryLoop(Corrected, old(parser.State()), labels0) == Done((labels, parser.State()))
    ensures err.Some? ==> EntryLoop(Corrected, old(parser.State()), labels0) == Thrown(err.value)
  {
    labels := labels0;
    var more := true;
    while more
      invariant EntryLoop(Corrected, old(parser.State()), labels0) ==
        (if more then EntryLoop(Corrected, parser.State(), labels) else Done((labels, parser.State())))
      decreases more, Pending(parser.State())
    {
      labels, more, err := ParseEntry(parser, labels);
      if err.Some? {
        return;
      }
    }
    err := None;
  }

  /** parseLabels over the parser object, with the corrected tokenizer: the
      labels, or the message thrown. */
  method Parse(text: string) returns (labels: Record, err: Option<string>)
    ensures ParseLabels(Corrected, text) == (if err.None? then Done(labels) else Thrown(err.value))
  {
    var parser;
    parser, labels := ParseHeading(text);
    var tok := parser.Peek();
    if tok.typ != LBrace && labels != [] {
      return labels, None;
    }
    tok, err := parser.Expect(LBrace);
    if err.Some? {
      return;
    }
    tok := parser.Peek();
    if tok.typ != RBrace {
      labels, err := ParseEntries(parser, labels);
      if err.Some? {
        return;
      }
    }
    tok, err := parser.Expect(RBrace);
  }

  // ---- the Labels object ----

  /** A parsed label set. */
  datatype Labels = Labels(value: Record)

  /** new Labels(input): an empty input gives the empty set without being
      parsed. */
  function NewLabels(mode: Mode, input: string): (r: Outcome<Labels>)
    ensures input == "" ==> r == Done(Labels([]))
    ensures r.Done? ==> input == "" || ParseLabels(mode, input) == Done(r.value.value)
    ensures r.Thrown? ==> ParseLabels(mode, input) == Thrown(r.message)
  {
    if input == "" then Done(Labels([]))
    else
      var p := ParseLabels(mode, input);
      if p.Done? then Done(Labels(p.value)) else Abort(p)
  }

  /** entries(name): a copy of the record, without the name when asked. */
  function Entries(ls: Labels, withName: bool): (r: Record)
    ensures withName ==> r == ls.value
    ensures !withName ==> Lookup(r, NameLabel) == None
    ensures forall k :: k != NameLabel ==> Lookup(r, k) == Lookup(ls.value, k)
  {
    if withName then ls.value else Without(ls.value, NameLabel)
  }

  /** name(): the name label, or none. */
  function Name(ls: Labels): (n: Option<string>)
    ensures n.Some? <==> exists i :: 0 <= i < |ls.value| && ls.value[i].0 == NameLabel
  {
    LookupFinds(ls.value, NameLabel);
    Lookup(ls.value, NameLabel)
  }

  // ---- printing ----

  /** key=JSON.stringify(value) for each entry, in order. */
  function Fields(r: Record): (f: seq<string>)
    ensures |f| == |r|
  {
    if r == [] then [] else [r[0].0 + "=" + Quoting.JsonQuote(r[0].1)] + Fields(r[1..])
  }

  /** The braces and what they hold, printed the same way by both
      printers. */
  function Braces(r: Record): string
  {
    "{" + Text.Join(Fields(r), ",") + "}"
  }

  /** toString: the name unquoted, then always the braces with the other
      entries. */
  function ToString(ls: Labels): string
  {
    var name := Name(ls);
    (if name.Some? then name.value else "") + Braces(Entries(ls, false))
  }

  /** labelsToString: a non-empty name goes first, unquoted, and leaves the
      braces; the _hash key is never printed. The argument is not
      changed. */
  function LabelsToString(r: Record): string
  {
    var name := Lookup(r, NameLabel);
    var named := name.Some? && name.value != "";
    var ls := Without(if named then Without(r, NameLabel) else r, HashLabel);
    (if named then name.value else "") + Braces(ls)
  }

  // ---- what the record promises ----

  /** No entry of es has a key of r. */
  predicate Apart(r: Record, es: Record)
  {
    forall i, j :: 0 <= i < |es| && 0 <= j < |r| ==> es[i].0 != r[j].0
  }

  /** Assignments of keys the record lacks, all different, append the
      entries in order. */
  lemma {:induction false} PutAllFresh(r: Record, es: Record)
    requires DistinctKeys(es) && Apart(r, es)
    ensures PutAll(r, es) == r + es
    decreases |es|
  {
    if es != [] {
      var r1 := FreshAfterPut(r, es);
      PutAllFresh(r1, es[1..]);
    }
  }

  lemma FreshAfterPut(r: Record, es: Record) returns (r1: Record)
    requires es != [] && DistinctKeys(es) && Apart(r, es)
    ensures PutAll(r, es) == PutAll(r1, es[1..]) && r + es == r1 + es[1..]
    ensures DistinctKeys(es[1..]) && Apart(r1, es[1..])
  {
    r1 := r + [es[0]];
    PutNew(r, es[0].0, es[0].1);
    AppendFirst(r, es);
    ApartTail(r, es);
  }

  lemma AppendFirst<T>(r: seq<T>, es: seq<T>)
    requires es != []
    ensures r + es == (r + [es[0]]) + es[1..]
  {
    assert es == [es[0]] + es[1..];
  }

  lemma PutNew(r: Record, k: string, v: string)
    requires forall j :: 0 <= j < |r| ==> r[j].0 != k
    ensures Put(r, k, v) == r + [(k, v)]
  {
    LookupFinds(r, k);
  }

  lemma ApartTail(r: Record, es: Record)
    requires es != [] && DistinctKeys(es) && Apart(r, es)
    ensures DistinctKeys(es[1..]) && Apart(r + [es[0]], es[1..])
  {
    var rest := es[1..];
    var r1 := r + [es[0]];
    forall i, j | 0 <= i < |rest| && 0 <= j < |r1|
      ensures rest[i].0 != r1[j].0
    {
      assert rest[i] == es[i + 1];
      if j < |r| {
        assert r1[j] == r[j];
      }
    }
    forall i, j | 0 <= i < j < |rest|
      ensures rest[i].0 != rest[j].0
    {
      assert rest[i] == es[i + 1] && rest[j] == es[j + 1];
    }
  }

  /** Assignments of other keys leave a key's value alone. */
  lemma {:induction false} PutAllOther(r: Record, es: Record, k: string)
    requires forall i :: 0 <= i < |es| ==> es[i].0 != k
    ensures Lookup(PutAll(r, es), k) == Lookup(r, k)
    decreases |es|
  {
    if es != [] {
      PutAllOther(Put(r, es[0].0, es[0].1), es[1..], k);
    }
  }

  /** Of several assignments to one key, the last one counts. */
  lemma {:induction false} PutAllLast(r: Record, es: Record, i: nat)
    requires i < |es|
    requires forall j :: i < j < |es| ==> es[j].0 != es[i].0
    ensures Lookup(PutAll(r, es), es[i].0) == Some(es[i].1)
    decreases i
  {
    if i == 0 {
      PutAllOther(Put(r, es[0].0, es[0].1), es[1..], es[0].0);
    } else {
      assert es[1..][i - 1] == es[i];
      PutAllLast(Put(r, es[0].0, es[0].1), es[1..], i - 1);
    }
  }

  // ---- printed labels parse back ----

  /** A key the tokenizer reads back as one identifier. */
  predicate Word(w: string)
  {
    w != "" && !InClass(DigitChars, w[0]) && forall i :: 0 <= i < |w| ==> InClass(IdentChars, w[i])
  }

  /** A value without control characters, whose printed form the tokenizer
      reads back. */
  predicate Plain(v: string)
  {
    forall i :: 0 <= i < |v| ==> v[i] >= ' '
  }

  /** One character of a printed value is read back: an escaped quote or
      backslash as two characters, any other as itself. */
  lemma StringBodyStep(l: Lexer, v: string, s: string, tail: string) returns (l': Lexer)
    requires v != "" && v[0] >= ' ' && l.text == Quoting.JsonEscapeAll(v) + "\"" + tail
    ensures StringLoop(l, "\"", s) == StringLoop(l', "\"", s + v[..1])
    ensures l'.text == Quoting.JsonEscapeAll(v[1..]) + "\"" + tail
  {
    var more := Quoting.JsonEscapeAll(v[1..]) + "\"" + tail;
    assert l.text == Quoting.JsonEscape(v[0]) + more;
    if v[0] == '"' || v[0] == '\\' {
      l' := EscapedStep(l, v[..1], s, more);
    } else {
      l' := PlainStep(l, v[..1], s, more);
    }
  }

  lemma EscapedStep(l: Lexer, c: string, s: string, more: string) returns (l': Lexer)
    requires c == "\"" || c == "\\"
    requires l.text == "\\" + c + more
    ensures StringLoop(l, "\"", s) == StringLoop(l', "\"", s + c) && l'.text == more
  {
    var (b, l1) := ReadChar(l);
    assert b == "\\" && l1.text == c + more;
    var (n, l2) := ReadChar(l1);
    assert n == c && l2.text == more;
    l' := l2;
  }

  lemma PlainStep(l: Lexer, c: string, s: string, more: string) returns (l': Lexer)
    requires |c| == 1 && c[0] >= ' ' && c != "\"" && c != "\\"
    requires l.text == c + more
    ensures StringLoop(l, "\"", s) == StringLoop(l', "\"", s + c) && l'.text == more
  {
    var (d, l1) := ReadChar(l);
    assert d == c && l1.text == more;
    assert d != "\n";
    l' := l1;
  }

  lemma AppendHead(s: string, v: string)
    requires v != ""
    ensures s + v[..1] + v[1..] == s + v
  {
    assert v[..1] + v[1..] == v;
  }

  lemma PlainTail(v: string)
    requires Plain(v) && v != ""
    ensures Plain(v[1..])
  {
    forall i | 0 <= i < |v[1..]|
      ensures v[1..][i] >= ' '
    {
      assert v[1..][i] == v[i + 1];
    }
  }

  /** The closing quote ends the string with the text read so far. */
  lemma StringClose(l: Lexer, s: string, tail: string)
    requires l.text == "\"" + tail
    ensures var r := StringLoop(l, "\"", s);
      r.0.typ == Str && r.0.text == s && r.1.text == tail
  {
    StringStops(l, "\"", s);
    assert Text.HasPrefix(l.text, "\"");
    assert l.text[1..] == tail;
  }

  /** The inside of a printed value, up to and including its closing
      quote, is read back as the value. */
  lemma {:induction false} StringBody(l: Lexer, v: string, s: string, tail: string)
    requires Plain(v) && l.text == Quoting.JsonEscapeAll(v) + "\"" + tail
    ensures var r := StringLoop(l, "\"", s);
      r.0.typ == Str && r.0.text == s + v && r.1.text == tail
    decreases |v|
  {
    if v == "" {
      assert l.text == "\"" + tail;
      StringClose(l, s, tail);
      assert s + v == s;
    } else {
      var l' := StringBodyStep(l, v, s, tail);
      PlainTail(v);
      StringBody(l', v[1..], s + v[..1], tail);
      AppendHead(s, v);
    }
  }

  /** A printed value is scanned as one STRING token holding the value. */
  lemma StringToken(mode: Mode, l: Lexer, v: string, tail: string)
    requires Plain(v) && l.text == Quoting.JsonQuote(v) + tail
    ensures var r := ScanToken(mode, l);
      r.Done? && r.value.0.typ == Str && r.value.0.text == v && r.value.1.text == tail && r.value.1.peeked == l.peeked
  {
    assert l.text == "\"" + (Quoting.JsonEscapeAll(v) + "\"" + tail);
    var l1 := QuoteScan(mode, l);
    StringBody(l1, v, "", tail);
    assert "" + v == v;
  }

  /** A token that starts with a double quote is read by the string loop,
      from just past the quote. */
  lemma QuoteScan(mode: Mode, l: Lexer) returns (l1: Lexer)
    requires l.text != "" && l.text[0] == '"'
    ensures ScanToken(mode, l) == Done(StringLoop(l1, "\"", ""))
    ensures l1.text == l.text[1..] && l1.peeked == l.peeked
  {
    ScanAt(mode, l);
    ReadUnread(l);
    var l0 := l.(last := None, lastCh := None);
    var q;
    q, l1 := ReadChar(l0).0, ReadChar(l0).1;
    assert q == "\"";
  }

  /** An entry's '=' and value are read after its key, which is peeked. */
  lemma EntryValue(mode: Mode, l: Lexer, v: string, after: string)
    requires l.peeked.Some? && l.peeked.value.typ == Ident
    requires Plain(v) && l.text == "=" + Quoting.JsonQuote(v) + after
    ensures var key := ExpectToken(mode, l, Ident);
      key == Done((l.peeked.value, l.(peeked := None)))
      && var eq := ExpectToken(mode, key.value.1, Eq);
      eq.Done?
      && var value := ExpectToken(mode, eq.value.1, Str);
      value.Done? && value.value.0.text == v && value.value.1.text == after && value.value.1.peeked == None
  {
    var l1 := l.(peeked := None);
    var q := Quoting.JsonQuote(v) + after;
    assert l1.text == ['='] + q && q[0] == '"';
    OperatorTokens(mode, l1, '=', q);
    var l2 := ScanToken(mode, l1).value.1;
    StringToken(mode, l2, v, after);
  }

  /** One turn of the loop over an entry: the entry is put into the labels
      and the rest is read as EntryEnd reads it. */
  lemma EntryRead(mode: Mode, l: Lexer, labels: Record, v: string, after: string) returns (l3: Lexer)
    requires l.peeked.Some? && l.peeked.value.typ == Ident
    requires Plain(v) && l.text == "=" + Quoting.JsonQuote(v) + after
    ensures l3.text == after && l3.peeked == None
    ensures EntryStep(mode, l, labels) == EntryEnd(mode, l3, Put(labels, l.peeked.value.text, v))
  {
    EntryValue(mode, l, v, after);
    var l1 := ExpectToken(mode, l, Ident).value.1;
    var l2 := ExpectToken(mode, l1, Eq).value.1;
    l3 := ExpectToken(mode, l2, Str).value.1;
  }

  /** '}' after an entry ends the loop. */
  lemma EndBrace(mode: Mode, l: Lexer, labels: Record, rest: string)
    requires l.peeked == None && l.text == "}" + rest
    ensures var r := EntryEnd(mode, l, labels);
      r.Done? && !r.value.1 && r.value.2.peeked.value.typ == RBrace && r.value.2.text == rest
  {
    SingleTokens(mode, l, '}', rest);
  }

  /** A comma after an entry is peeked, then taken. */
  lemma CommaTaken(mode: Mode, l: Lexer, rest: string) returns (l5: Lexer)
    requires l.peeked == None && l.text == "," + rest
    ensures PeekToken(mode, l).Done? && PeekToken(mode, l).value.0.typ == Comma
    ensures var l4 := PeekToken(mode, l).value.1;
      NextToken(mode, l4).Done? && NextToken(mode, l4).value.1 == l5
    ensures l5.peeked == None && l5.text == rest
  {
    assert l.text == [','] + rest;
    SingleTokens(mode, l, ',', rest);
    var l4 := PeekToken(mode, l).value.1;
    l5 := NextToken(mode, l4).value.1;
  }

  /** A comma and '}' after an entry end the loop too. */
  lemma EndComma(mode: Mode, l: Lexer, labels: Record, rest: string)
    requires l.peeked == None && l.text == ",}" + rest
    ensures var r := EntryEnd(mode, l, labels);
      r.Done? && !r.value.1 && r.value.2.peeked.value.typ == RBrace && r.value.2.text == rest
  {
    assert l.text == "," + ("}" + rest);
    var l5 := CommaTaken(mode, l, "}" + rest);
    SingleTokens(mode, l5, '}', rest);
  }

  /** A comma and a key after an entry go on with the loop, the key
      peeked. */
  lemma EndMore(mode: Mode, l: Lexer, labels: Record, w: string, rest: string)
    requires l.peeked == None && Word(w) && l.text == "," + w + "=" + rest
    ensures var r := EntryEnd(mode, l, labels);
      r.Done? && r.value.1
      && r.value.2.peeked.Some? && r.value.2.peeked.value.typ == Ident && r.value.2.peeked.value.text == w
      && r.value.2.text == "=" + rest
  {
    assert l.text == "," + (w + ("=" + rest));
    var l5 := CommaTaken(mode, l, w + ("=" + rest));
    IdentToken(mode, l5, w, "=" + rest);
  }

  /** Entries whose keys are words and whose values are plain. */
  predicate Printable(es: Record)
  {
    forall i :: 0 <= i < |es| ==> Word(es[i].0) && Plain(es[i].1)
  }

  /** The printed entries after the first key: its '=' and value, then the
      other entries, each after a comma. */
  function AfterKey(es: Record): string
    requires es != []
  {
    "=" + Quoting.JsonQuote(es[0].1) + (if |es| == 1 then "" else "," + Text.Join(Fields(es[1..]), ","))
  }

  lemma JoinFirst(es: Record)
    requires es != []
    ensures Text.Join(Fields(es), ",") == es[0].0 + AfterKey(es)
  {
    var f := Fields(es);
    var q := "=" + Quoting.JsonQuote(es[0].1);
    assert f[0] == es[0].0 + q;
    if |es| == 1 {
      assert Text.Join(f, ",") == f[0];
      assert AfterKey(es) == q + "";
    } else {
      var j := Text.Join(Fields(es[1..]), ",");
      assert f[1..] == Fields(es[1..]);
      assert Text.Join(f, ",") == f[0] + "," + j;
      assert AfterKey(es) == q + ("," + j);
      CommaJoin(es[0].0, q, j);
    }
  }

  lemma CommaJoin(a: string, b: string, j: string)
    ensures (a + b) + "," + j == a + (b + ("," + j))
  {
  }

  /** The text after an entry that another entry follows. */
  lemma NextEntryText(es: Record, close: string, rest: string) returns (more: string)
    requires |es| >= 2
    ensures AfterKey(es) + close + rest == "=" + Quoting.JsonQuote(es[0].1) + ("," + es[1].0 + "=" + more)
    ensures "=" + more == AfterKey(es[1..]) + close + rest
  {
    JoinFirst(es[1..]);
    var a := AfterKey(es[1..]);
    var j := Text.Join(Fields(es[1..]), ",");
    assert a == "=" + a[1..];
    assert j == es[1].0 + ("=" + a[1..]);
    assert AfterKey(es) == "=" + Quoting.JsonQuote(es[0].1) + ("," + j);
    more := a[1..] + close + rest;
    Regroup("=" + Quoting.JsonQuote(es[0].1), es[1].0, a[1..], close, rest);
  }

  lemma Regroup(p: string, k: string, m: string, c: string, t: string)
    ensures p + ("," + (k + ("=" + m))) + c + t == p + ("," + k + "=" + (m + c + t))
    ensures "=" + (m + c + t) == ("=" + m) + c + t
  {
  }

  lemma LastEntryText(es: Record, close: string, rest: string)
    requires |es| == 1
    ensures AfterKey(es) + close + rest == "=" + Quoting.JsonQuote(es[0].1) + (close + rest)
  {
  }

  lemma PrintableTail(es: Record)
    requires es != [] && Printable(es)
    ensures Word(es[0].0) && Plain(es[0].1) && Printable(es[1..])
  {
    forall i | 0 <= i < |es[1..]|
      ensures Word(es[1..][i].0) && Plain(es[1..][i].1)
    {
      assert es[1..][i] == es[i + 1];
    }
  }

  /** The printed entries, closed by '}' or by a comma and '}', are read
      by the entry loop as the assignments of those entries, in order; the
      '}' is left peeked and nothing after it is read. */
  lemma {:induction false} EntriesParsed(mode: Mode, l: Lexer, labels: Record, es: Record, close: string, rest: string)
    requires es != [] && Printable(es) && (close == "}" || close == ",}")
    requires l.peeked.Some? && l.peeked.value.typ == Ident && l.peeked.value.text == es[0].0
    requires l.text == AfterKey(es) + close + rest
    ensures var r := EntryLoop(mode, l, labels);
      r.Done? && r.value.0 == PutAll(labels, es) && r.value.1.peeked.value.typ == RBrace && r.value.1.text == rest
    decreases |es|
  {
    PrintableTail(es);
    var labels' := Put(labels, es[0].0, es[0].1);
    if |es| == 1 {
      LastEntryText(es, close, rest);
      var l3 := EntryRead(mode, l, labels, es[0].1, close + rest);
      if close == "}" {
        EndBrace(mode, l3, labels', rest);
      } else {
        assert close + rest == ",}" + rest;
        EndComma(mode, l3, labels', rest);
      }
    } else {
      var more := NextEntryText(es, close, rest);
      var l3 := EntryRead(mode, l, labels, es[0].1, "," + es[1].0 + "=" + more);
      EndMore(mode, l3, labels', es[1].0, more);
      var l6 := EntryStep(mode, l, labels).value.2;
      EntriesParsed(mode, l6, labels', es[1..], close, rest);
    }
  }

  /** The labels a name gives: none for the empty name. */
  function Named(name: string): Record
  {
    if name == "" then [] else [(NameLabel, name)]
  }

  /** The kind of token a character that is a token by itself gives. */
  function SingleType(c: char): TokenType
  {
    if Punctuation([c]).Some? then Punctuation([c]).value else Invalid
  }

  /** A name (or none) before a character that is a token by itself is
      taken as the name, and the token of that character is peeked. */
  lemma HeadingParsed(mode: Mode, name: string, c: char, tail: string)
    requires name == "" || Word(name)
    requires !InClass(SpaceChars, c) && !InClass(IdentChars, c)
    requires c != '-' && c != '"' && c != '\'' && c != '=' && c != '!'
    ensures var h := Heading(mode, name + ([c] + tail));
      h.Done? && h.value.0 == Named(name) && h.value.1.peeked.Some? && h.value.1.peeked.value.typ == SingleType(c)
      && h.value.1.text == tail && h.value.1.pos == Position(1, |name| + 2)
  {
    if name == "" {
      HeadingBare(mode, c, tail);
    } else {
      HeadingNamed(mode, name, c, tail);
    }
  }

  lemma HeadingBare(mode: Mode, c: char, tail: string)
    requires !InClass(SpaceChars, c) && !InClass(IdentChars, c)
    requires c != '-' && c != '"' && c != '\'' && c != '=' && c != '!'
    ensures var h := Heading(mode, "" + ([c] + tail));
      h.Done? && h.value.0 == [] && h.value.1.peeked.Some? && h.value.1.peeked.value.typ == SingleType(c)
      && h.value.1.text == tail && h.value.1.pos == Position(1, 2)
  {
    var text := "" + ([c] + tail);
    assert text == [c] + tail;
    var l := Start(text);
    SingleTokens(mode, l, c, tail);
    var t := ScanToken(mode, l).value;
    assert t.0.typ == SingleType(c) && t.0.typ != Ident;
    assert PeekToken(mode, l) == Done((t.0, t.1.(peeked := Some(t.0))));
  }

  lemma HeadingNamed(mode: Mode, name: string, c: char, tail: string)
    requires Word(name)
    requires !InClass(SpaceChars, c) && !InClass(IdentChars, c)
    requires c != '-' && c != '"' && c != '\'' && c != '=' && c != '!'
    ensures var h := Heading(mode, name + ([c] + tail));
      h.Done? && h.value.0 == [(NameLabel, name)] && h.value.1.peeked.Some? && h.value.1.peeked.value.typ == SingleType(c)
      && h.value.1.text == tail && h.value.1.pos == Position(1, |name| + 2)
  {
    var l := Start(name + ([c] + tail));
    IdentToken(mode, l, name, [c] + tail);
    var l1 := PeekToken(mode, l).value.1;
    var l2 := NextToken(mode, l1).value.1;
    SingleTokens(mode, l2, c, tail);
  }

  /** The printed braces, after '{' is peeked, are read as the assignments
      of their entries; nothing after the closing '}' is read. */
  lemma BracesParsed(mode: Mode, l: Lexer, labels: Record, es: Record, close: string, rest: string)
    requires Printable(es) && (close == "}" || (close == ",}" && es != []))
    requires l.peeked.Some? && l.peeked.value.typ == LBrace
    requires l.text == Text.Join(Fields(es), ",") + close + rest
    ensures Braced(mode, l, labels) == Done(PutAll(labels, es))
  {
    var l1 := ExpectToken(mode, l, LBrace).value.1;
    if es == [] {
      assert l1.text == ['}'] + rest;
      SingleTokens(mode, l1, '}', rest);
    } else {
      BracesEntries(mode, l1, labels, es, close, rest);
    }
  }

  lemma BracesEntries(mode: Mode, l1: Lexer, labels: Record, es: Record, close: string, rest: string)
    requires es != [] && Printable(es) && (close == "}" || close == ",}")
    requires l1.peeked == None && l1.text == Text.Join(Fields(es), ",") + close + rest
    ensures var p := PeekToken(mode, l1);
      p.Done? && p.value.0.typ != RBrace && Close(mode, EntryLoop(mode, p.value.1, labels)) == Done(PutAll(labels, es))
  {
    JoinFirst(es);
    PrintableTail(es);
    var after := AfterKey(es) + close + rest;
    Prepend(es[0].0, AfterKey(es), close, rest);
    IdentToken(mode, l1, es[0].0, after);
    var l2 := PeekToken(mode, l1).value.1;
    EntriesParsed(mode, l2, labels, es, close, rest);
  }

  lemma OpenBrace(n: string, j: string, c: string, t: string)
    ensures n + "{" + j + c + t == n + ("{" + (j + c + t))
  {
  }

  lemma Prepend(k: string, a: string, c: string, t: string)
    ensures (k + a) + c + t == k + (a + c + t)
  {
  }

  /** Printed labels parse back: a name (or none), '{', entries with word
      keys and plain values, an optional trailing comma, '}', and anything
      after it give the name followed by the assignments of the entries. A
      key given twice therefore keeps its last value (PutAllLast). */
  lemma PrintedParses(mode: Mode, name: string, es: Record, close: string, rest: string)
    requires name == "" || Word(name)
    requires Printable(es) && (close == "}" || (close == ",}" && es != []))
    ensures ParseLabels(mode, name + "{" + Text.Join(Fields(es), ",") + close + rest) == Done(PutAll(Named(name), es))
  {
    var tail := Text.Join(Fields(es), ",") + close + rest;
    OpenBrace(name, Text.Join(Fields(es), ","), close, rest);
    HeadingParsed(mode, name, '{', tail);
    var h := Heading(mode, name + ("{" + tail));
    BracesParsed(mode, h.value.1, h.value.0, es, close, rest);
  }

  // ---- the label set round trip ----

  /** Labels toString prints so that they parse back: distinct keys, the
      name (a word) only first, the other keys words, their values plain. */
  predicate WellFormed(ls: Labels)
  {
    var r := ls.value;
    DistinctKeys(r)
    && (forall i :: 0 < i < |r| ==> r[i].0 != NameLabel)
    && (r != [] && r[0].0 == NameLabel ==> Word(r[0].1))
    && (forall i :: 0 <= i < |r| && r[i].0 != NameLabel ==> Word(r[i].0) && Plain(r[i].1))
  }

  lemma TailFacts(r: Record)
    requires r != [] && DistinctKeys(r) && forall i :: 0 < i < |r| ==> r[i].0 != NameLabel
    ensures DistinctKeys(r[1..]) && Lookup(r[1..], NameLabel) == None
    ensures forall i :: 0 <= i < |r[1..]| ==> r[1..][i] == r[i + 1]
  {
    LookupFinds(r[1..], NameLabel);
  }

  /** The labels toString shows once it has found the name. */
  lemma {:induction false} PrintedParts(ls: Labels) returns (name: string, es: Record)
    requires WellFormed(ls)
    ensures ToString(ls) == name + Braces(es)
    ensures (name == "" || Word(name)) && Printable(es) && DistinctKeys(es) && Apart(Named(name), es)
    ensures Named(name) + es == ls.value
  {
    var r := ls.value;
    if r != [] && r[0].0 == NameLabel {
      name, es := r[0].1, r[1..];
      PrintedNamed(ls);
    } else {
      name, es := "", r;
      PrintedBare(ls);
    }
  }

  lemma PrintedNamed(ls: Labels)
    requires WellFormed(ls) && ls.value != [] && ls.value[0].0 == NameLabel
    ensures var name, es := ls.value[0].1, ls.value[1..];
      && ToString(ls) == name + Braces(es)
      && Word(name) && Printable(es) && DistinctKeys(es) && Apart(Named(name), es)
      && Named(name) + es == ls.value
  {
    var r := ls.value;
    TailFacts(r);
    NamedText(ls);
    assert r == [r[0]] + r[1..];
  }

  lemma NamedText(ls: Labels)
    requires ls.value != [] && ls.value[0].0 == NameLabel
    requires Lookup(ls.value[1..], NameLabel) == None
    ensures ToString(ls) == ls.value[0].1 + Braces(ls.value[1..])
  {
    var r := ls.value;
    var es := r[1..];
    assert Without(r, NameLabel) == Without(es, NameLabel) == es;
    assert Name(ls) == Some(r[0].1);
  }

  lemma PrintedBare(ls: Labels)
    requires WellFormed(ls) && !(ls.value != [] && ls.value[0].0 == NameLabel)
    ensures ToString(ls) == "" + Braces(ls.value)
    ensures Printable(ls.value) && DistinctKeys(ls.value) && Named("") + ls.value == ls.value
  {
    LookupFinds(ls.value, NameLabel);
  }

  /** toString and the parse are inverse: a well-formed label set, printed
      and followed by anything, parses back to itself. */
  lemma RoundTrip(mode: Mode, ls: Labels, rest: string)
    requires WellFormed(ls)
    ensures ParseLabels(mode, ToString(ls) + rest) == Done(ls.value)
  {
    var name, es := PrintedParts(ls);
    PrintedText(name, es, ToString(ls), rest);
    PrintedParses(mode, name, es, "}", rest);
    PutAllFresh(Named(name), es);
  }

  /** The same for the whole text given to new Labels. */
  lemma NewLabelsRoundTrip(mode: Mode, ls: Labels)
    requires WellFormed(ls)
    ensures NewLabels(mode, ToString(ls)) == Done(ls)
  {
    RoundTrip(mode, ls, "");
    assert ToString(ls) + "" == ToString(ls);
  }

  lemma PrintedText(name: string, es: Record, s: string, rest: string)
    requires s == name + Braces(es)
    ensures s + rest == name + "{" + Text.Join(Fields(es), ",") + "}" + rest
  {
  }

  /** A name followed by a token other than '{' is the whole label set;
      what follows is not parsed. */
  lemma NameStops(mode: Mode, name: string, c: char, rest: string)
    requires Word(name)
    requires !InClass(SpaceChars, c) && !InClass(IdentChars, c) && c != '{'
    requires c != '-' && c != '"' && c != '\'' && c != '=' && c != '!'
    ensures ParseLabels(mode, name + [c] + rest) == Done([(NameLabel, name)])
  {
    assert name + [c] + rest == name + ([c] + rest);
    HeadingNamed(mode, name, c, rest);
    assert SingleType(c) != LBrace;
  }

  /** A name alone: as written the parse never returns, since looking for
      a '{' after the name runs the white-space loop of scan at end of
      input. */
  lemma NameAloneHangs(name: string)
    requires Word(name)
    ensures ParseLabels(AsWritten, name) == Hang
  {
    var l := Start(name);
    assert l.text == name + "";
    IdentToken(AsWritten, l, name, "");
    var a := NextToken(AsWritten, PeekToken(AsWritten, l).value.1).value.1;
    OnlyBlanksLeft(a);
  }

  /** Corrected, a name alone gives the name. */
  lemma NameAlone(name: string)
    requires Word(name)
    ensures ParseLabels(Corrected, name) == Done([(NameLabel, name)])
  {
    var l := Start(name);
    assert l.text == name + "";
    IdentToken(Corrected, l, name, "");
    var c := NextToken(Corrected, PeekToken(Corrected, l).value.1).value.1;
    OnlyBlanksLeft(c);
  }

  /** An entry's key must be followed by '=': "!=", "=~" and "!~" are
      rejected by the expectation of EQ, with its message. */
  lemma OperatorRejected(mode: Mode, k: string, op: string, rest: string)
    requires Word(k) && (op == "!=" || op == "=~" || op == "!~")
    ensures var t := if op == "!=" then Neq else if op == "=~" then EqRegexp else NeqRegexp;
      ParseLabels(mode, "{" + k + op + rest) == Thrown(Mismatch(Eq, Token(t, Position(1, |k| + 4), "")))
  {
    var tail := op + rest;
    Text.AppendAssoc("{" + k, op, rest);
    assert "{" + k + op + rest == "{" + k + tail;
    var l := FirstKey(mode, k, tail);
    EntryRejected(mode, l, [], op, rest);
    assert Position(l.pos.line, l.pos.character + 2) == Position(1, |k| + 4);
  }

  /** After '{', the first key is peeked and the entry loop starts. */
  lemma FirstKey(mode: Mode, k: string, tail: string) returns (l: Lexer)
    requires Word(k) && tail != "" && !InClass(IdentChars, tail[0])
    ensures l.peeked.Some? && l.peeked.value.typ == Ident && l.text == tail && l.pos == Position(1, |k| + 2)
    ensures ParseLabels(mode, "{" + k + tail) == Close(mode, EntryLoop(mode, l, []))
  {
    assert "{" + k + tail == "" + (['{'] + (k + tail));
    HeadingParsed(mode, "", '{', k + tail);
    var l1 := Heading(mode, "{" + k + tail).value.1;
    var l2 := ExpectToken(mode, l1, LBrace).value.1;
    IdentToken(mode, l2, k, tail);
    l := PeekToken(mode, l2).value.1;
  }

  /** The operator after a key. */
  lemma EntryRejected(mode: Mode, l: Lexer, labels: Record, op: string, rest: string)
    requires l.peeked.Some? && l.peeked.value.typ == Ident && l.text == op + rest
    requires op == "!=" || op == "=~" || op == "!~"
    ensures var t := if op == "!=" then Neq else if op == "=~" then EqRegexp else NeqRegexp;
      Close(mode, EntryLoop(mode, l, labels)) == Thrown(Mismatch(Eq, Token(t, Position(l.pos.line, l.pos.character + 2), "")))
  {
    var l1 := l.(peeked := None);
    assert l1.text == [op[0]] + (op[1..] + rest);
    OperatorTokens(mode, l1, op[0], op[1..] + rest);
    EqMissing(mode, l, labels);
  }

  /** A key followed by a token other than '=' stops the labels with the
      mismatch. */
  lemma EqMissing(mode: Mode, l: Lexer, labels: Record)
    requires l.peeked.Some? && l.peeked.value.typ == Ident
    requires var n := ScanToken(mode, l.(peeked := None)); n.Done? && n.value.0.typ != Eq
    ensures Close(mode, EntryLoop(mode, l, labels)) == Thrown(Mismatch(Eq, ScanToken(mode, l.(peeked := None)).value.0))
  {
    var l1 := l.(peeked := None);
    var tok := ScanToken(mode, l1).value.0;
    assert ExpectToken(mode, l, Ident) == Done((l.peeked.value, l1));
    assert ExpectToken(mode, l1, Eq) == Thrown(Mismatch(Eq, tok));
    assert EntryStep(mode, l, labels) == Thrown(Mismatch(Eq, tok));
  }

  // ---- the two printers ----

  lemma {:induction false} WithoutCommutes(r: Record, a: string, b: string)
    ensures Without(Without(r, a), b) == Without(Without(r, b), a)
    decreases |r|
  {
    if r != [] {
      WithoutCommutes(r[1..], a, b);
    }
  }

  /** labelsToString never shows a _hash key: removing it first changes
      nothing. */
  lemma HashIgnored(r: Record)
    ensures LabelsToString(r) == LabelsToString(Without(r, HashLabel))
  {
    var r' := Without(r, HashLabel);
    assert Lookup(r', NameLabel) == Lookup(r, NameLabel);
    WithoutCommutes(r, NameLabel, HashLabel);
    assert Without(r', HashLabel) == r';
    assert Without(Without(r', NameLabel), HashLabel) == Without(r', NameLabel);
  }

  /** Without a _hash key and without an empty name, labelsToString prints
      what toString prints; an empty name is printed inside the braces by
      labelsToString and not at all by toString. */
  lemma SamePrinting(r: Record)
    requires Lookup(r, HashLabel) == None && Lookup(r, NameLabel) != Some("")
    ensures LabelsToString(r) == ToString(Labels(r))
  {
    assert Lookup(Without(r, NameLabel), HashLabel) == None;
  }
}
