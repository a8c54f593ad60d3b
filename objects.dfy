// The API objects (pkg/api/objects.go): the metadata every object carries,
// charts, dashboards and providers with their validation rules, the
// template variables of charts and dashboards, the text enumerations of
// chart options and the lists of objects.
module ApiObjects {
  import opened Wrappers
  import GoTemplate
  import Sets
  import Sorting
  import Text

  // ---- metadata ----

  /** The identifier and the name; the creation and modification times play
      no part in validation and are not part of this model. */
  datatype ObjectMeta = ObjectMeta(id: string, name: string)

  /** A character of [a-z0-9] under Go's case folding (?i): both cases of
      the ASCII letters, plus the Kelvin sign, which folds to k, and the long
      s, which folds to s. */
  predicate NameEdge(c: char)
  {
    'a' <= c <= 'z' || 'A' <= c <= 'Z' || '0' <= c <= '9' || c == 'K' || c == 'ſ'
  }

  predicate NameInner(c: char)
  {
    NameEdge(c) || c == '-' || c == '_'
  }

  /** The name pattern ^[a-z0-9](?:[a-z0-9\-_]*[a-z0-9])?$ under (?i): one
      edge character, or two edge characters around any inner ones. */
  predicate ValidObjectName(name: string)
  {
    (|name| == 1 && NameEdge(name[0]))
    || (|name| >= 2 && NameEdge(name[0]) && NameEdge(name[|name| - 1])
        && forall i :: 0 < i < |name| - 1 ==> NameInner(name[i]))
  }

  /** ObjectMeta.Validate: the name is required and must match the pattern,
      then a non-empty identifier must be a UUID (uuid.Parse is given from
      outside as isUuid). Every message is wrapped in ErrInvalid. */
  function ValidateMeta(m: ObjectMeta, isUuid: string -> bool): (err: Option<string>)
    ensures err.None? <==> ValidObjectName(m.name) && (m.id == "" || isUuid(m.id))
    ensures m.name == "" ==> err == Some("missing field: name")
    ensures m.name != "" && !ValidObjectName(m.name) ==> err == Some("invalid name: " + m.name)
    ensures ValidObjectName(m.name) && m.id != "" && !isUuid(m.id) ==> err == Some("invalid identifier: " + m.id)
  {
    if m.name == "" then Some("missing field: name")
    else if !ValidObjectName(m.name) then Some("invalid name: " + m.name)
    else if m.id != "" && !isUuid(m.id) then Some("invalid identifier: " + m.id)
    else None
  }

  /** The pattern on a few names: a hyphen or an underscore may not start
      or end a name, a single character is enough, and the Kelvin sign
      counts as a letter. */
  lemma NameExamples()
    ensures ValidObjectName("a") && ValidObjectName("A-b_9")
    ensures !ValidObjectName("-a") && !ValidObjectName("a_") && !ValidObjectName("a.b")
    ensures ValidObjectName("K")
  {
    assert "A-b_9"[4] == '9';
    assert "a.b"[1] == '.';
    assert !NameInner("a.b"[1]);
  }

  // ---- charts ----

  datatype Series = Series(expr: string, color: string)

  /** A chart: its metadata, the options that hold text (the Y axes' labels
      and the title), its series or the chart it links to, and whether it is
      a template. */
  datatype Chart = Chart(meta: ObjectMeta, leftLabel: string, rightLabel: string, title: string,
                         series: seq<Series>, link: string, template: bool)

  /** Chart.Validate: the metadata first, its error unchanged; then exactly
      one of series and link. */
  function ValidateChart(c: Chart, isUuid: string -> bool): (err: Option<string>)
    ensures ValidateMeta(c.meta, isUuid).Some? ==> err == ValidateMeta(c.meta, isUuid)
    ensures err.None? <==> ValidateMeta(c.meta, isUuid).None? && ((|c.series| > 0) != (c.link != ""))
    ensures ValidateMeta(c.meta, isUuid).None? && c.series == [] && c.link == "" ==>
      err == Some("missing field: series or link")
    ensures ValidateMeta(c.meta, isUuid).None? && c.series != [] && c.link != "" ==>
      err == Some("conflicting fields: series and link")
  {
    var meta := ValidateMeta(c.meta, isUuid);
    if meta.Some? then meta
    else if |c.series| == 0 && c.link == "" then Some("missing field: series or link")
    else if |c.series| > 0 && c.link != "" then Some("conflicting fields: series and link")
    else None
  }

  /** The byte Variables writes before each text; it cannot be part of a
      variable name. */
  const Separator: char := 'ÿ'

  /** The outcome of Variables: nothing for an object that is not a
      template (Go's nil slice), the names, or the template's error. */
  datatype Variables = NotTemplate | Names(names: seq<string>) | Failed(error: string)

  /** The template text of a chart: each non-empty one of the left label,
      the right label and the title, then every series expression, each
      after a separator. */
  function ChartData(c: Chart): string
  {
    Field(c.leftLabel) + Field(c.rightLabel) + Field(c.title) + SeriesData(c.series)
  }

  function Field(s: string): string
  {
    if s == "" then "" else [Separator] + s
  }

  function SeriesData(series: seq<Series>): string
  {
    if series == [] then "" else SeriesData(series[..|series| - 1]) + [Separator] + series[|series| - 1].expr
  }

  /** The variables of a template text: the error of the parse, or the
      distinct names in ascending order. */
  predicate VariablesOf(data: string, r: Variables)
  {
    var p := GoTemplate.NodesOf(data);
    if p.err.Some? then r == Failed(p.err.value)
    else r.Names? && Sorting.StrictlySorted(r.names) && Sets.Elems(r.names) == Sets.Elems(GoTemplate.Names(p.nodes))
  }

  /** Parse the template text and list its variables. */
  method TemplateVariables(data: string) returns (r: Variables)
    ensures VariablesOf(data, r)
  {
    var tmpl := new GoTemplate.Template.New();
    var err := tmpl.Parse(data);
    if err.Some? {
      return Failed(err.value);
    }
    var names := tmpl.Variables();
    return Names(names);
  }

  /** Chart.Variables: nothing for a plain chart; otherwise the variables of
      its template text. */
  method ChartVariables(c: Chart) returns (r: Variables)
    ensures !c.template ==> r == NotTemplate
    ensures c.template ==> VariablesOf(ChartData(c), r)
  {
    if !c.template {
      return NotTemplate;
    }
    var data := ChartText(c);
    r := TemplateVariables(data);
  }

  /** The text Chart.Variables assembles with +=. */
  method ChartText(c: Chart) returns (data: string)
    ensures data == ChartData(c)
  {
    data := "";
    if c.leftLabel != "" {
      data := data + ([Separator] + c.leftLabel);
    }
    if c.rightLabel != "" {
      data := data + ([Separator] + c.rightLabel);
    }
    if c.title != "" {
      data := data + ([Separator] + c.title);
    }
    ghost var head := data;
    assert head == Field(c.leftLabel) + Field(c.rightLabel) + Field(c.title);
    for i := 0 to |c.series|
      invariant data == head + SeriesData(c.series[..i])
    {
      var piece := [Separator] + c.series[i].expr;
      SeriesDataStep(c.series, i);
      Text.AppendAssoc(head, SeriesData(c.series[..i]), piece);
      data := data + piece;
    }
    assert c.series[..|c.series|] == c.series;
  }

  /** One more series adds its expression after a separator. */
  lemma SeriesDataStep(series: seq<Series>, i: nat)
    requires i < |series|
    ensures SeriesData(series[..i + 1]) == SeriesData(series[..i]) + ([Separator] + series[i].expr)
  {
    assert series[..i + 1][..i] == series[..i];
  }

  // ---- dashboards ----

  datatype DashboardItem = DashboardItem(typ: string)

  /** A dashboard: its metadata, title, items or the dashboard it links to,
      and whether it is a template. */
  datatype Dashboard = Dashboard(meta: ObjectMeta, title: string, items: seq<DashboardItem>, link: string, template: bool)

  /** Dashboard.Validate: the chart rule with items in place of series. */
  function ValidateDashboard(d: Dashboard, isUuid: string -> bool): (err: Option<string>)
    ensures ValidateMeta(d.meta, isUuid).Some? ==> err == ValidateMeta(d.meta, isUuid)
    ensures err.None? <==> ValidateMeta(d.meta, isUuid).None? && ((|d.items| > 0) != (d.link != ""))
    ensures ValidateMeta(d.meta, isUuid).None? && d.items == [] && d.link == "" ==>
      err == Some("missing field: items or link")
    ensures ValidateMeta(d.meta, isUuid).None? && d.items != [] && d.link != "" ==>
      err == Some("conflicting fields: items and link")
  {
    var meta := ValidateMeta(d.meta, isUuid);
    var hasItems := |d.items| > 0;
    if meta.Some? then meta
    else if !hasItems && d.link == "" then Some("missing field: items or link")
    else if hasItems && d.link != "" then Some("conflicting fields: items and link")
    else None
  }

  /** Dashboard.Variables: only the title is a template text. */
  method DashboardVariables(d: Dashboard) returns (r: Variables)
    ensures !d.template ==> r == NotTemplate
    ensures d.template ==> VariablesOf(Field(d.title), r)
  {
    if !d.template {
      return NotTemplate;
    }
    var data := "";
    if d.title != "" {
      data := data + ([Separator] + d.title);
      assert data == Field(d.title);
    }
    r := TemplateVariables(data);
  }

  /** A text with no dollar sign has no variables and parses without
      error. */
  lemma DollarFree(data: string, r: Variables)
    requires forall k :: 0 <= k < |data| ==> data[k] != '$'
    requires VariablesOf(data, r)
    ensures r == Names([])
  {
    if data == "" {
      GoTemplate.ShortTexts('$');
    } else {
      GoTemplate.PlainText(data);
      assert GoTemplate.Names([GoTemplate.TextNode(data)]) == [] + GoTemplate.Names([]);
    }
    OnlyNames(r.names, {});
  }

  /** A template dashboard whose title is a single braced variable has
      exactly that variable. */
  lemma DashboardOneVariable(d: Dashboard, name: string, r: Variables)
    requires d.template && d.title == "${" + name + "}" && GoTemplate.AllVariableChars(name)
    requires VariablesOf(Field(d.title), r)
    ensures r == Names([name])
  {
    var s := "${" + name + "}";
    assert Field(d.title) == [Separator] + s;
    SeparatedVariable(s, name);
    var nodes := [GoTemplate.TextNode([Separator]), GoTemplate.VariableNode(name)];
    var tail := nodes[1..];
    assert tail == [GoTemplate.VariableNode(name)] && tail[1..] == [];
    assert GoTemplate.Names(tail) == [name] + GoTemplate.Names([]);
    assert GoTemplate.Names(nodes) == [] + GoTemplate.Names(tail);
    OnlyNames(r.names, {name});
  }

  /** A strictly sorted list holding at most one name is that name alone. */
  lemma OnlyNames(names: seq<string>, elems: set<string>)
    requires Sorting.StrictlySorted(names) && Sets.Elems(names) == elems && |elems| <= 1
    ensures elems == {} ==> names == []
    ensures forall x :: elems == {x} ==> names == [x]
  {
    if |names| > 0 {
      assert names[0] in elems;
    }
    if |names| > 1 {
      assert names[1] in elems;
      assert Sorting.Text.Below(names[0], names[1]);
      assert names[0] != names[1] by {
        if names[0] == names[1] { Sorting.Text.BelowIrreflexive(names[0]); }
      }
      assert |{names[0], names[1]}| == 2;
      assert {names[0], names[1]} <= elems;
    }
  }

  /** The separator before a braced variable is a text node of its own. */
  lemma SeparatedVariable(s: string, name: string)
    requires s == "${" + name + "}" && GoTemplate.AllVariableChars(name)
    ensures GoTemplate.NodesOf([Separator] + s)
      == GoTemplate.Parsed([GoTemplate.TextNode([Separator]), GoTemplate.VariableNode(name)], None)
  {
    var data := [Separator] + s;
    GoTemplate.Braced(name);
    assert GoTemplate.StartsVariable(data, 1);
    assert GoTemplate.TextEnd(data, 0, GoTemplate.NoByte) == 1;
    assert data[0..1] == [Separator];
    assert GoTemplate.RoundAt(data, 0) == GoTemplate.More(GoTemplate.TextNode([Separator]), 1);
    ShiftedVariable(data, name);
    assert [] + [GoTemplate.TextNode([Separator])] == [GoTemplate.TextNode([Separator])];
  }

  lemma ShiftedVariable(data: string, name: string)
    requires data == [Separator] + "${" + name + "}" && GoTemplate.AllVariableChars(name)
    ensures GoTemplate.NodesFrom(data, 1, [GoTemplate.TextNode([Separator])])
      == GoTemplate.Parsed([GoTemplate.TextNode([Separator]), GoTemplate.VariableNode(name)], None)
  {
    var j := 3 + |name|;
    GoTemplate.NameEndAt(data, 3, j);
    assert data[j] == '}';
    assert data[3..j] == name;
    assert GoTemplate.VariableAt(data, 2) == GoTemplate.Var(name, |data|);
    assert GoTemplate.RoundAt(data, 1) == GoTemplate.More(GoTemplate.VariableNode(name), |data|);
    assert GoTemplate.RoundAt(data, |data|) == GoTemplate.Last([]);
  }

  // ---- providers ----

  /** A provider: its metadata and its connector's type and settings (the
      settings' values are not part of this model). */
  datatype Provider = Provider(meta: ObjectMeta, connectorType: string, settings: map<string, string>)

  /** Provider.Validate: the metadata, then a connector type, then at least
      one setting. */
  function ValidateProvider(p: Provider, isUuid: string -> bool): (err: Option<string>)
    ensures ValidateMeta(p.meta, isUuid).Some? ==> err == ValidateMeta(p.meta, isUuid)
    ensures err.None? <==> ValidateMeta(p.meta, isUuid).None? && p.connectorType != "" && |p.settings| > 0
    ensures ValidateMeta(p.meta, isUuid).None? && p.connectorType == "" ==> err == Some("missing field: connector.type")
    ensures ValidateMeta(p.meta, isUuid).None? && p.connectorType != "" && |p.settings| == 0 ==>
      err == Some("missing field: connector.settings")
  {
    var meta := ValidateMeta(p.meta, isUuid);
    if meta.Some? then meta
    else if p.connectorType == "" then Some("missing field: connector.type")
    else if |p.settings| == 0 then Some("missing field: connector.settings")
    else None
  }

  // ---- enumerations ----

  const StackModes: set<string> := {"", "normal", "percent"}
  const ChartTypes: set<string> := {"area", "bar", "line"}
  const UnitTypes: set<string> := {"", "binary", "count", "duration", "metric"}
  const DashboardItemTypes: set<string> := {"chart"}

  /** The UnmarshalText of a text enumeration over the receiver f: a
      constant of the enumeration is stored; anything else leaves f and is
      reported as unsupported. */
  function UnmarshalEnum(f: string, b: string, constants: set<string>, what: string): (r: Unmarshaled<string>)
    ensures r.err.None? <==> b in constants
    ensures r.value == if b in constants then b else f
    ensures b !in constants ==> r.err == Some("unsupported " + what + ": " + b)
  {
    if b in constants then Unmarshaled(b, None) else Unmarshaled(f, Some("unsupported " + what + ": " + b))
  }

  function UnmarshalStackMode(f: string, b: string): Unmarshaled<string>
  {
    UnmarshalEnum(f, b, StackModes, "stack mode")
  }

  function UnmarshalChartType(f: string, b: string): Unmarshaled<string>
  {
    UnmarshalEnum(f, b, ChartTypes, "chart type")
  }

  function UnmarshalUnitType(f: string, b: string): Unmarshaled<string>
  {
    UnmarshalEnum(f, b, UnitTypes, "unit type")
  }

  function UnmarshalDashboardItemType(f: string, b: string): Unmarshaled<string>
  {
    UnmarshalEnum(f, b, DashboardItemTypes, "dashboard item type")
  }

  /** The empty text is a stack mode and a unit type (the default ones),
      but no chart type and no dashboard item type. */
  lemma EmptyEnums(f: string)
    ensures UnmarshalStackMode(f, "") == Unmarshaled("", None)
    ensures UnmarshalUnitType(f, "") == Unmarshaled("", None)
    ensures UnmarshalChartType(f, "") == Unmarshaled(f, Some("unsupported chart type: "))
    ensures UnmarshalDashboardItemType(f, "") == Unmarshaled(f, Some("unsupported dashboard item type: "))
  {
    assert "unsupported " + "chart type" + ": " + "" == "unsupported chart type: ";
    assert "unsupported " + "dashboard item type" + ": " + "" == "unsupported dashboard item type: ";
  }

  // ---- lists ----

  /** An API object, as the Objects methods return it. */
  datatype Object = ChartObject(chart: Chart) | DashboardObject(dashboard: Dashboard) | ProviderObject(provider: Provider)

  /** ChartList, DashboardList and ProviderList.Objects: a list of the
      length of the entries, filled index by index with each entry as an
      object. */
  method Objects<T>(entries: seq<T>, box: T -> Object) returns (r: seq<Object>)
    ensures |r| == |entries|
    ensures forall i :: 0 <= i < |entries| ==> r[i] == box(entries[i])
  {
    if |entries| == 0 {
      return [];
    }
    var l := new Object[|entries|](_ => box(entries[0]));
    for idx := 0 to |entries|
      invariant forall i :: 0 <= i < idx ==> l[i] == box(entries[i])
    {
      l[idx] := box(entries[idx]);
    }
    r := l[..];
  }
}
