// The UI's helpers for templated charts and dashboards (ui/src/lib/objects.ts
// and ui/src/helpers/chart.ts, which repeats parseChartVariables and
// renderChart): the data a list of template variables gives, the variables
// a chart or a dashboard uses, the rendering of a chart or a dashboard with
// that data, and the clean-up of a chart's empty options.
//
// Objects are values here: the deep clone renderChart and renderDashboard
// start from is the value itself, so their argument cannot change.
module UiObjects {
  import opened Wrappers
  import T = UiTemplate

  datatype Unit = Unit(typ: Option<string>, base: Option<string>)
  datatype YAxis = YAxis(axisLabel: Option<string>, unit: Option<Unit>, center: Option<bool>)
  datatype YAxes = YAxes(left: Option<YAxis>, right: Option<YAxis>)
  datatype Axes = Axes(y: Option<YAxes>)
  datatype ChartOptions = ChartOptions(axes: Option<Axes>, title: Option<string>, typ: Option<string>, stack: Option<string>)
  datatype Series = Series(expr: string, color: Option<string>)
  datatype Chart = Chart(id: string, name: string, options: Option<ChartOptions>, series: Option<seq<Series>>,
                         link: Option<string>, template: Option<bool>)

  datatype DashboardOptions = DashboardOptions(title: Option<string>)
  datatype Dashboard = Dashboard(id: string, name: string, options: Option<DashboardOptions>,
                                 link: Option<string>, template: Option<bool>)

  datatype TemplateVariable = TemplateVariable(name: string, value: Option<string>, labelName: Option<string>,
                                               filter: Option<string>, dynamic: bool)

  /** A string that JavaScript takes as true: present and not empty. */
  predicate Truthy(s: Option<string>)
  {
    s.Some? && s.value != ""
  }

  /** The separator put before each templated field. */
  const Separator: char := 'ÿ'

  // ---- the optional chains ----

  function YAxesOf(c: Chart): Option<YAxes>
  {
    if c.options.Some? && c.options.value.axes.Some? then c.options.value.axes.value.y else None
  }

  function LeftAxis(c: Chart): Option<YAxis>
  {
    if YAxesOf(c).Some? then YAxesOf(c).value.left else None
  }

  function RightAxis(c: Chart): Option<YAxis>
  {
    if YAxesOf(c).Some? then YAxesOf(c).value.right else None
  }

  function LeftLabel(c: Chart): Option<string>
  {
    if LeftAxis(c).Some? then LeftAxis(c).value.axisLabel else None
  }

  function RightLabel(c: Chart): Option<string>
  {
    if RightAxis(c).Some? then RightAxis(c).value.axisLabel else None
  }

  function Title(c: Chart): Option<string>
  {
    if c.options.Some? then c.options.value.title else None
  }

  function WithLeft(c: Chart, a: YAxis): Chart
    requires LeftAxis(c).Some?
  {
    var o := c.options.value;
    var y := YAxesOf(c).value;
    c.(options := Some(o.(axes := Some(o.axes.value.(y := Some(y.(left := Some(a))))))))
  }

  function WithRight(c: Chart, a: YAxis): Chart
    requires RightAxis(c).Some?
  {
    var o := c.options.value;
    var y := YAxesOf(c).value;
    c.(options := Some(o.(axes := Some(o.axes.value.(y := Some(y.(right := Some(a))))))))
  }

  function WithTitle(c: Chart, t: Option<string>): Chart
    requires c.options.Some?
  {
    c.(options := Some(c.options.value.(title := t)))
  }

  // ---- dataFromVariables ----

  /** variable.value as a string; an undefined value renders as "". */
  function ValueOf(v: TemplateVariable): string
  {
    if v.value.Some? then v.value.value else ""
  }

  /** dataFromVariables: the reduce that maps the name of each variable that
      is not dynamic to its value. */
  function DataFromVariables(vars: seq<TemplateVariable>): map<string, string>
  {
    if vars == [] then map[]
    else
      var data := DataFromVariables(vars[..|vars| - 1]);
      var v := vars[|vars| - 1];
      if v.dynamic then data else data[v.name := ValueOf(v)]
  }

  /** A name has data exactly when a variable that is not dynamic has it. */
  lemma {:induction false} DataKeys(vars: seq<TemplateVariable>, name: string)
    ensures name in DataFromVariables(vars) <==>
      exists i :: 0 <= i < |vars| && !vars[i].dynamic && vars[i].name == name
  {
    if vars != [] {
      var p := vars[..|vars| - 1];
      DataKeys(p, name);
      if exists i :: 0 <= i < |p| && !p[i].dynamic && p[i].name == name {
        var i :| 0 <= i < |p| && !p[i].dynamic && p[i].name == name;
        assert vars[i] == p[i];
      }
      if exists i :: 0 <= i < |vars| && !vars[i].dynamic && vars[i].name == name {
        var i :| 0 <= i < |vars| && !vars[i].dynamic && vars[i].name == name;
        if i < |p| {
          assert p[i] == vars[i];
        }
      }
    }
  }

  /** The value of a name is that of the last variable, not dynamic, with
      that name. */
  lemma {:induction false} DataLast(vars: seq<TemplateVariable>, name: string) returns (i: nat)
    requires name in DataFromVariables(vars)
    ensures i < |vars| && !vars[i].dynamic && vars[i].name == name
    ensures DataFromVariables(vars)[name] == ValueOf(vars[i])
    ensures forall j :: i < j < |vars| ==> vars[j].dynamic || vars[j].name != name
  {
    var p := vars[..|vars| - 1];
    var v := vars[|vars| - 1];
    if !v.dynamic && v.name == name {
      i := |vars| - 1;
    } else {
      i := DataLast(p, name);
      assert vars[i] == p[i];
      forall j | i < j < |vars|
        ensures vars[j].dynamic || vars[j].name != name
      {
        if j < |p| {
          assert vars[j] == p[j];
        }
      }
    }
  }

  // ---- the templated fields ----

  function SeriesExprs(ss: seq<Series>): (r: seq<string>)
    ensures |r| == |ss| && forall i :: 0 <= i < |ss| ==> r[i] == ss[i].expr
  {
    if ss == [] then [] else SeriesExprs(ss[..|ss| - 1]) + [ss[|ss| - 1].expr]
  }

  function IfTruthy(s: Option<string>): seq<string>
  {
    if Truthy(s) then [s.value] else []
  }

  /** The fields of a chart that are templates, in the order the UI reads
      them: each series' expression, then the left and the right Y label
      and the title when they are not empty. */
  function ChartFields(c: Chart): seq<string>
  {
    (if c.series.Some? then SeriesExprs(c.series.value) else [])
    + IfTruthy(LeftLabel(c)) + IfTruthy(RightLabel(c)) + IfTruthy(Title(c))
  }

  /** Each field behind the separator, one after the other. */
  function Separated(fields: seq<string>): string
  {
    if fields == [] then "" else Separated(fields[..|fields| - 1]) + [Separator] + fields[|fields| - 1]
  }

  /** The variables of a text, each with dynamic false; an unbalanced brace
      is thrown. */
  function StaticVariables(text: string): Result<seq<TemplateVariable>>
  {
    var p := T.NodesOf(text);
    if p.err.Some? then Err(p.err.value) else Ok(Static(T.Variables(p.nodes)))
  }

  function Static(names: seq<string>): (r: seq<TemplateVariable>)
    ensures |r| == |names|
    ensures forall i :: 0 <= i < |r| ==> r[i] == TemplateVariable(names[i], None, None, None, false)
  {
    if names == [] then [] else [TemplateVariable(names[0], None, None, None, false)] + Static(names[1..])
  }

  lemma SeparatedSnoc(fields: seq<string>, x: string)
    ensures Separated(fields + [x]) == Separated(fields) + [Separator] + x
  {
    assert (fields + [x])[..|fields|] == fields;
  }

  /** A field behind the separator, when it is not empty. */
  lemma SeparatedIf(fields: seq<string>, s: Option<string>)
    ensures Separated(fields + IfTruthy(s)) == Separated(fields) + (if Truthy(s) then [Separator] + s.value else "")
  {
    if Truthy(s) {
      SeparatedSnoc(fields, s.value);
      assert Separated(fields) + [Separator] + s.value == Separated(fields) + ([Separator] + s.value);
    } else {
      assert fields + IfTruthy(s) == fields;
      assert Separated(fields) + "" == Separated(fields);
    }
  }

  /** The loop of parseChartVariables over the series. */
  method SeriesText(ss: seq<Series>) returns (data: string)
    ensures data == Separated(SeriesExprs(ss))
  {
    data := "";
    var i := 0;
    while i < |ss|
      invariant 0 <= i <= |ss| && data == Separated(SeriesExprs(ss[..i]))
    {
      assert ss[..i + 1][..i] == ss[..i] && ss[..i + 1][i] == ss[i];
      SeparatedSnoc(SeriesExprs(ss[..i]), ss[i].expr);
      data := data + [Separator] + ss[i].expr;
      i := i + 1;
    }
    assert ss[..i] == ss;
  }

  /** The text parseChartVariables hands to the template engine. */
  method ChartText(c: Chart) returns (data: string)
    ensures data == Separated(ChartFields(c))
  {
    var exprs: seq<string> := [];
    data := "";
    if c.series.Some? {
      exprs := SeriesExprs(c.series.value);
      data := SeriesText(c.series.value);
    }
    var left, right, title := LeftLabel(c), RightLabel(c), Title(c);
    SeparatedIf(exprs, left);
    if Truthy(left) {
      data := data + ([Separator] + left.value);
    } else {
      assert data + "" == data;
    }
    SeparatedIf(exprs + IfTruthy(left), right);
    if Truthy(right) {
      data := data + ([Separator] + right.value);
    } else {
      assert data + "" == data;
    }
    SeparatedIf(exprs + IfTruthy(left) + IfTruthy(right), title);
    if Truthy(title) {
      data := data + ([Separator] + title.value);
    } else {
      assert data + "" == data;
    }
  }

  /** parseChartVariables: the variables of the series expressions, the Y
      labels and the title, each once, none dynamic. */
  method ParseChartVariables(c: Chart) returns (r: Result<seq<TemplateVariable>>)
    ensures r == StaticVariables(Separated(ChartFields(c)))
  {
    var data := ChartText(c);
    var names := T.ParseVariables(data);
    T.ErrorIsBrace(data, []);
    if names.Err? {
      return Err(names.error);
    }
    return Ok(Static(names.value));
  }

  function DashboardTitle(d: Dashboard): Option<string>
  {
    if d.options.Some? then d.options.value.title else None
  }

  /** parseDashboardVariables: the variables of the title alone. */
  method ParseDashboardVariables(d: Dashboard) returns (r: Result<seq<TemplateVariable>>)
    ensures r == StaticVariables(Separated(IfTruthy(DashboardTitle(d))))
  {
    var data := "";
    var title := DashboardTitle(d);
    if Truthy(title) {
      data := data + [Separator] + title.value;
      assert data == Separated([title.value]);
    }
    var names := T.ParseVariables(data);
    T.ErrorIsBrace(data, []);
    if names.Err? {
      return Err(names.error);
    }
    return Ok(Static(names.value));
  }

  /** The variables listed are those of the text, each once, in the order
      of first appearance, none dynamic. */
  lemma StaticVariablesOf(text: string)
    ensures var r := StaticVariables(text); var p := T.NodesOf(text);
      && (r.Err? <==> p.err.Some?)
      && (r.Ok? ==> |r.value| == |T.Variables(p.nodes)|)
      && (r.Ok? ==> forall i :: 0 <= i < |r.value| ==> !r.value[i].dynamic && r.value[i].name == T.Variables(p.nodes)[i])
      && (r.Ok? ==> T.Distinct(T.Variables(p.nodes)))
      && (r.Ok? ==> T.FirstAppearanceOrder(T.Variables(p.nodes), T.Names(p.nodes)))
  {
    var p := T.NodesOf(text);
    T.VariablesDistinct(p.nodes);
    T.VariablesOrder(p.nodes);
  }

  // ---- rendering ----

  /** renderTemplate on one field. */
  function RenderField(s: string, data: map<string, string>): Result<string>
  {
    T.Expand(s, data, false)
  }

  /** The series with their expressions rendered; the first unbalanced
      brace is thrown. */
  function RenderedSeries(ss: seq<Series>, data: map<string, string>): (r: Result<seq<Series>>)
    ensures r.Ok? ==> |r.value| == |ss|
  {
    if ss == [] then Ok([])
    else
      var front := RenderedSeries(ss[..|ss| - 1], data);
      var e := RenderField(ss[|ss| - 1].expr, data);
      if front.Err? then front
      else if e.Err? then Err(e.error)
      else Ok(front.value + [ss[|ss| - 1].(expr := e.value)])
  }

  function RenderSeriesStep(c: Chart, data: map<string, string>): Result<Chart>
  {
    if c.series.None? then Ok(c)
    else
      var r := RenderedSeries(c.series.value, data);
      if r.Err? then Err(r.error) else Ok(c.(series := Some(r.value)))
  }

  function RenderLeftStep(c: Chart, data: map<string, string>): Result<Chart>
  {
    if !Truthy(LeftLabel(c)) then Ok(c)
    else
      var e := RenderField(LeftLabel(c).value, data);
      if e.Err? then Err(e.error) else Ok(WithLeft(c, LeftAxis(c).value.(axisLabel := Some(e.value))))
  }

  function RenderRightStep(c: Chart, data: map<string, string>): Result<Chart>
  {
    if !Truthy(RightLabel(c)) then Ok(c)
    else
      var e := RenderField(RightLabel(c).value, data);
      if e.Err? then Err(e.error) else Ok(WithRight(c, RightAxis(c).value.(axisLabel := Some(e.value))))
  }

  function RenderTitleStep(c: Chart, data: map<string, string>): Result<Chart>
  {
    if !Truthy(Title(c)) then Ok(c)
    else
      var e := RenderField(Title(c).value, data);
      if e.Err? then Err(e.error) else Ok(WithTitle(c, Some(e.value)))
  }

  /** renderChart's result: the series expressions, then the Y labels and
      the title that are not empty, rendered in that order. */
  function RenderedChart(c: Chart, data: map<string, string>): Result<Chart>
  {
    var s := RenderSeriesStep(c, data);
    if s.Err? then s
    else
      var l := RenderLeftStep(s.value, data);
      if l.Err? then l
      else
        var r := RenderRightStep(l.value, data);
        if r.Err? then r else RenderTitleStep(r.value, data)
  }

  /** renderChart: the chart with its templated fields rendered. */
  method RenderChart(c: Chart, data: map<string, string>) returns (r: Result<Chart>)
    ensures r == RenderedChart(c, data)
  {
    var proxy := c;
    if proxy.series.Some? {
      var ss := proxy.series.value;
      var out: seq<Series> := [];
      var i := 0;
      while i < |ss|
        invariant 0 <= i <= |ss| && RenderedSeries(ss[..i], data) == Ok(out)
      {
        assert ss[..i + 1][..i] == ss[..i];
        var e := T.RenderTemplate(ss[i].expr, data);
        if e.Err? {
          RenderedSeriesErr(ss, i + 1, data);
          return Err(e.error);
        }
        out := out + [ss[i].(expr := e.value)];
        i := i + 1;
      }
      assert ss[..i] == ss;
      proxy := proxy.(series := Some(out));
    }
    var left := LeftLabel(proxy);
    if Truthy(left) {
      var e := T.RenderTemplate(left.value, data);
      if e.Err? {
        return Err(e.error);
      }
      proxy := WithLeft(proxy, LeftAxis(proxy).value.(axisLabel := Some(e.value)));
    }
    var right := RightLabel(proxy);
    if Truthy(right) {
      var e := T.RenderTemplate(right.value, data);
      if e.Err? {
        return Err(e.error);
      }
      proxy := WithRight(proxy, RightAxis(proxy).value.(axisLabel := Some(e.value)));
    }
    var title := Title(proxy);
    if Truthy(title) {
      var e := T.RenderTemplate(title.value, data);
      if e.Err? {
        return Err(e.error);
      }
      proxy := WithTitle(proxy, Some(e.value));
    }
    return Ok(proxy);
  }

  /** Once a series fails, the rendering of every longer prefix fails. */
  lemma {:induction false} RenderedSeriesErr(ss: seq<Series>, k: nat, data: map<string, string>)
    requires 0 < k <= |ss| && RenderedSeries(ss[..k - 1], data).Ok? && RenderField(ss[k - 1].expr, data).Err?
    ensures RenderedSeries(ss, data) == Err(RenderField(ss[k - 1].expr, data).error)
    decreases |ss| - k
  {
    if k == |ss| {
      assert ss[..k - 1] == ss[..|ss| - 1];
    } else {
      assert ss[..|ss| - 1][..k - 1] == ss[..k - 1];
      assert ss[..|ss| - 1][k - 1] == ss[k - 1];
      RenderedSeriesErr(ss[..|ss| - 1], k, data);
    }
  }

  /** renderDashboard: the dashboard with its title rendered, when it is
      not empty. */
  method RenderDashboard(d: Dashboard, data: map<string, string>) returns (r: Result<Dashboard>)
    ensures var t := DashboardTitle(d);
      if !Truthy(t) then r == Ok(d)
      else if RenderField(t.value, data).Err? then r == Err(RenderField(t.value, data).error)
      else r == Ok(d.(options := Some(d.options.value.(title := Some(RenderField(t.value, data).value)))))
  {
    var proxy := d;
    var title := DashboardTitle(proxy);
    if Truthy(title) {
      var e := T.RenderTemplate(title.value, data);
      if e.Err? {
        return Err(e.error);
      }
      proxy := proxy.(options := Some(proxy.options.value.(title := Some(e.value))));
    }
    return Ok(proxy);
  }

  // ---- cleanupChart ----

  /** A unit whose type JavaScript takes as true. */
  predicate Typed(u: Option<Unit>)
  {
    u.Some? && Truthy(u.value.typ)
  }

  function CleanAxis(a: Option<YAxis>): Option<YAxis>
  {
    if a.Some? && !Typed(a.value.unit) then Some(a.value.(unit := None)) else a
  }

  /** cleanupChart: the Y units without a type and an empty title are
      deleted. */
  function CleanupChart(c: Chart): Chart
  {
    if c.options.None? then c
    else
      var o := c.options.value;
      var axes := if o.axes.Some? && o.axes.value.y.Some? then
        var y := o.axes.value.y.value;
        Some(o.axes.value.(y := Some(YAxes(CleanAxis(y.left), CleanAxis(y.right)))))
      else o.axes;
      c.(options := Some(o.(axes := axes, title := if Truthy(o.title) then o.title else None)))
  }

  // ---- what rendering and clean-up change ----

  /** A chart with its templated fields and its units blanked. */
  function BlankAxis(a: Option<YAxis>): Option<YAxis>
  {
    if a.Some? then Some(a.value.(axisLabel := if a.value.axisLabel.Some? then Some("") else None, unit := None)) else None
  }

  function Shape(c: Chart): Chart
  {
    var series := if c.series.Some? then Some(BlankSeries(c.series.value)) else None;
    var options := if c.options.None? then None else
      var o := c.options.value;
      var axes := if o.axes.Some? && o.axes.value.y.Some? then
        var y := o.axes.value.y.value;
        Some(o.axes.value.(y := Some(YAxes(BlankAxis(y.left), BlankAxis(y.right)))))
      else o.axes;
      Some(o.(axes := axes, title := None));
    c.(series := series, options := options)
  }

  function BlankSeries(ss: seq<Series>): (r: seq<Series>)
    ensures |r| == |ss| && forall i :: 0 <= i < |ss| ==> r[i] == ss[i].(expr := "")
  {
    if ss == [] then [] else BlankSeries(ss[..|ss| - 1]) + [ss[|ss| - 1].(expr := "")]
  }

  /** A chart with its units and its title removed: what clean-up keeps. */
  function StripAxis(a: Option<YAxis>): Option<YAxis>
  {
    if a.Some? then Some(a.value.(unit := None)) else None
  }

  function Strip(c: Chart): Chart
  {
    if c.options.None? then c
    else
      var o := c.options.value;
      var axes := if o.axes.Some? && o.axes.value.y.Some? then
        var y := o.axes.value.y.value;
        Some(o.axes.value.(y := Some(YAxes(StripAxis(y.left), StripAxis(y.right)))))
      else o.axes;
      c.(options := Some(o.(axes := axes, title := None)))
  }

  /** A field in which no variable starts. */
  predicate NoVariable(f: string)
  {
    forall k :: 0 <= k < |f| ==> !T.StartsVariable(f[k..])
  }

  // ---- the series ----

  /** Each expression is rendered in place; the series fail exactly when an
      expression does. */
  lemma RenderedSeriesFields(ss: seq<Series>, data: map<string, string>)
    ensures var r := RenderedSeries(ss, data);
      && (r.Ok? ==> forall i :: 0 <= i < |ss| ==> RenderField(ss[i].expr, data) == Ok(r.value[i].expr))
      && (r.Ok? ==> forall i :: 0 <= i < |ss| ==> r.value[i] == ss[i].(expr := r.value[i].expr))
      && (r.Err? <==> exists i :: 0 <= i < |ss| && RenderField(ss[i].expr, data).Err?)
  {
    RenderedSeriesOk(ss, data);
    RenderedSeriesFailure(ss, data);
  }

  /** Each rendered series is its source series with the expression
      rendered. */
  lemma {:induction false} RenderedSeriesOk(ss: seq<Series>, data: map<string, string>)
    ensures var r := RenderedSeries(ss, data);
      r.Ok? ==> forall i :: 0 <= i < |ss| ==> RenderField(ss[i].expr, data) == Ok(r.value[i].expr) && r.value[i] == ss[i].(expr := r.value[i].expr)
  {
    if ss != [] {
      var p := ss[..|ss| - 1];
      RenderedSeriesOk(p, data);
      var r := RenderedSeries(ss, data);
      var front := RenderedSeries(p, data);
      if r.Ok? {
        var last := ss[|ss| - 1];
        var e := RenderField(last.expr, data);
        assert front.Ok? && e.Ok?;
        assert r.value == front.value + [last.(expr := e.value)];
        forall i | 0 <= i < |ss|
          ensures RenderField(ss[i].expr, data) == Ok(r.value[i].expr) && r.value[i] == ss[i].(expr := r.value[i].expr)
        {
          if i < |p| {
            assert ss[i] == p[i] && r.value[i] == front.value[i];
          }
        }
      }
    }
  }

  /** Rendering the series fails exactly when one expression fails. */
  lemma {:induction false} RenderedSeriesFailure(ss: seq<Series>, data: map<string, string>)
    ensures RenderedSeries(ss, data).Err? <==> exists i :: 0 <= i < |ss| && RenderField(ss[i].expr, data).Err?
  {
    if ss != [] {
      var p := ss[..|ss| - 1];
      RenderedSeriesFailure(p, data);
      var front := RenderedSeries(p, data);
      if exists i :: 0 <= i < |p| && RenderField(p[i].expr, data).Err? {
        var i :| 0 <= i < |p| && RenderField(p[i].expr, data).Err?;
        assert ss[i] == p[i];
      }
      if front.Ok? {
        forall i | 0 <= i < |p|
          ensures RenderField(ss[i].expr, data).Ok?
        {
          assert ss[i] == p[i];
        }
      }
    }
  }


  // ---- renderChart ----

  lemma SeriesStepFields(c: Chart, data: map<string, string>)
    ensures var s := RenderSeriesStep(c, data);
      s.Ok? ==> s.value.options == c.options && Shape(s.value) == Shape(c)
  {
    var s := RenderSeriesStep(c, data);
    if s.Ok? && c.series.Some? {
      var ss := c.series.value;
      RenderedSeriesFields(ss, data);
      assert BlankSeries(s.value.series.value) == BlankSeries(ss);
    }
  }

  /** Rendering the left label leaves every other field. */
  lemma LeftStepFields(c: Chart, data: map<string, string>)
    ensures var l := RenderLeftStep(c, data);
      && (l.Ok? ==> l.value.series == c.series && RightLabel(l.value) == RightLabel(c) && Title(l.value) == Title(c))
      && (l.Ok? ==> Shape(l.value) == Shape(c))
      && (l.Ok? && Truthy(LeftLabel(c)) ==> LeftLabel(l.value).Some? && RenderField(LeftLabel(c).value, data) == Ok(LeftLabel(l.value).value))
      && (l.Ok? && !Truthy(LeftLabel(c)) ==> l.value == c)
  {
  }

  lemma RightStepFields(c: Chart, data: map<string, string>)
    ensures var r := RenderRightStep(c, data);
      && (r.Ok? ==> r.value.series == c.series && LeftLabel(r.value) == LeftLabel(c) && Title(r.value) == Title(c))
      && (r.Ok? ==> Shape(r.value) == Shape(c))
      && (r.Ok? && Truthy(RightLabel(c)) ==> RightLabel(r.value).Some? && RenderField(RightLabel(c).value, data) == Ok(RightLabel(r.value).value))
      && (r.Ok? && !Truthy(RightLabel(c)) ==> r.value == c)
  {
  }

  lemma TitleStepFields(c: Chart, data: map<string, string>)
    ensures var t := RenderTitleStep(c, data);
      && (t.Ok? ==> t.value.series == c.series && LeftLabel(t.value) == LeftLabel(c) && RightLabel(t.value) == RightLabel(c))
      && (t.Ok? ==> Shape(t.value) == Shape(c))
      && (t.Ok? && Truthy(Title(c)) ==> Title(t.value).Some? && RenderField(Title(c).value, data) == Ok(Title(t.value).value))
      && (t.Ok? && !Truthy(Title(c)) ==> t.value == c)
  {
  }

  /** After renderChart every series expression holds its rendering. */
  lemma RenderedChartSeries(c: Chart, data: map<string, string>)
    ensures var r := RenderedChart(c, data);
      && (r.Ok? ==> (r.value.series.Some? <==> c.series.Some?))
      && (r.Ok? && c.series.Some? ==> |r.value.series.value| == |c.series.value|)
      && (r.Ok? && c.series.Some? ==> forall i :: 0 <= i < |c.series.value| ==> RenderField(c.series.value[i].expr, data) == Ok(r.value.series.value[i].expr))
  {
    var s := RenderSeriesStep(c, data);
    if s.Ok? {
      if c.series.Some? {
        RenderedSeriesFields(c.series.value, data);
      }
      LeftStepFields(s.value, data);
      var l := RenderLeftStep(s.value, data);
      if l.Ok? {
        RightStepFields(l.value, data);
        var r := RenderRightStep(l.value, data);
        if r.Ok? {
          TitleStepFields(r.value, data);
        }
      }
    }
  }

  /** After renderChart the Y labels and the title that were not empty hold
      their rendering; empty or absent ones are left as they are. */
  lemma RenderedChartLabels(c: Chart, data: map<string, string>)
    ensures var r := RenderedChart(c, data);
      && (r.Ok? && Truthy(LeftLabel(c)) ==> LeftLabel(r.value).Some? && RenderField(LeftLabel(c).value, data) == Ok(LeftLabel(r.value).value))
      && (r.Ok? && !Truthy(LeftLabel(c)) ==> LeftLabel(r.value) == LeftLabel(c))
      && (r.Ok? && Truthy(RightLabel(c)) ==> RightLabel(r.value).Some? && RenderField(RightLabel(c).value, data) == Ok(RightLabel(r.value).value))
      && (r.Ok? && !Truthy(RightLabel(c)) ==> RightLabel(r.value) == RightLabel(c))
      && (r.Ok? && Truthy(Title(c)) ==> Title(r.value).Some? && RenderField(Title(c).value, data) == Ok(Title(r.value).value))
      && (r.Ok? && !Truthy(Title(c)) ==> Title(r.value) == Title(c))
  {
    var s := RenderSeriesStep(c, data);
    if s.Ok? {
      SeriesStepFields(c, data);
      LeftStepFields(s.value, data);
      var l := RenderLeftStep(s.value, data);
      if l.Ok? {
        RightStepFields(l.value, data);
        var r := RenderRightStep(l.value, data);
        if r.Ok? {
          TitleStepFields(r.value, data);
        }
      }
    }
  }

  function Exprs(c: Chart): seq<string>
  {
    if c.series.Some? then SeriesExprs(c.series.value) else []
  }

  /** A field that fails to render. */
  predicate Fails(f: Option<string>, data: map<string, string>)
  {
    Truthy(f) && RenderField(f.value, data).Err?
  }

  lemma SeriesStepFails(c: Chart, data: map<string, string>)
    ensures RenderSeriesStep(c, data).Err? <==> exists f :: f in Exprs(c) && RenderField(f, data).Err?
  {
    if c.series.Some? {
      var ss := c.series.value;
      RenderedSeriesFields(ss, data);
      if exists i :: 0 <= i < |ss| && RenderField(ss[i].expr, data).Err? {
        var i :| 0 <= i < |ss| && RenderField(ss[i].expr, data).Err?;
        assert Exprs(c)[i] in Exprs(c);
      }
    }
  }

  lemma FieldsFail(c: Chart, data: map<string, string>)
    ensures (exists f :: f in ChartFields(c) && RenderField(f, data).Err?) <==>
      (exists f :: f in Exprs(c) && RenderField(f, data).Err?)
      || Fails(LeftLabel(c), data) || Fails(RightLabel(c), data) || Fails(Title(c), data)
  {
    assert ChartFields(c) == Exprs(c) + IfTruthy(LeftLabel(c)) + IfTruthy(RightLabel(c)) + IfTruthy(Title(c));
  }

  /** renderChart throws exactly when one of the templated fields has an
      unbalanced brace. */
  lemma RenderedChartFails(c: Chart, data: map<string, string>)
    ensures RenderedChart(c, data).Err? <==> exists f :: f in ChartFields(c) && RenderField(f, data).Err?
  {
    FieldsFail(c, data);
    SeriesStepFails(c, data);
    var s := RenderSeriesStep(c, data);
    if s.Ok? {
      SeriesStepFields(c, data);
      assert LeftLabel(s.value) == LeftLabel(c) && RightLabel(s.value) == RightLabel(c) && Title(s.value) == Title(c);
      LeftStepFields(s.value, data);
      var l := RenderLeftStep(s.value, data);
      assert l.Err? <==> Fails(LeftLabel(c), data);
      if l.Ok? {
        RightStepFields(l.value, data);
        var r := RenderRightStep(l.value, data);
        assert r.Err? <==> Fails(RightLabel(c), data);
        if r.Ok? {
          TitleStepFields(r.value, data);
          assert RenderTitleStep(r.value, data).Err? <==> Fails(Title(c), data);
        }
      }
    }
  }

  /** A chart whose templated fields hold no variable renders as itself. */
  lemma RenderPlainChart(c: Chart, data: map<string, string>)
    requires forall f :: f in ChartFields(c) ==> NoVariable(f)
    ensures RenderedChart(c, data) == Ok(c)
  {
    var exprs := if c.series.Some? then SeriesExprs(c.series.value) else [];
    var labels := IfTruthy(LeftLabel(c)) + IfTruthy(RightLabel(c)) + IfTruthy(Title(c));
    assert ChartFields(c) == exprs + labels;
    if c.series.Some? {
      forall i | 0 <= i < |c.series.value|
        ensures NoVariable(c.series.value[i].expr)
      {
        assert exprs[i] in ChartFields(c);
      }
    }
    assert forall f :: f in labels ==> f in ChartFields(c);
    PlainSeries(c, data);
    PlainLabels(c, data);
  }

  /** Expressions without a variable render to themselves. */
  lemma PlainSeries(c: Chart, data: map<string, string>)
    requires c.series.Some? ==> forall i :: 0 <= i < |c.series.value| ==> NoVariable(c.series.value[i].expr)
    ensures RenderSeriesStep(c, data) == Ok(c)
  {
    if c.series.Some? {
      var ss := c.series.value;
      RenderedSeriesOk(ss, data);
      RenderedSeriesFailure(ss, data);
      forall i | 0 <= i < |ss|
        ensures RenderField(ss[i].expr, data) == Ok(ss[i].expr)
      {
        T.PlainExpand(ss[i].expr, data, false);
      }
      var r := RenderedSeries(ss, data);
      assert r.Ok?;
      assert r.value == ss;
    }
  }

  /** Labels and a title without a variable render to themselves. */
  lemma PlainLabels(c: Chart, data: map<string, string>)
    requires forall f :: f in IfTruthy(LeftLabel(c)) + IfTruthy(RightLabel(c)) + IfTruthy(Title(c)) ==> NoVariable(f)
    ensures RenderLeftStep(c, data) == Ok(c)
    ensures RenderRightStep(c, data) == Ok(c)
    ensures RenderTitleStep(c, data) == Ok(c)
  {
    var labels := IfTruthy(LeftLabel(c)) + IfTruthy(RightLabel(c)) + IfTruthy(Title(c));
    if Truthy(LeftLabel(c)) {
      assert NoVariable(LeftLabel(c).value) by { assert LeftLabel(c).value in labels; }
      T.PlainExpand(LeftLabel(c).value, data, false);
    }
    if Truthy(RightLabel(c)) {
      assert NoVariable(RightLabel(c).value) by { assert RightLabel(c).value in labels; }
      T.PlainExpand(RightLabel(c).value, data, false);
    }
    if Truthy(Title(c)) {
      assert NoVariable(Title(c).value) by { assert Title(c).value in labels; }
      T.PlainExpand(Title(c).value, data, false);
    }
  }


  /** Rendering changes no field but the templated ones. */
  lemma RenderKeepsShape(c: Chart, data: map<string, string>)
    ensures RenderedChart(c, data).Ok? ==> Shape(RenderedChart(c, data).value) == Shape(c)
  {
    var s := RenderSeriesStep(c, data);
    if s.Ok? {
      SeriesStepFields(c, data);
      LeftStepFields(s.value, data);
      var l := RenderLeftStep(s.value, data);
      if l.Ok? {
        RightStepFields(l.value, data);
        var r := RenderRightStep(l.value, data);
        if r.Ok? {
          TitleStepFields(r.value, data);
        }
      }
    }
  }

  // ---- cleanupChart ----

  /** After clean-up every Y axis has no unit or a typed one, and the title
      is absent or not empty. */
  lemma CleanupCleans(c: Chart)
    ensures var r := CleanupChart(c);
      && (LeftAxis(r).Some? ==> LeftAxis(r).value.unit.None? || Typed(LeftAxis(r).value.unit))
      && (RightAxis(r).Some? ==> RightAxis(r).value.unit.None? || Typed(RightAxis(r).value.unit))
      && (Title(r).None? || Truthy(Title(r)))
  {
  }

  /** Clean-up keeps the axes, the units that have a type and a title that
      is not empty, and touches nothing but the units and the title. */
  lemma CleanupKeeps(c: Chart)
    ensures var r := CleanupChart(c);
      && (LeftAxis(r).Some? <==> LeftAxis(c).Some?)
      && (RightAxis(r).Some? <==> RightAxis(c).Some?)
      && (LeftAxis(c).Some? && Typed(LeftAxis(c).value.unit) ==> LeftAxis(r) == LeftAxis(c))
      && (RightAxis(c).Some? && Typed(RightAxis(c).value.unit) ==> RightAxis(r) == RightAxis(c))
      && (Truthy(Title(c)) ==> Title(r) == Title(c))
      && Strip(r) == Strip(c)
  {
  }

  /** Cleaning a clean chart changes nothing. */
  lemma CleanupIdempotent(c: Chart)
    ensures CleanupChart(CleanupChart(c)) == CleanupChart(c)
  {
  }
}
