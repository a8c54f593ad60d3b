// The metrics catalog (pkg/catalog): metrics grouped into sections, one per
// connector, and a catalog that links sections by name and answers queries
// over all of them with sorted, distinct results; plus the text forms of the
// filter rules applied to metrics before they enter the catalog.
module Catalog {
  import opened Wrappers
  import opened LabelPair
  import LabelList
  import M = Matchers
  import Sets
  import Sorting

  /** What a section is attached to. A connector is known here only by its
      name: what it does with time series is not part of this model. */
  type Connector = string

  // ---- metrics ----

  /** A catalog metric: its labels and the section it was inserted into
      (null until then). Its attributes are not part of this model. */
  datatype Metric = Metric(labels: seq<Label>, section: Section?)

  /** Metric.Connector: none without a section, else the section's. */
  function ConnectorOf(m: Metric): (c: Option<Connector>)
    ensures c.None? <==> m.section == null
    ensures m.section != null ==> c.value == m.section.connector
  {
    if m.section == null then None else Some(m.section.connector)
  }

  /** Metric.String: the value of __name__, then the other labels in braces,
      in stored order. */
  function MetricText(m: Metric): string
  {
    LabelList.ValueOf(m.labels, Name) + LabelList.ListString(LabelList.Removed(m.labels, Name))
  }

  /** Metric.String pops the name from a copy of the labels, so the metric
      keeps its own. */
  method MetricString(m: Metric) returns (s: string)
    ensures s == MetricText(m)
  {
    var ls := new LabelList.Labels.New(m.labels);
    var name := ls.Pop(Name);
    var rest := ls.String();
    s := name + rest;
  }

  // ---- sections ----

  /** The metrics of ms whose labels match, in their order in ms; a nil
      matcher matches every metric. */
  function Selected(ms: seq<Metric>, matcher: Option<M.Matcher>, re: M.Regexp): seq<Metric>
  {
    if ms == [] then []
    else
      var init := Selected(ms[..|ms| - 1], matcher, re);
      if LabelList.Matches(ms[|ms| - 1].labels, matcher, re) then init + [ms[|ms| - 1]] else init
  }

  /** The labels Insert stores: sorted by name. */
  function Sorted(ls: seq<Label>): (r: seq<Label>)
    ensures Sorting.SortedBy(r, LabelList.NameOf) && multiset(r) == multiset(ls)
  {
    Sorting.SortBy(ls, LabelList.NameOf)
  }

  class Section {
    const connector: Connector
    var metrics: seq<Metric>

    /** Every stored metric points back at this section and holds valid
        labels with distinct names, sorted by name. */
    predicate Valid()
      reads this
    {
      forall i :: 0 <= i < |metrics| ==>
        metrics[i].section == this
        && Sorting.SortedBy(metrics[i].labels, LabelList.NameOf)
        && LabelList.ValidateList(metrics[i].labels, None).None?
    }

    /** NewSection: no metrics yet. */
    constructor New(connector: Connector)
      ensures this.connector == connector && metrics == [] && Valid()
    {
      this.connector := connector;
      metrics := [];
    }

    /** Insert: the labels are sorted by name and validated; an invalid
        metric is refused with the validation error and nothing changes,
        a valid one is appended, linked to this section. */
    method Insert(metric: Metric) returns (err: Option<string>)
      modifies this
      ensures err == LabelList.ValidateAsWritten(Sorted(metric.labels), "")
      ensures err.None? <==>
        (forall l :: l in metric.labels ==> Validate(l).None?) && LabelList.DistinctNames(Sorted(metric.labels))
      ensures err.Some? ==> metrics == old(metrics)
      ensures err.None? ==> metrics == old(metrics) + [Metric(Sorted(metric.labels), this)]
      ensures old(Valid()) ==> Valid()
    {
      var ls := new LabelList.Labels.New(Sorted(metric.labels));
      err := ls.Validate();
      InsertAccepts(metric.labels);
      if err.Some? {
        return;
      }
      metrics := metrics + [Metric(ls.items, this)];
    }

    /** Query: a copy of all metrics for a nil matcher, else the matching
        ones in insertion order. */
    method Query(matcher: Option<M.Matcher>, re: M.Regexp) returns (r: seq<Metric>)
      ensures r == Selected(metrics, matcher, re)
    {
      if matcher.None? {
        SelectedAll(metrics, re);
        return metrics;
      }
      r := [];
      for i := 0 to |metrics|
        invariant r == Selected(metrics[..i], matcher, re)
      {
        assert metrics[..i + 1][..i] == metrics[..i];
        var ls := new LabelList.Labels.New(metrics[i].labels);
        var ok := ls.Match(matcher, re);
        if ok {
          r := r + [metrics[i]];
        }
      }
      assert metrics[..|metrics|] == metrics;
    }
  }

  /** A section's metrics are accepted exactly when their labels are valid
      and their names distinct, whatever their order. */
  lemma InsertAccepts(ls: seq<Label>)
    ensures LabelList.ValidateList(Sorted(ls), None).None?
      <==> (forall l :: l in ls ==> Validate(l).None?) && LabelList.DistinctNames(Sorted(ls))
  {
    var s := Sorted(ls);
    LabelList.SortedValidate(s);
    assert forall l :: l in ls <==> l in s by {
      assert forall l :: l in ls <==> l in multiset(ls);
      assert forall l :: l in s <==> l in multiset(s);
    }
  }

  /** Query with a nil matcher gives every metric. */
  lemma {:induction false} SelectedAll(ms: seq<Metric>, re: M.Regexp)
    ensures Selected(ms, None, re) == ms
  {
    if ms != [] {
      SelectedAll(ms[..|ms| - 1], re);
      assert ms[..|ms| - 1] + [ms[|ms| - 1]] == ms;
    }
  }

  /** Query keeps each matching metric as often as it is stored, and no
      other metric. */
  lemma {:induction false} SelectedCount(ms: seq<Metric>, matcher: Option<M.Matcher>, re: M.Regexp, x: Metric)
    ensures multiset(Selected(ms, matcher, re))[x]
      == if LabelList.Matches(x.labels, matcher, re) then multiset(ms)[x] else 0
  {
    if ms != [] {
      var init := ms[..|ms| - 1];
      SelectedCount(init, matcher, re, x);
      assert ms == init + [ms[|ms| - 1]];
    }
  }

  /** Querying two lists one after the other is querying their
      concatenation. */
  lemma {:induction false} SelectedAppend(a: seq<Metric>, b: seq<Metric>, matcher: Option<M.Matcher>, re: M.Regexp)
    ensures Selected(a + b, matcher, re) == Selected(a, matcher, re) + Selected(b, matcher, re)
  {
    if b != [] {
      var init := b[..|b| - 1];
      SelectedAppend(a, init, matcher, re);
      assert (a + b)[..|a + b| - 1] == a + init;
    } else {
      assert a + b == a;
    }
  }

  // ---- the catalog ----

  /** The metrics queried from the sections named in order, one section
      after the other. */
  function Gather(contents: map<string, seq<Metric>>, order: seq<string>, matcher: Option<M.Matcher>, re: M.Regexp): seq<Metric>
    requires forall i :: 0 <= i < |order| ==> order[i] in contents
  {
    if order == [] then []
    else Gather(contents, order[..|order| - 1], matcher, re) + Selected(contents[order[|order| - 1]], matcher, re)
  }

  /** The names of the labels of ms. */
  function LabelNames(ms: seq<Metric>): set<string>
  {
    if ms == [] then {} else LabelNames(ms[..|ms| - 1]) + NamesIn(ms[|ms| - 1].labels)
  }

  function NamesIn(ls: seq<Label>): set<string>
  {
    if ls == [] then {} else NamesIn(ls[..|ls| - 1]) + {ls[|ls| - 1].name}
  }

  /** The values the labels of ms named label take. */
  function LabelValues(ms: seq<Metric>, key: string): set<string>
  {
    if ms == [] then {} else LabelValues(ms[..|ms| - 1], key) + ValuesIn(ms[|ms| - 1].labels, key)
  }

  function ValuesIn(ls: seq<Label>, key: string): set<string>
  {
    if ls == [] then {}
    else ValuesIn(ls[..|ls| - 1], key) + (if ls[|ls| - 1].name == key then {ls[|ls| - 1].value} else {})
  }

  /** Go visits the sections map in an order it leaves unspecified; the
      operations that do so take that order as a parameter: every linked
      name once. */
  predicate Visits(order: seq<string>, names: set<string>)
  {
    Sorting.Distinct(order) && Sets.Elems(order) == names
  }

  class Catalog {
    var sections: map<string, Section>

    /** The metrics of each linked section. */
    function Contents(): map<string, seq<Metric>>
      reads this, sections.Values
    {
      map n | n in sections :: sections[n].metrics
    }

    /** New: no sections. */
    constructor New()
      ensures sections == map[]
    {
      sections := map[];
    }

    /** Link: the section is stored under its name, replacing any other. */
    method Link(name: string, section: Section)
      modifies this
      ensures sections == old(sections)[name := section]
    {
      sections := sections[name := section];
    }

    /** Unlink: only that name goes. */
    method Unlink(name: string)
      modifies this
      ensures sections == old(sections) - {name}
    {
      sections := sections - {name};
    }

    /** Metrics: every section's query result, together, sorted by their
        string forms. Go's sort.Slice is not stable, so only the order of
        the strings is promised. */
    method Metrics(matcher: Option<M.Matcher>, re: M.Regexp, order: seq<string>) returns (r: seq<Metric>)
      requires Visits(order, sections.Keys)
      ensures Sorting.SortedBy(r, MetricText)
      ensures multiset(r) == multiset(Gather(Contents(), order, matcher, re))
    {
      var all: seq<Metric> := [];
      for i := 0 to |order|
        invariant all == Gather(Contents(), order[..i], matcher, re)
      {
        assert order[i] in Sets.Elems(order);
        assert order[..i + 1][..i] == order[..i];
        var part := sections[order[i]].Query(matcher, re);
        all := all + part;
      }
      assert order[..|order|] == order;
      r := Sorting.SortBy(all, MetricText);
    }

    /** Labels: the names of the labels of the matching metrics, each once,
        in ascending order. */
    method Labels(matcher: Option<M.Matcher>, re: M.Regexp, order: seq<string>) returns (r: seq<string>)
      requires Visits(order, sections.Keys)
      ensures Sorting.StrictlySorted(r)
      ensures Sets.Elems(r) == LabelNames(Gather(Contents(), order, matcher, re))
    {
      ghost var gathered := Gather(Contents(), order, matcher, re);
      var ms := Metrics(matcher, re, order);
      r := NamesSorted(ms);
      SameLabelNames(ms, gathered);
    }

    /** Values: the values of the label among the matching metrics, each
        once, in ascending order. */
    method Values(key: string, matcher: Option<M.Matcher>, re: M.Regexp, order: seq<string>) returns (r: seq<string>)
      requires Visits(order, sections.Keys)
      ensures Sorting.StrictlySorted(r)
      ensures Sets.Elems(r) == LabelValues(Gather(Contents(), order, matcher, re), key)
    {
      ghost var gathered := Gather(Contents(), order, matcher, re);
      var ms := Metrics(matcher, re, order);
      r := ValuesSorted(ms, key);
      SameLabelValues(ms, gathered, key);
    }
  }

  /** The loops of Labels: the label names of ms, each once, sorted. */
  method NamesSorted(ms: seq<Metric>) returns (r: seq<string>)
    ensures Sorting.StrictlySorted(r) && Sets.Elems(r) == LabelNames(ms)
  {
    var names := new Sets.Set<string>.New([]);
    for i := 0 to |ms|
      invariant names.entries == LabelNames(ms[..i])
    {
      assert ms[..i + 1][..i] == ms[..i];
      AddNames(names, ms[i].labels);
    }
    assert ms[..|ms|] == ms;
    r := SortedMembers(names);
  }

  /** The loops of Values: the values of the labels named key in ms, each
      once, sorted. */
  method ValuesSorted(ms: seq<Metric>, key: string) returns (r: seq<string>)
    ensures Sorting.StrictlySorted(r) && Sets.Elems(r) == LabelValues(ms, key)
  {
    var values := new Sets.Set<string>.New([]);
    for i := 0 to |ms|
      invariant values.entries == LabelValues(ms[..i], key)
    {
      assert ms[..i + 1][..i] == ms[..i];
      AddValues(values, ms[i].labels, key);
    }
    assert ms[..|ms|] == ms;
    r := SortedMembers(values);
  }

  /** The inner loop of Labels: every label's name goes into the set. */
  method AddNames(names: Sets.Set<string>, ls: seq<Label>)
    modifies names
    ensures names.entries == old(names.entries) + NamesIn(ls)
  {
    for j := 0 to |ls|
      invariant names.entries == old(names.entries) + NamesIn(ls[..j])
    {
      assert ls[..j + 1][..j] == ls[..j];
      names.Add([ls[j].name]);
    }
    assert ls[..|ls|] == ls;
  }

  /** The inner loop of Values: the value of every label named key goes
      into the set. */
  method AddValues(values: Sets.Set<string>, ls: seq<Label>, key: string)
    modifies values
    ensures values.entries == old(values.entries) + ValuesIn(ls, key)
  {
    for j := 0 to |ls|
      invariant values.entries == old(values.entries) + ValuesIn(ls[..j], key)
    {
      assert ls[..j + 1][..j] == ls[..j];
      if ls[j].name == key {
        values.Add([ls[j].value]);
      }
    }
    assert ls[..|ls|] == ls;
  }

  /** set.StringSlice followed by sort.Strings. */
  method SortedMembers(s: Sets.Set<string>) returns (r: seq<string>)
    ensures Sorting.StrictlySorted(r) && Sets.Elems(r) == s.entries
  {
    var result := Sets.StringSlice(s);
    r := Sorting.SortStrings(result);
    Sorting.DistinctPermutation(result, r);
    Sorting.SortedDistinctIsStrict(r);
    assert Sets.Elems(r) == Sets.Elems(result) by {
      assert forall v :: v in r <==> v in multiset(r);
      assert forall v :: v in result <==> v in multiset(result);
    }
  }

  // ---- what the catalog promises ----

  lemma {:induction false} NamesInMeaning(ls: seq<Label>)
    ensures forall x :: x in NamesIn(ls) <==> exists l :: l in ls && l.name == x
  {
    if ls != [] {
      NamesInMeaning(ls[..|ls| - 1]);
      assert ls == ls[..|ls| - 1] + [ls[|ls| - 1]];
    }
  }

  lemma {:induction false} ValuesInMeaning(ls: seq<Label>, key: string)
    ensures forall x :: x in ValuesIn(ls, key) <==> Label(key, x) in ls
  {
    if ls != [] {
      ValuesInMeaning(ls[..|ls| - 1], key);
      assert ls == ls[..|ls| - 1] + [ls[|ls| - 1]];
    }
  }

  /** A name is listed exactly when some metric of ms has a label of it. */
  lemma {:induction false} LabelNamesMeaning(ms: seq<Metric>)
    ensures forall x :: x in LabelNames(ms) <==> exists m :: m in ms && x in NamesIn(m.labels)
  {
    if ms != [] {
      LabelNamesMeaning(ms[..|ms| - 1]);
      assert ms == ms[..|ms| - 1] + [ms[|ms| - 1]];
    }
  }

  lemma {:induction false} LabelValuesMeaning(ms: seq<Metric>, key: string)
    ensures forall x :: x in LabelValues(ms, key) <==> exists m :: m in ms && x in ValuesIn(m.labels, key)
  {
    if ms != [] {
      LabelValuesMeaning(ms[..|ms| - 1], key);
      assert ms == ms[..|ms| - 1] + [ms[|ms| - 1]];
    }
  }

  lemma SameLabelNames(a: seq<Metric>, b: seq<Metric>)
    requires multiset(a) == multiset(b)
    ensures LabelNames(a) == LabelNames(b)
  {
    LabelNamesMeaning(a);
    LabelNamesMeaning(b);
    assert forall m :: m in a <==> m in multiset(a);
    assert forall m :: m in b <==> m in multiset(b);
  }

  lemma SameLabelValues(a: seq<Metric>, b: seq<Metric>, key: string)
    requires multiset(a) == multiset(b)
    ensures LabelValues(a, key) == LabelValues(b, key)
  {
    LabelValuesMeaning(a, key);
    LabelValuesMeaning(b, key);
    assert forall m :: m in a <==> m in multiset(a);
    assert forall m :: m in b <==> m in multiset(b);
  }

  lemma {:induction false} GatherAppend(contents: map<string, seq<Metric>>, a: seq<string>, b: seq<string>, matcher: Option<M.Matcher>, re: M.Regexp)
    requires forall i :: 0 <= i < |a| ==> a[i] in contents
    requires forall i :: 0 <= i < |b| ==> b[i] in contents
    ensures forall i :: 0 <= i < |a + b| ==> (a + b)[i] in contents
    ensures Gather(contents, a + b, matcher, re) == Gather(contents, a, matcher, re) + Gather(contents, b, matcher, re)
  {
    if b == [] {
      assert a + b == a;
    } else {
      var init := b[..|b| - 1];
      GatherAppend(contents, a, init, matcher, re);
      assert (a + b)[..|a + b| - 1] == a + init;
    }
  }

  /** A metric is gathered exactly when it matches and is stored in a
      visited section. */
  lemma {:induction false} GatherMeaning(contents: map<string, seq<Metric>>, order: seq<string>, matcher: Option<M.Matcher>, re: M.Regexp, x: Metric)
    requires forall i :: 0 <= i < |order| ==> order[i] in contents
    ensures x in Gather(contents, order, matcher, re)
      <==> LabelList.Matches(x.labels, matcher, re) && exists i :: 0 <= i < |order| && x in contents[order[i]]
  {
    if order != [] {
      var init := order[..|order| - 1];
      var last := order[|order| - 1];
      GatherMeaning(contents, init, matcher, re, x);
      SelectedCount(contents[last], matcher, re, x);
      if exists i :: 0 <= i < |order| && x in contents[order[i]] {
        var i :| 0 <= i < |order| && x in contents[order[i]];
        if i < |order| - 1 {
          assert init[i] == order[i];
        }
      }
    }
  }

  /** The metrics gathered do not depend on the order the sections are
      visited in: any two orders visiting the same names give the same
      metrics, as often each. */
  lemma {:induction false} GatherAnyOrder(contents: map<string, seq<Metric>>, o1: seq<string>, o2: seq<string>, matcher: Option<M.Matcher>, re: M.Regexp)
    requires Visits(o1, contents.Keys) && Visits(o2, contents.Keys)
    ensures multiset(Gather(contents, o1, matcher, re)) == multiset(Gather(contents, o2, matcher, re))
  {
    PermutedGather(contents, o1, o2, matcher, re);
  }

  lemma {:induction false} PermutedGather(contents: map<string, seq<Metric>>, o1: seq<string>, o2: seq<string>, matcher: Option<M.Matcher>, re: M.Regexp)
    requires Sorting.Distinct(o1) && Sorting.Distinct(o2) && Sets.Elems(o1) == Sets.Elems(o2) <= contents.Keys
    ensures forall i :: 0 <= i < |o1| ==> o1[i] in contents
    ensures forall i :: 0 <= i < |o2| ==> o2[i] in contents
    ensures multiset(Gather(contents, o1, matcher, re)) == multiset(Gather(contents, o2, matcher, re))
    decreases |o1|
  {
    NamesInContents(contents, o1);
    NamesInContents(contents, o2);
    if o1 == [] {
      NoElems(o2);
    } else {
      var k := o1[|o1| - 1];
      var init := o1[..|o1| - 1];
      assert k in Sets.Elems(o2) by { assert k in Sets.Elems(o1); }
      var p :| 0 <= p < |o2| && o2[p] == k;
      var a, b := o2[..p], o2[p + 1..];
      assert o2 == a + [k] + b;
      DropLast(o1);
      DropAt(o2, p);
      PermutedGather(contents, init, a + b, matcher, re);
      GatherSplit(contents, a, k, b, matcher, re);
      assert Gather(contents, o1, matcher, re) == Gather(contents, init, matcher, re) + Selected(contents[k], matcher, re);
    }
  }

  lemma NoElems(o: seq<string>)
    ensures Sets.Elems(o) == {} <==> o == []
  {
    if o != [] {
      assert o[0] in Sets.Elems(o);
    }
  }

  lemma NamesInContents(contents: map<string, seq<Metric>>, o: seq<string>)
    requires Sets.Elems(o) <= contents.Keys
    ensures forall i :: 0 <= i < |o| ==> o[i] in contents
  {
    assert forall i :: 0 <= i < |o| ==> o[i] in Sets.Elems(o);
  }

  /** Taking the last name out of a list of distinct names. */
  lemma DropLast(o: seq<string>)
    requires Sorting.Distinct(o) && o != []
    ensures Sorting.Distinct(o[..|o| - 1])
    ensures Sets.Elems(o[..|o| - 1]) == Sets.Elems(o) - {o[|o| - 1]}
  {
    var init := o[..|o| - 1];
    assert o == init + [o[|o| - 1]];
    assert o[|o| - 1] !in init;
  }

  /** Taking the name at p out of a list of distinct names. */
  lemma DropAt(o: seq<string>, p: nat)
    requires Sorting.Distinct(o) && p < |o|
    ensures Sorting.Distinct(o[..p] + o[p + 1..])
    ensures Sets.Elems(o[..p] + o[p + 1..]) == Sets.Elems(o) - {o[p]}
  {
    var a, b := o[..p], o[p + 1..];
    var rest := a + b;
    forall i, j | 0 <= i < j < |rest| ensures rest[i] != rest[j] {
      var i2 := if i < p then i else i + 1;
      var j2 := if j < p then j else j + 1;
      assert rest[i] == o[i2] && rest[j] == o[j2];
    }
    assert o == a + [o[p]] + b;
    assert forall x :: x in rest <==> x in a || x in b;
    forall i | 0 <= i < |a| ensures a[i] != o[p] { assert a[i] == o[i]; }
    forall i | 0 <= i < |b| ensures b[i] != o[p] { assert b[i] == o[p + 1 + i]; }
  }

  /** Visiting k between a and b adds k's metrics to those of a then b. */
  lemma GatherSplit(contents: map<string, seq<Metric>>, a: seq<string>, k: string, b: seq<string>, matcher: Option<M.Matcher>, re: M.Regexp)
    requires forall i :: 0 <= i < |a| ==> a[i] in contents
    requires forall i :: 0 <= i < |b| ==> b[i] in contents
    requires k in contents
    ensures forall i :: 0 <= i < |a + b| ==> (a + b)[i] in contents
    ensures forall i :: 0 <= i < |a + [k] + b| ==> (a + [k] + b)[i] in contents
    ensures multiset(Gather(contents, a + [k] + b, matcher, re))
      == multiset(Gather(contents, a + b, matcher, re)) + multiset(Selected(contents[k], matcher, re))
  {
    GatherAppend(contents, a, [k], matcher, re);
    GatherAppend(contents, a + [k], b, matcher, re);
    GatherAppend(contents, a, b, matcher, re);
    assert Gather(contents, [k], matcher, re) == Selected(contents[k], matcher, re) by {
      assert [k][..0] == [];
    }
  }

  /** The string of a metric whose labels have no __name__ is the braces
      part alone. */
  lemma NamelessText(m: Metric)
    requires forall l :: l in m.labels ==> l.name != Name
    ensures MetricText(m) == LabelList.ListString(m.labels)
  {
    var i := LabelList.FirstIndex(m.labels, Name);
    if i < |m.labels| {
      assert m.labels[i] in m.labels;
    }
  }

  /** With __name__ first and only once, the string is its value followed by
      the other labels in braces. */
  lemma NamedText(v: string, rest: seq<Label>, section: Section?)
    requires forall l :: l in rest ==> l.name != Name
    ensures MetricText(Metric([Label(Name, v)] + rest, section)) == v + LabelList.ListString(rest)
  {
    var ls := [Label(Name, v)] + rest;
    LabelList.FirstIndexAt(ls, Name, 0);
    assert ls[..0] + ls[1..] == rest;
  }

  // ---- filter rules ----

  /** The four filter actions. */
  const Actions: set<string> := {"discard", "relabel", "rewrite", "sieve"}

  /** FilterAction.UnmarshalText over the receiver f: one of the four
      actions is stored; anything else leaves f as it was. */
  function UnmarshalAction(f: string, b: string): (r: Unmarshaled<string>)
    ensures r.err.None? <==> b in Actions
    ensures r.value == if b in Actions then b else f
    ensures b == "" ==> r.err == Some("invalid filter action")
    ensures b != "" && b !in Actions ==> r.err == Some("invalid filter action: " + b)
  {
    if |b| == 0 then Unmarshaled(f, Some("invalid filter action"))
    else if b == "discard" || b == "relabel" || b == "rewrite" || b == "sieve" then Unmarshaled(b, None)
    else Unmarshaled(f, Some("invalid filter action: " + b))
  }

  /** The outcome of compiling a pattern: a syntax error (its code and the
      offending expression) or another error. */
  datatype CompileError = SyntaxError(code: string, expr: string) | OtherError(message: string)

  /** A filter pattern: its text, and whether a compiled expression is
      held (Go keeps a nil one after a failed compilation). */
  datatype FilterPattern = FilterPattern(s: string, compiled: bool)

  /** FilterPattern.MarshalText. */
  function MarshalPattern(f: FilterPattern): string
  {
    f.s
  }

  /** FilterPattern.UnmarshalText: the text is stored before it is
      compiled, so it is kept even when the compilation fails; compile is
      regexp.Compile, given from outside. */
  function UnmarshalPattern(b: string, compile: string -> Option<CompileError>): (r: Unmarshaled<FilterPattern>)
    ensures MarshalPattern(r.value) == b
    ensures r.value.compiled <==> r.err.None?
    ensures r.err.None? <==> compile(b).None?
    ensures compile(b).Some? && compile(b).value.SyntaxError? ==>
      r.err == Some("invalid filter pattern: " + compile(b).value.code + ": `" + compile(b).value.expr + "`")
  {
    var e := compile(b);
    if e.None? then Unmarshaled(FilterPattern(b, true), None)
    else if e.value.SyntaxError? then
      Unmarshaled(FilterPattern(b, false), Some("invalid filter pattern: " + e.value.code + ": `" + e.value.expr + "`"))
    else Unmarshaled(FilterPattern(b, false), Some(e.value.message))
  }
}
