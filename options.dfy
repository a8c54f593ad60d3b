// Listing options (pkg/api/options.go): the sort specification, a
// comma-separated list of field names, each optionally preceded by '-' for
// descending order.
module ApiOptions {
  import Text

  datatype SortField = SortField(name: string, desc: bool)

  /** One part of the specification: trimmed of surrounding white space,
      then a leading '-' (one only) marks descending order. */
  function FieldOf(part: string): SortField
  {
    var p := Text.TrimSpace(part);
    if Text.HasPrefix(p, "-") then SortField(p[1..], true) else SortField(p, false)
  }

  /** A field is descending exactly when its trimmed part starts with '-',
      and its name is the trimmed part without that one '-'. */
  lemma FieldOfMeaning(part: string)
    ensures var p := Text.TrimSpace(part);
      FieldOf(part).desc <==> Text.HasPrefix(p, "-")
    ensures var p := Text.TrimSpace(part); var f := FieldOf(part);
      if f.desc then "-" + f.name == p else f.name == p
  {
    var p := Text.TrimSpace(part);
    if Text.HasPrefix(p, "-") {
      assert p == p[..1] + p[1..];
    }
  }

  /** ListOptions.SortFields. */
  method SortFields(sort: string) returns (fields: seq<SortField>)
    ensures |fields| == |Text.Split(sort, ',')|
    ensures forall i :: 0 <= i < |fields| ==> fields[i] == FieldOf(Text.Split(sort, ',')[i])
  {
    var parts := Text.Split(sort, ',');
    fields := [];
    for i := 0 to |parts|
      invariant |fields| == i
      invariant forall k :: 0 <= k < i ==> fields[k] == FieldOf(parts[k])
    {
      var part := Text.TrimSpace(parts[i]);
      var field;
      if Text.HasPrefix(part, "-") {
        field := SortField(part[1..], true);
      } else {
        field := SortField(part, false);
      }
      assert field == FieldOf(parts[i]);
      fields := fields + [field];
    }
  }

  /** An empty specification gives one field, empty and ascending. */
  lemma EmptySort()
    ensures Text.Split("", ',') == [""] && FieldOf("") == SortField("", false)
  {
  }

  // ---- printing a sort specification back ----

  /** How a field is written in a specification. */
  function FieldText(f: SortField): string
  {
    (if f.desc then "-" else "") + f.name
  }

  function FieldTexts(fields: seq<SortField>): (r: seq<string>)
    ensures |r| == |fields|
    ensures forall i :: 0 <= i < |fields| ==> r[i] == FieldText(fields[i])
  {
    if fields == [] then [] else [FieldText(fields[0])] + FieldTexts(fields[1..])
  }

  /** A field the specification can carry: no comma, no white space at
      either end, and, when ascending, no leading '-' (when descending the
      name may itself start with '-', since only one is removed). */
  predicate Writable(f: SortField)
  {
    (forall k :: 0 <= k < |f.name| ==> f.name[k] != ',')
    && (|f.name| > 0 ==> !Text.IsUnicodeSpace(f.name[0]) && !Text.IsUnicodeSpace(f.name[|f.name| - 1]))
    && (!f.desc ==> !Text.HasPrefix(f.name, "-"))
    && (f.desc ==> |f.name| > 0)
  }

  /** Writing the fields comma-separated and reading them back gives the
      same fields. */
  lemma SortFieldsRoundTrip(fields: seq<SortField>)
    requires |fields| > 0 && forall i :: 0 <= i < |fields| ==> Writable(fields[i])
    ensures |Text.Split(Text.Join(FieldTexts(fields), ","), ',')| == |fields|
    ensures forall i :: 0 <= i < |fields| ==> FieldOf(Text.Split(Text.Join(FieldTexts(fields), ","), ',')[i]) == fields[i]
  {
    var texts := FieldTexts(fields);
    forall i | 0 <= i < |texts| ensures forall k :: 0 <= k < |texts[i]| ==> texts[i][k] != ',' {
      assert texts[i] == FieldText(fields[i]);
    }
    SplitJoin(texts, ',');
    forall i | 0 <= i < |fields| ensures FieldOf(texts[i]) == fields[i] {
      FieldTextRead(fields[i]);
    }
  }

  lemma FieldTextRead(f: SortField)
    requires Writable(f)
    ensures FieldOf(FieldText(f)) == f
  {
    var t := FieldText(f);
    TrimmedAlready(t);
    if f.desc {
      assert t[..1] == "-" && t[1..] == f.name;
    } else {
      assert t == f.name && !Text.HasPrefix(t, "-");
    }
  }

  /** A text with no white space at either end is its own trimmed form. */
  lemma TrimmedAlready(t: string)
    requires |t| > 0 ==> !Text.IsUnicodeSpace(t[0]) && !Text.IsUnicodeSpace(t[|t| - 1])
    ensures Text.TrimSpace(t) == t
  {
  }

  /** Splitting at sep the parts joined with sep gives them back, when no
      part holds sep. */
  lemma {:induction false} SplitJoin(parts: seq<string>, sep: char)
    requires |parts| > 0
    requires forall i :: 0 <= i < |parts| ==> forall k :: 0 <= k < |parts[i]| ==> parts[i][k] != sep
    ensures Text.Split(Text.Join(parts, [sep]), sep) == parts
  {
    if |parts| == 1 {
      SplitPlain(parts[0], sep);
    } else {
      SplitJoin(parts[1..], sep);
      SplitAfter(parts[0], Text.Join(parts[1..], [sep]), sep);
      assert Text.Join(parts, [sep]) == parts[0] + [sep] + Text.Join(parts[1..], [sep]);
      assert parts == [parts[0]] + parts[1..];
    }
  }

  lemma {:induction false} SplitPlain(a: string, sep: char)
    requires forall k :: 0 <= k < |a| ==> a[k] != sep
    ensures Text.Split(a, sep) == [a]
  {
    if |a| > 0 {
      SplitPlain(a[1..], sep);
      assert [a[0]] + a[1..] == a;
    }
  }

  lemma {:induction false} SplitAfter(a: string, b: string, sep: char)
    requires forall k :: 0 <= k < |a| ==> a[k] != sep
    ensures Text.Split(a + [sep] + b, sep) == [a] + Text.Split(b, sep)
  {
    var s := a + [sep] + b;
    if |a| == 0 {
      assert s[1..] == b;
    } else {
      SplitAfter(a[1..], b, sep);
      assert s[1..] == a[1..] + [sep] + b;
      assert [a[0]] + a[1..] == a;
    }
  }
}
