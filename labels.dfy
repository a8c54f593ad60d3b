// The labels list (pkg/labels/labels.go, type Labels): a slice of labels
// that Append and Pop change in place, the lookups over it, its printed
// form and its validation.
module LabelList {
  import opened Wrappers
  import opened LabelPair
  import Text
  import Sorting
  import M = Matchers
  import L = Lexing

  // ---- what the operations compute ----

  /** The index of the first label named name, or |ls| when there is none. */
  function FirstIndex(ls: seq<Label>, name: string): (i: nat)
    ensures i <= |ls|
    ensures i < |ls| ==> ls[i].name == name
    ensures forall j :: 0 <= j < i ==> ls[j].name != name
  {
    if ls == [] then 0
    else if ls[0].name == name then 0
    else 1 + FirstIndex(ls[1..], name)
  }

  /** The value Get finds: that of the first label of the name, "" if none. */
  function ValueOf(ls: seq<Label>, name: string): string
  {
    var i := FirstIndex(ls, name);
    if i < |ls| then ls[i].value else ""
  }

  /** The list Pop leaves: the first label of the name taken out. */
  function Removed(ls: seq<Label>, name: string): seq<Label>
  {
    var i := FirstIndex(ls, name);
    if i < |ls| then ls[..i] + ls[i + 1..] else ls
  }

  /** How many labels of ls the condition c matches. */
  function Hits(c: M.MatchCond, ls: seq<Label>, re: M.Regexp): nat
  {
    if ls == [] then 0
    else Hits(c, ls[..|ls| - 1], re) + (if M.Match(c, ls[|ls| - 1], re) then 1 else 0)
  }

  /** How many (condition, label) pairs match. */
  function Pairs(m: M.Matcher, ls: seq<Label>, re: M.Regexp): nat
  {
    if m == [] then 0
    else Pairs(m[..|m| - 1], ls, re) + Hits(m[|m| - 1], ls, re)
  }

  /** Labels.Match: a nil matcher matches everything; otherwise the matching
      (condition, label) pairs must number at least the conditions. */
  predicate Matches(ls: seq<Label>, matcher: Option<M.Matcher>, re: M.Regexp)
  {
    matcher.None? || (matcher.value != [] && Pairs(matcher.value, ls, re) >= |matcher.value|)
  }

  /** The conditions name = "value", one per label, in order. */
  function EqConds(ls: seq<Label>): (m: M.Matcher)
    ensures |m| == |ls|
    ensures forall i :: 0 <= i < |ls| ==> m[i] == M.MatchCond(M.OpEq, ls[i].name, ls[i].value)
  {
    if ls == [] then [] else [M.MatchCond(M.OpEq, ls[0].name, ls[0].value)] + EqConds(ls[1..])
  }

  function LabelStrings(ls: seq<Label>): (r: seq<string>)
    ensures |r| == |ls|
  {
    if ls == [] then [] else [LabelPair.String(ls[0])] + LabelStrings(ls[1..])
  }

  /** Labels.String: each label as name="value", comma-separated, in braces. */
  function ListString(ls: seq<Label>): string
  {
    "{" + Text.Join(LabelStrings(ls), ",") + "}"
  }

  /** The sort key of Less. */
  function NameOf(l: Label): string { l.name }

  predicate DistinctNames(ls: seq<Label>)
  {
    forall i, j :: 0 <= i < j < |ls| ==> ls[i].name != ls[j].name
  }

  /** Validate as written: the loop compares each name with the previous
      one, and the first label is compared with "". */
  function ValidateAsWritten(ls: seq<Label>, last: string): Option<string>
  {
    if ls == [] then None
    else if ls[0].name == last then Some("duplicate label name: " + ls[0].name)
    else if Validate(ls[0]).Some? then Validate(ls[0])
    else ValidateAsWritten(ls[1..], ls[0].name)
  }

  /** Validate as intended: the first label has no previous name. */
  function ValidateList(ls: seq<Label>, last: Option<string>): Option<string>
  {
    if ls == [] then None
    else if last == Some(ls[0].name) then Some("duplicate label name: " + ls[0].name)
    else if Validate(ls[0]).Some? then Validate(ls[0])
    else ValidateList(ls[1..], Some(ls[0].name))
  }

  /** Every label valid, and no two neighbours with the same name. */
  predicate WellFormed(ls: seq<Label>)
  {
    (forall i :: 0 <= i < |ls| ==> Validate(ls[i]).None?)
    && (forall i :: 0 < i < |ls| ==> ls[i - 1].name != ls[i].name)
  }

  // ---- the list ----

  class Labels {
    var items: seq<Label>

    /** New: a list holding the given labels. */
    constructor New(ls: seq<Label>)
      ensures items == ls
    {
      items := ls;
    }

    method Append(ls: seq<Label>)
      modifies this
      ensures items == old(items) + ls
    {
      items := items + ls;
    }

    /** Copy: a new list with the same labels, sharing nothing with this one. */
    method Copy() returns (c: Labels)
      ensures fresh(c) && c.items == items
    {
      c := new Labels.New(items);
    }

    method Get(name: string) returns (v: string)
      ensures v == ValueOf(items, name)
    {
      var idx := 0;
      while idx < |items|
        invariant 0 <= idx <= |items|
        invariant forall j :: 0 <= j < idx ==> items[j].name != name
      {
        if items[idx].name == name {
          FirstIndexAt(items, name, idx);
          return items[idx].value;
        }
        idx := idx + 1;
      }
      FirstIndexAt(items, name, idx);
      return "";
    }

    /** Len, Less and Swap: the sort.Interface by label name. */
    function Len(): (n: nat)
      reads this
      ensures n == |items|
    {
      |items|
    }

    predicate Less(i: nat, j: nat)
      reads this
      requires i < |items| && j < |items|
    {
      Text.Below(items[i].name, items[j].name)
    }

    method Swap(i: nat, j: nat)
      requires i < |items| && j < |items|
      modifies this
      ensures items == old(items)[i := old(items)[j]][j := old(items)[i]]
      ensures multiset(items) == multiset(old(items))
    {
      items := items[i := items[j]][j := items[i]];
    }

    method Match(matcher: Option<M.Matcher>, re: M.Regexp) returns (ok: bool)
      ensures ok == Matches(items, matcher, re)
    {
      if matcher.None? {
        return true;
      }
      var m := matcher.value;
      var count := 0;
      var expected := |m|;
      var ci := 0;
      while ci < |m|
        invariant 0 <= ci <= |m|
        invariant count == Pairs(m[..ci], items, re)
        invariant m != [] ==> count < expected
      {
        var li := 0;
        while li < |items|
          invariant 0 <= li <= |items|
          invariant count == Pairs(m[..ci], items, re) + Hits(m[ci], items[..li], re)
          invariant count < expected
        {
          assert items[..li + 1][..li] == items[..li];
          if M.Match(m[ci], items[li], re) {
            count := count + 1;
          }
          if count == expected {
            PairsReached(m, items, re, ci, li + 1);
            return true;
          }
          li := li + 1;
        }
        assert items[..li] == items;
        assert m[..ci + 1][..ci] == m[..ci];
        ci := ci + 1;
      }
      assert m[..ci] == m;
      return false;
    }

    method Pop(name: string) returns (v: string)
      modifies this
      ensures v == ValueOf(old(items), name)
      ensures items == Removed(old(items), name)
    {
      var pos := |items|;
      var idx := 0;
      while idx < |items|
        invariant 0 <= idx <= |items| && pos == |items|
        invariant forall j :: 0 <= j < idx ==> items[j].name != name
      {
        if items[idx].name == name {
          pos := idx;
          break;
        }
        idx := idx + 1;
      }
      FirstIndexAt(items, name, idx);
      v := "";
      if pos != |items| {
        v := items[pos].value;
        items := items[..pos] + items[pos + 1..];
      }
    }

    method String() returns (s: string)
      ensures s == ListString(items)
    {
      var m := EqConds(items);
      var b := "{";
      var idx := 0;
      while idx < |items|
        invariant 0 <= idx <= |items|
        invariant b == M.Filled(m, idx)
      {
        M.FilledStep(m, idx);
        if idx > 0 {
          b := b + ",";
        }
        b := b + LabelPair.String(items[idx]);
        idx := idx + 1;
      }
      assert m[..idx] == m;
      s := b + "}";
      ListStringIsFormat(items);
    }

    /** Validate: each label is compared with the name before it, the
        first one with "", then checked on its own. It refuses exactly the
        lists the intended check refuses. */
    method Validate() returns (err: Option<string>)
      ensures err == ValidateAsWritten(items, "")
      ensures err.None? <==> ValidateList(items, None).None?
    {
      SameVerdict(items);
      var last := "";
      var idx := 0;
      while idx < |items|
        invariant 0 <= idx <= |items|
        invariant ValidateAsWritten(items, "") == ValidateAsWritten(items[idx..], last)
      {
        var next := items[idx];
        assert items[idx..][1..] == items[idx + 1..];
        if next.name == last {
          return Some("duplicate label name: " + next.name);
        }
        err := LabelPair.Validate(next);
        if err.Some? {
          return err;
        }
        last := next.name;
        idx := idx + 1;
      }
      return None;
    }
  }

  // ---- what the operations promise ----

  lemma FirstIndexAt(ls: seq<Label>, name: string, k: nat)
    requires k <= |ls| && (k < |ls| ==> ls[k].name == name)
    requires forall j :: 0 <= j < k ==> ls[j].name != name
    ensures FirstIndex(ls, name) == k
  {
  }

  /** Pop takes out the first label of the name and no other: every other
      name still finds the value it found before, and the list is one
      shorter exactly when the name was present. */
  lemma {:induction false} PopKeepsOthers(ls: seq<Label>, name: string, other: string)
    requires other != name
    ensures ValueOf(Removed(ls, name), other) == ValueOf(ls, other)
  {
    if ls != [] {
      assert [ls[0]] + ls[1..] == ls;
      ConsValue(ls[0], ls[1..], other);
      if ls[0].name != name {
        PopKeepsOthers(ls[1..], name, other);
        ConsRemoved(ls, name);
        ConsValue(ls[0], Removed(ls[1..], name), other);
      } else {
        assert Removed(ls, name) == ls[1..];
      }
    }
  }

  lemma ConsValue(l: Label, rest: seq<Label>, name: string)
    ensures ValueOf([l] + rest, name) == if l.name == name then l.value else ValueOf(rest, name)
  {
    assert ([l] + rest)[1..] == rest;
  }

  lemma ConsRemoved(ls: seq<Label>, name: string)
    requires ls != [] && ls[0].name != name
    ensures Removed(ls, name) == [ls[0]] + Removed(ls[1..], name)
  {
    var i := FirstIndex(ls[1..], name);
    if i < |ls| - 1 {
      assert ls[..i + 1] == [ls[0]] + ls[1..][..i];
      assert ls[i + 2..] == ls[1..][i + 1..];
    }
  }

  lemma PopShortens(ls: seq<Label>, name: string)
    ensures |Removed(ls, name)| == if exists l :: l in ls && l.name == name then |ls| - 1 else |ls|
    ensures multiset(Removed(ls, name)) <= multiset(ls)
  {
    var i := FirstIndex(ls, name);
    if i < |ls| {
      assert ls[i] in ls;
      assert ls == ls[..i] + [ls[i]] + ls[i + 1..];
    } else {
      forall l | l in ls ensures l.name != name {
        var k :| 0 <= k < |ls| && ls[k] == l;
      }
    }
  }

  /** A label name = "v" printed by Labels.String is the condition name = "v"
      printed by Matcher.String. */
  lemma {:induction false} LabelStringsAreConds(ls: seq<Label>)
    ensures LabelStrings(ls) == M.CondStrings(EqConds(ls))
  {
    if ls != [] {
      LabelStringsAreConds(ls[1..]);
      assert EqConds(ls)[1..] == EqConds(ls[1..]);
    }
  }

  lemma ListStringIsFormat(ls: seq<Label>)
    ensures ListString(ls) == M.Format(EqConds(ls))
  {
    LabelStringsAreConds(ls);
  }

  /** What Labels.String prints, ParseMatcher reads back as the equality
      conditions of the labels, whenever every name is valid and no value
      holds a control character. */
  lemma ParseListString(ls: seq<Label>, re: M.Regexp)
    requires forall i :: 0 <= i < |ls| ==> ValidName(ls[i].name)
    requires forall i :: 0 <= i < |ls| ==> L.Printable(ls[i].value)
    ensures M.MatcherOfText(ListString(ls), re) == Ok(EqConds(ls))
  {
    var m := EqConds(ls);
    assert M.AllPrintable(m, re);
    ListStringIsFormat(ls);
    M.ParseFormat(m, re);
  }

  /** Less is a strict total order on the names: irreflexive, transitive,
      and of two labels with different names exactly one is less. */
  lemma LessIsStrictOrder(a: Label, b: Label, c: Label)
    ensures !Text.Below(a.name, a.name)
    ensures Text.Below(a.name, b.name) && Text.Below(b.name, c.name) ==> Text.Below(a.name, c.name)
    ensures a.name != b.name ==> (Text.Below(a.name, b.name) <==> !Text.Below(b.name, a.name))
  {
    Text.BelowIrreflexive(a.name);
    if Text.Below(a.name, b.name) && Text.Below(b.name, c.name) {
      Text.BelowTransitive(a.name, b.name, c.name);
    }
    Text.BelowTotal(a.name, b.name);
    Text.BelowAsymmetric(a.name, b.name);
  }

  // ---- Match ----

  lemma {:induction false} HitsPrefix(c: M.MatchCond, ls: seq<Label>, re: M.Regexp, k: nat)
    requires k <= |ls|
    ensures Hits(c, ls[..k], re) <= Hits(c, ls, re)
    decreases |ls|
  {
    if k < |ls| {
      var init := ls[..|ls| - 1];
      assert init[..k] == ls[..k];
      HitsPrefix(c, init, re, k);
    } else {
      assert ls[..k] == ls;
    }
  }

  lemma {:induction false} PairsPrefix(m: M.Matcher, ls: seq<Label>, re: M.Regexp, k: nat)
    requires k <= |m|
    ensures Pairs(m[..k], ls, re) <= Pairs(m, ls, re)
    decreases |m|
  {
    if k < |m| {
      var init := m[..|m| - 1];
      assert init[..k] == m[..k];
      PairsPrefix(init, ls, re, k);
    } else {
      assert m[..k] == m;
    }
  }

  /** The count the loop of Match has reached is at most the total. */
  lemma PairsReached(m: M.Matcher, ls: seq<Label>, re: M.Regexp, ci: nat, li: nat)
    requires ci < |m| && li <= |ls|
    ensures Pairs(m[..ci], ls, re) + Hits(m[ci], ls[..li], re) <= Pairs(m, ls, re)
  {
    HitsPrefix(m[ci], ls, re, li);
    assert m[..ci + 1][..ci] == m[..ci];
    PairsPrefix(m, ls, re, ci + 1);
  }

  /** With distinct names a condition matches at most one label, and it
      matches one exactly when some label of the list satisfies it. */
  lemma {:induction false} HitsDistinct(c: M.MatchCond, ls: seq<Label>, re: M.Regexp)
    requires DistinctNames(ls)
    ensures Hits(c, ls, re) <= 1
    ensures Hits(c, ls, re) == 1 <==> exists i :: 0 <= i < |ls| && M.Match(c, ls[i], re)
  {
    if ls != [] {
      var init := ls[..|ls| - 1];
      assert DistinctNames(init);
      HitsDistinct(c, init, re);
      if M.Match(c, ls[|ls| - 1], re) {
        forall i | 0 <= i < |init| ensures !M.Match(c, init[i], re) {
          assert init[i].name != ls[|ls| - 1].name;
        }
      } else {
        forall i | 0 <= i < |ls| && M.Match(c, ls[i], re) ensures i < |init| && M.Match(c, init[i], re) {
        }
      }
    }
  }

  lemma {:induction false} PairsDistinct(m: M.Matcher, ls: seq<Label>, re: M.Regexp)
    requires DistinctNames(ls)
    ensures Pairs(m, ls, re) <= |m|
    ensures Pairs(m, ls, re) == |m| <==> forall k :: 0 <= k < |m| ==> Hits(m[k], ls, re) == 1
  {
    if m != [] {
      var init := m[..|m| - 1];
      PairsDistinct(init, ls, re);
      HitsDistinct(m[|m| - 1], ls, re);
      if Pairs(m, ls, re) == |m| {
        forall k | 0 <= k < |m| ensures Hits(m[k], ls, re) == 1 {
          if k < |init| { assert init[k] == m[k]; }
        }
      }
      if forall k :: 0 <= k < |m| ==> Hits(m[k], ls, re) == 1 {
        forall k | 0 <= k < |init| ensures Hits(init[k], ls, re) == 1 {
          assert init[k] == m[k];
        }
      }
    }
  }

  /** On a list with distinct names, Match holds exactly when the matcher is
      nil, or is non-empty and each of its conditions matches some label. */
  lemma MatchesMeaning(ls: seq<Label>, m: M.Matcher, re: M.Regexp)
    requires DistinctNames(ls)
    ensures Matches(ls, Some(m), re)
      <==> m != [] && forall k :: 0 <= k < |m| ==> exists i :: 0 <= i < |ls| && M.Match(m[k], ls[i], re)
  {
    PairsDistinct(m, ls, re);
    forall k | 0 <= k < |m| {
      HitsDistinct(m[k], ls, re);
    }
  }

  // ---- Validate ----

  /** The intended Validate accepts exactly the lists whose labels are all
      valid and whose neighbours have different names. */
  lemma {:induction false} ValidateListMeaning(ls: seq<Label>, last: Option<string>)
    ensures ValidateList(ls, last).None?
      <==> WellFormed(ls) && (ls != [] && last.Some? ==> last.value != ls[0].name)
  {
    if ls != [] {
      ValidateListMeaning(ls[1..], Some(ls[0].name));
      if WellFormed(ls) {
        assert WellFormed(ls[1..]) by {
          forall i | 0 < i < |ls[1..]| ensures ls[1..][i - 1].name != ls[1..][i].name {
            assert ls[i].name != ls[i + 1].name;
          }
        }
      }
      if Validate(ls[0]).None? && WellFormed(ls[1..]) && (|ls| > 1 ==> ls[0].name != ls[1].name) {
        forall i | 0 < i < |ls| ensures ls[i - 1].name != ls[i].name {
          if i > 1 { assert ls[1..][i - 2].name != ls[1..][i - 1].name; }
        }
        forall i | 0 <= i < |ls| ensures Validate(ls[i]).None? {
          if i > 0 { assert ls[i] == ls[1..][i - 1]; }
        }
      }
    }
  }

  /** On a list sorted by name, the intended Validate accepts exactly the
      lists of valid labels with distinct names. */
  lemma SortedValidate(ls: seq<Label>)
    requires Sorting.SortedBy(ls, NameOf)
    ensures ValidateList(ls, None).None?
      <==> (forall i :: 0 <= i < |ls| ==> Validate(ls[i]).None?) && DistinctNames(ls)
  {
    ValidateListMeaning(ls, None);
    if WellFormed(ls) {
      forall i, j | 0 <= i < j < |ls| ensures ls[i].name != ls[j].name {
        assert Text.AtMost(NameOf(ls[i]), NameOf(ls[j - 1]));
        assert Text.AtMost(NameOf(ls[j - 1]), NameOf(ls[j]));
        if ls[i].name == ls[j].name {
          Text.BelowAsymmetric(ls[j - 1].name, ls[j].name);
        }
      }
    }
  }

  /** The two loops agree whenever the first name is not empty. */
  lemma {:induction false} ValidateAgrees(ls: seq<Label>, last: string)
    requires last != "" || ls == [] || ls[0].name != ""
    ensures ValidateAsWritten(ls, last) == ValidateList(ls, if last == "" then None else Some(last))
  {
    if ls != [] && ls[0].name != last && Validate(ls[0]).None? {
      ValidateAgrees(ls[1..], ls[0].name);
    }
  }

  /** The loop as written and the intended check refuse the same lists;
      they differ only in the message for a first label with an empty
      name. */
  lemma SameVerdict(ls: seq<Label>)
    ensures ValidateAsWritten(ls, "").None? <==> ValidateList(ls, None).None?
  {
    if ls != [] && ls[0].name == "" {
      assert !ValidName(ls[0].name);
    } else {
      ValidateAgrees(ls, "");
    }
  }

  /** As written, a list whose first label has an empty name is reported as
      holding a duplicate, not an empty name. */
  lemma ValidateEmptyFirstName()
    ensures ValidateAsWritten([Label("", "value")], "") == Some("duplicate label name: ")
    ensures ValidateList([Label("", "value")], None) == Some("empty label name")
  {
    assert "duplicate label name: " + "" == "duplicate label name: ";
    assert !ValidName("");
  }
}
