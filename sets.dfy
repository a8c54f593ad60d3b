// The values set of pkg/set/set.go: a map used as a set, with variadic
// Add, Has and Remove, and Slice listing the members in the map's
// iteration order, which Go leaves unspecified.
module Sets {
  import Sorting

  /** The values of a variadic argument list, as a set. */
  function Elems<T>(values: seq<T>): set<T>
  {
    set v | v in values
  }

  class Set<T(==)> {
    var entries: set<T>

    /** New: an empty set, to which the given values are added. */
    constructor New(values: seq<T>)
      ensures entries == Elems(values)
    {
      entries := {};
      new;
      if |values| > 0 {
        Add(values);
      }
    }

    /** Add: every value becomes a member; the others stay. */
    method Add(values: seq<T>)
      modifies this
      ensures entries == old(entries) + Elems(values)
    {
      var i := 0;
      while i < |values|
        invariant 0 <= i <= |values|
        invariant entries == old(entries) + Elems(values[..i])
      {
        assert Elems(values[..i + 1]) == Elems(values[..i]) + {values[i]} by {
          assert values[..i + 1] == values[..i] + [values[i]];
        }
        entries := entries + {values[i]};
        i := i + 1;
      }
      assert values[..i] == values;
    }

    /** Has: whether every given value is a member (true for none). */
    method Has(values: seq<T>) returns (ok: bool)
      ensures ok <==> forall v :: v in values ==> v in entries
    {
      ok := true;
      var i := 0;
      while i < |values|
        invariant 0 <= i <= |values|
        invariant ok <==> forall j :: 0 <= j < i ==> values[j] in entries
      {
        ok := values[i] in entries;
        if !ok {
          return;
        }
        i := i + 1;
      }
    }

    /** Len: the number of members. */
    function Len(): (n: nat)
      reads this
      ensures n == |entries|
    {
      |entries|
    }

    /** Remove: every given value stops being a member; the others stay. */
    method Remove(values: seq<T>)
      modifies this
      ensures entries == old(entries) - Elems(values)
    {
      var i := 0;
      while i < |values|
        invariant 0 <= i <= |values|
        invariant entries == old(entries) - Elems(values[..i])
      {
        assert Elems(values[..i + 1]) == Elems(values[..i]) + {values[i]} by {
          assert values[..i + 1] == values[..i] + [values[i]];
        }
        entries := entries - {values[i]};
        i := i + 1;
      }
      assert values[..i] == values;
    }

    /** Slice: each member once, in some order. */
    method Slice() returns (r: seq<T>)
      ensures Elems(r) == entries && Sorting.Distinct(r) && |r| == Len()
    {
      r := [];
      var left := entries;
      while left != {}
        invariant left <= entries && Elems(r) == entries - left && Sorting.Distinct(r)
        invariant |r| + |left| == |entries|
        decreases |left|
      {
        var v :| v in left;
        assert v !in r;
        assert Elems(r + [v]) == Elems(r) + {v};
        r := r + [v];
        left := left - {v};
      }
      assert entries - left == entries;
    }
  }

  /** StringSlice: the members of a set of strings; formatting a string with
      %v gives the string itself. */
  method StringSlice(s: Set<string>) returns (r: seq<string>)
    ensures Elems(r) == s.entries && Sorting.Distinct(r) && |r| == |s.entries|
  {
    var values := s.Slice();
    r := [];
    var i := 0;
    while i < |values|
      invariant 0 <= i <= |values| && r == values[..i]
    {
      r := r + [values[i]];
      i := i + 1;
    }
    assert values[..i] == values;
  }

  /** Adding values already present changes nothing, so Len stays. */
  lemma AddIdempotent<T>(entries: set<T>, values: seq<T>)
    requires forall v :: v in values ==> v in entries
    ensures entries + Elems(values) == entries && |entries + Elems(values)| == |entries|
  {
  }

  /** Removing absent values changes nothing. */
  lemma RemoveAbsent<T>(entries: set<T>, values: seq<T>)
    requires forall v :: v in values ==> v !in entries
    ensures entries - Elems(values) == entries
  {
  }

  /** A list of distinct values has as many elements as the set of them. */
  lemma {:induction false} DistinctCardinality<T>(r: seq<T>)
    requires Sorting.Distinct(r)
    ensures |Elems(r)| == |r|
  {
    if r != [] {
      var last := r[|r| - 1];
      var init := r[..|r| - 1];
      assert Sorting.Distinct(init);
      DistinctCardinality(init);
      assert r == init + [last];
      assert last !in init;
      assert Elems(r) == Elems(init) + {last};
    }
  }
}
