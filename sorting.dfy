// The sorts the Go code calls (sort.Strings, sort.Sort on labels, sort.Slice
// on metrics), modelled by one stable insertion sort on a string key.
module Sorting {
  import opened Text

  predicate SortedBy<T>(s: seq<T>, key: T -> string)
  {
    forall i, j :: 0 <= i < j < |s| ==> AtMost(key(s[i]), key(s[j]))
  }

  predicate StrictlySorted(s: seq<string>)
  {
    forall i, j :: 0 <= i < j < |s| ==> Below(s[i], s[j])
  }

  predicate Distinct<T(==)>(s: seq<T>)
  {
    forall i, j :: 0 <= i < j < |s| ==> s[i] != s[j]
  }

  function Identity(s: string): string { s }

  function InsertSorted<T>(x: T, s: seq<T>, key: T -> string): (r: seq<T>)
    requires SortedBy(s, key)
    ensures SortedBy(r, key)
    ensures multiset(r) == multiset(s) + multiset{x}
  {
    if |s| == 0 then [x]
    else if AtMost(key(x), key(s[0])) then
      InsertFront(x, s, key);
      [x] + s
    else
      var tail := InsertSorted(x, s[1..], key);
      InsertBehind(x, s, key, tail);
      [s[0]] + tail
  }

  /** x goes first when its key is at most the first key. */
  lemma InsertFront<T>(x: T, s: seq<T>, key: T -> string)
    requires SortedBy(s, key) && |s| > 0 && AtMost(key(x), key(s[0]))
    ensures SortedBy([x] + s, key)
  {
    assert forall j :: 0 < j < |s| ==> AtMost(key(x), key(s[j])) by {
      forall j | 0 < j < |s| ensures AtMost(key(x), key(s[j])) { AtMostTransitive(key(x), key(s[0]), key(s[j])); }
    }
  }

  /** Otherwise the first element stays first, ahead of x inserted into the
      rest. */
  lemma InsertBehind<T>(x: T, s: seq<T>, key: T -> string, tail: seq<T>)
    requires SortedBy(s, key) && |s| > 0 && !AtMost(key(x), key(s[0]))
    requires SortedBy(tail, key) && multiset(tail) == multiset(s[1..]) + multiset{x}
    ensures SortedBy([s[0]] + tail, key)
    ensures multiset([s[0]] + tail) == multiset(s) + multiset{x}
  {
    assert s == [s[0]] + s[1..];
    BelowTotal(key(x), key(s[0]));
    assert forall y :: y in multiset(tail) ==> AtMost(key(s[0]), key(y)) by {
      forall y | y in multiset(tail) ensures AtMost(key(s[0]), key(y)) {
        if y != x {
          assert y in multiset(s[1..]);
          var j :| 0 <= j < |s[1..]| && s[1..][j] == y;
          assert s[j + 1] == y;
        }
      }
    }
    assert forall j :: 0 <= j < |tail| ==> tail[j] in multiset(tail);
  }

  /** A stable sort of s by key: sorted, and a permutation of s. */
  function SortBy<T>(s: seq<T>, key: T -> string): (r: seq<T>)
    ensures SortedBy(r, key)
    ensures multiset(r) == multiset(s)
  {
    if |s| == 0 then []
    else
      assert s == [s[0]] + s[1..];
      InsertSorted(s[0], SortBy(s[1..], key), key)
  }

  /** sort.Strings. */
  function SortStrings(s: seq<string>): (r: seq<string>)
    ensures SortedBy(r, Identity)
    ensures multiset(r) == multiset(s)
  {
    SortBy(s, Identity)
  }

  lemma DistinctPermutation<T>(s: seq<T>, r: seq<T>)
    requires Distinct(s) && multiset(r) == multiset(s)
    ensures Distinct(r)
  {
    forall i, j | 0 <= i < j < |r| ensures r[i] != r[j] {
      if r[i] == r[j] {
        assert multiset(r)[r[i]] >= 2 by {
          var a := r[..i] + r[i + 1..];
          assert r == r[..i] + [r[i]] + r[i + 1..];
          assert r[j] in a by { assert a[j - 1] == r[j]; }
          assert multiset(r) == multiset(a) + multiset{r[i]};
        }
        DistinctCount(s, r[i]);
      }
    }
  }

  lemma DistinctCount<T>(s: seq<T>, x: T)
    requires Distinct(s)
    ensures multiset(s)[x] <= 1
  {
    if |s| > 0 {
      assert s == [s[0]] + s[1..];
      assert Distinct(s[1..]);
      DistinctCount(s[1..], x);
      if s[0] == x {
        assert x !in s[1..];
      }
    }
  }

  /** Sorting distinct strings yields a strictly increasing sequence. */
  lemma SortedDistinctIsStrict(r: seq<string>)
    requires SortedBy(r, Identity) && Distinct(r)
    ensures StrictlySorted(r)
  {
    forall i, j | 0 <= i < j < |r| ensures Below(r[i], r[j]) {
      assert AtMost(Identity(r[i]), Identity(r[j]));
    }
  }
}
