// Offset and limit applied to a catalog listing
// (applyCatalogPagination in pkg/http/server/internal/api/catalog.go). The
// listing is replaced in place by the page it asks for.
module Pagination {
  import opened Wrappers

  /** Go's uint on the 64-bit platforms the server targets. */
  const UintLimit: int := 0x1_0000_0000_0000_0000

  predicate IsUint(x: int) { 0 <= x < UintLimit }

  function Min(a: int, b: int): int { if a <= b then a else b }

  /** The page as written: offset + limit is a uint sum, which wraps; a
      slice whose end falls before its start panics (None). Callers pass the
      listing's length as total. */
  function PageAsWritten(entries: seq<string>, total: nat, offset: nat, limit: nat): Option<seq<string>>
    requires total == |entries| && IsUint(total) && IsUint(offset) && IsUint(limit)
  {
    if offset < total then
      var end := (offset + limit) % UintLimit;
      if limit > 0 && total > end then
        if offset <= end then Some(entries[offset..end]) else None
      else if offset > 0 then Some(entries[offset..])
      else Some(entries)
    else Some([])
  }

  /** The page as intended: from min(offset, total) on, at most limit
      entries when limit is positive, all the rest otherwise. */
  function Page(entries: seq<string>, total: nat, offset: nat, limit: nat): (r: seq<string>)
    requires total == |entries|
    ensures var start := Min(offset, total);
      r == entries[start..if limit > 0 then Min(offset + limit, total) else total]
  {
    if offset < total then
      var end := offset + limit;
      if limit > 0 && total > end then entries[offset..end]
      else if offset > 0 then entries[offset..]
      else entries
    else []
  }

  /** The listing a handler writes out, which the pagination replaces. */
  class Listing {
    var entries: seq<string>

    constructor New(entries: seq<string>)
      ensures this.entries == entries
    {
      this.entries := entries;
    }

    /** applyCatalogPagination, with offset + limit computed without
        wrapping. */
    method Paginate(total: nat, offset: nat, limit: nat)
      requires total == |entries|
      modifies this
      ensures entries == Page(old(entries), total, offset, limit)
    {
      if offset < total {
        var end := offset + limit;
        if limit > 0 && total > end {
          entries := entries[offset..end];
        } else if offset > 0 {
          entries := entries[offset..];
        }
      } else {
        entries := [];
      }
    }
  }

  /** The page is a contiguous part of the listing starting at
      min(offset, total), of at most limit entries when limit is positive. */
  lemma PageBounds(entries: seq<string>, offset: nat, limit: nat)
    ensures var r := Page(entries, |entries|, offset, limit);
      var start := Min(offset, |entries|);
      start + |r| <= |entries| && r == entries[start..start + |r|]
      && (limit > 0 ==> |r| <= limit)
      && (offset >= |entries| ==> r == [])
      && (offset == 0 && (limit == 0 || limit >= |entries|) ==> r == entries)
  {
  }

  /** Paging through the listing limit by limit visits every entry once, in
      order: the page at offset followed by everything after it is the rest
      of the listing from offset. */
  lemma {:induction false} PagesCover(entries: seq<string>, offset: nat, limit: nat)
    requires limit > 0 && offset <= |entries|
    ensures Page(entries, |entries|, offset, limit) + Page(entries, |entries|, offset + limit, 0) == entries[offset..]
  {
    var total := |entries|;
    var first := Page(entries, total, offset, limit);
    var rest := Page(entries, total, offset + limit, 0);
    assert first == entries[offset..Min(offset + limit, total)];
    assert rest == entries[Min(offset + limit, total)..total];
  }

  /** Without wrap-around the code as written computes the intended page. */
  lemma AsWrittenWithoutWrap(entries: seq<string>, offset: nat, limit: nat)
    requires IsUint(|entries|) && IsUint(offset) && IsUint(limit) && offset + limit < UintLimit
    ensures PageAsWritten(entries, |entries|, offset, limit) == Some(Page(entries, |entries|, offset, limit))
  {
  }

  /** With ten entries, offset 5 and a limit of 2^64 - 2 the sum wraps to 3:
      the code slices [5:3] and panics, where the page intended is the last
      five entries. */
  lemma WrappedLimit(entries: seq<string>)
    requires |entries| == 10
    ensures PageAsWritten(entries, 10, 5, UintLimit - 2) == None
    ensures Page(entries, 10, 5, UintLimit - 2) == entries[5..]
  {
    assert (5 + (UintLimit - 2)) % UintLimit == 3;
  }
}
