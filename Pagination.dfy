/**
 * The pagination stage shared by every page:
 * `filteredData.slice(page * rowsPerPage, page * rowsPerPage + rowsPerPage)`.
 */
module Pagination {

  function Min(a: int, b: int): int
  {
    if a <= b then a else b
  }

  /** `Array.prototype.slice(start, end)` for non-negative arguments: both ends are clipped to the length. */
  function Slice<R>(rows: seq<R>, start: nat, end: nat): (s: seq<R>)
    ensures |s| == if start < end && start < |rows| then Min(end, |rows|) - start else 0
    ensures forall i :: 0 <= i < |s| ==> s[i] == rows[start + i]
  {
    var lo := Min(start, |rows|);
    var hi := Min(end, |rows|);
    if lo < hi then rows[lo..hi] else []
  }

  /** The rows shown on page `page` (counted from 0) when each page holds `rowsPerPage` rows. */
  function Paginate<R>(rows: seq<R>, page: nat, rowsPerPage: nat): (visible: seq<R>)
    ensures |visible| <= rowsPerPage
    ensures page * rowsPerPage >= |rows| ==> visible == []
    ensures page * rowsPerPage < |rows| ==> |visible| == Min(rowsPerPage, |rows| - page * rowsPerPage)
    ensures forall i :: 0 <= i < |visible| ==> visible[i] == rows[page * rowsPerPage + i]
  {
    Slice(rows, page * rowsPerPage, page * rowsPerPage + rowsPerPage)
  }

  /** The slices for pages `page`, `page + 1`, ... concatenated until one comes back empty. */
  function PagesFrom<R>(rows: seq<R>, rowsPerPage: nat, page: nat): (pages: seq<R>)
    requires rowsPerPage > 0
    ensures |pages| == |rows| - Min(page * rowsPerPage, |rows|)
    decreases |rows| - page * rowsPerPage
  {
    var visible := Paginate(rows, page, rowsPerPage);
    if visible == [] then []
    else
      assert (page + 1) * rowsPerPage == page * rowsPerPage + rowsPerPage;
      visible + PagesFrom(rows, rowsPerPage, page + 1)
  }

  /** The pages from `page` on hold exactly the rows from `page * rowsPerPage` on. */
  lemma {:induction false} PagesFromIsSuffix<R>(rows: seq<R>, rowsPerPage: nat, page: nat)
    requires rowsPerPage > 0
    ensures PagesFrom(rows, rowsPerPage, page) == rows[Min(page * rowsPerPage, |rows|)..]
    decreases |rows| - page * rowsPerPage
  {
    var start := page * rowsPerPage;
    if start >= |rows| {
      assert Paginate(rows, page, rowsPerPage) == [];
    } else {
      PageIsSlice(rows, rowsPerPage, page);
      var bound := Min((page + 1) * rowsPerPage, |rows|);
      PagesFromIsSuffix(rows, rowsPerPage, page + 1);
      assert rows[start..] == rows[start..bound] + rows[bound..];
    }
  }

  /** A page that starts inside the rows is the slice up to the next page's start, clipped. */
  lemma PageIsSlice<R>(rows: seq<R>, rowsPerPage: nat, page: nat)
    requires rowsPerPage > 0 && page * rowsPerPage < |rows|
    ensures (page + 1) * rowsPerPage == page * rowsPerPage + rowsPerPage
    ensures page * rowsPerPage < Min((page + 1) * rowsPerPage, |rows|) <= |rows|
    ensures Paginate(rows, page, rowsPerPage) == rows[page * rowsPerPage..Min((page + 1) * rowsPerPage, |rows|)]
  {
    assert (page + 1) * rowsPerPage == page * rowsPerPage + rowsPerPage;
  }

  /** Concatenating the pages 0, 1, ... until one comes back empty gives back the whole sequence. */
  lemma PagesPartition<R>(rows: seq<R>, rowsPerPage: nat)
    requires rowsPerPage > 0
    ensures PagesFrom(rows, rowsPerPage, 0) == rows
  {
    PagesFromIsSuffix(rows, rowsPerPage, 0);
  }

  /** Row `i` is shown on page `i / rowsPerPage`, at position `i % rowsPerPage`. */
  lemma PageOfRow<R>(rows: seq<R>, rowsPerPage: nat, i: nat)
    requires rowsPerPage > 0 && i < |rows|
    ensures var visible := Paginate(rows, i / rowsPerPage, rowsPerPage);
      i % rowsPerPage < |visible| && visible[i % rowsPerPage] == rows[i]
  {
    var page, offset := i / rowsPerPage, i % rowsPerPage;
    assert page * rowsPerPage + offset == i;
  }
}
