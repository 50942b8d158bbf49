/**
 * The filter stage shared by every page: `sampleData.filter(record => ...)` where
 * the predicate ANDs a case-insensitive search over some string fields, an
 * optional categorical filter with the sentinel "all", and (observation logs
 * only) an inclusive date range.
 */
module Filtering {
  import opened Wrappers
  import opened Text
  import opened Dates

  /** The select value that switches the categorical filter off. */
  const AllCategories: string := "all"

  /** Which fields of a record `R` a page's filter looks at. */
  datatype Binding<!R> = Binding(
    searchFields: seq<R -> string>,
    category: Option<R -> string>,
    date: Option<R -> Option<int>>)

  /** The filter part of a page's state. */
  datatype Criteria = Criteria(
    searchTerm: string,
    categoryFilter: string,
    startDate: DateBound,
    endDate: DateBound)

  /** `useState('')`, `useState('all')`, `useState(null)`, `useState(null)`. */
  const InitialCriteria: Criteria := Criteria("", AllCategories, Unset, Unset)

  /** Some designated field, lower-cased, contains the lower-cased term. */
  function MatchesSearch<R>(fields: seq<R -> string>, term: string, r: R): (ok: bool)
    ensures ok ==> |fields| > 0
    ensures ok ==> exists k :: 0 <= k < |fields| && |term| <= |fields[k](r)|
  {
    exists k :: 0 <= k < |fields| && Includes(Lower(fields[k](r)), Lower(term))
  }

  /** `filter === 'all' || record.field === filter`; a page without the filter passes everything. */
  function MatchesCategory<R>(category: Option<R -> string>, filter: string, r: R): (ok: bool)
    ensures category.None? || filter == AllCategories ==> ok
    ensures ok && category.Some? && filter != AllCategories ==> category.value(r) == filter
  {
    category.None? || filter == AllCategories || category.value(r) == filter
  }

  /** The date-range criterion; a page without a date field passes everything. */
  function MatchesDate<R>(date: Option<R -> Option<int>>, start: DateBound, end: DateBound, r: R): (ok: bool)
    ensures date.None? || (start.Unset? && end.Unset?) ==> ok
  {
    date.None? || InRange(date.value(r), start, end)
  }

  /** Neither the select nor the date pickers restrict anything: only the search is left. */
  predicate OnlySearchApplies<R>(b: Binding<R>, c: Criteria)
  {
    && (b.category.None? || c.categoryFilter == AllCategories)
    && (b.date.None? || (c.startDate.Unset? && c.endDate.Unset?))
  }

  /** The body of the page's `filter` callback: all criteria joined with AND. */
  function Passes<R>(b: Binding<R>, c: Criteria, r: R): (ok: bool)
    ensures ok ==> |b.searchFields| > 0
    ensures OnlySearchApplies(b, c) ==> (ok <==> MatchesSearch(b.searchFields, c.searchTerm, r))
  {
    && MatchesSearch(b.searchFields, c.searchTerm, r)
    && MatchesCategory(b.category, c.categoryFilter, r)
    && MatchesDate(b.date, c.startDate, c.endDate, r)
  }

  /** The callback handed to `filter`. */
  function PassesFn<R>(b: Binding<R>, c: Criteria): R -> bool
  {
    r => Passes(b, c, r)
  }

  /** `Array.prototype.filter`. */
  function Keep<R>(rows: seq<R>, pass: R -> bool): (kept: seq<R>)
    ensures |kept| <= |rows|
    ensures forall x :: x in kept ==> x in rows && pass(x)
    ensures forall x :: x in rows && pass(x) ==> x in kept
  {
    if rows == [] then []
    else
      var init, last := rows[..|rows| - 1], rows[|rows| - 1];
      assert rows == init + [last];
      if pass(last) then Keep(init, pass) + [last] else Keep(init, pass)
  }

  /** The indices of the records that pass, in increasing order. */
  function Positions<R>(rows: seq<R>, pass: R -> bool): (ps: seq<nat>)
    ensures forall j :: 0 <= j < |ps| ==> ps[j] < |rows| && pass(rows[ps[j]])
    ensures forall j, k :: 0 <= j < k < |ps| ==> ps[j] < ps[k]
    ensures forall i :: 0 <= i < |rows| && pass(rows[i]) ==> i in ps
  {
    if rows == [] then []
    else
      var init := rows[..|rows| - 1];
      if pass(rows[|rows| - 1]) then Positions(init, pass) + [|rows| - 1] else Positions(init, pass)
  }

  /**
   * The filter result is the sequence of records at the passing positions, in
   * increasing order of position: an order-preserving subsequence that holds every
   * passing record (with its multiplicity) and nothing else.
   */
  lemma {:induction false} KeepAtPositions<R>(rows: seq<R>, pass: R -> bool)
    ensures |Keep(rows, pass)| == |Positions(rows, pass)|
    ensures forall j :: 0 <= j < |Positions(rows, pass)| ==>
      Keep(rows, pass)[j] == rows[Positions(rows, pass)[j]]
  {
    if rows != [] {
      var init := rows[..|rows| - 1];
      KeepAtPositions(init, pass);
      var ps, ks := Positions(init, pass), Keep(init, pass);
      var last := rows[|rows| - 1];
      forall j | 0 <= j < |ps|
        ensures ks[j] == rows[ps[j]]
      {
        assert rows[ps[j]] == init[ps[j]];
      }
      if pass(last) {
        assert Keep(rows, pass) == ks + [last];
        assert Positions(rows, pass) == ps + [|rows| - 1];
        assert |Keep(rows, pass)| == |ks| + 1 == |ps| + 1 == |Positions(rows, pass)|;
      } else {
        assert Keep(rows, pass) == ks;
        assert Positions(rows, pass) == ps;
      }
    }
  }

  /** Filtering a sequence with one more record at the end keeps that record iff it passes. */
  lemma KeepSnoc<R>(rows: seq<R>, x: R, pass: R -> bool)
    ensures Keep(rows + [x], pass) == Keep(rows, pass) + (if pass(x) then [x] else [])
  {
    assert (rows + [x])[..|rows|] == rows;
  }

  /** Filtering a concatenation filters each part. */
  lemma {:induction false} KeepConcat<R>(a: seq<R>, b: seq<R>, pass: R -> bool)
    ensures Keep(a + b, pass) == Keep(a, pass) + Keep(b, pass)
    decreases |b|
  {
    if b == [] {
      assert a + b == a;
    } else {
      var init, last := b[..|b| - 1], b[|b| - 1];
      var tail := if pass(last) then [last] else [];
      calc {
        Keep(a + b, pass);
        { assert a + b == (a + init) + [last]; }
        Keep((a + init) + [last], pass);
        { KeepSnoc(a + init, last, pass); }
        Keep(a + init, pass) + tail;
        { KeepConcat(a, init, pass); }
        Keep(a, pass) + Keep(init, pass) + tail;
        { KeepSnoc(init, last, pass); assert init + [last] == b; }
        Keep(a, pass) + Keep(b, pass);
      }
    }
  }

  /** Filtering three records, spelled out (every sample data set has three). */
  lemma KeepThree<R>(x: R, y: R, z: R, pass: R -> bool)
    ensures Keep([x, y, z], pass) ==
      (if pass(x) then [x] else []) + (if pass(y) then [y] else []) + (if pass(z) then [z] else [])
  {
    assert [x, y, z][..2] == [x, y] && [x, y][..1] == [x] && [x][..0] == [];
    assert Keep([x], pass) == (if pass(x) then [x] else []);
    assert Keep([x, y], pass) == Keep([x], pass) + (if pass(y) then [y] else []);
    assert Keep([x, y, z], pass) == Keep([x, y], pass) + (if pass(z) then [z] else []);
  }

  /** When every record passes, the filter gives back the same sequence. */
  lemma {:induction false} KeepAllPass<R>(rows: seq<R>, pass: R -> bool)
    requires forall i :: 0 <= i < |rows| ==> pass(rows[i])
    ensures Keep(rows, pass) == rows
  {
    if rows != [] {
      var init := rows[..|rows| - 1];
      KeepAllPass(init, pass);
      assert init + [rows[|rows| - 1]] == rows;
    }
  }

  /** When no record passes, the filter gives back nothing. */
  lemma {:induction false} KeepNonePass<R>(rows: seq<R>, pass: R -> bool)
    requires forall i :: 0 <= i < |rows| ==> !pass(rows[i])
    ensures Keep(rows, pass) == []
  {
    if rows != [] {
      KeepNonePass(rows[..|rows| - 1], pass);
    }
  }

  /** Filtering an already filtered sequence with the same predicate changes nothing. */
  lemma {:induction false} KeepIdempotent<R>(rows: seq<R>, pass: R -> bool)
    ensures Keep(Keep(rows, pass), pass) == Keep(rows, pass)
  {
    var kept := Keep(rows, pass);
    forall i | 0 <= i < |kept|
      ensures pass(kept[i])
    {
      assert kept[i] in kept;
    }
    KeepAllPass(kept, pass);
  }

  /** The page's `filteredData`. */
  function FilterRows<R>(b: Binding<R>, c: Criteria, rows: seq<R>): (filtered: seq<R>)
    ensures |filtered| <= |rows|
    ensures forall x :: x in filtered ==> x in rows && Passes(b, c, x)
    ensures forall x :: x in rows && Passes(b, c, x) ==> x in filtered
  {
    Keep(rows, PassesFn(b, c))
  }

  /** `filteredData` of a three-record data set, spelled out. */
  lemma FilterThree<R>(b: Binding<R>, c: Criteria, x: R, y: R, z: R)
    ensures FilterRows(b, c, [x, y, z]) ==
      (if Passes(b, c, x) then [x] else []) + (if Passes(b, c, y) then [y] else [])
        + (if Passes(b, c, z) then [z] else [])
  {
    KeepThree(x, y, z, PassesFn(b, c));
  }

  /** `filteredData` is the records of `rows` that pass, in source order. */
  lemma FilterRowsIsOrderedSubsequence<R>(b: Binding<R>, c: Criteria, rows: seq<R>)
    ensures var ps := Positions(rows, PassesFn(b, c));
      && |FilterRows(b, c, rows)| == |ps|
      && (forall j :: 0 <= j < |ps| ==> ps[j] < |rows| && FilterRows(b, c, rows)[j] == rows[ps[j]])
      && (forall j, k :: 0 <= j < k < |ps| ==> ps[j] < ps[k])
      && (forall i :: 0 <= i < |rows| ==> (i in ps <==> Passes(b, c, rows[i])))
  {
    KeepAtPositions(rows, PassesFn(b, c));
  }

  /** Filtering `filteredData` again with the same criteria changes nothing. */
  lemma FilterRowsIdempotent<R>(b: Binding<R>, c: Criteria, rows: seq<R>)
    ensures FilterRows(b, c, FilterRows(b, c, rows)) == FilterRows(b, c, rows)
  {
    KeepIdempotent(rows, PassesFn(b, c));
  }

  /** The initial state (empty term, "all", no dates) lets every record through. */
  lemma InitialCriteriaPassesAll<R>(b: Binding<R>, r: R)
    requires |b.searchFields| > 0
    ensures Passes(b, InitialCriteria, r)
  {
    assert Lower("") == "";
    IncludesEmpty(Lower(b.searchFields[0](r)));
  }

  /** So in the initial state `filteredData` equals the source data. */
  lemma InitialFilterIsIdentity<R>(b: Binding<R>, rows: seq<R>)
    requires |b.searchFields| > 0
    ensures FilterRows(b, InitialCriteria, rows) == rows
  {
    forall i | 0 <= i < |rows|
      ensures PassesFn(b, InitialCriteria)(rows[i])
    {
      InitialCriteriaPassesAll(b, rows[i]);
    }
    KeepAllPass(rows, PassesFn(b, InitialCriteria));
  }
}
