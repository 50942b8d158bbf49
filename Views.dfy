/**
 * The per-page view state held in React `useState` hooks, and the handlers that
 * update it. Every page starts at page 0, 10 rows per page, an empty search term
 * and the category filter "all"; the observation-log page also has two date
 * bounds, initially unset. A page without a category filter or date range
 * never calls the handlers for them, and its binding ignores those fields.
 */
module Views {
  import opened Dates
  import opened Filtering
  import opened Pagination

  class ViewState {
    var page: nat
    var rowsPerPage: nat
    var searchTerm: string
    var categoryFilter: string
    var startDate: DateBound
    var endDate: DateBound

    /** The filter criteria the current state stands for. */
    function FilterCriteria(): Criteria
      reads this
    {
      Criteria(searchTerm, categoryFilter, startDate, endDate)
    }

    /** The initial `useState` values. */
    constructor ()
      ensures page == 0 && rowsPerPage == 10
      ensures FilterCriteria() == InitialCriteria
    {
      page := 0;
      rowsPerPage := 10;
      searchTerm := "";
      categoryFilter := AllCategories;
      startDate := Unset;
      endDate := Unset;
    }

    /** `handleChangePage`: only the page index changes. */
    method ChangePage(newPage: nat)
      modifies this`page
      ensures page == newPage
      ensures rowsPerPage == old(rowsPerPage) && FilterCriteria() == old(FilterCriteria())
    {
      page := newPage;
    }

    /** `handleChangeRowsPerPage`: the page size changes and the view goes back to page 0. */
    method ChangeRowsPerPage(newRowsPerPage: nat)
      modifies this`rowsPerPage, this`page
      ensures rowsPerPage == newRowsPerPage && page == 0
      ensures FilterCriteria() == old(FilterCriteria())
    {
      rowsPerPage := newRowsPerPage;
      page := 0;
    }

    /** The search box's `onChange`: only the term changes; the page index is kept. */
    method ChangeSearchTerm(term: string)
      modifies this`searchTerm
      ensures FilterCriteria() == old(FilterCriteria()).(searchTerm := term)
      ensures page == old(page) && rowsPerPage == old(rowsPerPage)
    {
      searchTerm := term;
    }

    /** The category select's `onChange`: only the filter changes; the page index is kept. */
    method ChangeCategoryFilter(filter: string)
      modifies this`categoryFilter
      ensures FilterCriteria() == old(FilterCriteria()).(categoryFilter := filter)
      ensures page == old(page) && rowsPerPage == old(rowsPerPage)
    {
      categoryFilter := filter;
    }

    /** The start date picker's `onChange`. */
    method ChangeStartDate(bound: DateBound)
      modifies this`startDate
      ensures FilterCriteria() == old(FilterCriteria()).(startDate := bound)
      ensures page == old(page) && rowsPerPage == old(rowsPerPage)
    {
      startDate := bound;
    }

    /** The end date picker's `onChange`. */
    method ChangeEndDate(bound: DateBound)
      modifies this`endDate
      ensures FilterCriteria() == old(FilterCriteria()).(endDate := bound)
      ensures page == old(page) && rowsPerPage == old(rowsPerPage)
    {
      endDate := bound;
    }

    /**
     * The table body: the current page of `filteredData`. Each row is a record of
     * `data` that passes the criteria, in source order; the page holds
     * `rowsPerPage` rows, or the rows that remain if fewer, and is empty once it
     * starts past the filtered rows.
     */
    function VisibleRows<R>(b: Binding<R>, data: seq<R>): (rows: seq<R>)
      reads this
      ensures |rows| <= rowsPerPage
      ensures forall x :: x in rows ==> x in data && Passes(b, FilterCriteria(), x)
      ensures page * rowsPerPage >= |FilterRows(b, FilterCriteria(), data)| ==> rows == []
      ensures page * rowsPerPage < |FilterRows(b, FilterCriteria(), data)| ==>
        |rows| == Min(rowsPerPage, |FilterRows(b, FilterCriteria(), data)| - page * rowsPerPage)
      ensures forall i :: 0 <= i < |rows| ==>
        page * rowsPerPage + i < |FilterRows(b, FilterCriteria(), data)| &&
        rows[i] == FilterRows(b, FilterCriteria(), data)[page * rowsPerPage + i]
    {
      var filtered := FilterRows(b, FilterCriteria(), data);
      var rows := Paginate(filtered, page, rowsPerPage);
      assert forall x :: x in rows ==> x in filtered;
      rows
    }

    /** The pager's `count`: the number of records that pass, not the size of the data set. */
    function PagerCount<R>(b: Binding<R>, data: seq<R>): (count: nat)
      reads this
      ensures count == |Positions(data, PassesFn(b, FilterCriteria()))|
      ensures count <= |data|
    {
      KeepAtPositions(data, PassesFn(b, FilterCriteria()));
      |FilterRows(b, FilterCriteria(), data)|
    }
  }
}
