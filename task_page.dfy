/** The task page's state and the callbacks that update it step by step: the
    page cursor (next, previous, direct selection), rows per page, the search
    box, the sort descriptor and the fetched list. The derived lists are the
    functions of TaskList and TaskSort applied to the current fields. */
module TaskPage {
  import opened Common
  import opened Seqs
  import opened Text
  import opened TaskModel
  import opened TaskList
  import opened TaskSort
  import opened TaskFetch

  /** The rows on screen, paginate-then-sort as the page computes them, are
      exactly the rows of the page slice of the filtered list, reordered: at
      most one page of tasks from the list, each meeting both filters, and
      ordered by the sort descriptor. */
  lemma ShownRowsSpec(tasks: seq<Task>, query: String, statusFilter: StatusFilter,
                      page: nat, rows: nat, column: Column, direction: Direction)
    requires page >= 1 && rows >= 1
    ensures var shown := SortRows(PageSlice(FilteredItems(tasks, query, statusFilter), page, rows), column, direction);
            && multiset(shown) == multiset(PageSlice(FilteredItems(tasks, query, statusFilter), page, rows))
            && |shown| <= rows
            && (forall t :: t in shown ==> t in tasks && Kept(t, query, statusFilter))
            && Sorted(shown, column, direction)
  {
    var filtered := FilteredItems(tasks, query, statusFilter);
    var items := PageSlice(filtered, page, rows);
    var shown := SortRows(items, column, direction);
    forall t | t in shown ensures t in tasks && Kept(t, query, statusFilter) {
      assert t in multiset(shown);
      assert t in items;
      var i :| 0 <= i < |items| && items[i] == t;
      assert t in filtered;
      FilterMembership(tasks, KeptBy(query, statusFilter), t);
      FilteredIsOneFilter(tasks, query, statusFilter);
    }
    assert |shown| == |multiset(shown)| == |items|;
  }

  class TaskTable {
    var tasks: seq<Task>
    var error: Option<String>
    var filterValue: String
    var statusFilter: StatusFilter
    var rowsPerPage: nat
    var sortColumn: Column
    var sortDirection: Direction
    var page: nat

    /** The page cursor is 1-based and the page size positive. */
    ghost predicate Valid()
      reads this
    {
      page >= 1 && rowsPerPage >= 1
    }

    /** The initial state: no tasks, no error, empty search, status `"all"`,
        five rows per page, sorted by subject ascending, on page 1. */
    constructor ()
      ensures Valid()
      ensures tasks == [] && error == None && filterValue == [] && statusFilter == All
      ensures rowsPerPage == 5 && sortColumn == Subject && sortDirection == Ascending && page == 1
    {
      tasks := [];
      error := None;
      filterValue := [];
      statusFilter := All;
      rowsPerPage := 5;
      sortColumn := Subject;
      sortDirection := Ascending;
      page := 1;
    }

    function Filtered(): seq<Task>
      reads this
    {
      FilteredItems(tasks, filterValue, statusFilter)
    }

    function Pages(): nat
      reads this
      requires Valid()
    {
      PageCount(|Filtered()|, rowsPerPage)
    }

    /** `sortedItems`: the rows on screen are the rows of the current page of
        the filtered list, reordered: at most `rowsPerPage` tasks of the list,
        each meeting the search and status filters, ordered by the sort
        descriptor. */
    function Rows(): (r: seq<Task>)
      reads this
      requires Valid()
      ensures multiset(r) == multiset(PageSlice(Filtered(), page, rowsPerPage))
      ensures |r| <= rowsPerPage
      ensures forall t :: t in r ==> t in tasks && Kept(t, filterValue, statusFilter)
      ensures Sorted(r, sortColumn, sortDirection)
    {
      ShownRowsSpec(tasks, filterValue, statusFilter, page, rowsPerPage, sortColumn, sortDirection);
      SortRows(PageSlice(Filtered(), page, rowsPerPage), sortColumn, sortDirection)
    }

    /** `fetchTasks`: the list and the error slot are replaced as LoadTasks
        says; the cursor is left where it was. */
    method FetchTasks(outcome: Outcome<Task>)
      requires Valid()
      modifies this`tasks, this`error
      ensures Valid()
      ensures tasks == LoadTasks(outcome).tasks && error == LoadTasks(outcome).error
    {
      var load := LoadTasks(outcome);
      tasks := load.tasks;
      error := load.error;
    }

    /** `onNextPage`: moves forward only while a later page exists. */
    method OnNextPage()
      requires Valid()
      modifies this`page
      ensures Valid()
      ensures page == if old(page) < Pages() then old(page) + 1 else old(page)
      ensures old(page) <= Pages() ==> page <= Pages()
    {
      if page < Pages() {
        page := page + 1;
      }
    }

    /** `onPreviousPage`: moves back only while an earlier page exists. */
    method OnPreviousPage()
      requires Valid()
      modifies this`page
      ensures Valid()
      ensures page == if old(page) > 1 then old(page) - 1 else old(page)
    {
      if page > 1 {
        page := page - 1;
      }
    }

    /** The pagination widget's `onChange`: selects a page directly. */
    method OnPageChange(p: nat)
      requires Valid() && p >= 1
      modifies this`page
      ensures Valid() && page == p
    {
      page := p;
    }

    /** `onRowsPerPageChange`: a new page size, back to page 1. */
    method OnRowsPerPageChange(n: nat)
      requires Valid() && n >= 1
      modifies this`rowsPerPage, this`page
      ensures Valid() && rowsPerPage == n && page == 1
    {
      rowsPerPage := n;
      page := 1;
    }

    /** `onSearchChange`: a non-empty value becomes the filter and returns to
        page 1; an empty value clears the filter and keeps the page. */
    method OnSearchChange(value: String)
      requires Valid()
      modifies this`filterValue, this`page
      ensures Valid() && filterValue == value
      ensures page == if value != [] then 1 else old(page)
    {
      if value != [] {
        filterValue := value;
        page := 1;
      } else {
        filterValue := [];
      }
    }

    /** `onClear`: clears the filter and returns to page 1. */
    method OnClear()
      requires Valid()
      modifies this`filterValue, this`page
      ensures Valid() && filterValue == [] && page == 1
    {
      filterValue := [];
      page := 1;
    }

    /** The table's `onSortChange`: a new sort descriptor; the page stays. */
    method OnSortChange(column: Column, direction: Direction)
      requires Valid()
      modifies this`sortColumn, this`sortDirection
      ensures Valid() && sortColumn == column && sortDirection == direction
    {
      sortColumn := column;
      sortDirection := direction;
    }
  }
}
