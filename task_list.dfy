/** The task table's derived lists: the search and status filters
    (`filteredItems`), the page count (`pages`) and the page slice (`items`). */
module TaskList {
  import opened Text
  import opened Seqs
  import opened TaskModel

  // ---------------------------------------------------------------------------
  // Search and status filter

  /** The eight fields the search box looks at. */
  function SearchableFields(t: Task): seq<String>
  {
    [t.subject, t.relatedTo, t.name, t.assignedTo, t.taskDate, t.dueDate,
     StatusName(t.status), PriorityName(t.priority)]
  }

  /** Some searchable field, lower-cased, contains the lower-cased query. */
  predicate MatchesSearch(t: Task, query: String)
    ensures MatchesSearch(t, query) ==> exists i :: 0 <= i < |SearchableFields(t)| && |query| <= |SearchableFields(t)[i]|
  {
    var fields := SearchableFields(t);
    exists i | 0 <= i < |fields| :: Contains(Lower(fields[i]), Lower(query))
  }

  function SearchHit(query: String): Task -> bool
  {
    (t: Task) => MatchesSearch(t, query)
  }

  /** The status filter: `"all"`, or one status value. */
  datatype StatusFilter = All | Only(status: TaskStatus)

  function HasStatus(st: TaskStatus): Task -> bool
  {
    (t: Task) => t.status == st
  }

  /** `filteredItems`: the search filter applies only to a non-empty query,
      the status filter only when it is not `"all"`. */
  function FilteredItems(tasks: seq<Task>, query: String, statusFilter: StatusFilter): (r: seq<Task>)
    ensures |r| <= |tasks|
    ensures forall t :: t in r ==> t in tasks && (query == [] || MatchesSearch(t, query))
    ensures statusFilter.Only? ==> forall t :: t in r ==> t.status == statusFilter.status
  {
    var searched := if query != [] then Filter(tasks, SearchHit(query)) else tasks;
    if statusFilter.All? then searched else Filter(searched, HasStatus(statusFilter.status))
  }

  /** The condition a task must meet to stay in `filteredItems`. */
  predicate Kept(t: Task, query: String, statusFilter: StatusFilter)
  {
    && (query == [] || MatchesSearch(t, query))
    && (statusFilter.All? || t.status == statusFilter.status)
  }

  function KeptBy(query: String, statusFilter: StatusFilter): Task -> bool
  {
    (t: Task) => Kept(t, query, statusFilter)
  }

  lemma {:induction false} FilterCongruent<T>(s: seq<T>, p: T -> bool, q: T -> bool)
    requires forall x :: p(x) == q(x)
    ensures Filter(s, p) == Filter(s, q)
  {
    if s != [] {
      FilterCongruent(s[1..], p, q);
    }
  }

  /** With an empty query and the `"all"` filter the table shows every task,
      in fetch order. */
  lemma FilteredUnfiltered(tasks: seq<Task>)
    ensures FilteredItems(tasks, [], All) == tasks
  {
  }

  /** The two filters in a row are one filter by `Kept`. */
  lemma FilteredIsOneFilter(tasks: seq<Task>, query: String, statusFilter: StatusFilter)
    ensures FilteredItems(tasks, query, statusFilter) == Filter(tasks, KeptBy(query, statusFilter))
  {
    var keep := KeptBy(query, statusFilter);
    if query != [] && statusFilter.Only? {
      FilterFilter(tasks, SearchHit(query), HasStatus(statusFilter.status), keep);
    } else if query != [] {
      FilterCongruent(tasks, SearchHit(query), keep);
    } else if statusFilter.Only? {
      FilterCongruent(tasks, HasStatus(statusFilter.status), keep);
    } else {
      FilterAllPass(tasks, keep);
    }
  }

  /** A task survives exactly when it is in the input and meets both filters;
      the survivors keep their input order and multiplicity. */
  lemma FilteredItemsSpec(tasks: seq<Task>, query: String, statusFilter: StatusFilter)
    ensures forall t :: t in FilteredItems(tasks, query, statusFilter) <==> t in tasks && Kept(t, query, statusFilter)
    ensures SubseqOf(FilteredItems(tasks, query, statusFilter), tasks)
    ensures forall t :: multiset(FilteredItems(tasks, query, statusFilter))[t] ==
                         if Kept(t, query, statusFilter) then multiset(tasks)[t] else 0
    ensures statusFilter.Only? ==>
              forall t :: t in FilteredItems(tasks, query, statusFilter) ==> t.status == statusFilter.status
  {
    FilteredIsOneFilter(tasks, query, statusFilter);
    FilterKeeps(tasks, KeptBy(query, statusFilter));
    forall t ensures t in FilteredItems(tasks, query, statusFilter) <==> t in tasks && Kept(t, query, statusFilter) {
      FilterMembership(tasks, KeptBy(query, statusFilter), t);
    }
  }

  /** The search ignores the case of the query: two queries that lower-case
      alike select the same tasks, and a query found verbatim in a field
      always matches. */
  lemma SearchIgnoresCase(t: Task, q1: String, q2: String)
    requires Lower(q1) == Lower(q2)
    ensures MatchesSearch(t, q1) == MatchesSearch(t, q2)
  {
  }

  lemma VerbatimFieldMatches(t: Task, query: String, i: nat)
    requires i < |SearchableFields(t)|
    requires Contains(SearchableFields(t)[i], query)
    ensures MatchesSearch(t, query)
  {
    ContainsFacts(SearchableFields(t)[i], query);
  }

  /** Searching "ACME" finds a task whose subject is "Acme Corp". */
  lemma SearchExample(t: Task)
    requires t.subject == "Acme Corp"
    ensures MatchesSearch(t, "ACME")
  {
    assert Lower("ACME") == "acme";
    assert Lower(t.subject)[0..4] == "acme";
    assert OccursAt(Lower(SearchableFields(t)[0]), Lower("ACME"), 0);
  }

  // ---------------------------------------------------------------------------
  // Pagination

  function Min(a: int, b: int): int
  {
    if a < b then a else b
  }

  lemma MulMonotone(a: nat, b: nat, c: nat)
    ensures a <= b ==> a * c <= b * c
  {
  }

  /** `Math.ceil(n / rowsPerPage)`: the least page count whose pages hold `n` rows. */
  function PageCount(n: nat, rowsPerPage: nat): (pages: nat)
    requires rowsPerPage > 0
    ensures pages * rowsPerPage >= n
    ensures pages == 0 || (pages - 1) * rowsPerPage < n
  {
    var q := (n + rowsPerPage - 1) / rowsPerPage;
    var m := (n + rowsPerPage - 1) % rowsPerPage;
    assert q * rowsPerPage + m == n + rowsPerPage - 1;
    assert q * rowsPerPage - rowsPerPage == (q - 1) * rowsPerPage;
    q
  }

  /** `items`: the 1-based page `page` of `s`, `s.slice((page-1)*rows, page*rows)`.
      It is a run of at most `rows` consecutive elements starting at
      `(page-1)*rows`, and it is empty past the last page. */
  function PageSlice<T>(s: seq<T>, page: nat, rows: nat): (r: seq<T>)
    requires page >= 1 && rows >= 1
    ensures |r| <= rows
    ensures r == [] || (page - 1) * rows + |r| <= |s|
    ensures forall i :: 0 <= i < |r| ==> r[i] == s[(page - 1) * rows + i]
    ensures (page - 1) * rows + rows <= |s| ==> |r| == rows
    ensures (page - 1) * rows < |s| ==> (page - 1) * rows + |r| == Min(page * rows, |s|)
    ensures page > PageCount(|s|, rows) ==> r == []
  {
    var start := (page - 1) * rows;
    var end := start + rows;
    assert end == page * rows;
    MulMonotone(PageCount(|s|, rows), page - 1, rows);
    if start >= |s| then [] else s[start..Min(end, |s|)]
  }

  /** Pages 1 to k laid end to end. */
  function PagesUpTo<T>(s: seq<T>, rows: nat, k: nat): seq<T>
    requires rows >= 1
  {
    if k == 0 then [] else PagesUpTo(s, rows, k - 1) + PageSlice(s, k, rows)
  }

  lemma {:induction false} PagesUpToIsPrefix<T>(s: seq<T>, rows: nat, k: nat)
    requires rows >= 1
    ensures PagesUpTo(s, rows, k) == s[..Min(k * rows, |s|)]
  {
    if k > 0 {
      PagesUpToIsPrefix(s, rows, k - 1);
      var lo := Min((k - 1) * rows, |s|);
      var hi := Min(k * rows, |s|);
      assert (k - 1) * rows + rows == k * rows;
      var page := PageSlice(s, k, rows);
      if (k - 1) * rows < |s| {
        assert page == s[lo..hi];
      } else {
        assert page == [];
        MulMonotone(k - 1, k, rows);
        assert lo == hi;
      }
      assert s[..lo] + s[lo..hi] == s[..hi];
    }
  }

  /** Concatenating pages 1 to `pages` gives back the whole filtered list. */
  lemma AllPagesReproduce<T>(s: seq<T>, rows: nat)
    requires rows >= 1
    ensures PagesUpTo(s, rows, PageCount(|s|, rows)) == s
  {
    PagesUpToIsPrefix(s, rows, PageCount(|s|, rows));
    assert s[..|s|] == s;
  }

  /** Every element is shown on exactly the page its index falls in. */
  lemma PageOfIndex<T>(s: seq<T>, rows: nat, i: nat)
    requires rows >= 1 && i < |s|
    ensures 1 <= i / rows + 1 <= PageCount(|s|, rows)
    ensures i % rows < |PageSlice(s, i / rows + 1, rows)|
    ensures PageSlice(s, i / rows + 1, rows)[i % rows] == s[i]
  {
    var p := i / rows + 1;
    assert (p - 1) * rows + i % rows == i;
    if p > PageCount(|s|, rows) {
      MulMonotone(PageCount(|s|, rows), p - 1, rows);
      assert false;
    }
  }
}
