# CRM front end: task table, dashboard grouping, invoice board

This project models, in Dafny, the data logic of three pages of the CRM front end:

- **The task page** (`frontend/src/app/task/page.tsx`):
  - the search filter and the status filter (`filteredItems`);
  - the page count and the page slice (`pages`, `items`);
  - the per-page sort by the table's sort descriptor (`sortedItems`);
  - the callbacks that move the page cursor, change the page size, the search text and the sort;
  - the handling of the shapes the task list endpoint can answer with (`fetchTasks`);
  - the zod validation schema of the add and edit forms.
- **The dashboard** (`frontend/src/app/dashboard/page.tsx`):
  - the shape guard on the leads, invoices and deals responses;
  - the `reduce` that groups each list by status;
  - the chart projections, which give one row per status, its count and its colour, with a `#ccc` fallback.
- **The invoice status board** (`frontend/src/app/invoice/invoiceDrop/page.tsx`):
  - the columns Pending, Unpaid and Paid, in that order;
  - a missing bucket read as empty;
  - each column's count, `totalAmount` and empty placeholder;
  - the `draggedOver` highlight.

Pure computations are functions with their properties proved as lemmas. The reduce's loop is a method proved against a specification function. The pages' state is held in classes whose methods update fields in place.

## Modules and files

| file | module | models |
|---|---|---|
| `common.dfy` | `Common` | `Option`, `Result`, and the shape of a decoded HTTP answer (`Body`, `Outcome`) |
| `text.dfy` | `Text` | strings: ASCII lower-casing, `includes`, and the ordering of JavaScript's `<` on strings |
| `seqs.dfy` | `Seqs` | `Array.prototype.filter` and the subsequence relation |
| `task_model.dfy` | `TaskModel` | the task record and its status and priority enumerations |
| `task_list.dfy` | `TaskList` | `filteredItems`, `pages`, `items` |
| `task_sort.dfy` | `TaskSort` | the comparator and `sortedItems` |
| `task_fetch.dfy` | `TaskFetch` | response-shape handling of `fetchTasks` |
| `task_form.dfy` | `TaskForm` | `formSchema` |
| `task_page.dfy` | `TaskPage` | the task page's state and callbacks (class `TaskTable`) |
| `status_grouping.dfy` | `StatusGrouping` | the categorising reduce shared by leads, invoices and deals |
| `dashboard_types.dfy` | `DashboardTypes` | `LeadStatus`, `InvoiceStatus`, `DealStatus` |
| `dashboard.dfy` | `Dashboard` | palettes, shape guard, chart rows, the dashboard's state (class `DashboardPage`) |
| `invoice_board.dfy` | `InvoiceBoard` | columns, bucket lookup, totals, highlight (class `InvoiceBoardPage`) |

The task field `assigned` is named `assignedTo` in the model, because `assigned` is a reserved word in Dafny.

A JavaScript object built by the reduce is a `Grouping`: its keys in insertion order, plus a map from key to bucket. The insertion order is the order `Object.entries` lists the keys in, and so the order of the chart rows.

The sort is applied to the current page only, after slicing, as the page does. The model keeps that order: the rows on a page are sorted among themselves, not taken from a globally sorted list.

## Model

| member | source | states |
|---|---|---|
| Text.Lower | frontend/src/app/task/page.tsx:183 | `toLowerCase` keeps the length and lower-cases each ASCII letter in place |
| Text.LowerIdempotent | frontend/src/app/task/page.tsx:183 | lower-casing twice is lower-casing once, and leaves no upper-case ASCII letter |
| Text.ContainsFacts | frontend/src/app/task/page.tsx:183 | `includes` finds the empty string and the string itself; a substring stays a substring after lower-casing both sides |
| Text.Contains | frontend/src/app/task/page.tsx:183 | `includes` holds only when the needle is no longer than the haystack; `ContainsFacts` states the rest |
| Text.Utf16Length | frontend/src/app/task/page.tsx:60-63 | a string's JavaScript `length` counts UTF-16 code units: between its number of characters and twice that |
| Text.LexLessIrreflexive | frontend/src/app/task/page.tsx:210 | no string is `<` itself |
| Text.LexLessAsymmetric | frontend/src/app/task/page.tsx:210 | `a < b` and `b < a` never both hold |
| Text.LexLessTransitive | frontend/src/app/task/page.tsx:210 | `<` on strings is transitive |
| Text.LexLessTotal | frontend/src/app/task/page.tsx:210 | of two different strings, one is `<` the other |
| Text.LexCompare | frontend/src/app/task/page.tsx:210 | `first < second ? -1 : first > second ? 1 : 0` is in {-1, 0, 1}, is 0 exactly on equal strings and negative exactly when `first < second` |
| Text.LexCompareAntisymmetric | frontend/src/app/task/page.tsx:210 | swapping the operands negates the comparison |
| Text.LexCompareTransitive | frontend/src/app/task/page.tsx:210 | "not after" is transitive |
| Seqs.Filter | frontend/src/app/task/page.tsx:170-191 | `.filter` keeps only elements that pass, drawn from the input, never more of them; it is an order-preserving subsequence with exact multiplicities (`Seqs.FilterKeeps`) |
| Seqs.FilterKeeps | frontend/src/app/task/page.tsx:170-191 | the filtered list is a subsequence of the input, and each element occurs in it as often as in the input if it passes and never otherwise |
| TaskModel.ParseStatus | frontend/src/app/task/page.tsx:66 | `z.enum` on status accepts exactly the three spellings, and yields the status spelled |
| TaskModel.ParsePriority | frontend/src/app/task/page.tsx:67 | `z.enum` on priority accepts exactly the three spellings, and yields the priority spelled |
| TaskModel.NamesRoundTrip | frontend/src/app/task/page.tsx:36-37 | every status and priority parses back from its spelling |
| TaskList.MatchesSearch | frontend/src/app/task/page.tsx:171-184 | a task matches only when the query fits inside one of its eight searchable fields; `SearchIgnoresCase`, `VerbatimFieldMatches` and `SearchExample` state the rest |
| TaskList.FilteredItems | frontend/src/app/task/page.tsx:166-195 | never more tasks than the list; every survivor is in the list and matches a non-empty query; with a status filter every survivor has that status |
| TaskList.FilteredItemsSpec | frontend/src/app/task/page.tsx:166-195 | a task is in `filteredItems` iff it is in the list and meets both filters; survivors keep input order and multiplicity; with a status filter every survivor has that status |
| TaskList.FilteredIsOneFilter | frontend/src/app/task/page.tsx:166-195 | search filter then status filter equals one filter by their conjunction |
| TaskList.FilteredUnfiltered | frontend/src/app/task/page.tsx:169 | an empty query and status `"all"` show every task, in order |
| TaskList.SearchIgnoresCase | frontend/src/app/task/page.tsx:182-184 | two queries that lower-case alike select the same tasks |
| TaskList.VerbatimFieldMatches | frontend/src/app/task/page.tsx:171-184 | a query that occurs verbatim in any of the eight searchable fields matches |
| TaskList.SearchExample | frontend/src/app/task/page.tsx:182-184 | "ACME" finds a task whose subject is "Acme Corp" |
| TaskList.PageCount | frontend/src/app/task/page.tsx:197 | `Math.ceil(n / rowsPerPage)` is the least page count whose pages hold all `n` rows |
| TaskList.PageSlice | frontend/src/app/task/page.tsx:199-204 | the slice is at most `rowsPerPage` consecutive rows starting at `(page-1)*rowsPerPage`, ending at `min(page*rowsPerPage, length)`, full when enough rows remain, empty past the last page |
| TaskList.PagesUpToIsPrefix | frontend/src/app/task/page.tsx:199-204 | pages 1..k laid end to end are the first `min(k*rowsPerPage, length)` rows |
| TaskList.AllPagesReproduce | frontend/src/app/task/page.tsx:197-204 | pages 1..`pages` together are exactly the filtered list |
| TaskList.PageOfIndex | frontend/src/app/task/page.tsx:197-204 | row i appears on page `i/rowsPerPage + 1`, which exists, at position `i % rowsPerPage` |
| TaskSort.Compare | frontend/src/app/task/page.tsx:207-213 | the comparator is 0 exactly on rows whose sort keys are equal |
| TaskSort.CompareAntisymmetric | frontend/src/app/task/page.tsx:210-212 | swapping the rows negates the comparator, in both directions |
| TaskSort.CompareTransitive | frontend/src/app/task/page.tsx:210-212 | the comparator's "not after" is transitive, so it is a consistent comparator |
| TaskSort.Insert | frontend/src/app/task/page.tsx:207 | inserting a row adds it to the multiset and keeps a sorted list sorted |
| TaskSort.SortRows | frontend/src/app/task/page.tsx:206-214 | `sortedItems` is a permutation of the page, ordered by the comparator |
| TaskSort.SortIsStable | frontend/src/app/task/page.tsx:207 | rows with equal sort keys keep their page order (a stable sort, section 23.1.3.30 of ECMA-262) |
| TaskSort.SortByActionsIsIdentity | frontend/src/app/task/page.tsx:206-213 | sorting by the `actions` column, where every key is `undefined`, leaves the page unchanged |
| TaskSort.SortKeyIsSearchable | frontend/src/app/task/page.tsx:208-209 | the value `task[column]` the comparator reads is one of the task's searchable fields, and the same for every task on the `actions` column |
| TaskFetch.LoadTasks | frontend/src/app/task/page.tsx:91-124 | `{data}` and a bare array clear the error; a non-array `data` gives an empty list; anything else, `null` included, is "Failed to fetch tasks." with an empty list; a failed request is "Failed to fetch tasks: " plus its message with an empty list |
| TaskFetch.BothShapesAccepted | frontend/src/app/task/page.tsx:91-106 | `[...]` and `{data: [...]}` deliver the same tasks in order; `{data: non-array}` delivers none and no error |
| TaskForm.IssueFor | frontend/src/app/task/page.tsx:60-67 | each rule reports an issue on its own field |
| TaskForm.MinLengthCountsCodeUnits | frontend/src/app/task/page.tsx:60-63 | `.min(2)` accepts a single character exactly when it lies outside the Basic Multilingual Plane (an emoji), and always accepts two characters |
| TaskForm.Issues | frontend/src/app/task/page.tsx:59-69 | one issue per failing rule, on that rule's field, in schema order |
| TaskForm.IssuesNameFailingFields | frontend/src/app/task/page.tsx:59-69 | each failing field is named exactly once and passing fields never; the issue list is empty iff no rule fails |
| TaskForm.Validate | frontend/src/app/task/page.tsx:59-69 | `safeParse` succeeds iff every rule passes (text lengths counted in UTF-16 code units, as zod counts them); on success the values pass through with the enumerations parsed; on failure it returns the non-empty issue list |
| TaskForm.ValidateRoundTrip | frontend/src/app/task/page.tsx:59-69 | a draft with text fields of two or more UTF-16 code units validates back to itself, and accepted values are exactly the form of their draft |
| TaskForm.DefaultFailingFields | frontend/src/app/task/page.tsx:146-156 | the form's initial values fail on the four text fields, in schema order |
| TaskForm.DefaultValuesRejected | frontend/src/app/task/page.tsx:146-156 | the form's initial values are rejected with the four "... is required." messages, in schema order |
| TaskPage.ShownRowsSpec | frontend/src/app/task/page.tsx:166-214 | the rows on screen are exactly the rows of the page slice of the filtered list, reordered (equal multisets): at most `rowsPerPage` tasks of the list, each meeting both filters, ordered by the sort descriptor |
| TaskPage.TaskTable.constructor | frontend/src/app/task/page.tsx:132-141 | initial state: empty search, status `"all"`, 5 rows per page, sorted by subject ascending, page 1 |
| TaskPage.TaskTable.Rows | frontend/src/app/task/page.tsx:199-214 | the displayed rows are the current page of the filtered list, reordered, each meeting both filters, ordered by the sort descriptor |
| TaskPage.TaskTable.FetchTasks | frontend/src/app/task/page.tsx:76-125 | the list and the error become what `LoadTasks` says; nothing else changes |
| TaskPage.TaskTable.OnNextPage | frontend/src/app/task/page.tsx:344-348 | the page advances only while `page < pages`, so it never passes the last page |
| TaskPage.TaskTable.OnPreviousPage | frontend/src/app/task/page.tsx:350-354 | the page goes back only while `page > 1`, so it stays at least 1 |
| TaskPage.TaskTable.OnPageChange | frontend/src/app/task/page.tsx:463 | the pagination widget selects a page directly |
| TaskPage.TaskTable.OnRowsPerPageChange | frontend/src/app/task/page.tsx:356-359 | a new page size resets the page to 1 |
| TaskPage.TaskTable.OnSearchChange | frontend/src/app/task/page.tsx:361-368 | a non-empty value becomes the filter and resets the page to 1; an empty value clears the filter and keeps the page |
| TaskPage.TaskTable.OnClear | frontend/src/app/task/page.tsx:370-373 | clears the filter and resets the page to 1 |
| TaskPage.TaskTable.OnSortChange | frontend/src/app/task/page.tsx:567 | sets the sort descriptor and nothing else |
| StatusGrouping.Categorize | frontend/src/app/dashboard/page.tsx:207-213 | the reduce's loop builds exactly the grouping `GroupingOf` specifies |
| StatusGrouping.GroupingSnoc | frontend/src/app/dashboard/page.tsx:208-211 | one step: a new status is appended to the key order with an empty bucket, then the entity is pushed onto its own bucket, other buckets untouched |
| StatusGrouping.StatusesInOrderSpec | frontend/src/app/dashboard/page.tsx:207-213 | the keys are distinct and are exactly the statuses occurring in the input |
| StatusGrouping.GroupingWellFormed | frontend/src/app/dashboard/page.tsx:207-213 | the key order lists each key of the object once and only its keys |
| StatusGrouping.FlattenIsPermutation | frontend/src/app/dashboard/page.tsx:207-213 | the buckets laid end to end are a permutation of the input |
| StatusGrouping.GroupingIsPartition | frontend/src/app/dashboard/page.tsx:207-213 | each entity is in the bucket of its own status and in no other; buckets are non-empty subsequences of the input; together they hold the input exactly |
| StatusGrouping.GroupingOfEmpty | frontend/src/app/dashboard/page.tsx:213 | an empty list gives the empty object |
| Dashboard.PalettesMatchStatuses | frontend/src/app/dashboard/page.tsx:142-166 | each palette colours exactly the declared statuses of its kind with a non-empty colour, so `#ccc` is drawn only for an undeclared status |
| Dashboard.FetchedData | frontend/src/app/dashboard/page.tsx:200-204 | the guard lets through exactly an object whose `data` is an array, and yields that array |
| Dashboard.Fill | frontend/src/app/dashboard/page.tsx:303 | `palette[status] \|\| "#ccc"` is never empty, and is `#ccc` for a status the palette lacks |
| Dashboard.ChartRows | frontend/src/app/dashboard/page.tsx:299-305 | one row per key, in key order, counting that key's bucket, with a non-empty colour |
| Dashboard.VisitorsCountFlattened | frontend/src/app/dashboard/page.tsx:299-305 | the visitors of the chart rows sum to the size of all buckets together |
| Dashboard.ChartRowsPerStatus | frontend/src/app/dashboard/page.tsx:299-305 | one row per distinct status, in first-appearance order, each counting that status's entities (never zero), coloured from the palette or `#ccc` |
| Dashboard.ChartCoversInput | frontend/src/app/dashboard/page.tsx:299-305 | every status of the input has a row, and the visitors sum to the input length |
| Dashboard.EmptyChart | frontend/src/app/dashboard/page.tsx:309-325 | an empty list gives no chart rows |
| Dashboard.DashboardPage.constructor | frontend/src/app/dashboard/page.tsx:185-187 | the three categorised objects start empty |
| Dashboard.DashboardPage.OnFetched | frontend/src/app/dashboard/page.tsx:200-215 | a well-shaped answer replaces that kind's object with the categorised list and records the list; any other answer leaves both unchanged; other kinds are untouched; each object stays the categorisation of its recorded list |
| Dashboard.DashboardPage.ChartData | frontend/src/app/dashboard/page.tsx:299-325 | for the last list the guard let through: one row per distinct status, in first-appearance order, each counting that status's entities (never zero), coloured from the palette or `#ccc`; every status of the list has its row; the visitors sum to the list's length |
| InvoiceBoard.ColumnsAreInvoiceStatuses | frontend/src/app/invoice/invoiceDrop/page.tsx:48-52 | the columns are Pending, Unpaid, Paid, each once, in that order, and cover every invoice status |
| InvoiceBoard.Columns | frontend/src/app/invoice/invoiceDrop/page.tsx:81 | `Object.keys(statusColors)` has three entries and names every invoice status |
| InvoiceBoard.BucketOf | frontend/src/app/invoice/invoiceDrop/page.tsx:82 | `groupedInvoices[status] \|\| []` is empty for a missing status, and a non-empty column is the stored bucket |
| InvoiceBoard.TotalAmount | frontend/src/app/invoice/invoiceDrop/page.tsx:83 | with no negative amount, the total is at least each card's amount |
| InvoiceBoard.ColumnOf | frontend/src/app/invoice/invoiceDrop/page.tsx:82-105 | a column shows its stored bucket, counts and totals its cards, has a placeholder iff it has no cards, and is highlighted iff dragged over |
| InvoiceBoard.Board | frontend/src/app/invoice/invoiceDrop/page.tsx:81-105 | one column per `statusColors` key, in key order |
| InvoiceBoard.TotalAppend | frontend/src/app/invoice/invoiceDrop/page.tsx:83 | the total of two runs of cards is the sum of their totals |
| InvoiceBoard.RemoveOne | frontend/src/app/invoice/invoiceDrop/page.tsx:83 | removing one card removes its amount from the total |
| InvoiceBoard.TotalPermutation | frontend/src/app/invoice/invoiceDrop/page.tsx:83 | the total does not depend on card order |
| InvoiceBoard.TotalNonNegative | frontend/src/app/invoice/invoiceDrop/page.tsx:83 | with non-negative amounts the total is non-negative, and 0 for an empty column |
| InvoiceBoard.BoardSpec | frontend/src/app/invoice/invoiceDrop/page.tsx:81-105 | three columns in `statusColors` order; a missing bucket shows as empty with total 0; count is the number of cards; placeholder iff no cards; highlighted iff dragged over |
| InvoiceBoard.AtMostOneHighlighted | frontend/src/app/invoice/invoiceDrop/page.tsx:88-90 | at most one column is highlighted, none when nothing is dragged over, and the dragged-over column when it is one |
| InvoiceBoard.InitialBoard | frontend/src/app/invoice/invoiceDrop/page.tsx:81-105 | the first render shows three empty columns with placeholders, zero counts and totals, none highlighted |
| InvoiceBoard.InvoiceBoardPage.constructor | frontend/src/app/invoice/invoiceDrop/page.tsx:44-46 | no error, nothing dragged over, no buckets |
| InvoiceBoard.InvoiceBoardPage.DragOver | frontend/src/app/invoice/invoiceDrop/page.tsx:91-94 | `draggedOver` becomes the column's status, and exactly that column is highlighted |
| InvoiceBoard.InvoiceBoardPage.DragLeave | frontend/src/app/invoice/invoiceDrop/page.tsx:95 | `draggedOver` becomes null and no column is highlighted |

## Left out

- HTTP requests, `console` logging, toasts, dialogs and rendering: the answer of a request is a parameter (`Outcome`), and a failed request is modelled by its message only.
- The `key` that `fetchTasks` adds to each task: it is `_id` or a random `generateUniqueId()`, and randomness and clocks are not modelled.
- The date defaults of the task form (`new Date().toISOString()`): they are clock input. The form lemmas take any date strings.
- The shared dashboard `loading` flag, written by three concurrent effects: a race between asynchronous tasks, not sequential logic.
- Text.Lower: lower-cases ASCII letters only, where `toLowerCase` follows full Unicode case mapping.
- Text.LexLess: compares Dafny characters, where JavaScript compares UTF-16 code units. The two orders agree on the Basic Multilingual Plane.
- TaskSort.SortKey: a field the record lacks is modelled as the empty string. This is exact for the search, where `String(value || '')` also gives "". The sort differs: `undefined` compares neither less nor greater than anything there.
- TaskPage.TaskTable: the status filter is never changed, because the page has no control that calls `setStatusFilter`. It stays at `"all"`; the filter functions still take any status filter.
- TaskPage.TaskTable.OnRowsPerPageChange: takes the page size as a positive number. Parsing the select's value with `Number` is not modelled.
- InvoiceBoard.TotalAmount: amounts are integers. The page sums JavaScript numbers, which are floating point.
- InvoiceBoard.InvoiceBoardPage: the page never fills `groupedInvoices` and has no drop handler, so no move of an invoice between columns is modelled.
- StatusGrouping.Grouping: status strings that collide with keys inherited from `Object.prototype` are not modelled. Neither is the ordering of integer-like keys, which `Object.entries` lists before the other keys.
- components/dashboard/DashboardChart.tsx is not part of this model: it is chart rendering and window-size geometry.
