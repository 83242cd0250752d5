/** `sortedItems`: the current page sorted by the column and direction of the
    table's sort descriptor. `Array.prototype.sort` is stable (section
    23.1.3.30 of ECMA-262), so it is modelled by a stable insertion sort:
    the result is ordered by the comparator, is a permutation of the page, and
    keeps the page order of rows whose sort keys are equal. */
module TaskSort {
  import opened Text
  import opened Seqs
  import opened TaskModel
  import opened TaskList

  /** The column uids of the table. */
  datatype Column = Subject | RelatedTo | Name | Assigned | TaskDate | DueDate | PriorityColumn | StatusColumn | Actions

  datatype Direction = Ascending | Descending

  /** The value `task[column]` the comparator reads. Tasks have no `actions`
      property: every task reads `undefined` there, and two `undefined`s
      compare equal, which the constant key reproduces. */
  function SortKey(t: Task, column: Column): String
  {
    match column
    case Subject => t.subject
    case RelatedTo => t.relatedTo
    case Name => t.name
    case Assigned => t.assignedTo
    case TaskDate => t.taskDate
    case DueDate => t.dueDate
    case PriorityColumn => PriorityName(t.priority)
    case StatusColumn => StatusName(t.status)
    case Actions => ""
  }

  /** Every sortable column reads one of the fields the search box looks at;
      `actions` reads the same key for every task. */
  lemma SortKeyIsSearchable(t: Task, u: Task, column: Column)
    ensures column != Actions ==> SortKey(t, column) in SearchableFields(t)
    ensures column == Actions ==> SortKey(t, column) == SortKey(u, column)
  {
  }

  /** The comparator: three-way string comparison of the keys, negated for
      "descending". It is zero exactly on rows with equal keys and flips sign
      when its arguments swap. */
  function Compare(a: Task, b: Task, column: Column, direction: Direction): (r: int)
    ensures r == 0 <==> SortKey(a, column) == SortKey(b, column)
  {
    var cmp := LexCompare(SortKey(a, column), SortKey(b, column));
    if direction == Descending then -cmp else cmp
  }

  lemma CompareAntisymmetric(a: Task, b: Task, column: Column, direction: Direction)
    ensures Compare(a, b, column, direction) == -Compare(b, a, column, direction)
  {
    LexCompareAntisymmetric(SortKey(a, column), SortKey(b, column));
  }

  lemma CompareTransitive(a: Task, b: Task, c: Task, column: Column, direction: Direction)
    requires Compare(a, b, column, direction) <= 0 && Compare(b, c, column, direction) <= 0
    ensures Compare(a, c, column, direction) <= 0
  {
    var ka, kb, kc := SortKey(a, column), SortKey(b, column), SortKey(c, column);
    if direction == Ascending {
      LexCompareTransitive(ka, kb, kc);
    } else {
      LexCompareTransitive(kc, kb, ka);
      LexCompareAntisymmetric(ka, kc);
    }
  }

  /** Ordered by the comparator: no row compares greater than a later one. */
  predicate Sorted(s: seq<Task>, column: Column, direction: Direction)
  {
    forall i, j :: 0 <= i < j < |s| ==> Compare(s[i], s[j], column, direction) <= 0
  }

  /** Places `x` before the first row it does not compare greater than. */
  function Insert(x: Task, s: seq<Task>, column: Column, direction: Direction): (r: seq<Task>)
    ensures multiset(r) == multiset(s) + multiset{x}
    ensures Sorted(s, column, direction) ==> Sorted(r, column, direction)
  {
    if s == [] then [x]
    else if Compare(x, s[0], column, direction) <= 0 then
      InsertFrontSorted(x, s, column, direction);
      [x] + s
    else
      var rest := Insert(x, s[1..], column, direction);
      assert s == [s[0]] + s[1..];
      InsertAfterSorted(s[0], x, s[1..], rest, column, direction);
      [s[0]] + rest
  }

  lemma InsertFrontSorted(x: Task, s: seq<Task>, column: Column, direction: Direction)
    requires s != [] && Compare(x, s[0], column, direction) <= 0
    ensures Sorted(s, column, direction) ==> Sorted([x] + s, column, direction)
  {
    if Sorted(s, column, direction) {
      forall j | 0 <= j < |s| ensures Compare(x, s[j], column, direction) <= 0 {
        if j > 0 {
          CompareTransitive(x, s[0], s[j], column, direction);
        }
      }
    }
  }

  /** No element of `s` compares below `y`. */
  predicate NoneBelow(y: Task, s: seq<Task>, column: Column, direction: Direction)
  {
    forall k :: 0 <= k < |s| ==> Compare(y, s[k], column, direction) <= 0
  }

  lemma SortedCons(y: Task, s: seq<Task>, column: Column, direction: Direction)
    ensures Sorted([y] + s, column, direction) <==> NoneBelow(y, s, column, direction) && Sorted(s, column, direction)
  {
    var ys := [y] + s;
    if NoneBelow(y, s, column, direction) && Sorted(s, column, direction) {
      forall i, j | 0 <= i < j < |ys| ensures Compare(ys[i], ys[j], column, direction) <= 0 {
        if i > 0 {
          assert ys[i] == s[i - 1] && ys[j] == s[j - 1];
        } else {
          assert ys[j] == s[j - 1];
        }
      }
    }
    if Sorted(ys, column, direction) {
      forall k | 0 <= k < |s| ensures Compare(y, s[k], column, direction) <= 0 {
        assert ys[0] == y && ys[k + 1] == s[k];
      }
      forall i, j | 0 <= i < j < |s| ensures Compare(s[i], s[j], column, direction) <= 0 {
        assert ys[i + 1] == s[i] && ys[j + 1] == s[j];
      }
    }
  }

  lemma InsertAfterSorted(y: Task, x: Task, tail: seq<Task>, rest: seq<Task>, column: Column, direction: Direction)
    requires Compare(x, y, column, direction) > 0
    requires multiset(rest) == multiset(tail) + multiset{x}
    requires Sorted(tail, column, direction) ==> Sorted(rest, column, direction)
    ensures Sorted([y] + tail, column, direction) ==> Sorted([y] + rest, column, direction)
  {
    SortedCons(y, tail, column, direction);
    SortedCons(y, rest, column, direction);
    if NoneBelow(y, tail, column, direction) {
      CompareAntisymmetric(x, y, column, direction);
      forall j | 0 <= j < |rest| ensures Compare(y, rest[j], column, direction) <= 0 {
        assert rest[j] in multiset(rest);
        if rest[j] != x {
          assert rest[j] in multiset(tail);
          var k :| 0 <= k < |tail| && tail[k] == rest[j];
        }
      }
    }
  }

  /** `[...items].sort(comparator)`: a sorted permutation of the page. */
  function SortRows(s: seq<Task>, column: Column, direction: Direction): (r: seq<Task>)
    ensures multiset(r) == multiset(s)
    ensures Sorted(r, column, direction)
  {
    if s == [] then []
    else
      assert s == [s[0]] + s[1..];
      Insert(s[0], SortRows(s[1..], column, direction), column, direction)
  }

  function SameKey(t: Task, column: Column): Task -> bool
  {
    (x: Task) => SortKey(x, column) == SortKey(t, column)
  }

  lemma {:induction false} InsertKeepsTies(x: Task, s: seq<Task>, t: Task, column: Column, direction: Direction)
    ensures Filter(Insert(x, s, column, direction), SameKey(t, column))
         == Filter([x] + s, SameKey(t, column))
  {
    var p := SameKey(t, column);
    if s != [] && Compare(x, s[0], column, direction) > 0 {
      var y, tail := s[0], s[1..];
      var rest := Insert(x, tail, column, direction);
      assert s == [y] + tail;
      assert Insert(x, s, column, direction) == [y] + rest;
      InsertKeepsTies(x, tail, t, column, direction);
      FilterCons(y, rest, p);
      FilterCons(x, tail, p);
      FilterCons(x, s, p);
      FilterCons(y, tail, p);
      assert !(p(x) && p(y));
    }
  }

  /** Stability: for every sort key, the rows carrying that key appear in the
      sorted page in the same order as in the unsorted page. */
  lemma {:induction false} SortIsStable(s: seq<Task>, t: Task, column: Column, direction: Direction)
    ensures Filter(SortRows(s, column, direction), SameKey(t, column)) == Filter(s, SameKey(t, column))
  {
    if s != [] {
      var p := SameKey(t, column);
      SortIsStable(s[1..], t, column, direction);
      var sorted := SortRows(s[1..], column, direction);
      InsertKeepsTies(s[0], sorted, t, column, direction);
      assert ([s[0]] + sorted)[1..] == sorted;
      assert s == [s[0]] + s[1..];
    }
  }

  /** Sorting by the `actions` column, where all keys are equal, leaves the
      page as it is. */
  lemma SortByActionsIsIdentity(s: seq<Task>, direction: Direction)
    ensures SortRows(s, Actions, direction) == s
  {
    var t: Task := Task("", "", "", "", "", "", "", Pending, Medium, true);
    var p := SameKey(t, Actions);
    var r := SortRows(s, Actions, direction);
    forall i | 0 <= i < |s| ensures p(s[i]) { }
    forall i | 0 <= i < |r| ensures p(r[i]) { }
    FilterAllPass(s, p);
    FilterAllPass(r, p);
    SortIsStable(s, t, Actions, direction);
  }
}
