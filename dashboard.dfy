/** The dashboard: three fetches (leads, invoices, deals), each guarded by the
    same response-shape check and categorised by the same reduce, and three
    chart projections turning a categorised object into one chart row per
    status, coloured from a per-kind palette with a grey fallback. */
module Dashboard {
  import opened Common
  import opened Text
  import opened DashboardTypes
  import opened Seqs
  import opened StatusGrouping

  datatype EntityKind = Leads | Invoices | Deals

  /** `chartData`, keyed by lead status. */
  const LeadColours: map<String, String> :=
    map["Proposal" := "#2a9d90", "New" := "#e76e50", "Discussion" := "#274754",
        "Demo" := "#e8c468", "Decided" := "#f4a462"]

  /** `chartDataInvoice`, keyed by invoice status. */
  const InvoiceColours: map<String, String> :=
    map["Pending" := "#2a9d90", "Unpaid" := "#e76e50", "Paid" := "#274754"]

  /** `chartDataDeal`, keyed by deal status. */
  const DealColours: map<String, String> :=
    map["Proposal" := "#2a9d90", "Discussion" := "#274754", "Demo" := "#e8c468",
        "Decided" := "#f4a462"]

  const Fallback: String := "#ccc"

  function Palette(kind: EntityKind): map<String, String>
  {
    match kind
    case Leads => LeadColours
    case Invoices => InvoiceColours
    case Deals => DealColours
  }

  /** `palette[status] || "#ccc"`; no palette entry is the empty string, so
      `||` falls back exactly on a missing key. */
  function Fill(kind: EntityKind, status: String): (f: String)
    ensures f != []
    ensures status !in Palette(kind) ==> f == Fallback
  {
    if status in Palette(kind) then Palette(kind)[status] else Fallback
  }

  /** Each palette colours exactly the declared statuses of its kind, so the
      grey fallback is drawn only for a status outside the enumeration. */
  lemma PalettesMatchStatuses(kind: EntityKind, status: String)
    ensures kind == Leads ==> (status in Palette(kind) <==> exists s: LeadStatus :: LeadStatusName(s) == status)
    ensures kind == Invoices ==> (status in Palette(kind) <==> exists s: InvoiceStatus :: InvoiceStatusName(s) == status)
    ensures kind == Deals ==> (status in Palette(kind) <==> exists s: DealStatus :: LeadStatusName(s) == status)
    ensures status in Palette(kind) ==> Fill(kind, status) != Fallback && Fill(kind, status) != []
  {
    if status == "Proposal" {
      assert LeadStatusName(Proposal) == status;
    } else if status == "New" {
      assert LeadStatusName(New) == status;
    } else if status == "Demo" {
      assert LeadStatusName(Demo) == status;
    } else if status == "Discussion" {
      assert LeadStatusName(Discussion) == status;
    } else if status == "Decided" {
      assert LeadStatusName(Decided) == status;
    } else if status == "Pending" {
      assert InvoiceStatusName(Pending) == status;
    } else if status == "Unpaid" {
      assert InvoiceStatusName(Unpaid) == status;
    } else if status == "Paid" {
      assert InvoiceStatusName(Paid) == status;
    }
  }

  /** The shape guard `!result || !Array.isArray(result.data)`: only an
      object whose `data` is an array gets through. Unlike the task page, a
      bare array is refused. */
  function FetchedData(o: Outcome<Entity>): (r: Option<seq<Entity>>)
    ensures r.Some? ==> o == Received(Object(Some(Array(r.value))))
    ensures r.None? ==> forall es :: o != Received(Object(Some(Array(es))))
  {
    if o.Received? && o.body.Object? && o.body.data.Some? && o.body.data.value.Array? then
      Some(o.body.data.value.elements)
    else
      None
  }

  /** One slice of a chart: the status, its bucket's size and its colour. */
  datatype ChartRow = ChartRow(browser: String, visitors: nat, fill: String)

  /** `Object.entries(categorized).map(...)`: one row per key, in key order. */
  function ChartRows(kind: EntityKind, g: Grouping): (rows: seq<ChartRow>)
    requires forall k :: k in g.order ==> k in g.buckets
    ensures |rows| == |g.order|
    ensures forall i :: 0 <= i < |rows| ==>
              && rows[i].browser == g.order[i]
              && rows[i].visitors == |g.buckets[rows[i].browser]|
              && rows[i].fill != []
  {
    seq(|g.order|, i requires 0 <= i < |g.order| =>
      ChartRow(g.order[i], |g.buckets[g.order[i]]|, Fill(kind, g.order[i])))
  }

  /** The total the chart shows, summed over its rows. */
  function TotalVisitors(rows: seq<ChartRow>): nat
  {
    if rows == [] then 0 else TotalVisitors(rows[..|rows| - 1]) + rows[|rows| - 1].visitors
  }

  lemma {:induction false} VisitorsCountFlattened(kind: EntityKind, order: seq<String>, buckets: map<String, seq<Entity>>)
    requires forall k :: k in order ==> k in buckets
    ensures TotalVisitors(ChartRows(kind, Grouping(order, buckets))) == |Flatten(order, buckets)|
  {
    if order != [] {
      var init := order[..|order| - 1];
      VisitorsCountFlattened(kind, init, buckets);
      var rows := ChartRows(kind, Grouping(order, buckets));
      assert rows[..|rows| - 1] == ChartRows(kind, Grouping(init, buckets));
    }
  }

  /** The chart of a categorised list has one row per distinct status, in
      first-appearance order, each counting the entities with that status
      (never zero) and coloured from the palette or grey. */
  lemma ChartRowsPerStatus(kind: EntityKind, s: seq<Entity>)
    ensures WellFormed(GroupingOf(s))
    ensures var rows := ChartRows(kind, GroupingOf(s));
            && |rows| == |GroupingOf(s).order|
            && (forall i :: 0 <= i < |rows| ==>
                  && rows[i].browser == GroupingOf(s).order[i]
                  && rows[i].visitors == |Bucket(s, rows[i].browser)| > 0
                  && rows[i].fill == (if rows[i].browser in Palette(kind) then Palette(kind)[rows[i].browser] else "#ccc"))
            && (forall i, j :: 0 <= i < j < |rows| ==> rows[i].browser != rows[j].browser)
  {
    var g := GroupingOf(s);
    GroupingWellFormed(s);
    StatusesInOrderSpec(s);
    var rows := ChartRows(kind, g);
    forall i | 0 <= i < |rows| ensures |Bucket(s, g.order[i])| > 0 {
      assert g.order[i] in StatusesInOrder(s);
      var e :| e in s && e.status == g.order[i];
      FilterMembership(s, HasStatus(e.status), e);
    }
  }

  /** Every status of the input has its row, and the rows together count
      every entity exactly once. */
  lemma ChartCoversInput(kind: EntityKind, s: seq<Entity>)
    ensures var rows := ChartRows(kind, GroupingOf(s));
            && (forall e :: e in s ==> exists i :: 0 <= i < |rows| && rows[i].browser == e.status)
            && TotalVisitors(rows) == |s|
  {
    var g := GroupingOf(s);
    StatusesInOrderSpec(s);
    var rows := ChartRows(kind, g);
    forall e | e in s ensures exists i :: 0 <= i < |rows| && rows[i].browser == e.status {
      assert e.status in StatusesInOrder(s);
      var i :| 0 <= i < |g.order| && g.order[i] == e.status;
      assert rows[i].browser == e.status;
    }
    FlattenIsPermutation(s);
    VisitorsCountFlattened(kind, g.order, g.buckets);
    assert |Flatten(g.order, g.buckets)| == |multiset(Flatten(g.order, g.buckets))| == |multiset(s)| == |s|;
  }

  /** Before any fetch, and after fetching an empty list, every chart is empty. */
  lemma EmptyChart(kind: EntityKind)
    ensures ChartRows(kind, GroupingOf([])) == []
    ensures FetchedData(Received(Object(Some(Array([]))))) == Some([])
  {
    GroupingOfEmpty();
  }

  /** The page's state: the three categorised objects. Each is paired with a
      ghost record of the list it was last categorised from. */
  class DashboardPage {
    var categorizedLeads: Grouping
    var categorizedInvoices: Grouping
    var categorizedDeals: Grouping
    ghost var fetchedLeads: seq<Entity>
    ghost var fetchedInvoices: seq<Entity>
    ghost var fetchedDeals: seq<Entity>

    function Categorized(kind: EntityKind): Grouping
      reads this
    {
      match kind
      case Leads => categorizedLeads
      case Invoices => categorizedInvoices
      case Deals => categorizedDeals
    }

    /** The last list of that kind the guard let through (empty before any). */
    ghost function Fetched(kind: EntityKind): seq<Entity>
      reads this
    {
      match kind
      case Leads => fetchedLeads
      case Invoices => fetchedInvoices
      case Deals => fetchedDeals
    }

    /** Every categorised object is the categorisation of its fetched list. */
    ghost predicate Valid()
      reads this
    {
      && categorizedLeads == GroupingOf(fetchedLeads)
      && categorizedInvoices == GroupingOf(fetchedInvoices)
      && categorizedDeals == GroupingOf(fetchedDeals)
    }

    lemma CategorizedFromFetched(kind: EntityKind)
      requires Valid()
      ensures Categorized(kind) == GroupingOf(Fetched(kind))
    {
    }

    /** All three objects start empty. */
    constructor ()
      ensures Valid()
      ensures forall kind :: Categorized(kind) == Empty && Fetched(kind) == []
    {
      GroupingOfEmpty();
      categorizedLeads := Empty;
      categorizedInvoices := Empty;
      categorizedDeals := Empty;
      fetchedLeads := [];
      fetchedInvoices := [];
      fetchedDeals := [];
    }

    /** A fetch of one kind completes: a well-shaped answer replaces that
        kind's object with the categorised list, anything else leaves it as
        it was, and the other kinds are untouched. */
    method OnFetched(kind: EntityKind, o: Outcome<Entity>)
      requires Valid()
      modifies this
      ensures Valid()
      ensures FetchedData(o).Some? ==>
                Fetched(kind) == FetchedData(o).value && Categorized(kind) == GroupingOf(FetchedData(o).value)
      ensures FetchedData(o).None? ==>
                Fetched(kind) == old(Fetched(kind)) && Categorized(kind) == old(Categorized(kind))
      ensures forall other :: other != kind ==>
                Fetched(other) == old(Fetched(other)) && Categorized(other) == old(Categorized(other))
    {
      var data := FetchedData(o);
      if data.Some? {
        var g := Categorize(data.value);
        match kind
        case Leads =>
          categorizedLeads := g;
          fetchedLeads := data.value;
        case Invoices =>
          categorizedInvoices := g;
          fetchedInvoices := data.value;
        case Deals =>
          categorizedDeals := g;
          fetchedDeals := data.value;
      }
    }

    /** `dynamicChartData`, `dynamicChartDataInvoice`, `dynamicChartDataDeal`:
        one row per status of the last accepted list, in first-appearance
        order, each counting that status's entities (never zero) and coloured
        from the kind's palette or grey; every status of the list has its
        row, and the rows together count the whole list. */
    function ChartData(kind: EntityKind): (rows: seq<ChartRow>)
      reads this
      requires Valid()
      ensures |rows| == |Categorized(kind).order|
      ensures forall i :: 0 <= i < |rows| ==>
                && rows[i].browser == Categorized(kind).order[i]
                && rows[i].visitors == |Bucket(Fetched(kind), rows[i].browser)| > 0
                && rows[i].fill == (if rows[i].browser in Palette(kind) then Palette(kind)[rows[i].browser] else "#ccc")
      ensures forall i, j :: 0 <= i < j < |rows| ==> rows[i].browser != rows[j].browser
      ensures forall e :: e in Fetched(kind) ==> exists i :: 0 <= i < |rows| && rows[i].browser == e.status
      ensures TotalVisitors(rows) == |Fetched(kind)|
    {
      var s := Fetched(kind);
      CategorizedFromFetched(kind);
      ChartRowsPerStatus(kind, s);
      ChartCoversInput(kind, s);
      ChartRows(kind, Categorized(kind))
    }
  }
}
