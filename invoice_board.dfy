/** The invoice status board: one column per key of `statusColors`, each
    showing its bucket of `groupedInvoices` (an absent bucket reads as empty),
    the bucket's size and total amount, a placeholder when it is empty, and a
    dashed border while something is dragged over it. */
module InvoiceBoard {
  import opened Common
  import opened Text
  import opened DashboardTypes

  /** The fields of an invoice the board reads. */
  datatype Invoice = Invoice(id: String, companyName: String, productName: String,
                             date: String, amount: int, status: InvoiceStatus)

  const ColumnStyle: String := "bg-purple-300 text-gray-800 border-2 border-purple-900 shadow-lg shadow-purple-900/50"

  /** `statusColors` as its entries in insertion order. */
  const StatusColors: seq<(String, String)> :=
    [("Pending", ColumnStyle), ("Unpaid", ColumnStyle), ("Paid", ColumnStyle)]

  /** `Object.keys(statusColors)`. */
  function Columns(): (r: seq<String>)
    ensures |r| == 3
    ensures forall s: InvoiceStatus :: InvoiceStatusName(s) in r
  {
    var r := seq(|StatusColors|, i requires 0 <= i < |StatusColors| => StatusColors[i].0);
    assert r == ["Pending", "Unpaid", "Paid"];
    r
  }

  /** The columns are the invoice statuses, each once, in declaration order. */
  lemma ColumnsAreInvoiceStatuses()
    ensures Columns() == [InvoiceStatusName(Pending), InvoiceStatusName(Unpaid), InvoiceStatusName(Paid)]
    ensures forall s: InvoiceStatus :: InvoiceStatusName(s) in Columns()
    ensures forall i, j :: 0 <= i < j < |Columns()| ==> Columns()[i] != Columns()[j]
  {
    assert Columns() == ["Pending", "Unpaid", "Paid"];
  }

  /** `groupedInvoices[status] || []`. */
  function BucketOf(grouped: map<String, seq<Invoice>>, status: String): (r: seq<Invoice>)
    ensures status !in grouped ==> r == []
    ensures r != [] ==> status in grouped && r == grouped[status]
  {
    if status in grouped then grouped[status] else []
  }

  predicate NoNegativeAmount(invoices: seq<Invoice>)
  {
    forall i :: 0 <= i < |invoices| ==> invoices[i].amount >= 0
  }

  predicate EachAmountAtMost(invoices: seq<Invoice>, bound: int)
  {
    forall i :: 0 <= i < |invoices| ==> invoices[i].amount <= bound
  }

  /** `reduce((sum, invoice) => sum + invoice.amount, 0)`, a left fold. With
      no negative amount, no single card exceeds the total. */
  function TotalAmount(invoices: seq<Invoice>): (t: int)
    ensures NoNegativeAmount(invoices) ==> EachAmountAtMost(invoices, t)
  {
    if invoices == [] then 0
    else TotalAmount(invoices[..|invoices| - 1]) + invoices[|invoices| - 1].amount
  }

  /** The total of a concatenation is the sum of the totals. */
  lemma {:induction false} TotalAppend(a: seq<Invoice>, b: seq<Invoice>)
    ensures TotalAmount(a + b) == TotalAmount(a) + TotalAmount(b)
  {
    if b != [] {
      var b' := b[..|b| - 1];
      TotalAppend(a, b');
      assert (a + b)[..|a + b| - 1] == a + b';
    } else {
      assert a + b == a;
    }
  }

  lemma RemoveOneMultiset(b: seq<Invoice>, k: nat)
    requires k < |b|
    ensures multiset(b[..k] + b[k + 1..]) == multiset(b) - multiset{b[k]}
  {
    var x, p, q := b[k], b[..k], b[k + 1..];
    assert b == (p + [x]) + q;
    assert multiset(b) == multiset(p) + multiset{x} + multiset(q);
  }

  /** Taking one card out of a column takes its amount out of the total. */
  lemma RemoveOne(b: seq<Invoice>, k: nat)
    requires k < |b|
    ensures TotalAmount(b) == TotalAmount(b[..k] + b[k + 1..]) + b[k].amount
  {
    SplitAt(b, k);
    TotalSplit(b[..k], b[k], b[k + 1..]);
  }

  lemma SplitAt(b: seq<Invoice>, k: nat)
    requires k < |b|
    ensures b == (b[..k] + [b[k]]) + b[k + 1..]
  {
  }

  lemma TotalSplit(p: seq<Invoice>, x: Invoice, q: seq<Invoice>)
    ensures TotalAmount((p + [x]) + q) == TotalAmount(p + q) + x.amount
  {
    TotalAppend(p + [x], q);
    TotalSingleton(p, x);
    TotalAppend(p, q);
  }

  lemma TotalSingleton(p: seq<Invoice>, x: Invoice)
    ensures TotalAmount(p + [x]) == TotalAmount(p) + x.amount
  {
    assert (p + [x])[..|p|] == p;
  }

  /** The total does not depend on the order of the cards. */
  lemma {:induction false} TotalPermutation(a: seq<Invoice>, b: seq<Invoice>)
    requires multiset(a) == multiset(b)
    ensures TotalAmount(a) == TotalAmount(b)
    decreases |a|
  {
    if a != [] {
      var a' := a[..|a| - 1];
      var x := a[|a| - 1];
      assert a == a' + [x];
      assert multiset(a') == multiset(a) - multiset{x};
      assert x in multiset(b);
      var k :| 0 <= k < |b| && b[k] == x;
      RemoveOneMultiset(b, k);
      RemoveOne(b, k);
      TotalPermutation(a', b[..k] + b[k + 1..]);
    } else {
      assert |b| == |multiset(b)| == 0;
    }
  }

  /** With no negative amount the total is not negative, and it is zero for
      an empty column. */
  lemma {:induction false} TotalNonNegative(invoices: seq<Invoice>)
    requires forall i :: 0 <= i < |invoices| ==> invoices[i].amount >= 0
    ensures TotalAmount(invoices) >= 0
    ensures invoices == [] ==> TotalAmount(invoices) == 0
  {
    if invoices != [] {
      TotalNonNegative(invoices[..|invoices| - 1]);
    }
  }

  /** One column of the board as rendered. */
  datatype ColumnView = ColumnView(
    status: String,
    style: String,
    cards: seq<Invoice>,
    count: nat,
    totalAmount: int,
    placeholder: bool,
    highlighted: bool)

  function ColumnOf(grouped: map<String, seq<Invoice>>, draggedOver: Option<String>, entry: (String, String)): (c: ColumnView)
    ensures c.status == entry.0 && c.count == |c.cards| && c.totalAmount == TotalAmount(c.cards)
    ensures entry.0 in grouped ==> c.cards == grouped[entry.0]
    ensures c.placeholder <==> c.cards == []
    ensures c.highlighted <==> draggedOver == Some(c.status)
  {
    var bucket := BucketOf(grouped, entry.0);
    ColumnView(entry.0, entry.1, bucket, |bucket|, TotalAmount(bucket), |bucket| == 0, draggedOver == Some(entry.0))
  }

  /** The board: one column per entry of `statusColors`, in order. */
  function Board(grouped: map<String, seq<Invoice>>, draggedOver: Option<String>): (b: seq<ColumnView>)
    ensures |b| == |Columns()|
    ensures forall i :: 0 <= i < |b| ==> b[i].status == Columns()[i]
  {
    seq(|StatusColors|, i requires 0 <= i < |StatusColors| => ColumnOf(grouped, draggedOver, StatusColors[i]))
  }

  /** Each column shows its own bucket, or nothing when the bucket is absent;
      its count is the number of cards, its total their summed amounts, its
      placeholder appears exactly when it has no cards, and it is
      highlighted exactly when it is the column dragged over. */
  lemma BoardSpec(grouped: map<String, seq<Invoice>>, draggedOver: Option<String>)
    ensures var board := Board(grouped, draggedOver);
            && |board| == 3
            && (forall i :: 0 <= i < 3 ==> board[i].status == Columns()[i])
            && (forall i :: 0 <= i < 3 ==>
                  && (board[i].status in grouped ==> board[i].cards == grouped[board[i].status])
                  && (board[i].status !in grouped ==> board[i].cards == [] && board[i].totalAmount == 0)
                  && board[i].count == |board[i].cards|
                  && board[i].totalAmount == TotalAmount(board[i].cards)
                  && (board[i].placeholder <==> board[i].cards == [])
                  && (board[i].highlighted <==> draggedOver == Some(board[i].status)))
  {
  }

  /** At most one column is highlighted: the one dragged over, if it is a
      column; none when nothing is dragged over. */
  lemma AtMostOneHighlighted(grouped: map<String, seq<Invoice>>, draggedOver: Option<String>)
    ensures var board := Board(grouped, draggedOver);
            && (forall i, j :: 0 <= i < |board| && 0 <= j < |board| && board[i].highlighted && board[j].highlighted ==> i == j)
            && (draggedOver == None ==> forall i :: 0 <= i < |board| ==> !board[i].highlighted)
            && (draggedOver.Some? && draggedOver.value in Columns() ==>
                  exists i :: 0 <= i < |board| && board[i].highlighted)
  {
    ColumnsAreInvoiceStatuses();
    var board := Board(grouped, draggedOver);
    if draggedOver.Some? && draggedOver.value in Columns() {
      var i :| 0 <= i < |Columns()| && Columns()[i] == draggedOver.value;
      assert board[i].highlighted;
    }
  }

  /** The board as first rendered: three empty columns with placeholders,
      zero counts and zero totals, none highlighted. */
  lemma InitialBoard()
    ensures forall c :: c in Board(map[], None) ==>
              c.cards == [] && c.count == 0 && c.totalAmount == 0 && c.placeholder && !c.highlighted
  {
  }

  /** The page's state. Nothing in the page fills `groupedInvoices` or sets
      `error`; only the drag handlers change anything. */
  class InvoiceBoardPage {
    var error: String
    var draggedOver: Option<String>
    var groupedInvoices: map<String, seq<Invoice>>

    constructor ()
      ensures error == [] && draggedOver == None && groupedInvoices == map[]
    {
      error := [];
      draggedOver := None;
      groupedInvoices := map[];
    }

    function View(): seq<ColumnView>
      reads this
    {
      Board(groupedInvoices, draggedOver)
    }

    /** A column's `onDragOver`: that column, and only it, becomes the
        highlighted one. */
    method DragOver(status: String)
      requires status in Columns()
      modifies this`draggedOver
      ensures draggedOver == Some(status)
      ensures forall c :: c in View() ==> (c.highlighted <==> c.status == status)
    {
      draggedOver := Some(status);
    }

    /** A column's `onDragLeave`: no column is highlighted. */
    method DragLeave()
      modifies this`draggedOver
      ensures draggedOver == None
      ensures forall c :: c in View() ==> !c.highlighted
    {
      draggedOver := None;
    }
  }
}
