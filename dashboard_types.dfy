/** The status enumerations the dashboard and the invoice board are keyed by.
    A deal moves through the lead pipeline except its `New` stage. */
module DashboardTypes {
  import opened Text

  datatype LeadStatus = Proposal | New | Demo | Discussion | Decided

  datatype InvoiceStatus = Pending | Unpaid | Paid

  /** Every lead status but `New`. */
  type DealStatus = s: LeadStatus | s != New witness Proposal

  function LeadStatusName(s: LeadStatus): String
  {
    match s
    case Proposal => "Proposal"
    case New => "New"
    case Demo => "Demo"
    case Discussion => "Discussion"
    case Decided => "Decided"
  }

  function InvoiceStatusName(s: InvoiceStatus): String
  {
    match s
    case Pending => "Pending"
    case Unpaid => "Unpaid"
    case Paid => "Paid"
  }
}
