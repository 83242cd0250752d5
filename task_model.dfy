/** The task record the task page lists, with its two enumerations. */
module TaskModel {
  import opened Common
  import opened Text

  datatype TaskStatus = Pending | Resolved | InProgress

  datatype Priority = High | Medium | Low

  /** The wire spelling of a status. */
  function StatusName(s: TaskStatus): String
  {
    match s
    case Pending => "Pending"
    case Resolved => "Resolved"
    case InProgress => "In Progress"
  }

  function PriorityName(p: Priority): String
  {
    match p
    case High => "High"
    case Medium => "Medium"
    case Low => "Low"
  }

  /** Membership in the status enumeration: the spelling of exactly one
      status, or nothing. */
  function ParseStatus(s: String): (r: Option<TaskStatus>)
    ensures r.Some? ==> StatusName(r.value) == s
    ensures r.None? ==> forall st :: StatusName(st) != s
  {
    if s == "Pending" then Some(Pending)
    else if s == "Resolved" then Some(Resolved)
    else if s == "In Progress" then Some(InProgress)
    else None
  }

  function ParsePriority(s: String): (r: Option<Priority>)
    ensures r.Some? ==> PriorityName(r.value) == s
    ensures r.None? ==> forall p :: PriorityName(p) != s
  {
    if s == "High" then Some(High)
    else if s == "Medium" then Some(Medium)
    else if s == "Low" then Some(Low)
    else None
  }

  /** Parsing undoes spelling, so the spellings of distinct values differ. */
  lemma NamesRoundTrip(st: TaskStatus, p: Priority)
    ensures ParseStatus(StatusName(st)) == Some(st)
    ensures ParsePriority(PriorityName(p)) == Some(p)
  {
  }

  /** One task as the list endpoint returns it. A field the record lacks is
      represented by the empty string. */
  datatype Task = Task(
    id: String,
    subject: String,
    relatedTo: String,
    name: String,
    assignedTo: String,
    taskDate: String,
    dueDate: String,
    status: TaskStatus,
    priority: Priority,
    isActive: bool)
}
