/** The validation schema of the add and edit task forms: four text fields of
    at least two UTF-16 code units (the unit JavaScript's `length` counts),
    two free dates, two enumerations and a flag. Every failing rule is
    reported, in the schema's field order. */
module TaskForm {
  import opened Common
  import opened Text
  import opened Seqs
  import opened TaskModel

  /** The raw values the form submits. */
  datatype FormValues = FormValues(
    subject: String,
    relatedTo: String,
    name: String,
    assignedTo: String,
    taskDate: String,
    dueDate: String,
    status: String,
    priority: String,
    isActive: bool)

  /** The values after a successful validation. */
  datatype TaskDraft = TaskDraft(
    subject: String,
    relatedTo: String,
    name: String,
    assignedTo: String,
    taskDate: String,
    dueDate: String,
    status: TaskStatus,
    priority: Priority,
    isActive: bool)

  datatype Field = SubjectField | RelatedToField | NameField | AssignedField | StatusField | PriorityField

  datatype Issue = TooShort(field: Field, message: String) | NotInEnum(field: Field)

  /** Whether the rule on `field` rejects the values. */
  predicate Fails(v: FormValues, field: Field)
  {
    match field
    case SubjectField => Utf16Length(v.subject) < 2
    case RelatedToField => Utf16Length(v.relatedTo) < 2
    case NameField => Utf16Length(v.name) < 2
    case AssignedField => Utf16Length(v.assignedTo) < 2
    case StatusField => ParseStatus(v.status).None?
    case PriorityField => ParsePriority(v.priority).None?
  }

  /** `.min(2)` counts UTF-16 code units: a one-character text field passes
      exactly when its character lies outside the Basic Multilingual Plane
      (an emoji, say), and two characters always pass. */
  lemma MinLengthCountsCodeUnits(v: FormValues)
    ensures |v.subject| == 1 ==> (Fails(v, SubjectField) <==> v.subject[0] as int < 0x1_0000)
    ensures |v.subject| >= 2 ==> !Fails(v, SubjectField)
  {
    if |v.subject| == 1 {
      assert v.subject[..0] == [];
    }
  }

  /** The schema's fields in declaration order. */
  const SchemaOrder: seq<Field> := [SubjectField, RelatedToField, NameField, AssignedField, StatusField, PriorityField]

  /** The issue the rule on `field` reports. */
  function IssueFor(field: Field): (issue: Issue)
    ensures issue.field == field
  {
    match field
    case SubjectField => TooShort(SubjectField, "Subject is required.")
    case RelatedToField => TooShort(RelatedToField, "Related to is required.")
    case NameField => TooShort(NameField, "Name is required.")
    case AssignedField => TooShort(AssignedField, "Assigned is required.")
    case StatusField => NotInEnum(StatusField)
    case PriorityField => NotInEnum(PriorityField)
  }

  function FailsIn(v: FormValues): Field -> bool
  {
    (f: Field) => Fails(v, f)
  }

  /** The fields whose rule fails, in schema order. */
  function FailingFields(v: FormValues): seq<Field>
  {
    Filter(SchemaOrder, FailsIn(v))
  }

  /** One issue per failing field, in schema order. */
  function Issues(v: FormValues): (issues: seq<Issue>)
    ensures |issues| == |FailingFields(v)|
    ensures forall i :: 0 <= i < |issues| ==> issues[i].field == FailingFields(v)[i]
  {
    var fields := FailingFields(v);
    seq(|fields|, i requires 0 <= i < |fields| => IssueFor(fields[i]))
  }

  /** The issues name exactly the fields whose rule fails, each once, in
      schema order. */
  lemma IssuesNameFailingFields(v: FormValues)
    ensures forall f :: multiset(FailingFields(v))[f] == if Fails(v, f) then 1 else 0
    ensures SubseqOf(FailingFields(v), SchemaOrder)
    ensures Issues(v) == [] <==> forall f :: !Fails(v, f)
  {
    FilterKeeps(SchemaOrder, FailsIn(v));
    var fields := FailingFields(v);
    forall f ensures multiset(SchemaOrder)[f] == 1 {
      match f
      case SubjectField =>
      case RelatedToField =>
      case NameField =>
      case AssignedField =>
      case StatusField =>
      case PriorityField =>
    }
    if fields != [] {
      assert fields[0] in multiset(fields);
    }
    forall f | Fails(v, f) ensures fields != [] {
      assert multiset(fields)[f] == 1;
    }
  }

  /** `formSchema.safeParse`: accepted exactly when no rule fails, and then
      the text fields pass through unchanged and the enumerations are the
      values the strings spell. */
  function Validate(v: FormValues): (r: Result<TaskDraft, seq<Issue>>)
    ensures r.Success? <==> forall f :: !Fails(v, f)
    ensures r.Success? ==>
              && r.value.subject == v.subject && r.value.relatedTo == v.relatedTo
              && r.value.name == v.name && r.value.assignedTo == v.assignedTo
              && r.value.taskDate == v.taskDate && r.value.dueDate == v.dueDate
              && StatusName(r.value.status) == v.status
              && PriorityName(r.value.priority) == v.priority
              && r.value.isActive == v.isActive
    ensures r.Failure? ==> r.error == Issues(v) && r.error != []
  {
    IssuesNameFailingFields(v);
    var issues := Issues(v);
    if issues == [] then
      assert !Fails(v, StatusField) && !Fails(v, PriorityField);
      Success(TaskDraft(v.subject, v.relatedTo, v.name, v.assignedTo, v.taskDate, v.dueDate,
                        ParseStatus(v.status).value, ParsePriority(v.priority).value, v.isActive))
    else
      FilterMembership(SchemaOrder, FailsIn(v), issues[0].field);
      Failure(issues)
  }

  /** The form values that show a draft. */
  function FormOf(d: TaskDraft): FormValues
  {
    FormValues(d.subject, d.relatedTo, d.name, d.assignedTo, d.taskDate, d.dueDate,
               StatusName(d.status), PriorityName(d.priority), d.isActive)
  }

  /** Validation and `FormOf` are inverse: a draft with long enough text
      fields validates back to itself, and accepted values are exactly the
      form of their draft. */
  lemma ValidateRoundTrip(d: TaskDraft, v: FormValues)
    requires Utf16Length(d.subject) >= 2 && Utf16Length(d.relatedTo) >= 2
    requires Utf16Length(d.name) >= 2 && Utf16Length(d.assignedTo) >= 2
    ensures Validate(FormOf(d)) == Success(d)
    ensures Validate(v).Success? ==> FormOf(Validate(v).value) == v
  {
    NamesRoundTrip(d.status, d.priority);
    var r := Validate(FormOf(d));
    assert forall f :: !Fails(FormOf(d), f);
  }

  lemma DefaultFailingFields(v: FormValues)
    requires v.subject == v.relatedTo == v.name == v.assignedTo == []
    requires v.status == "Pending" && v.priority == "Medium"
    ensures FailingFields(v) == [SubjectField, RelatedToField, NameField, AssignedField]
  {
    var p := FailsIn(v);
    var text := [SubjectField, RelatedToField, NameField, AssignedField];
    var enums := [StatusField, PriorityField];
    assert SchemaOrder == text + enums;
    assert !p(StatusField) && !p(PriorityField);
    assert Filter(enums, p) == [] by {
      assert enums[1..] == [PriorityField];
    }
    assert forall i :: 0 <= i < |text| ==> p(text[i]);
    FilterAllPass(text, p);
    FilterAppend(text, enums, p);
  }

  /** The form's initial values, with empty text fields, are rejected with
      one message per text field, in schema order. */
  lemma DefaultValuesRejected(v: FormValues)
    requires v.subject == v.relatedTo == v.name == v.assignedTo == []
    requires v.status == "Pending" && v.priority == "Medium"
    ensures Validate(v).Failure?
    ensures Validate(v).error == [TooShort(SubjectField, "Subject is required."),
                                  TooShort(RelatedToField, "Related to is required."),
                                  TooShort(NameField, "Name is required."),
                                  TooShort(AssignedField, "Assigned is required.")]
  {
    DefaultIssues(v);
    assert Fails(v, SubjectField) by {
      assert Utf16Length(v.subject) == 0;
    }
  }

  lemma DefaultIssues(v: FormValues)
    requires v.subject == v.relatedTo == v.name == v.assignedTo == []
    requires v.status == "Pending" && v.priority == "Medium"
    ensures Issues(v) == [IssueFor(SubjectField), IssueFor(RelatedToField), IssueFor(NameField), IssueFor(AssignedField)]
  {
    DefaultFailingFields(v);
  }
}
