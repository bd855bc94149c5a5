/**
 The task record and the rules its schema enforces when a task is built:
 required fields, the two enumerations, and the defaults. Building a task is
 a validating constructor: it either yields the stored record or reports
 every field that failed, one error per field, the required check taking
 precedence over the enumeration check as in the schema's validator order.
 */
module TaskSchema {
  import opened Wrappers
  import JsDate

  /** A stored document identifier; its textual format belongs to the database driver. */
  datatype ObjectId = ObjectId(hex: string)

  datatype Priority = High | Moderate | Low

  datatype Category = Backlog | ToDo | InProgress | Done

  const PriorityLabels: seq<string> := ["high", "moderate", "low"]

  const CategoryLabels: seq<string> := ["backlog", "to-do", "in-progress", "done"]

  function PriorityLabel(p: Priority): (s: string)
    ensures s in PriorityLabels
  {
    match p
    case High => "high"
    case Moderate => "moderate"
    case Low => "low"
  }

  function CategoryLabel(c: Category): (s: string)
    ensures s in CategoryLabels
  {
    match c
    case Backlog => "backlog"
    case ToDo => "to-do"
    case InProgress => "in-progress"
    case Done => "done"
  }

  /** The enumeration check on `priority`: exactly the three labels are accepted. */
  function ParsePriority(s: string): (r: Option<Priority>)
    ensures r.Some? <==> s in PriorityLabels
    ensures r.Some? ==> PriorityLabel(r.value) == s
  {
    if s == "high" then Some(High)
    else if s == "moderate" then Some(Moderate)
    else if s == "low" then Some(Low)
    else None
  }

  /** The enumeration check on `category`: exactly the four labels are accepted. */
  function ParseCategory(s: string): (r: Option<Category>)
    ensures r.Some? <==> s in CategoryLabels
    ensures r.Some? ==> CategoryLabel(r.value) == s
  {
    if s == "backlog" then Some(Backlog)
    else if s == "to-do" then Some(ToDo)
    else if s == "in-progress" then Some(InProgress)
    else if s == "done" then Some(Done)
    else None
  }

  lemma LabelsRoundTrip(p: Priority, c: Category)
    ensures ParsePriority(PriorityLabel(p)) == Some(p)
    ensures ParseCategory(CategoryLabel(c)) == Some(c)
  {
  }

  /** A stored checklist entry. */
  datatype ChecklistItem = ChecklistItem(content: Option<string>, completed: bool)

  /** A stored task; `member == None` is the schema's null, `assignee == None` an unset field. */
  datatype Task = Task(
    title: string,
    priority: Priority,
    assignee: Option<ObjectId>,
    member: Option<ObjectId>,
    owner: ObjectId,
    createdAt: JsDate.DateTime,
    checklist: seq<ChecklistItem>,
    category: Category,
    duedate: Option<JsDate.DateTime>)

  /** A checklist entry as supplied; absent fields are `None`. */
  datatype ChecklistFields = ChecklistFields(content: Option<string>, completed: Option<bool>)

  /** The fields supplied when a task document is created; absent fields are `None`. */
  datatype TaskFields = TaskFields(
    title: Option<string>,
    priority: Option<string>,
    assignee: Option<ObjectId>,
    member: Option<ObjectId>,
    owner: Option<ObjectId>,
    createdAt: Option<JsDate.DateTime>,
    checklist: seq<ChecklistFields>,
    category: Option<string>,
    duedate: Option<JsDate.DateTime>)

  /** A schema violation on one path. */
  datatype FieldError = Required(path: string) | NotInEnum(path: string, value: string)

  /** A required string is missing when absent or empty. */
  predicate MissingString(v: Option<string>) {
    v.None? || v.value == ""
  }

  /** The error, if any, on each validated path. */
  function TitleErrors(f: TaskFields): set<FieldError> {
    if MissingString(f.title) then {Required("title")} else {}
  }

  function PriorityErrors(f: TaskFields): set<FieldError> {
    if MissingString(f.priority) then {Required("priority")}
    else if ParsePriority(f.priority.value).None? then {NotInEnum("priority", f.priority.value)}
    else {}
  }

  function OwnerErrors(f: TaskFields): set<FieldError> {
    if f.owner.None? then {Required("owner")} else {}
  }

  function CategoryErrors(f: TaskFields): set<FieldError> {
    if f.category.Some? && ParseCategory(f.category.value).None?
    then {NotInEnum("category", f.category.value)}
    else {}
  }

  function ValidationErrors(f: TaskFields): set<FieldError> {
    TitleErrors(f) + PriorityErrors(f) + OwnerErrors(f) + CategoryErrors(f)
  }

  /** `completed` defaults to false. */
  function MakeChecklistItem(f: ChecklistFields): (item: ChecklistItem)
    ensures item.content == f.content
    ensures item.completed <==> f.completed == Some(true)
  {
    ChecklistItem(f.content, f.completed.GetOr(false))
  }

  /** Every entry of a task's checklist built with its default applied, in order. */
  function MakeChecklist(fs: seq<ChecklistFields>): (items: seq<ChecklistItem>)
    ensures |items| == |fs|
    ensures forall i :: 0 <= i < |fs| ==> items[i] == MakeChecklistItem(fs[i])
  {
    if |fs| == 0 then [] else [MakeChecklistItem(fs[0])] + MakeChecklist(fs[1..])
  }

  /** What every task the schema accepts satisfies. */
  predicate WellFormed(t: Task) {
    t.title != ""
  }

  /**
   Building a task document at instant `now`: accepted exactly when no path
   fails; the defaults are `to-do` for the category, null for the member,
   `now` for the creation time and false for each entry's `completed`.
   */
  function MakeTask(f: TaskFields, now: JsDate.DateTime): (r: Result<Task, set<FieldError>>)
    ensures r.Ok? <==>
              && !MissingString(f.title)
              && !MissingString(f.priority) && f.priority.value in PriorityLabels
              && f.owner.Some?
              && (f.category.None? || f.category.value in CategoryLabels)
    ensures r.Err? ==> r.error != {}
    ensures r.Err? ==> (Required("title") in r.error <==> MissingString(f.title))
    ensures r.Err? ==> (Required("priority") in r.error <==> MissingString(f.priority))
    ensures r.Err? ==> (Required("owner") in r.error <==> f.owner.None?)
    ensures r.Err? ==> forall p :: Required(p) in r.error ==> p == "title" || p == "priority" || p == "owner"
    ensures r.Err? ==> forall p, v :: NotInEnum(p, v) in r.error <==>
              || (p == "priority" && !MissingString(f.priority) && f.priority == Some(v) && v !in PriorityLabels)
              || (p == "category" && f.category == Some(v) && v !in CategoryLabels)
    ensures r.Ok? ==> var t := r.value;
              && WellFormed(t)
              && Some(t.title) == f.title
              && Some(PriorityLabel(t.priority)) == f.priority
              && Some(t.owner) == f.owner
              && t.assignee == f.assignee
              && t.member == f.member
              && t.duedate == f.duedate
              && CategoryLabel(t.category) == f.category.GetOr("to-do")
              && t.createdAt == f.createdAt.GetOr(now)
              && |t.checklist| == |f.checklist|
              && forall i :: 0 <= i < |f.checklist| ==>
                   && t.checklist[i].content == f.checklist[i].content
                   && (t.checklist[i].completed <==> f.checklist[i].completed == Some(true))
  {
    var errors := ValidationErrors(f);
    if errors != {} then Err(errors)
    else
      Ok(Task(
        title := f.title.value,
        priority := ParsePriority(f.priority.value).value,
        assignee := f.assignee,
        member := f.member,
        owner := f.owner.value,
        createdAt := f.createdAt.GetOr(now),
        checklist := MakeChecklist(f.checklist),
        category := if f.category.Some? then ParseCategory(f.category.value).value else ToDo,
        duedate := f.duedate))
  }

  /** The fields that describe a stored task completely. */
  function FieldsOf(t: Task): TaskFields {
    TaskFields(
      Some(t.title), Some(PriorityLabel(t.priority)), t.assignee, t.member, Some(t.owner),
      Some(t.createdAt), FieldsOfChecklist(t.checklist), Some(CategoryLabel(t.category)), t.duedate)
  }

  function FieldsOfChecklist(items: seq<ChecklistItem>): (fs: seq<ChecklistFields>)
    ensures |fs| == |items|
    ensures forall i :: 0 <= i < |items| ==>
              fs[i] == ChecklistFields(items[i].content, Some(items[i].completed))
  {
    if |items| == 0 then []
    else [ChecklistFields(items[0].content, Some(items[0].completed))] + FieldsOfChecklist(items[1..])
  }

  /** Every well-formed task is rebuilt unchanged from its own fields, whatever the clock says. */
  lemma MakeTaskFieldsOf(t: Task, now: JsDate.DateTime)
    requires WellFormed(t)
    ensures MakeTask(FieldsOf(t), now) == Ok(t)
  {
    var f := FieldsOf(t);
    LabelsRoundTrip(t.priority, t.category);
    var r := MakeTask(f, now);
    assert r.Ok?;
    assert r.value.checklist == t.checklist;
  }
}
