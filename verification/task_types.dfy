/** The task vocabulary (lib/types.ts): statuses, priorities, task rows and dashboard filters. */
module TaskTypes {
  import opened Wrappers
  import opened Jwt

  datatype TaskStatus = Todo | InProgress | Completed
  datatype TaskPriority = Low | Medium | High

  /** The wire spelling of a status. */
  function StatusName(s: TaskStatus): string {
    match s
    case Todo => "TODO"
    case InProgress => "IN_PROGRESS"
    case Completed => "COMPLETED"
  }

  /** The wire spelling of a priority. */
  function PriorityName(p: TaskPriority): string {
    match p
    case Low => "low"
    case Medium => "medium"
    case High => "high"
  }

  /** Membership in `["TODO", "IN_PROGRESS", "COMPLETED"]`, with the status it names. */
  function ParseStatus(v: string): (r: Option<TaskStatus>)
    ensures r.Some? ==> StatusName(r.value) == v
    ensures r.None? ==> forall s :: StatusName(s) != v
  {
    if v == "TODO" then Some(Todo)
    else if v == "IN_PROGRESS" then Some(InProgress)
    else if v == "COMPLETED" then Some(Completed)
    else None
  }

  /** Membership in `["low", "medium", "high"]`, with the priority it names. */
  function ParsePriority(v: string): (r: Option<TaskPriority>)
    ensures r.Some? ==> PriorityName(r.value) == v
    ensures r.None? ==> forall p :: PriorityName(p) != v
  {
    if v == "low" then Some(Low)
    else if v == "medium" then Some(Medium)
    else if v == "high" then Some(High)
    else None
  }

  const StatusNames: seq<string> := ["TODO", "IN_PROGRESS", "COMPLETED"]
  const PriorityNames: seq<string> := ["low", "medium", "high"]

  /** The whitelists hold exactly the names of the enumerations. */
  lemma WhitelistsAreTheNames(v: string)
    ensures v in StatusNames <==> ParseStatus(v).Some?
    ensures v in PriorityNames <==> ParsePriority(v).Some?
  {
  }

  lemma StatusNamesRoundTrip(s: TaskStatus)
    ensures ParseStatus(StatusName(s)) == Some(s)
  {
  }

  lemma PriorityNamesRoundTrip(p: TaskPriority)
    ensures ParsePriority(PriorityName(p)) == Some(p)
  {
  }

  /** A task row. `dueDate` is kept as the text the client sent. */
  datatype Task = Task(
    id: nat,
    title: string,
    description: Option<string>,
    status: TaskStatus,
    priority: TaskPriority,
    dueDate: Option<string>,
    userId: UserId,
    createdAt: nat,
    updatedAt: nat)

  /** The columns the task routes `select`: everything but the owner. */
  datatype TaskView = TaskView(
    id: nat,
    title: string,
    description: Option<string>,
    status: TaskStatus,
    priority: TaskPriority,
    dueDate: Option<string>,
    createdAt: nat,
    updatedAt: nat)

  function View(t: Task): TaskView {
    TaskView(t.id, t.title, t.description, t.status, t.priority, t.dueDate, t.createdAt, t.updatedAt)
  }

  /** `TaskStatus | "ALL"`. */
  datatype StatusFilter = AllStatuses | OnlyStatus(status: TaskStatus)
  /** `TaskPriority | "ALL"`. */
  datatype PriorityFilter = AllPriorities | OnlyPriority(priority: TaskPriority)

  datatype SortKey = ByCreatedAt | ByDueDate | ByPriority
  datatype SortOrder = Asc | Desc

  function SortKeyName(k: SortKey): string {
    match k
    case ByCreatedAt => "createdAt"
    case ByDueDate => "dueDate"
    case ByPriority => "priority"
  }

  function SortOrderName(o: SortOrder): string {
    match o
    case Asc => "asc"
    case Desc => "desc"
  }

  /** The dashboard's `TaskFilters`; every field optional. */
  datatype TaskFilters = TaskFilters(
    status: Option<StatusFilter>,
    priority: Option<PriorityFilter>,
    search: Option<string>,
    sortBy: Option<SortKey>,
    sortOrder: Option<SortOrder>)

  const NoFilters := TaskFilters(None, None, None, None, None)
}
