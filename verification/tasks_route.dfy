/**
 * `GET` and `POST /api/tasks` (app/api/tasks/route.ts): both are gated on a valid access token;
 * the list builds a `where` clause scoped to the token's user and pages through the matches,
 * the create validates its input and inserts one row owned by the token's user.
 */
module TasksRoute {
  import opened Wrappers
  import opened Text
  import opened Jwt
  import opened AuthUtils
  import opened AuthState
  import opened TaskTypes

  /** The list query's `where` clause. */
  datatype Where = Where(userId: UserId, status: Option<TaskStatus>, priority: Option<TaskPriority>, titleContains: Option<string>)

  /** The list query's search parameters, with `page` and `limit` already parsed to integers. */
  datatype ListQuery = ListQuery(page: int, limit: int, status: Option<string>, priority: Option<string>, search: Option<string>)

  /** A row satisfies a `where` clause, the title test being case-insensitive. */
  predicate Matches(w: Where, t: Task) {
    && t.userId == w.userId
    && (w.status.Some? ==> t.status == w.status.value)
    && (w.priority.Some? ==> t.priority == w.priority.value)
    && (w.titleContains.Some? ==> ContainsInsensitive(t.title, w.titleContains.value))
  }

  /**
   * What a list request asks for, read off the query itself: the caller's own tasks, narrowed by
   * the status and the priority when they are whitelisted values, and by the search text when it
   * is non-empty. Any other status or priority is ignored.
   */
  predicate Requested(t: Task, userId: UserId, q: ListQuery) {
    && t.userId == userId
    && (!Missing(q.status) && ParseStatus(q.status.value).Some? ==> StatusName(t.status) == q.status.value)
    && (!Missing(q.priority) && ParsePriority(q.priority.value).Some? ==> PriorityName(t.priority) == q.priority.value)
    && (!Missing(q.search) ==> ContainsInsensitive(t.title, q.search.value))
  }

  /** The `where` clause, built one optional field at a time. */
  method BuildWhere(userId: UserId, q: ListQuery) returns (w: Where)
    ensures w.userId == userId
    ensures w.status.Some? <==> !Missing(q.status) && q.status.value in StatusNames
    ensures w.status.Some? ==> StatusName(w.status.value) == q.status.value
    ensures w.priority.Some? <==> !Missing(q.priority) && q.priority.value in PriorityNames
    ensures w.priority.Some? ==> PriorityName(w.priority.value) == q.priority.value
    ensures w.titleContains.Some? <==> !Missing(q.search)
    ensures w.titleContains.Some? ==> w.titleContains == q.search
    ensures forall t :: Matches(w, t) <==> Requested(t, userId, q)
  {
    w := Where(userId, None, None, None);
    if !Missing(q.status) && q.status.value in StatusNames {
      w := w.(status := ParseStatus(q.status.value));
    }
    if !Missing(q.priority) && q.priority.value in PriorityNames {
      w := w.(priority := ParsePriority(q.priority.value));
    }
    if !Missing(q.search) {
      w := w.(titleContains := q.search);
    }
  }

  /** The rows of `s` that `keep` accepts, in their order. */
  function Filter(s: seq<Task>, keep: Task -> bool): (r: seq<Task>)
    ensures |r| <= |s|
    ensures forall t :: t in r <==> t in s && keep(t)
  {
    if s == [] then [] else (if keep(s[0]) then [s[0]] else []) + Filter(s[1..], keep)
  }

  /** Filtering keeps every copy of a row that passes and drops every copy of one that fails. */
  lemma {:induction false} FilterCounts(s: seq<Task>, keep: Task -> bool)
    ensures forall t :: multiset(Filter(s, keep))[t] == if keep(t) then multiset(s)[t] else 0
  {
    if s != [] {
      assert s == [s[0]] + s[1..];
      FilterCounts(s[1..], keep);
    }
  }

  /** Filtering keeps store order: the kept rows of a front part come before those of the rest. */
  lemma {:induction false} FilterAppend(a: seq<Task>, b: seq<Task>, keep: Task -> bool)
    ensures Filter(a + b, keep) == Filter(a, keep) + Filter(b, keep)
  {
    if a == [] {
      assert a + b == b;
    } else {
      var head: seq<Task> := if keep(a[0]) then [a[0]] else [];
      assert (a + b)[0] == a[0] && (a + b)[1..] == a[1..] + b;
      FilterAppend(a[1..], b, keep);
      calc {
        Filter(a + b, keep);
        head + Filter(a[1..] + b, keep);
        head + (Filter(a[1..], keep) + Filter(b, keep));
        (head + Filter(a[1..], keep)) + Filter(b, keep);
        Filter(a, keep) + Filter(b, keep);
      }
    }
  }

  /** Filtering by two tests that agree on every row of `s` gives the same rows. */
  lemma {:induction false} FilterAgrees(s: seq<Task>, f: Task -> bool, g: Task -> bool)
    requires forall t :: t in s ==> f(t) == g(t)
    ensures Filter(s, f) == Filter(s, g)
  {
    if s != [] {
      FilterAgrees(s[1..], f, g);
    }
  }

  /** `findMany({ skip, take })` over rows already in result order. */
  function Window(s: seq<Task>, skip: nat, take: nat): (r: seq<Task>)
    ensures |r| <= take
    ensures skip >= |s| ==> r == []
    ensures skip < |s| ==> |r| == (if skip + take < |s| then take else |s| - skip) && r == s[skip..skip + |r|]
  {
    var from := if skip < |s| then skip else |s|;
    var to := if from + take < |s| then from + take else |s|;
    s[from..to]
  }

  function Views(s: seq<Task>): (r: seq<TaskView>)
    ensures |r| == |s| && forall i :: 0 <= i < |s| ==> r[i] == View(s[i])
  {
    seq(|s|, i requires 0 <= i < |s| => View(s[i]))
  }

  datatype Pagination = Pagination(page: int, limit: int, total: nat, totalPages: nat, hasMore: bool)

  /** `Math.ceil(total / limit)` for a positive limit: the fewest pages of `limit` rows that hold
      `total` rows. */
  function CeilDiv(total: nat, limit: nat): (q: nat)
    requires limit > 0
    ensures q * limit >= total
    ensures q == 0 || (q - 1) * limit < total
  {
    (total + limit - 1) / limit
  }

  /** `(page - 1) * limit`. */
  function Skip(page: int, limit: int): int {
    (page - 1) * limit
  }

  /** The pagination block of the list response. */
  function Paginate(page: int, limit: int, total: nat, returned: nat): (p: Pagination)
    requires limit > 0
    ensures p.page == page && p.limit == limit && p.total == total
    ensures p.totalPages * limit >= total && (p.totalPages == 0 || (p.totalPages - 1) * limit < total)
    ensures p.hasMore <==> Skip(page, limit) + returned < total
  {
    Pagination(page, limit, total, CeilDiv(total, limit), Skip(page, limit) + returned < total)
  }

  /** The offset is a valid row offset exactly on pages 1 and up. */
  lemma SkipNonNegative(page: int, limit: int)
    requires limit > 0
    ensures Skip(page, limit) >= 0 <==> page >= 1
  {
    if page < 1 {
      assert (page - 1) * limit <= -limit by {
        assert (page - 1) * limit == -((1 - page) * limit);
        assert (1 - page) * limit >= limit;
      }
    }
  }

  lemma MulMonotone(a: int, b: int, c: nat)
    requires a <= b
    ensures a * c <= b * c
  {
    assert b * c - a * c == (b - a) * c;
  }

  /** With `q` pages of `limit` rows holding `total` rows, `n` full pages fall short of `total`
      exactly when `n < q`. */
  lemma FullPagesBelowTotal(n: nat, limit: nat, total: nat)
    requires limit > 0
    ensures n * limit < total <==> n < CeilDiv(total, limit)
  {
    var q := CeilDiv(total, limit);
    if n < q {
      MulMonotone(n, q - 1, limit);
    } else {
      MulMonotone(q, n, limit);
    }
  }

  /** Page `page` of `limit` rows holds something exactly when `page` is at most `totalPages`. */
  lemma PageNonEmptyIffWithinTotal(s: seq<Task>, page: int, limit: int)
    requires limit > 0 && page >= 1
    ensures |Window(s, Skip(page, limit), limit)| > 0 <==> page <= CeilDiv(|s|, limit)
  {
    FullPagesBelowTotal(page - 1, limit, |s|);
  }

  /** `hasMore` holds exactly when a later page exists: `page < totalPages`. */
  lemma HasMoreIffLaterPage(s: seq<Task>, page: int, limit: int)
    requires limit > 0 && page >= 1
    ensures var skip := Skip(page, limit);
            var p := Paginate(page, limit, |s|, |Window(s, skip, limit)|);
            p.hasMore <==> page < p.totalPages
  {
    var skip := Skip(page, limit);
    assert skip + limit == page * limit;
    FullPagesBelowTotal(page, limit, |s|);
    FullPagesBelowTotal(page - 1, limit, |s|);
  }

  /** The JSON bodies of the task routes. */
  datatype TaskBody = TaskPage(tasks: seq<TaskView>, pagination: Pagination) | Created(task: TaskView)

  /** The `POST` body; every field optional. */
  datatype CreateBody = CreateBody(
    title: Option<string>,
    description: Option<string>,
    status: Option<string>,
    priority: Option<string>,
    dueDate: Option<string>)

  /** The columns of a row to create, after validation and defaults. */
  datatype NewTask = NewTask(
    title: string,
    description: Option<string>,
    status: TaskStatus,
    priority: TaskPriority,
    dueDate: Option<string>)

  const MaxTitleLength: nat := 200

  /** `description?.trim() || null`. */
  function TrimmedOrNull(d: Option<string>): (r: Option<string>)
    ensures r.None? <==> d.None? || AllSpace(d.value)
    ensures r.Some? ==> r.value == Trim(d.value) && r.value != ""
  {
    if d.None? then None
    else
      TrimEmptyIffAllSpace(d.value);
      if Trim(d.value) == "" then None else Some(Trim(d.value))
  }

  const TitleRequired := "Title is required"
  const TitleTooLong := "Title must be less than 200 characters"
  const InvalidStatus := "Invalid status. Must be TODO, IN_PROGRESS, or COMPLETED"
  const InvalidPriority := "Invalid priority. Must be low, medium, or high"

  /** The title checks of `POST`: present and not blank, then at most 200 characters untrimmed. */
  function TitleError(title: Option<string>): (e: Option<string>)
    ensures e.None? <==> !Missing(title) && !AllSpace(title.value) && |title.value| <= MaxTitleLength
    ensures Missing(title) || AllSpace(title.value) ==> e == Some(TitleRequired)
    ensures !Missing(title) && !AllSpace(title.value) && |title.value| > MaxTitleLength ==> e == Some(TitleTooLong)
  {
    if Missing(title) || (TrimEmptyIffAllSpace(title.value); |Trim(title.value)| == 0) then Some(TitleRequired)
    else if |title.value| > MaxTitleLength then Some(TitleTooLong)
    else None
  }

  /** `status || "TODO"` after the whitelist check: `None` for a value outside it. */
  function StatusOrDefault(status: Option<string>): (r: Option<TaskStatus>)
    ensures Missing(status) ==> r == Some(Todo)
    ensures !Missing(status) ==> r == ParseStatus(status.value)
  {
    if Missing(status) then Some(Todo) else ParseStatus(status.value)
  }

  /** `priority || "medium"` after the whitelist check: `None` for a value outside it. */
  function PriorityOrDefault(priority: Option<string>): (r: Option<TaskPriority>)
    ensures Missing(priority) ==> r == Some(Medium)
    ensures !Missing(priority) ==> r == ParsePriority(priority.value)
  {
    if Missing(priority) then Some(Medium) else ParsePriority(priority.value)
  }

  /** The validation and defaults of `POST`: the first failing message, or the row to create. */
  function ValidateCreate(b: CreateBody): (r: Result<NewTask, string>)
    ensures r.Failure? <==>
              || Missing(b.title) || AllSpace(b.title.value) || |b.title.value| > MaxTitleLength
              || (!Missing(b.status) && ParseStatus(b.status.value).None?)
              || (!Missing(b.priority) && ParsePriority(b.priority.value).None?)
    ensures Missing(b.title) || AllSpace(b.title.value) ==> r == Failure(TitleRequired)
    ensures !Missing(b.title) && !AllSpace(b.title.value) && |b.title.value| > MaxTitleLength ==>
              r == Failure(TitleTooLong)
    ensures r == Failure(InvalidStatus) <==>
              TitleError(b.title).None? && !Missing(b.status) && ParseStatus(b.status.value).None?
    ensures r == Failure(InvalidPriority) <==>
              && TitleError(b.title).None? && StatusOrDefault(b.status).Some?
              && !Missing(b.priority) && ParsePriority(b.priority.value).None?
    ensures r.Success? ==> r.value.title == Trim(b.title.value) && r.value.title != ""
    ensures r.Success? ==> r.value.description == TrimmedOrNull(b.description)
    ensures r.Success? ==> (Missing(b.status) ==> r.value.status == Todo)
    ensures r.Success? ==> (!Missing(b.status) ==> StatusName(r.value.status) == b.status.value)
    ensures r.Success? ==> (Missing(b.priority) ==> r.value.priority == Medium)
    ensures r.Success? ==> (!Missing(b.priority) ==> PriorityName(r.value.priority) == b.priority.value)
    ensures r.Success? ==> (r.value.dueDate.Some? <==> !Missing(b.dueDate)) && (r.value.dueDate.Some? ==> r.value.dueDate == b.dueDate)
  {
    var status := StatusOrDefault(b.status);
    var priority := PriorityOrDefault(b.priority);
    match TitleError(b.title)
    case Some(message) => Failure(message)
    case None =>
      if status.None? then Failure(InvalidStatus)
      else if priority.None? then Failure(InvalidPriority)
      else
        TrimEmptyIffAllSpace(b.title.value);
        Success(NewTask(Trim(b.title.value), TrimmedOrNull(b.description), status.value, priority.value,
                        if Missing(b.dueDate) then None else b.dueDate))
  }

  /** The task table, as the rows in the order the list query returns them. */
  class TaskStore {
    var tasks: seq<Task>
    var nextId: nat

    constructor()
      ensures tasks == [] && nextId == 0
    {
      tasks := [];
      nextId := 0;
    }

    /** `GET /api/tasks`. */
    method List(env: Env, jar: Jar, now: nat, q: ListQuery) returns (r: Response<TaskBody>)
      requires q.limit > 0
      ensures !Truthy(ValueOf(jar, AccessCookie)) ==> r == ErrorResponse("Unauthorized", 401)
      ensures Truthy(ValueOf(jar, AccessCookie)) && AccessPayload(env, jar, now).None? ==>
                r == ErrorResponse("Invalid or expired token", 401)
      ensures AccessPayload(env, jar, now).Some? && q.page < 1 ==> r == ErrorResponse("Internal server error", 500)
      ensures AccessPayload(env, jar, now).Some? && q.page >= 1 ==>
                var listed := Filter(tasks, t => Requested(t, AccessPayload(env, jar, now).value.userId, q));
                var page := Window(listed, Skip(q.page, q.limit), q.limit);
                && (forall t :: t in page ==> t.userId == AccessPayload(env, jar, now).value.userId)
                && r == JsonResponse(TaskPage(Views(page), Paginate(q.page, q.limit, |listed|, |page|)))
    {
      var access := GetAuthCookies(jar).accessToken;
      if !Truthy(access) {
        return ErrorResponse("Unauthorized", 401);
      }
      var payload := VerifyAccessToken(env.secrets, access.value, now);
      if payload.None? {
        return ErrorResponse("Invalid or expired token", 401);
      }
      var w := BuildWhere(payload.value.userId, q);
      var skip := Skip(q.page, q.limit);
      var matching := Filter(tasks, t => Matches(w, t));
      var total := |matching|;
      SkipNonNegative(q.page, q.limit);
      if skip < 0 {
        // the database client refuses a negative `skip`; the handler's catch answers 500
        return ErrorResponse("Internal server error", 500);
      }
      var page := Window(matching, skip, q.limit);
      ghost var requested := t => Requested(t, payload.value.userId, q);
      FilterAgrees(tasks, t => Matches(w, t), requested);
      assert matching == Filter(tasks, requested);
      assert forall t :: t in page ==> t in matching;
      r := JsonResponse(TaskPage(Views(page), Pagination(q.page, q.limit, total, CeilDiv(total, q.limit), skip + |page| < total)));
    }

    /** `POST /api/tasks`. */
    method Create(env: Env, jar: Jar, now: nat, b: CreateBody) returns (r: Response<TaskBody>)
      modifies this
      ensures !Truthy(ValueOf(jar, AccessCookie)) ==> r == ErrorResponse("Unauthorized", 401)
      ensures Truthy(ValueOf(jar, AccessCookie)) && AccessPayload(env, jar, now).None? ==>
                r == ErrorResponse("Invalid or expired token", 401)
      ensures AccessPayload(env, jar, now).Some? && ValidateCreate(b).Failure? ==>
                r == ErrorResponse(ValidateCreate(b).error, 400)
      ensures r.status != 201 ==> tasks == old(tasks) && nextId == old(nextId)
      ensures r.status == 201 <==> AccessPayload(env, jar, now).Some? && ValidateCreate(b).Success?
      ensures r.status == 201 ==>
                var n := ValidateCreate(b).value;
                var t := Task(old(nextId), n.title, n.description, n.status, n.priority, n.dueDate,
                              AccessPayload(env, jar, now).value.userId, now, now);
                && tasks == old(tasks) + [t] && nextId == old(nextId) + 1
                && r == JsonResponse(Created(View(t)), 201)
    {
      var access := GetAuthCookies(jar).accessToken;
      if !Truthy(access) {
        return ErrorResponse("Unauthorized", 401);
      }
      var payload := VerifyAccessToken(env.secrets, access.value, now);
      if payload.None? {
        return ErrorResponse("Invalid or expired token", 401);
      }
      var valid := ValidateCreate(b);
      if valid.Failure? {
        return ErrorResponse(valid.error, 400);
      }
      var n := valid.value;
      var t := Task(nextId, n.title, n.description, n.status, n.priority, n.dueDate, payload.value.userId, now, now);
      tasks := tasks + [t];
      nextId := nextId + 1;
      r := JsonResponse(Created(View(t)), 201);
    }
  }
}
