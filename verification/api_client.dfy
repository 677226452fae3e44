/**
 * The query string the dashboard sends to the task list (the start of `fetchTasks` in
 * lib/api.ts): `URLSearchParams` seeded with `page` and `limit`, then one `set` per filter that
 * is in force.
 */
module ApiClient {
  import opened Wrappers
  import opened Text
  import opened TaskTypes
  import TasksRoute

  /** `URLSearchParams`: name-value pairs in order. */
  type Params = seq<(string, string)>

  /** `params.get(name)`: the value of the first pair with that name. */
  function Get(p: Params, name: string): Option<string> {
    if p == [] then None
    else if p[0].0 == name then Some(p[0].1)
    else Get(p[1..], name)
  }

  /** The pairs of `p` not named `name`. */
  function Without(p: Params, name: string): (r: Params)
    ensures forall i :: 0 <= i < |r| ==> r[i].0 != name
    ensures forall n :: n != name ==> Get(r, n) == Get(p, n)
  {
    if p == [] then []
    else if p[0].0 == name then Without(p[1..], name)
    else [p[0]] + Without(p[1..], name)
  }

  /** `params.set(name, value)`: the first pair with that name takes the value and the others
      are removed; without such a pair, the pair is appended. */
  function Set(p: Params, name: string, value: string): (r: Params)
    ensures Get(r, name) == Some(value)
    ensures forall n :: n != name ==> Get(r, n) == Get(p, n)
  {
    if p == [] then [(name, value)]
    else if p[0].0 == name then [(name, value)] + Without(p[1..], name)
    else [p[0]] + Set(p[1..], name, value)
  }

  /** The names `fetchTasks` can send. */
  const QueryNames: set<string> := {"page", "limit", "status", "search", "sortBy", "sortOrder", "priority"}

  /** The status a filter sends: none for no filter or "ALL". */
  function StatusParam(f: Option<StatusFilter>): Option<string> {
    if f.Some? && f.value.OnlyStatus? then Some(StatusName(f.value.status)) else None
  }

  /** The priority a filter sends: none for no filter or "ALL". */
  function PriorityParam(f: Option<PriorityFilter>): Option<string> {
    if f.Some? && f.value.OnlyPriority? then Some(PriorityName(f.value.priority)) else None
  }

  /**
   * What a parameter list carries for a page request: `page` and `limit` always, `status` and
   * `priority` only for a filter other than "ALL", `search` only when non-empty, `sortBy` and
   * `sortOrder` as given, and no other name.
   */
  ghost predicate Carries(p: Params, page: int, limit: int, filters: TaskFilters) {
    && Get(p, "page") == Some(IntToDecimal(page))
    && Get(p, "limit") == Some(IntToDecimal(limit))
    && Get(p, "status") == StatusParam(filters.status)
    && Get(p, "priority") == PriorityParam(filters.priority)
    && Get(p, "search") == (if Missing(filters.search) then None else filters.search)
    && Get(p, "sortBy") == (if filters.sortBy.Some? then Some(SortKeyName(filters.sortBy.value)) else None)
    && Get(p, "sortOrder") == (if filters.sortOrder.Some? then Some(SortOrderName(filters.sortOrder.value)) else None)
    && (forall n :: n !in QueryNames ==> Get(p, n) == None)
  }

  /** `p` answers `get` exactly as the map `m` does. */
  ghost predicate Lookups(p: Params, m: map<string, string>) {
    forall n :: Get(p, n) == (if n in m then Some(m[n]) else None)
  }

  lemma SetLookups(p: Params, m: map<string, string>, name: string, value: string)
    requires Lookups(p, m)
    ensures Lookups(Set(p, name, value), m[name := value])
  {
  }

  lemma SeedLookups(page: string, limit: string)
    ensures Lookups([("page", page), ("limit", limit)], map["page" := page, "limit" := limit])
  {
    var p := [("page", page), ("limit", limit)];
    var m := map["page" := page, "limit" := limit];
    forall n ensures Get(p, n) == (if n in m then Some(m[n]) else None) {
      assert p[1..] == [("limit", limit)];
      assert p[1..][1..] == [];
      if n == "page" {
      } else if n == "limit" {
        assert Get(p, n) == Get(p[1..], n);
      } else {
        assert Get(p, n) == Get(p[1..], n) == Get(p[1..][1..], n);
      }
    }
  }

  /** The names and values `fetchTasks` sets, in the order it sets them. */
  ghost function Sent(page: int, limit: int, filters: TaskFilters): map<string, string> {
    var seed := map["page" := IntToDecimal(page), "limit" := IntToDecimal(limit)];
    var withStatus := if filters.status.Some? && filters.status.value != AllStatuses
      then seed["status" := StatusName(filters.status.value.status)] else seed;
    var withSearch := if !Missing(filters.search) then withStatus["search" := filters.search.value] else withStatus;
    var withSortBy := if filters.sortBy.Some? then withSearch["sortBy" := SortKeyName(filters.sortBy.value)] else withSearch;
    var withOrder := if filters.sortOrder.Some? then withSortBy["sortOrder" := SortOrderName(filters.sortOrder.value)] else withSortBy;
    if filters.priority.Some? && filters.priority.value != AllPriorities
    then withOrder["priority" := PriorityName(filters.priority.value.priority)] else withOrder
  }

  lemma SentCarries(p: Params, page: int, limit: int, filters: TaskFilters)
    requires Lookups(p, Sent(page, limit, filters))
    ensures Carries(p, page, limit, filters)
  {
    var m := Sent(page, limit, filters);
    assert Get(p, "page") == Some(IntToDecimal(page)) by { assert "page" in m; }
    assert Get(p, "limit") == Some(IntToDecimal(limit)) by { assert "limit" in m; }
    assert m.Keys <= QueryNames;
  }

  /** The parameters `fetchTasks(page, limit, filters)` puts in the request URL. */
  method TaskQueryParams(page: int := 1, limit: int := 10, filters: TaskFilters := NoFilters) returns (params: Params)
    ensures Carries(params, page, limit, filters)
  {
    params := [("page", IntToDecimal(page)), ("limit", IntToDecimal(limit))];
    ghost var sent := map["page" := IntToDecimal(page), "limit" := IntToDecimal(limit)];
    SeedLookups(IntToDecimal(page), IntToDecimal(limit));
    if filters.status.Some? && filters.status.value != AllStatuses {
      SetLookups(params, sent, "status", StatusName(filters.status.value.status));
      params, sent := Set(params, "status", StatusName(filters.status.value.status)), sent["status" := StatusName(filters.status.value.status)];
    }
    if !Missing(filters.search) {
      SetLookups(params, sent, "search", filters.search.value);
      params, sent := Set(params, "search", filters.search.value), sent["search" := filters.search.value];
    }
    if filters.sortBy.Some? {
      SetLookups(params, sent, "sortBy", SortKeyName(filters.sortBy.value));
      params, sent := Set(params, "sortBy", SortKeyName(filters.sortBy.value)), sent["sortBy" := SortKeyName(filters.sortBy.value)];
    }
    if filters.sortOrder.Some? {
      SetLookups(params, sent, "sortOrder", SortOrderName(filters.sortOrder.value));
      params, sent := Set(params, "sortOrder", SortOrderName(filters.sortOrder.value)), sent["sortOrder" := SortOrderName(filters.sortOrder.value)];
    }
    if filters.priority.Some? && filters.priority.value != AllPriorities {
      SetLookups(params, sent, "priority", PriorityName(filters.priority.value.priority));
      params, sent := Set(params, "priority", PriorityName(filters.priority.value.priority)), sent["priority" := PriorityName(filters.priority.value.priority)];
    }
    assert sent == Sent(page, limit, filters);
    SentCarries(params, page, limit, filters);
  }

  /** The dashboard's reading of its filters: the tasks they describe. */
  predicate Describes(filters: TaskFilters, t: Task) {
    && (filters.status.Some? && filters.status.value.OnlyStatus? ==> t.status == filters.status.value.status)
    && (filters.priority.Some? && filters.priority.value.OnlyPriority? ==> t.priority == filters.priority.value.priority)
    && (!Missing(filters.search) ==> ContainsInsensitive(t.title, filters.search.value))
  }

  /**
   * End to end: when the list handler reads the parameters the dashboard sent, it selects
   * exactly the caller's tasks that the dashboard's filters describe.
   */
  lemma ServerSelectsWhatFiltersDescribe(p: Params, page: int, limit: int, filters: TaskFilters, userId: nat, t: Task)
    requires Carries(p, page, limit, filters)
    ensures var q := TasksRoute.ListQuery(page, limit, Get(p, "status"), Get(p, "priority"), Get(p, "search"));
            TasksRoute.Requested(t, userId, q) <==> t.userId == userId && Describes(filters, t)
  {
    if filters.status.Some? && filters.status.value.OnlyStatus? {
      StatusNamesRoundTrip(filters.status.value.status);
    }
    if filters.priority.Some? && filters.priority.value.OnlyPriority? {
      PriorityNamesRoundTrip(filters.priority.value.priority);
    }
  }
}
