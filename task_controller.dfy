/** The request-handling logic of controllers/taskController.js that does
    not depend on the document store: reading list parameters, building the
    filter, sort, skip and page count handed to the store, normalising form
    fields for create and update, and toggling completion. */
module TaskController {
  import opened Wrappers
  import opened JsNumbers
  import opened Helpers

  // ---------------------------------------------------------------------
  // Listing

  /** The query-string parameters of `GET /tasks`; `None` when absent. */
  datatype ListQuery = ListQuery(
    page: Option<string>,
    limit: Option<string>,
    sortBy: Option<string>,
    sortOrder: Option<string>,
    filterCompleted: Option<string>,
    filterPriority: Option<string>)

  /** The store query object: a key is present exactly when it is `Some`. */
  datatype Filter = Filter(completed: Option<bool>, priority: Option<string>)

  /** A one-key sort object `{ [field]: direction }`, direction 1 ascending, -1 descending. */
  datatype SortSpec = SortSpec(field: string, direction: int)

  /** What the handler asks of the store: `find(filter).sort(sort).skip(skip).limit(limit)`;
      `sort` is `None` for the empty sort object `{}`. */
  datatype FindRequest = FindRequest(filter: Filter, sort: Option<SortSpec>, skip: int, limit: int)

  /** What the handler hands to the list view, besides the tasks the store returns. */
  datatype ListView = ListView(
    find: FindRequest,
    pagination: Pagination,
    filterCompleted: Option<string>,
    filterPriority: Option<string>,
    sortBy: string,
    sortOrder: string)

  /** `x || d` on a string parameter: `d` when the parameter is absent or empty. */
  function StringOr(x: Option<string>, d: string): (r: string)
    ensures x.Some? && x.value != "" ==> r == x.value
    ensures x.None? || x.value == "" ==> r == d
  {
    if x.Some? && x.value != "" then x.value else d
  }

  /** The filter is exactly what `FilterFor` describes: a `completed` key
      only for the strings "true" and "false", a `priority` key only for a
      present, non-empty priority. */
  ghost predicate FilterFor(f: Filter, filterCompleted: Option<string>, filterPriority: Option<string>) {
    && (f.completed == Some(true) <==> filterCompleted == Some("true"))
    && (f.completed == Some(false) <==> filterCompleted == Some("false"))
    && (f.priority.Some? <==> filterPriority.Some? && filterPriority.value != "")
    && (f.priority.Some? ==> f.priority == filterPriority)
  }

  /** `FilterFor` leaves no choice: it describes one filter. */
  lemma FilterForUnique(f: Filter, g: Filter, fc: Option<string>, fp: Option<string>)
    requires FilterFor(f, fc, fp) && FilterFor(g, fc, fp)
    ensures f == g
  {
    OptionBoolCases(f.completed);
    OptionBoolCases(g.completed);
  }

  lemma OptionBoolCases(c: Option<bool>)
    ensures c == None || c == Some(true) || c == Some(false)
  {
    match c
    case None =>
    case Some(b) =>
      if b { assert c == Some(true); } else { assert c == Some(false); }
  }


  /** The query object, built up one conditional key at a time. */
  method BuildFilter(filterCompleted: Option<string>, filterPriority: Option<string>) returns (f: Filter)
    ensures FilterFor(f, filterCompleted, filterPriority)
  {
    f := Filter(None, None);
    if filterCompleted == Some("true") {
      f := f.(completed := Some(true));
    }
    if filterCompleted == Some("false") {
      f := f.(completed := Some(false));
    }
    if filterPriority.Some? && filterPriority.value != "" {
      f := f.(priority := filterPriority);
    }
  }

  /** `sort[sortBy] = sortOrder === 'asc' ? 1 : -1` on a fresh object `{}`:
      one key `sortBy`, ascending only for the exact string "asc". The one
      exception is the key "__proto__", whose assignment runs the inherited
      prototype setter, which ignores a number, so the object stays empty. */
  function SortFor(sortBy: string, sortOrder: string): (s: Option<SortSpec>)
    ensures s.None? <==> sortBy == "__proto__"
    ensures s.Some? ==> s.value.field == sortBy
    ensures s.Some? ==> (s.value.direction == 1 <==> sortOrder == "asc")
    ensures s.Some? ==> s.value.direction == 1 || s.value.direction == -1
  {
    if sortBy == "__proto__" then None
    else Some(SortSpec(sortBy, if sortOrder == "asc" then 1 else -1))
  }

  /** `skip = (page - 1) * limit`: for pages and limits of at least 1 it is
      a non-negative multiple of the limit from which the page is recovered. */
  function Skip(page: int, limit: int): (skip: int)
    ensures page >= 1 && limit >= 1 ==> skip >= 0 && skip % limit == 0 && skip / limit + 1 == page
    ensures page == 1 ==> skip == 0
  {
    var skip := (page - 1) * limit;
    assert page >= 1 && limit >= 1 ==> skip >= 0 && skip % limit == 0 && skip / limit + 1 == page by {
      if page >= 1 && limit >= 1 {
        MultipleDivMod(page - 1, limit);
      }
    }
    skip
  }

  lemma MultipleDivMod(k: nat, b: int)
    requires b >= 1
    ensures k * b >= 0 && (k * b) % b == 0 && (k * b) / b == k
  {
    var q, r := (k * b) / b, (k * b) % b;
    assert k * b == q * b + r && 0 <= r < b;
    assert (k - q) * b == r;
    SmallMultipleIsZero(k - q, b);
  }

  lemma SmallMultipleIsZero(m: int, b: int)
    requires b >= 1 && 0 <= m * b < b
    ensures m == 0
  {
  }

  /** A page parameter below 1 is not guarded: "-1" yields a negative skip. */
  lemma NegativePageGivesNegativeSkip(limit: int)
    requires limit >= 1
    ensures Skip(ParseIntOr(Some("-1"), 1), limit) < 0
  {
    ParseIntOfIntToString(-1, []);
    assert IntToString(-1) + [] == "-1";
  }

  /** `Math.ceil(total / limit)` for an integer count and a non-zero limit:
      the least `r` with `total / limit <= r`, said without division. */
  function TotalPages(total: nat, limit: int): (r: int)
    requires limit != 0
    ensures limit > 0 ==> r >= 0 && (r - 1) * limit < total <= r * limit
    ensures limit < 0 ==> r * limit <= total < (r - 1) * limit
    ensures total == 0 ==> r == 0
  {
    if limit > 0 then CeilDivPositive(total, limit) else -(total / -limit)
  }

  function CeilDivPositive(a: nat, b: int): (r: nat)
    requires b > 0
    ensures (r - 1) * b < a <= r * b
  {
    var q := (a + b - 1) / b;
    DivBounds(a + b - 1, b);
    q
  }

  lemma DivBounds(a: nat, b: int)
    requires b > 0
    ensures (a / b) * b <= a < (a / b + 1) * b
  {
  }

  /** The page count is the number of pages needed to show every task, with
      no empty page at the end. */
  lemma TotalPagesCoversTasks(total: nat, limit: int)
    requires limit >= 1
    ensures TotalPages(total, limit) * limit >= total
    ensures total > 0 ==> (TotalPages(total, limit) - 1) * limit < total
    ensures TotalPages(total, limit) == 0 <==> total == 0
  {
  }

  /** With 25 matching tasks, `?page=2&limit=10` skips 10 tasks, counts 3
      pages and shows the window [1, 2, 3]. */
  lemma SecondPageOfTwentyFiveTasks()
    ensures ParseIntOr(Some("2"), 1) == 2 && ParseIntOr(Some("10"), 10) == 10
    ensures Skip(2, 10) == 10 && TotalPages(25, 10) == 3
    ensures PageWindow(2, 3) == [1, 2, 3]
  {
    ParseIntOfIntToString(2, []);
    ParseIntOfIntToString(10, []);
    assert IntToString(2) + [] == "2";
    assert IntToString(10) + [] == "10";
  }

  /** The pure part of `getAllTasks`: parameters with their defaults, the
      store request, and the pagination descriptor for `/tasks`, given the
      number `totalTasks` that `countDocuments(filter)` reports. */
  method GetAllTasks(q: ListQuery, totalTasks: nat) returns (v: ListView)
    ensures v.pagination.currentPage == ParseIntOr(q.page, 1)
    ensures v.find.limit == ParseIntOr(q.limit, 10)
    ensures FilterFor(v.find.filter, q.filterCompleted, q.filterPriority)
    ensures v.sortBy == StringOr(q.sortBy, "createdAt") && v.sortOrder == StringOr(q.sortOrder, "desc")
    ensures v.find.sort == SortFor(v.sortBy, v.sortOrder)
    ensures v.find.skip == (v.pagination.currentPage - 1) * v.find.limit
    ensures v.pagination.totalPages == TotalPages(totalTasks, v.find.limit)
    ensures v.pagination.hasNext <==> v.pagination.currentPage < v.pagination.totalPages
    ensures v.pagination.hasPrev <==> v.pagination.currentPage > 1
    ensures v.pagination.nextPage == v.pagination.currentPage + 1
    ensures v.pagination.prevPage == v.pagination.currentPage - 1
    ensures v.pagination.pages == PageWindow(v.pagination.currentPage, v.pagination.totalPages)
    ensures v.pagination.nextUrl == PageUrl("/tasks", v.pagination.currentPage + 1)
    ensures v.pagination.prevUrl == PageUrl("/tasks", v.pagination.currentPage - 1)
    ensures v.filterCompleted == q.filterCompleted && v.filterPriority == q.filterPriority
  {
    var page := ParseIntOr(q.page, 1);
    var limit := ParseIntOr(q.limit, 10);
    var sortBy := StringOr(q.sortBy, "createdAt");
    var sortOrder := StringOr(q.sortOrder, "desc");
    var filter := BuildFilter(q.filterCompleted, q.filterPriority);
    var skip := Skip(page, limit);
    var sort := SortFor(sortBy, sortOrder);
    var totalPages := TotalPages(totalTasks, limit);
    var pagination := GeneratePagination(IntToString(page), totalPages, "/tasks");
    ParseIntOrOfIntToString(page, 1);
    v := ListView(FindRequest(filter, sort, skip, limit), pagination,
                  q.filterCompleted, q.filterPriority, sortBy, sortOrder);
  }

  // ---------------------------------------------------------------------
  // Create and update

  /** The urlencoded form body of the create and edit forms. */
  datatype TaskBody = TaskBody(
    title: Option<string>,
    description: Option<string>,
    priority: Option<string>,
    dueDate: Option<string>,
    completed: Option<string>)

  /** The fields handed to the store; `completed` is `None` when it is not
      set (the schema default then applies) and `dueDate` is `None` for null. */
  datatype TaskDoc = TaskDoc(
    title: Option<string>,
    description: Option<string>,
    priority: Option<string>,
    completed: Option<bool>,
    dueDate: Option<string>)

  datatype Response = Redirect(location: string) | NotFound(url: string)

  /** `dueDate || null`: an absent or empty due date becomes null. */
  function NormalizeDueDate(dueDate: Option<string>): (r: Option<string>)
    ensures r.None? <==> dueDate.None? || dueDate.value == ""
    ensures r.Some? ==> r == dueDate
  {
    if dueDate.Some? && dueDate.value != "" then dueDate else None
  }

  lemma NormalizeDueDateIdempotent(dueDate: Option<string>)
    ensures NormalizeDueDate(NormalizeDueDate(dueDate)) == NormalizeDueDate(dueDate)
  {
  }

  /** A checkbox field: checked exactly when the browser sent "on". */
  function IsChecked(field: Option<string>): (b: bool)
    ensures b <==> field == Some("on")
  {
    field == Some("on")
  }

  /** `createTask`: title, description and priority as sent, the due date
      normalised, `completed` left to the schema; then back to the list. */
  function CreateTask(body: TaskBody): (r: (TaskDoc, Response))
    ensures r.0.title == body.title && r.0.description == body.description && r.0.priority == body.priority
    ensures r.0.completed.None?
    ensures r.0.dueDate == NormalizeDueDate(body.dueDate)
    ensures r.1 == Redirect("/tasks")
  {
    (TaskDoc(body.title, body.description, body.priority, None, NormalizeDueDate(body.dueDate)),
     Redirect("/tasks"))
  }

  /** `updateTask`: the same fields, plus `completed` from the checkbox;
      then to the task's own page. */
  function UpdateTask(id: string, body: TaskBody): (r: (TaskDoc, Response))
    ensures r.0.title == body.title && r.0.description == body.description && r.0.priority == body.priority
    ensures r.0.completed == Some(body.completed == Some("on"))
    ensures r.0.dueDate == NormalizeDueDate(body.dueDate)
    ensures r.1 == Redirect("/tasks/" + id)
  {
    (TaskDoc(body.title, body.description, body.priority, Some(IsChecked(body.completed)),
             NormalizeDueDate(body.dueDate)),
     Redirect("/tasks/" + id))
  }

  /** Create and update write the same title, description, priority and due
      date for the same body; only `completed` differs. */
  lemma CreateAndUpdateAgree(id: string, body: TaskBody)
    ensures CreateTask(body).0 == UpdateTask(id, body).0.(completed := None)
  {
  }

  // ---------------------------------------------------------------------
  // Toggle

  /** A task loaded from the store, whose fields the handler updates in place. */
  class TaskRecord {
    var title: string
    var description: string
    var priority: string
    var completed: bool
    var dueDate: Option<string>

    /** `task.completed = !task.completed`; no other field changes. */
    method Toggle()
      modifies this`completed
      ensures completed == !old(completed)
    {
      completed := !completed;
    }
  }

  /** Where toggling sends the browser. `referer` is what `req.get('Referer')`
      returns: the `Referrer` request header if it is set, else the `Referer`
      header. The target is that value when present and non-empty,
      otherwise the list. */
  function RedirectTarget(referer: Option<string>): (url: string)
    ensures referer.Some? && referer.value != "" ==> url == referer.value
    ensures referer.None? || referer.value == "" ==> url == "/tasks"
  {
    StringOr(referer, "/tasks")
  }

  /** `toggleComplete`, given what `findById` returned (`null` when there is
      no such task), the value of `req.get('Referer')` (see RedirectTarget)
      and the request's URL. */
  method ToggleComplete(task: TaskRecord?, referer: Option<string>, originalUrl: string) returns (resp: Response)
    modifies task
    ensures task == null ==> resp == NotFound(originalUrl)
    ensures task != null ==> resp == Redirect(RedirectTarget(referer))
    ensures task != null ==> task.completed == !old(task.completed)
    ensures task != null ==> task.title == old(task.title) && task.description == old(task.description)
    ensures task != null ==> task.priority == old(task.priority) && task.dueDate == old(task.dueDate)
  {
    if task == null {
      return NotFound(originalUrl);
    }
    task.Toggle();
    resp := Redirect(RedirectTarget(referer));
  }

  /** Toggling twice in sequence restores the task. */
  method ToggleTwiceRestores(task: TaskRecord, referer: Option<string>, url: string)
    modifies task
    ensures task.completed == old(task.completed)
    ensures task.title == old(task.title) && task.description == old(task.description)
    ensures task.priority == old(task.priority) && task.dueDate == old(task.dueDate)
  {
    var first := ToggleComplete(task, referer, url);
    var second := ToggleComplete(task, referer, url);
  }
}
