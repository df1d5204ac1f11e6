/** The pages' own task stores: the dashboard with its dialogs and forms, and the
    three read-only list pages. Each `fetch` is replaced by the response it got
    (an input) and the request it sent (an output); `router.push` is an output
    navigation. */
module ClientPages {
  import opened Wrappers
  import opened Sequences
  import opened TaskView
  import opened PageViews
  import opened Cookies
  import opened BrowserStore

  // ---------------------------------------------------------------------------
  // Requests and responses

  datatype Verb = Get | Post | Patch | Delete

  /** `/api/tasks`, `/api/tasks/{id}` and `/api/tasks/{id}/complete`. */
  datatype Endpoint = TaskList | TaskItem(id: int) | TaskComplete(id: int)

  /** The JSON body of a create or an edit. */
  datatype TaskForm = TaskForm(title: string, description: string, dueDate: string)

  datatype Request = Request(verb: Verb, endpoint: Endpoint, authorization: string, body: Option<TaskForm>)

  /** A `GET /api/tasks` as the page experienced it: an ok response with its
      decoded list, a response that is not ok, or a thrown error. */
  datatype Response = Ok(data: seq<Task>) | NotOk(status: int) | Throw

  /** A mutation's response; its body is never read. */
  datatype Reply = Accepted | Rejected(status: int) | Unreachable

  function ListRequest(authorization: string): Request {
    Request(Get, TaskList, authorization, None)
  }

  /** `if (res.status === 401) router.push("/login")`. */
  function FetchNav(res: Response): (nav: Option<Nav>)
    ensures nav.Some? <==> res == NotOk(401)
    ensures nav.Some? ==> nav == Some(Push("/login"))
  {
    if res.NotOk? && res.status == 401 then Some(Push("/login")) else None
  }

  /** Which tasks of an ok response a page keeps. */
  datatype View = Everything | DueOnToday | CompletedOnlyView

  function Kept(view: View, data: seq<Task>, today: string): seq<Task> {
    match view
    case Everything => data
    case DueOnToday => DueToday(data, today)
    case CompletedOnlyView => CompletedOnly(data)
  }

  /** The `tasks` state after a fetch: replaced by the kept part of an ok
      response, untouched otherwise. */
  function Stored(current: seq<Task>, res: Response, view: View, today: string): seq<Task> {
    if res.Ok? then Kept(view, res.data, today) else current
  }

  /** A fetch replaces the list only on success, and then with exactly what the
      page's view keeps: the whole list, today's tasks or the completed ones, in
      fetched order. A 401 navigates to `/login` and leaves the list alone, as
      does every other failure. */
  lemma FetchOutcomes(current: seq<Task>, res: Response, view: View, today: string)
    ensures Stored(current, res, view, today) != current ==> res.Ok?
    ensures res.Ok? && view == Everything ==> Stored(current, res, view, today) == res.data
    ensures res.Ok? && view == DueOnToday ==>
      forall t :: (multiset(Stored(current, res, view, today))[t] ==
        if DatePart(t.dueDate) == today then multiset(res.data)[t] else 0)
    ensures res.Ok? && view == CompletedOnlyView ==>
      forall t :: (multiset(Stored(current, res, view, today))[t] ==
        if t.completed then multiset(res.data)[t] else 0)
    ensures FetchNav(res).Some? ==> Stored(current, res, view, today) == current
  {
    if res.Ok? {
      DueTodayExact(res.data, [], today);
      CompletedOnlyExact(res.data, []);
    }
  }

  // ---------------------------------------------------------------------------
  // Dashboard

  /** Every piece of the dashboard's React state. */
  datatype DashboardState = DashboardState(
    tasks: seq<Task>, loading: bool, filter: FilterKind, sort: SortKind,
    editingTask: Option<Task>, editTitle: string, editDescription: string, editDueDate: string,
    isEditDialogOpen: bool,
    deletingTaskId: Option<int>, isDeleteDialogOpen: bool,
    isCreateDialogOpen: bool, newTitle: string, newDescription: string, newDueDate: string)

  /** A handler's effect: the next state, the requests in the order sent, and the
      navigation asked for. */
  datatype Outcome = Outcome(state: DashboardState, sent: seq<Request>, nav: Option<Nav>)

  function Fetched(s: DashboardState, res: Response): DashboardState {
    s.(tasks := Stored(s.tasks, res, Everything, ""), loading := false)
  }

  /** After a mutation the dashboard refetches, with the same credential. */
  function Refetch(s: DashboardState, req: Request, refetch: Response, auth: string): Outcome {
    Outcome(Fetched(s, refetch), [req, ListRequest(auth)], FetchNav(refetch))
  }

  function CompleteStep(s: DashboardState, id: int, reply: Reply, refetch: Response, auth: string): Outcome {
    var req := Request(Patch, TaskComplete(id), auth, None);
    if reply == Accepted then Refetch(s, req, refetch, auth)
    else Outcome(s, [req], None)
  }

  function UpdateStep(s: DashboardState, reply: Reply, refetch: Response, auth: string): Outcome {
    match s.editingTask
    case None => Outcome(s, [], None)
    case Some(t) =>
      var req := Request(Patch, TaskItem(t.id), auth, Some(TaskForm(s.editTitle, s.editDescription, s.editDueDate)));
      if reply == Accepted then Refetch(s.(isEditDialogOpen := false, editingTask := None), req, refetch, auth)
      else Outcome(s, [req], None)
  }

  /** `!deletingTaskId`: absent, and also the id 0. */
  predicate NoDeletion(id: Option<int>) {
    id == None || id == Some(0)
  }

  function DeleteStep(s: DashboardState, reply: Reply, refetch: Response, auth: string): Outcome {
    if NoDeletion(s.deletingTaskId) then Outcome(s, [], None)
    else
      var req := Request(Delete, TaskItem(s.deletingTaskId.value), auth, None);
      if reply == Accepted then Refetch(s.(isDeleteDialogOpen := false, deletingTaskId := None), req, refetch, auth)
      else Outcome(s, [req], None)
  }

  function CreateStep(s: DashboardState, reply: Reply, refetch: Response, auth: string): Outcome {
    if s.newTitle == "" || s.newDueDate == "" then Outcome(s, [], None)
    else
      var req := Request(Post, TaskList, auth, Some(TaskForm(s.newTitle, s.newDescription, s.newDueDate)));
      if reply == Accepted then
        Refetch(s.(isCreateDialogOpen := false, newTitle := "", newDescription := "", newDueDate := ""), req, refetch, auth)
      else Outcome(s, [req], None)
  }

  /** The guards, both directions: a handler sends nothing, and changes nothing,
      exactly when its guard holds; `deleteTask` also treats the id 0 as absent. */
  lemma MutationGuards(s: DashboardState, reply: Reply, refetch: Response, auth: string)
    ensures UpdateStep(s, reply, refetch, auth).sent == [] <==> s.editingTask == None
    ensures DeleteStep(s, reply, refetch, auth).sent == [] <==> NoDeletion(s.deletingTaskId)
    ensures CreateStep(s, reply, refetch, auth).sent == [] <==> s.newTitle == "" || s.newDueDate == ""
    ensures UpdateStep(s, reply, refetch, auth).sent == [] ==> UpdateStep(s, reply, refetch, auth) == Outcome(s, [], None)
    ensures DeleteStep(s, reply, refetch, auth).sent == [] ==> DeleteStep(s, reply, refetch, auth) == Outcome(s, [], None)
    ensures CreateStep(s, reply, refetch, auth).sent == [] ==> CreateStep(s, reply, refetch, auth) == Outcome(s, [], None)
  {
  }

  /** The outcome of a mutation that got past its guard. */
  predicate Refetched(o: Outcome, s: DashboardState, refetch: Response, auth: string) {
    |o.sent| == 2 && o.sent[1] == ListRequest(auth) &&
    o.state.tasks == Stored(s.tasks, refetch, Everything, "") && !o.state.loading &&
    o.nav == FetchNav(refetch)
  }

  /** A mutation refetches only on an ok reply. Otherwise exactly one request
      went out and neither the list nor any dialog changed. */
  lemma MutationsRefetchOnlyOnOk(s: DashboardState, id: int, reply: Reply, refetch: Response, auth: string)
    ensures reply != Accepted ==> CompleteStep(s, id, reply, refetch, auth) == Outcome(s, [Request(Patch, TaskComplete(id), auth, None)], None)
    ensures reply != Accepted ==> UpdateStep(s, reply, refetch, auth).state == s && |UpdateStep(s, reply, refetch, auth).sent| <= 1
    ensures reply != Accepted ==> DeleteStep(s, reply, refetch, auth).state == s && |DeleteStep(s, reply, refetch, auth).sent| <= 1
    ensures reply != Accepted ==> CreateStep(s, reply, refetch, auth).state == s && |CreateStep(s, reply, refetch, auth).sent| <= 1
    ensures reply == Accepted ==> Refetched(CompleteStep(s, id, reply, refetch, auth), s, refetch, auth)
    ensures reply == Accepted && s.editingTask.Some? ==> Refetched(UpdateStep(s, reply, refetch, auth), s, refetch, auth)
    ensures reply == Accepted && !NoDeletion(s.deletingTaskId) ==> Refetched(DeleteStep(s, reply, refetch, auth), s, refetch, auth)
    ensures reply == Accepted && s.newTitle != "" && s.newDueDate != "" ==> Refetched(CreateStep(s, reply, refetch, auth), s, refetch, auth)
  {
  }

  /** On an ok reply the handlers close and reset their own dialog, and create
      clears its three fields; the other dialogs are left as they were. */
  lemma MutationsResetDialogs(s: DashboardState, reply: Reply, refetch: Response, auth: string)
    requires reply == Accepted
    ensures s.editingTask.Some? ==>
      var n := UpdateStep(s, reply, refetch, auth).state;
      !n.isEditDialogOpen && n.editingTask == None && n.isDeleteDialogOpen == s.isDeleteDialogOpen &&
      n.isCreateDialogOpen == s.isCreateDialogOpen
    ensures !NoDeletion(s.deletingTaskId) ==>
      var n := DeleteStep(s, reply, refetch, auth).state;
      !n.isDeleteDialogOpen && n.deletingTaskId == None && n.isEditDialogOpen == s.isEditDialogOpen &&
      n.editingTask == s.editingTask
    ensures s.newTitle != "" && s.newDueDate != "" ==>
      var n := CreateStep(s, reply, refetch, auth).state;
      !n.isCreateDialogOpen && n.newTitle == "" && n.newDescription == "" && n.newDueDate == "" &&
      n.isEditDialogOpen == s.isEditDialogOpen && n.deletingTaskId == s.deletingTaskId
  {
  }

  /** What was typed into the edit form is what `updateTask` sends, for the
      task being edited, whatever the form held before. */
  lemma EditSendsTypedFields(s: DashboardState, title: string, description: string, due: string,
                             reply: Reply, refetch: Response, auth: string)
    requires s.editingTask.Some?
    ensures var o := UpdateStep(s.(editTitle := title, editDescription := description, editDueDate := due),
                                reply, refetch, auth);
      |o.sent| >= 1 &&
      o.sent[0] == Request(Patch, TaskItem(s.editingTask.value.id), auth, Some(TaskForm(title, description, due)))
  {
  }

  /** What was typed into the create form is what `createTask` sends, once the
      title and the due date are non-empty; with either empty nothing is sent. */
  lemma CreateSendsTypedFields(s: DashboardState, title: string, description: string, due: string,
                               reply: Reply, refetch: Response, auth: string)
    ensures var o := CreateStep(s.(newTitle := title, newDescription := description, newDueDate := due),
                                reply, refetch, auth);
      (o.sent == [] <==> title == "" || due == "") &&
      (o.sent != [] ==> o.sent[0] == Request(Post, TaskList, auth, Some(TaskForm(title, description, due))))
  {
  }

  /** After the delete dialog's Cancel, `deleteTask` sends nothing and changes
      nothing; closing the edit dialog, by contrast, keeps `editingTask`, so
      `updateTask` would still send the edit. */
  lemma CancelDisarmsDeleteOnly(s: DashboardState, reply: Reply, refetch: Response, auth: string)
    ensures DeleteStep(s.(deletingTaskId := None), reply, refetch, auth) == Outcome(s.(deletingTaskId := None), [], None)
    ensures s.editingTask.Some? ==> UpdateStep(s.(isEditDialogOpen := false), reply, refetch, auth).sent != []
  {
  }

  /** The dashboard page. `browser` holds the cookie its requests read. */
  class Dashboard {
    var tasks: seq<Task>
    var loading: bool
    var filter: FilterKind
    var sort: SortKind
    var editingTask: Option<Task>
    var editTitle: string
    var editDescription: string
    var editDueDate: string
    var isEditDialogOpen: bool
    var deletingTaskId: Option<int>
    var isDeleteDialogOpen: bool
    var isCreateDialogOpen: bool
    var newTitle: string
    var newDescription: string
    var newDueDate: string
    const browser: Browser

    constructor(browser: Browser)
      ensures State() == DashboardState([], true, All, DueDateAsc, None, "", "", "", false, None, false, false, "", "", "")
      ensures this.browser == browser
    {
      tasks, loading, filter, sort := [], true, All, DueDateAsc;
      editingTask, editTitle, editDescription, editDueDate, isEditDialogOpen := None, "", "", "", false;
      deletingTaskId, isDeleteDialogOpen := None, false;
      isCreateDialogOpen, newTitle, newDescription, newDueDate := false, "", "", "";
      this.browser := browser;
    }

    function State(): DashboardState
      reads this
    {
      DashboardState(tasks, loading, filter, sort, editingTask, editTitle, editDescription, editDueDate,
                     isEditDialogOpen, deletingTaskId, isDeleteDialogOpen,
                     isCreateDialogOpen, newTitle, newDescription, newDueDate)
    }

    /** `getAuthHeaders()`: read from the cookie at the time of the call. */
    function Authorization(): (h: string)
      reads this, browser
      ensures browser.Valid() && Lookup(browser.jar, "token") == None ==> h == "Bearer undefined"
      ensures forall v :: browser.Valid() && Lookup(browser.jar, "token") == Some(v) ==> h == "Bearer " + UpTo(v, '=')
    {
      if browser.Valid() then (JarAuthorization(browser.jar); AuthHeaders(browser.CookieString()).authorization)
      else AuthHeaders(browser.CookieString()).authorization
    }

    /** What the page shows: `filteredAndSortedTasks`, computed from a copy. */
    function Visible(now: int, parse: string -> int, titleLe: (string, string) -> bool): (shown: seq<Task>)
      reads this
      ensures multiset(shown) <= multiset(tasks)
    {
      DeriveContents(tasks, filter, sort, now, parse, titleLe);
      Derive(tasks, filter, sort, now, parse, titleLe)
    }

    /** `handleLogout`: the cookie is expired, localStorage is left alone. */
    method HandleLogout() returns (nav: Nav)
      requires browser.Valid()
      modifies browser
      ensures browser.Valid()
      ensures browser.jar == Cookies.ExpireCookie(old(browser.jar), "token")
      ensures TokenFromCookie(browser.CookieString()) == None
      ensures browser.storage == old(browser.storage)
      ensures nav == Push("/auth/login")
    {
      browser.ExpireCookie("token");
      CookieTextToken(browser.jar);
      nav := Push("/auth/login");
    }

    method SetFilter(f: FilterKind)
      modifies this
      ensures State() == old(State()).(filter := f)
    {
      filter := f;
    }

    method SetSort(k: SortKind)
      modifies this
      ensures State() == old(State()).(sort := k)
    {
      sort := k;
    }

    /** `openEditDialog`; `dueInput` is the task's due date as formatted for the
        local-time input field. */
    method OpenEditDialog(task: Task, dueInput: string)
      modifies this
      ensures State() == old(State()).(editingTask := Some(task), editTitle := task.title,
        editDescription := task.description, editDueDate := dueInput, isEditDialogOpen := true)
    {
      editingTask := Some(task);
      editTitle := task.title;
      editDescription := task.description;
      editDueDate := dueInput;
      isEditDialogOpen := true;
    }

    method OpenDeleteDialog(id: int)
      modifies this
      ensures State() == old(State()).(deletingTaskId := Some(id), isDeleteDialogOpen := true)
    {
      deletingTaskId := Some(id);
      isDeleteDialogOpen := true;
    }

    /** The create dialog's `onOpenChange` (its trigger button opens it, its
        Cancel button closes it): the typed fields stay as they were. */
    method SetCreateDialogOpen(open: bool)
      modifies this
      ensures State() == old(State()).(isCreateDialogOpen := open)
    {
      isCreateDialogOpen := open;
    }

    /** The edit dialog's `onOpenChange` and its Cancel button: `editingTask`
        and the edit fields are kept. */
    method SetEditDialogOpen(open: bool)
      modifies this
      ensures State() == old(State()).(isEditDialogOpen := open)
    {
      isEditDialogOpen := open;
    }

    /** The delete dialog's `onOpenChange`. */
    method SetDeleteDialogOpen(open: bool)
      modifies this
      ensures State() == old(State()).(isDeleteDialogOpen := open)
    {
      isDeleteDialogOpen := open;
    }

    /** The delete dialog's Cancel button: `setDeletingTaskId(null)` only. */
    method CancelDelete()
      modifies this
      ensures State() == old(State()).(deletingTaskId := None)
    {
      deletingTaskId := None;
    }

    /** Typing into the create form's title, description and due date inputs. */
    method SetNewTitle(text: string)
      modifies this
      ensures State() == old(State()).(newTitle := text)
    {
      newTitle := text;
    }

    method SetNewDescription(text: string)
      modifies this
      ensures State() == old(State()).(newDescription := text)
    {
      newDescription := text;
    }

    method SetNewDueDate(text: string)
      modifies this
      ensures State() == old(State()).(newDueDate := text)
    {
      newDueDate := text;
    }

    /** Typing into the edit form's title, description and due date inputs. */
    method SetEditTitle(text: string)
      modifies this
      ensures State() == old(State()).(editTitle := text)
    {
      editTitle := text;
    }

    method SetEditDescription(text: string)
      modifies this
      ensures State() == old(State()).(editDescription := text)
    {
      editDescription := text;
    }

    method SetEditDueDate(text: string)
      modifies this
      ensures State() == old(State()).(editDueDate := text)
    {
      editDueDate := text;
    }

    /** `fetchTasks`. */
    method FetchTasks(res: Response) returns (sent: Request, nav: Option<Nav>)
      modifies this
      ensures State() == Fetched(old(State()), res)
      ensures sent == ListRequest(Authorization()) && nav == FetchNav(res)
    {
      sent := ListRequest(Authorization());
      nav := None;
      if res.NotOk? && res.status == 401 {
        nav := Some(Push("/login"));
      } else if res.Ok? {
        tasks := res.data;
      }
      loading := false;
    }

    method CompleteTask(id: int, reply: Reply, refetch: Response) returns (sent: seq<Request>, nav: Option<Nav>)
      modifies this
      ensures Outcome(State(), sent, nav) == CompleteStep(old(State()), id, reply, refetch, Authorization())
    {
      sent := [Request(Patch, TaskComplete(id), Authorization(), None)];
      nav := None;
      if reply == Accepted {
        var get;
        get, nav := FetchTasks(refetch);
        sent := sent + [get];
      }
    }

    method UpdateTask(reply: Reply, refetch: Response) returns (sent: seq<Request>, nav: Option<Nav>)
      modifies this
      ensures Outcome(State(), sent, nav) == UpdateStep(old(State()), reply, refetch, Authorization())
    {
      sent, nav := [], None;
      if editingTask == None {
        return;
      }
      var body := TaskForm(editTitle, editDescription, editDueDate);
      sent := [Request(Patch, TaskItem(editingTask.value.id), Authorization(), Some(body))];
      if reply == Accepted {
        isEditDialogOpen := false;
        editingTask := None;
        var get;
        get, nav := FetchTasks(refetch);
        sent := sent + [get];
      }
    }

    method DeleteTask(reply: Reply, refetch: Response) returns (sent: seq<Request>, nav: Option<Nav>)
      modifies this
      ensures Outcome(State(), sent, nav) == DeleteStep(old(State()), reply, refetch, Authorization())
    {
      sent, nav := [], None;
      if NoDeletion(deletingTaskId) {
        return;
      }
      sent := [Request(Delete, TaskItem(deletingTaskId.value), Authorization(), None)];
      if reply == Accepted {
        isDeleteDialogOpen := false;
        deletingTaskId := None;
        var get;
        get, nav := FetchTasks(refetch);
        sent := sent + [get];
      }
    }

    method CreateTask(reply: Reply, refetch: Response) returns (sent: seq<Request>, nav: Option<Nav>)
      modifies this
      ensures Outcome(State(), sent, nav) == CreateStep(old(State()), reply, refetch, Authorization())
    {
      sent, nav := [], None;
      if newTitle == "" || newDueDate == "" {
        return;
      }
      ghost var s0 := State();
      var body := TaskForm(newTitle, newDescription, newDueDate);
      sent := [Request(Post, TaskList, Authorization(), Some(body))];
      if reply == Accepted {
        isCreateDialogOpen := false;
        newTitle, newDescription, newDueDate := "", "", "";
        assert State() == s0.(isCreateDialogOpen := false, newTitle := "", newDescription := "", newDueDate := "");
        var get;
        get, nav := FetchTasks(refetch);
        sent := sent + [get];
      }
    }
  }

  // ---------------------------------------------------------------------------
  // The read-only list pages

  /** The all-tasks, due-today and completed pages: each holds `tasks` and
      `loading`, and reads its credential from localStorage. */
  class ListPage {
    var tasks: seq<Task>
    var loading: bool
    const view: View
    const browser: Browser

    constructor(view: View, browser: Browser)
      ensures tasks == [] && loading && this.view == view && this.browser == browser
    {
      tasks, loading := [], true;
      this.view, this.browser := view, browser;
    }

    /** `` `Bearer ${localStorage.getItem("token")}` ``: `Bearer null` when absent. */
    function Authorization(): (h: string)
      reads this, browser
      ensures browser.GetItem("token") == None ==> h == "Bearer null"
      ensures forall t :: browser.GetItem("token") == Some(t) ==> h == "Bearer " + t
    {
      Bearer(StoredToken(browser.GetItem("token")))
    }

    /** `fetchTasks`; `today` is the local date as `YYYY-MM-DD`, used by the
        due-today page only. */
    method FetchTasks(res: Response, today: string) returns (sent: Request, nav: Option<Nav>)
      modifies this
      ensures tasks == Stored(old(tasks), res, view, today) && !loading
      ensures sent == ListRequest(Authorization()) && nav == FetchNav(res)
    {
      sent := ListRequest(Authorization());
      nav := None;
      if res.NotOk? && res.status == 401 {
        nav := Some(Push("/login"));
      } else if res.Ok? {
        tasks := Kept(view, res.data, today);
      }
      loading := false;
    }
  }
}
