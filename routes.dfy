/** The API handlers over the database. The authenticated user is given as an
    id; hashing, password checks, token minting and the clock are parameters,
    and a spreadsheet arrives as its parsed rows. */
module Routes {
  import opened Wrappers
  import opened Cookies
  import opened Schemas
  import opened Crud

  datatype HttpError = HttpError(status: int, detail: string)

  datatype TokenResponse = TokenResponse(accessToken: string, tokenType: string)

  const UsernameTaken := "Username already exists"
  const InvalidCredentials := "Invalid credentials"
  const TaskNotFound := "Task not found"
  const NotExcel := "Please upload an Excel file."
  const EmptyExcel := "The Excel file is empty."
  const ProcessFailure := "Server failed to process file: "
  const NothingToExport := "No tasks found to export"

  /** The tasks a user owns. */
  function Owned(tasks: map<int, TaskRow>, user: int): (owned: map<int, TaskRow>)
    ensures forall id :: id in owned <==> id in tasks && tasks[id].owner == Some(user)
    ensures forall id :: id in owned ==> owned[id] == tasks[id]
  {
    map id | id in tasks && tasks[id].owner == Some(user) :: tasks[id]
  }

  /** A user owns nothing exactly when no row carries their id. */
  lemma OwnedEmpty(tasks: map<int, TaskRow>, user: int)
    ensures Owned(tasks, user) == map[] <==> forall id :: id in tasks ==> tasks[id].owner != Some(user)
  {
    if forall id :: id in tasks ==> tasks[id].owner != Some(user) {
      assert Owned(tasks, user).Keys == {};
    } else {
      var id :| id in tasks && tasks[id].owner == Some(user);
      assert id in Owned(tasks, user);
    }
  }

  /** `.filter(Task.id == task_id, Task.owner_id == current_user.id).first()`. */
  predicate OwnedBy(tasks: map<int, TaskRow>, id: int, user: int) {
    id in tasks && tasks[id].owner == Some(user)
  }

  // ---------------------------------------------------------------------------
  // Import rows

  /** One spreadsheet cell: its column is missing, it is empty (NaN), or it holds
      a value. */
  datatype Cell<T> = Missing | Blank | Value(v: T)

  datatype ImportRow = ImportRow(title: Cell<string>, description: Cell<string>, dueDate: Cell<int>, completed: Cell<bool>)

  /** `str(row.get(col, default))`: the default only for a missing column; an
      empty cell is NaN, whose text is `nan`. */
  function TextCell(c: Cell<string>, default: string): string {
    match c
    case Missing => default
    case Blank => "nan"
    case Value(s) => s
  }

  /** The task one row becomes. A missing or unparsable due date is now; an
      empty `completed` cell is NaN, which is truthy. */
  function ImportedRow(r: ImportRow, owner: int, now: int): TaskRow {
    TaskRow(
      TextCell(r.title, "Untitled Task"),
      TextCell(r.description, ""),
      match r.dueDate case Value(d) => d case _ => now,
      match r.completed case Missing => false case Blank => true case Value(b) => b,
      Some(owner))
  }

  /** The defaults of a row with no columns at all, and the ownership of every row. */
  lemma ImportDefaults(owner: int, now: int, r: ImportRow)
    ensures ImportedRow(ImportRow(Missing, Missing, Missing, Missing), owner, now) ==
      TaskRow("Untitled Task", "", now, false, Some(owner))
    ensures ImportedRow(r, owner, now).owner == Some(owner)
    ensures r.dueDate.Value? ==> ImportedRow(r, owner, now).dueDate == r.dueDate.v
    ensures !r.dueDate.Value? ==> ImportedRow(r, owner, now).dueDate == now
  {
  }

  /** The first `n` rows, keyed by consecutive ids from `start`. */
  function ImportedPrefix(start: int, rows: seq<ImportRow>, n: nat, owner: int, now: int): (m: map<int, TaskRow>)
    requires n <= |rows|
    ensures forall k :: k in m <==> start <= k < start + n
    ensures forall k :: k in m ==> m[k] == ImportedRow(rows[k - start], owner, now)
  {
    if n == 0 then map[]
    else ImportedPrefix(start, rows, n - 1, owner, now)[start + n - 1 := ImportedRow(rows[n - 1], owner, now)]
  }

  /** The import loop: each row is added to the session under the next id and
      counted; nothing reaches the table until the commit. */
  method StageRows(tasks: map<int, TaskRow>, start: int, rows: seq<ImportRow>, user: int, now: int)
    returns (pending: map<int, TaskRow>, count: nat)
    ensures count == |rows|
    ensures pending == tasks + ImportedPrefix(start, rows, |rows|, user, now)
  {
    pending := tasks;
    count := 0;
    for i := 0 to |rows|
      invariant count == i
      invariant pending == tasks + ImportedPrefix(start, rows, i, user, now)
    {
      UnionUpdate(tasks, ImportedPrefix(start, rows, i, user, now), start + i, ImportedRow(rows[i], user, now));
      pending := pending[start + i := ImportedRow(rows[i], user, now)];
      count := count + 1;
    }
  }

  lemma UnionUpdate<K, V>(a: map<K, V>, b: map<K, V>, k: K, v: V)
    ensures a + b[k := v] == (a + b)[k := v]
  {
  }

  function EndsWith(s: string, suffix: string): bool {
    |suffix| <= |s| && s[|s| - |suffix|..] == suffix
  }

  /** `file.filename.endswith(('.xlsx', '.xls'))`. */
  predicate ExcelName(filename: string) {
    EndsWith(filename, ".xlsx") || EndsWith(filename, ".xls")
  }

  /** Only the two extensions are accepted, each with its dot; the test is on
      the name's ending alone and is case-sensitive. */
  lemma ExcelNameCases()
    ensures ExcelName("tasks.xlsx") && ExcelName("tasks.xls") && ExcelName(".xls")
    ensures !ExcelName("tasks.csv") && !ExcelName("xlsx") && !ExcelName("tasks.XLSX")
  {
    assert "tasks.xlsx"[5..] == ".xlsx";
    assert "tasks.xls"[5..] == ".xls";
    assert "tasks.csv"[5..][1] == 'c';
    assert "tasks.csv"[4..][2] == 'c';
    assert "xlsx"[0..][0] == 'x';
    assert "tasks.XLSX"[5..][1] == 'X';
    assert "tasks.XLSX"[6..][0] == 'X';
  }

  // ---------------------------------------------------------------------------
  // Handlers

  /** `POST /api/register`: a taken username is refused with 400 and adds no
      user; registering keeps usernames distinct. */
  method Register(db: Database, user: UserCreate, hash: string -> string) returns (r: Result<int, HttpError>)
    requires db.Valid()
    modifies db
    ensures db.Valid() && db.tasks == old(db.tasks)
    ensures (exists k :: k in old(db.users) && old(db.users)[k].username == user.username) ==>
      r == Failure(HttpError(400, UsernameTaken)) && db.users == old(db.users)
    ensures (forall k :: k in old(db.users) ==> old(db.users)[k].username != user.username) ==>
      r.Success? && r.value !in old(db.users) &&
      db.users == old(db.users)[r.value := UserRow(user.username, user.email, hash(user.password))]
    ensures UniqueUsernames(old(db.users)) ==> UniqueUsernames(db.users)
  {
    var existing := db.GetUserByUsername(user.username);
    if existing.Some? {
      return Failure(HttpError(400, UsernameTaken));
    }
    var id, row := db.CreateUser(user, hash);
    r := Success(id);
  }

  /** `POST /api/login`: 401 unless the credentials check out; otherwise a
      bearer token minted for the username. */
  method Login(db: Database, username: string, password: string,
               verify: (string, string) -> bool, mint: string -> string)
    returns (r: Result<TokenResponse, HttpError>)
    requires db.Valid()
    ensures r.Failure? ==> r.error == HttpError(401, InvalidCredentials)
    ensures r.Success? ==> r.value == TokenResponse(mint(username), "bearer")
    ensures r.Success? <==> db.Authenticated(username, password, verify).Some?
  {
    var user := db.AuthenticateUser(username, password, verify);
    if user.None? {
      return Failure(HttpError(401, InvalidCredentials));
    }
    r := Success(TokenResponse(mint(username), "bearer"));
  }

  /** `POST /api/tasks`: the task belongs to the caller. */
  method CreateTask(db: Database, t: TaskCreate, user: int) returns (id: int, row: TaskRow)
    requires db.Valid()
    modifies db
    ensures db.Valid()
    ensures row == NewRow(t, Some(user)) && id !in old(db.tasks)
    ensures db.tasks == old(db.tasks)[id := row] && db.users == old(db.users)
  {
    row := NewRow(t, Some(user));
    id := db.Insert(row);
  }

  /** `GET /api/tasks`: exactly the caller's tasks. */
  method ListTasks(db: Database, user: int) returns (rows: map<int, TaskRow>)
    ensures forall id :: id in rows <==> id in db.tasks && db.tasks[id].owner == Some(user)
    ensures forall id :: id in rows ==> rows[id] == db.tasks[id]
  {
    rows := Owned(db.tasks, user);
  }

  /** `PATCH /api/tasks/{id}/complete`: only the caller's own task, else 404. */
  method CompleteTask(db: Database, id: int, user: int) returns (r: Result<TaskRow, HttpError>)
    requires db.Valid()
    modifies db
    ensures db.Valid() && db.users == old(db.users)
    ensures !OwnedBy(old(db.tasks), id, user) ==>
      r == Failure(HttpError(404, TaskNotFound)) && db.tasks == old(db.tasks)
    ensures OwnedBy(old(db.tasks), id, user) ==>
      r == Success(old(db.tasks)[id].(completed := true)) && db.tasks == CompleteIn(old(db.tasks), id)
  {
    if !OwnedBy(db.tasks, id, user) {
      return Failure(HttpError(404, TaskNotFound));
    }
    var row := db.MarkTaskCompleted(id);
    r := Success(row.value);
  }

  /** `DELETE /api/tasks/{id}`: only the caller's own task, else 404. */
  method DeleteTask(db: Database, id: int, user: int) returns (r: Result<string, HttpError>)
    requires db.Valid()
    modifies db
    ensures db.Valid() && db.users == old(db.users)
    ensures !OwnedBy(old(db.tasks), id, user) ==>
      r == Failure(HttpError(404, TaskNotFound)) && db.tasks == old(db.tasks)
    ensures OwnedBy(old(db.tasks), id, user) ==>
      r == Success("Task deleted") && db.tasks == old(db.tasks) - {id}
  {
    if !OwnedBy(db.tasks, id, user) {
      return Failure(HttpError(404, TaskNotFound));
    }
    var _ := db.DeleteTask(id);
    r := Success("Task deleted");
  }

  /** `POST /api/tasks/import`. `sheet` is what reading the upload gave (the
      rows, or the message of the error raised); `commitError` is the message
      of an error raised by the commit, if any. Every row becomes one owned
      task under a fresh id and the count is the number of rows, or, on any
      error inside the `try` (an empty sheet included), nothing is kept and
      the answer is 500. */
  method ImportTasks(db: Database, filename: string, sheet: Result<seq<ImportRow>, string>,
                     commitError: Option<string>, user: int, now: int)
    returns (r: Result<nat, HttpError>)
    requires db.Valid()
    modifies db
    ensures db.Valid() && db.users == old(db.users)
    ensures !ExcelName(filename) ==> r == Failure(HttpError(400, NotExcel)) && db.tasks == old(db.tasks)
    ensures ExcelName(filename) && sheet.Failure? ==>
      r == Failure(HttpError(500, ProcessFailure + sheet.error)) && db.tasks == old(db.tasks)
    ensures ExcelName(filename) && sheet == Success([]) ==>
      r == Failure(HttpError(500, ProcessFailure + "400: " + EmptyExcel)) && db.tasks == old(db.tasks)
    ensures ExcelName(filename) && sheet.Success? && sheet.value != [] && commitError.Some? ==>
      r == Failure(HttpError(500, ProcessFailure + commitError.value)) && db.tasks == old(db.tasks)
    ensures r.Success? ==>
      && ExcelName(filename) && sheet.Success? && sheet.value != [] && commitError.None?
      && r.value == |sheet.value|
      && db.tasks == old(db.tasks) + ImportedPrefix(old(db.nextTaskId), sheet.value, |sheet.value|, user, now)
      && (forall k :: k in old(db.tasks) ==> k < old(db.nextTaskId))
    ensures r.Failure? ==> db.tasks == old(db.tasks)
  {
    if !ExcelName(filename) {
      return Failure(HttpError(400, NotExcel));
    }
    if sheet.Failure? {
      return Failure(HttpError(500, ProcessFailure + sheet.error));
    }
    var rows := sheet.value;
    if rows == [] {
      return Failure(HttpError(500, ProcessFailure + "400: " + EmptyExcel));
    }
    var start := db.nextTaskId;
    var pending, count := StageRows(db.tasks, start, rows, user, now);
    if commitError.Some? {
      return Failure(HttpError(500, ProcessFailure + commitError.value));
    }
    db.tasks := pending;
    db.nextTaskId := start + |rows|;
    r := Success(count);
  }

  /** `GET /api/tasks/export`: 404 when the caller owns nothing, otherwise the
      caller's tasks. */
  method ExportTasks(db: Database, user: int) returns (r: Result<map<int, TaskRow>, HttpError>)
    ensures r.Failure? <==> forall id :: id in db.tasks ==> db.tasks[id].owner != Some(user)
    ensures r.Failure? ==> r.error == HttpError(404, NothingToExport)
    ensures r.Success? ==> r.value == Owned(db.tasks, user) && r.value != map[]
  {
    var owned := Owned(db.tasks, user);
    OwnedEmpty(db.tasks, user);
    if owned == map[] {
      return Failure(HttpError(404, NothingToExport));
    }
    r := Success(owned);
  }
}
