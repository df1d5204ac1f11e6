/** The data-access layer over the two tables. Rows are keyed by their
    auto-incremented id; `.first()` is the row of smallest id. Password hashing
    and checking are parameters. */
module Crud {
  import opened Wrappers
  import opened Schemas

  datatype TaskRow = TaskRow(title: string, description: string, dueDate: int, completed: bool, owner: Option<int>)

  datatype UserRow = UserRow(username: string, email: string, hashedPassword: string)

  /** `models.Task(**task.dict(), owner_id=...)`: a new task is not completed. */
  function NewRow(t: TaskCreate, owner: Option<int>): TaskRow {
    TaskRow(t.title, Description(t), t.dueDate, false, owner)
  }

  /** `get_tasks`'s filter: everything, or rows with the given `completed`. */
  predicate Matches(row: TaskRow, completed: Option<bool>) {
    completed == None || row.completed == completed.value
  }

  // ---------------------------------------------------------------------------
  // Table transformations

  function CompleteIn(tasks: map<int, TaskRow>, id: int): map<int, TaskRow> {
    if id in tasks then tasks[id := tasks[id].(completed := true)] else tasks
  }

  /** Marking complete touches one row and one field of it, and a second
      marking changes nothing. */
  lemma CompleteInMeaning(tasks: map<int, TaskRow>, id: int)
    ensures CompleteIn(tasks, id).Keys == tasks.Keys
    ensures id in tasks ==> CompleteIn(tasks, id)[id] == tasks[id].(completed := true)
    ensures forall k :: k in tasks && k != id ==> CompleteIn(tasks, id)[k] == tasks[k]
    ensures id !in tasks ==> CompleteIn(tasks, id) == tasks
    ensures CompleteIn(CompleteIn(tasks, id), id) == CompleteIn(tasks, id)
  {
  }

  /** One `setattr` of `update_task`'s loop. */
  datatype Assignment = SetTitle(title: string) | SetDescription(description: string) | SetDueDate(dueDate: int)

  /** `task_update.dict(exclude_unset=True).items()`, in field order. Title and
      due date are required, so only the description can be absent. */
  function SetFields(u: TaskCreate): (fields: seq<Assignment>)
    ensures |fields| == if u.description.Some? then 3 else 2
    ensures fields[0] == SetTitle(u.title) && fields[|fields| - 1] == SetDueDate(u.dueDate)
    ensures SetTitle(u.title) in fields && SetDueDate(u.dueDate) in fields
    ensures u.description.Some? ==> fields[1] == SetDescription(u.description.value)
    ensures forall i :: 0 <= i < |fields| && fields[i].SetDescription? ==> u.description == Some(fields[i].description)
    ensures forall i :: 0 <= i < |fields| && fields[i].SetTitle? ==> fields[i].title == u.title
    ensures forall i :: 0 <= i < |fields| && fields[i].SetDueDate? ==> fields[i].dueDate == u.dueDate
  {
    [SetTitle(u.title)] + (if u.description.Some? then [SetDescription(u.description.value)] else []) +
    [SetDueDate(u.dueDate)]
  }

  function Apply(row: TaskRow, a: Assignment): TaskRow {
    match a
    case SetTitle(t) => row.(title := t)
    case SetDescription(d) => row.(description := d)
    case SetDueDate(d) => row.(dueDate := d)
  }

  /** The assignments applied in order, the last one last. */
  function ApplyAll(row: TaskRow, fields: seq<Assignment>): TaskRow {
    if fields == [] then row else Apply(ApplyAll(row, fields[..|fields| - 1]), fields[|fields| - 1])
  }

  /** The row after a partial update, field by field. */
  function Patched(row: TaskRow, u: TaskCreate): TaskRow {
    TaskRow(u.title, u.description.GetOr(row.description), u.dueDate, row.completed, row.owner)
  }

  /** `update_task`'s loop yields exactly the patched row: the fields present in
      the update are overwritten, the description only when it was set, and
      `completed` and the owner are never touched. */
  lemma {:induction false} ApplySetFields(row: TaskRow, u: TaskCreate)
    ensures ApplyAll(row, SetFields(u)) == Patched(row, u)
    ensures Patched(row, u).completed == row.completed && Patched(row, u).owner == row.owner
    ensures u.description.None? ==> Patched(row, u).description == row.description
  {
    var f := SetFields(u);
    var titled := row.(title := u.title);
    assert ApplyAll(row, f[..1]) == titled by {
      assert f[..1][..0] == [];
    }
    if u.description.Some? {
      assert f[..2][..1] == f[..1];
      assert ApplyAll(row, f[..2]) == titled.(description := u.description.value);
      assert f[..|f| - 1] == f[..2];
    } else {
      assert f[..|f| - 1] == f[..1];
    }
  }

  /** `.filter(User.username == username).first()`: the user of smallest id in
      [i, bound) with that name. */
  function FirstUserFrom(users: map<int, UserRow>, name: string, i: int, bound: int): (r: Option<int>)
    decreases bound - i
    ensures r.Some? ==> i <= r.value < bound && r.value in users && users[r.value].username == name
    ensures r.Some? ==> forall k :: i <= k < r.value && k in users ==> users[k].username != name
    ensures r.None? <==> forall k :: i <= k < bound && k in users ==> users[k].username != name
  {
    if i >= bound then None
    else if i in users && users[i].username == name then Some(i)
    else FirstUserFrom(users, name, i + 1, bound)
  }

  /** Registered usernames are distinct. */
  ghost predicate UniqueUsernames(users: map<int, UserRow>) {
    forall a, b :: a in users && b in users && users[a].username == users[b].username ==> a == b
  }

  class Database {
    var tasks: map<int, TaskRow>
    var users: map<int, UserRow>
    var nextTaskId: int
    var nextUserId: int

    /** Every id was handed out by its table's counter, which starts at 1. */
    ghost predicate Valid()
      reads this
    {
      && 1 <= nextTaskId && 1 <= nextUserId
      && (forall id :: id in tasks ==> 1 <= id < nextTaskId)
      && (forall id :: id in users ==> 1 <= id < nextUserId)
    }

    constructor()
      ensures Valid() && tasks == map[] && users == map[] && nextTaskId == 1 && nextUserId == 1
    {
      tasks, users, nextTaskId, nextUserId := map[], map[], 1, 1;
    }

    /** `db.add(row); db.commit()`: the row gets the next id. */
    method Insert(row: TaskRow) returns (id: int)
      requires Valid()
      modifies this
      ensures Valid()
      ensures id == old(nextTaskId) && id !in old(tasks)
      ensures tasks == old(tasks)[id := row] && nextTaskId == old(nextTaskId) + 1
      ensures users == old(users) && nextUserId == old(nextUserId)
    {
      id := nextTaskId;
      tasks := tasks[id := row];
      nextTaskId := nextTaskId + 1;
    }

    /** `crud.create_task`: the new task has no owner. */
    method CreateTask(t: TaskCreate) returns (id: int, row: TaskRow)
      requires Valid()
      modifies this
      ensures Valid()
      ensures row == NewRow(t, None) && id !in old(tasks)
      ensures tasks == old(tasks)[id := row] && users == old(users)
    {
      row := NewRow(t, None);
      id := Insert(row);
    }

    /** `crud.get_tasks`. */
    method GetTasks(completed: Option<bool>) returns (rows: map<int, TaskRow>)
      ensures forall id :: id in rows <==> id in tasks && Matches(tasks[id], completed)
      ensures forall id :: id in rows ==> rows[id] == tasks[id]
      ensures completed == None ==> rows == tasks
    {
      rows := map id | id in tasks && Matches(tasks[id], completed) :: tasks[id];
    }

    /** `crud.mark_task_completed`. */
    method MarkTaskCompleted(id: int) returns (r: Option<TaskRow>)
      requires Valid()
      modifies this
      ensures Valid()
      ensures tasks == CompleteIn(old(tasks), id)
      ensures r.Some? <==> id in old(tasks)
      ensures r.Some? ==> r.value == old(tasks)[id].(completed := true)
      ensures users == old(users) && nextTaskId == old(nextTaskId) && nextUserId == old(nextUserId)
    {
      r := None;
      if id in tasks {
        var row := tasks[id].(completed := true);
        tasks := tasks[id := row];
        r := Some(row);
      }
    }

    /** `crud.delete_task`. */
    method DeleteTask(id: int) returns (deleted: bool)
      requires Valid()
      modifies this
      ensures Valid()
      ensures deleted <==> id in old(tasks)
      ensures tasks == old(tasks) - {id}
      ensures users == old(users) && nextTaskId == old(nextTaskId) && nextUserId == old(nextUserId)
    {
      deleted := id in tasks;
      if deleted {
        tasks := tasks - {id};
      }
    }

    /** `crud.update_task`: `setattr` for every field the update set. */
    method UpdateTask(id: int, u: TaskCreate) returns (r: Option<TaskRow>)
      requires Valid()
      modifies this
      ensures Valid()
      ensures r.Some? <==> id in old(tasks)
      ensures id in old(tasks) ==> r == Some(Patched(old(tasks)[id], u)) && tasks == old(tasks)[id := r.value]
      ensures id !in old(tasks) ==> tasks == old(tasks)
      ensures users == old(users) && nextTaskId == old(nextTaskId) && nextUserId == old(nextUserId)
    {
      r := None;
      if id !in tasks {
        return;
      }
      var row := tasks[id];
      var fields := SetFields(u);
      for i := 0 to |fields|
        invariant row == ApplyAll(old(tasks)[id], fields[..i])
      {
        assert fields[..i + 1][..i] == fields[..i];
        row := Apply(row, fields[i]);
      }
      assert fields[..|fields|] == fields;
      ApplySetFields(old(tasks)[id], u);
      tasks := tasks[id := row];
      r := Some(row);
    }

    /** `crud.create_user`: only the hash of the password is stored. */
    method CreateUser(user: UserCreate, hash: string -> string) returns (id: int, row: UserRow)
      requires Valid()
      modifies this
      ensures Valid()
      ensures row == UserRow(user.username, user.email, hash(user.password))
      ensures id == old(nextUserId) && id !in old(users)
      ensures users == old(users)[id := row] && nextUserId == old(nextUserId) + 1
      ensures tasks == old(tasks) && nextTaskId == old(nextTaskId)
    {
      row := UserRow(user.username, user.email, hash(user.password));
      id := nextUserId;
      users := users[id := row];
      nextUserId := nextUserId + 1;
    }

    /** `crud.get_user_by_username`. */
    method GetUserByUsername(username: string) returns (r: Option<int>)
      requires Valid()
      ensures r.Some? ==> r.value in users && users[r.value].username == username
      ensures r.Some? ==> forall k :: k in users && k < r.value ==> users[k].username != username
      ensures r.None? <==> forall k :: k in users ==> users[k].username != username
    {
      r := FirstUserFrom(users, username, 1, nextUserId);
    }

    /** The user `authenticate_user` finds: the first of that name, if the
        password verifies against its stored hash. */
    function Authenticated(username: string, password: string, verify: (string, string) -> bool): Option<int>
      reads this
    {
      var first := FirstUserFrom(users, username, 1, nextUserId);
      if first.Some? && verify(password, users[first.value].hashedPassword) then first else None
    }

    /** `crud.authenticate_user`: `False` (here `None`) for an unknown name or
        a password that does not verify against the stored hash. */
    method AuthenticateUser(username: string, password: string, verify: (string, string) -> bool)
      returns (r: Option<int>)
      requires Valid()
      ensures r == Authenticated(username, password, verify)
      ensures r.Some? ==>
        r.value in users && users[r.value].username == username && verify(password, users[r.value].hashedPassword)
      ensures r.None? <==>
        (forall k :: k in users ==> users[k].username != username) ||
        (exists k :: k in users && users[k].username == username && !verify(password, users[k].hashedPassword) &&
          forall j :: j in users && j < k ==> users[j].username != username)
    {
      var found := GetUserByUsername(username);
      r := None;
      if found.Some? && verify(password, users[found.value].hashedPassword) {
        r := found;
      }
    }
  }
}
