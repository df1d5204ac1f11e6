/** The request bodies the backend validates: `TaskCreate`, with its default
    description and its future-due-date validator, and `UserCreate`. Instants
    are integers; `datetime.now()` is a parameter. */
module Schemas {
  import opened Wrappers

  /** A JSON task body as decoded, before validation: any field may be absent. */
  datatype TaskInput = TaskInput(title: Option<string>, description: Option<string>, dueDate: Option<int>)

  /** A validated `TaskCreate`. `description` is `None` when the client left it
      unset: `.dict()` then yields the default `""` and `.dict(exclude_unset=True)`
      leaves it out. */
  datatype TaskCreate = TaskCreate(title: string, description: Option<string>, dueDate: int)

  datatype FieldError = MissingTitle | MissingDueDate | DueInPast

  /** `description: str = ""`. */
  function Description(t: TaskCreate): (d: string)
    ensures t.description.Some? ==> d == t.description.value
    ensures t.description.None? ==> d == ""
  {
    t.description.GetOr("")
  }

  /** `future_due_date`: a due date strictly before now is refused; anything
      else is returned unchanged. */
  function FutureDueDate(v: int, now: int): (r: Result<int, FieldError>)
    ensures r.Failure? <==> v < now
    ensures r.Failure? ==> r.error == DueInPast
    ensures r.Success? ==> r.value == v
  {
    if v < now then Failure(DueInPast) else Success(v)
  }

  /** The errors of one body, field by field in declaration order. */
  function TaskErrors(input: TaskInput, now: int): seq<FieldError> {
    (if input.title.None? then [MissingTitle] else []) +
    (match input.dueDate
     case None => [MissingDueDate]
     case Some(v) => if FutureDueDate(v, now).Failure? then [DueInPast] else [])
  }

  /** Validation of a `TaskCreate` body: every error is reported, or the body
      is accepted with its fields unchanged. */
  function ValidateTask(input: TaskInput, now: int): (r: Result<TaskCreate, seq<FieldError>>)
    ensures r.Success? <==> input.title.Some? && input.dueDate.Some? && input.dueDate.value >= now
    ensures r.Success? ==>
      r.value.title == input.title.value && r.value.description == input.description &&
      r.value.dueDate == input.dueDate.value
    ensures r.Failure? ==>
      && (MissingTitle in r.error <==> input.title.None?)
      && (MissingDueDate in r.error <==> input.dueDate.None?)
      && (DueInPast in r.error <==> input.dueDate.Some? && input.dueDate.value < now)
  {
    var errs := TaskErrors(input, now);
    if errs == [] then Success(TaskCreate(input.title.value, input.description, input.dueDate.value))
    else Failure(errs)
  }

  /** A body that comes out of validation is accepted again, unchanged, at any
      later moment no earlier than its due date; the validator only ever looks
      at the due date against the clock. */
  lemma RevalidateUnchanged(input: TaskInput, now: int, later: int)
    requires ValidateTask(input, now).Success?
    requires now <= later <= input.dueDate.value
    ensures ValidateTask(input, later) == ValidateTask(input, now)
  {
  }

  datatype UserCreate = UserCreate(username: string, email: string, password: string)
}
