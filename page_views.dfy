/** The fixed views of the three read-only pages: the all-tasks list with its
    counters and row labels, the tasks due today, and the completed tasks. */
module PageViews {
  import opened Sequences
  import opened TaskView

  function Incomplete(): Task -> bool {
    (t: Task) => !t.completed
  }

  function IsDone(): Task -> bool {
    (t: Task) => t.completed
  }

  // ---------------------------------------------------------------------------
  // All tasks

  /** The "Active" counter: `tasks.filter(t => !t.completed).length`. */
  function ActiveCount(tasks: seq<Task>): nat {
    |Filter(tasks, Incomplete())|
  }

  /** The "Total" counter. */
  function TotalCount(tasks: seq<Task>): nat {
    |tasks|
  }

  /** Active counts exactly the incomplete tasks, so it never exceeds Total; it
      equals Total exactly when nothing is completed, and it equals the number of
      tasks the dashboard's `pending` filter shows. */
  lemma {:induction false} ActiveWithinTotal(tasks: seq<Task>, k: SortKind, now: int,
                                             parse: string -> int, titleLe: (string, string) -> bool)
    ensures ActiveCount(tasks) <= TotalCount(tasks)
    ensures ActiveCount(tasks) + |Filter(tasks, IsDone())| == TotalCount(tasks)
    ensures ActiveCount(tasks) == TotalCount(tasks) <==> forall i :: 0 <= i < |tasks| ==> !tasks[i].completed
    ensures ActiveCount(tasks) == |Derive(tasks, Pending, k, now, parse, titleLe)|
  {
    FilterPartition(tasks, Incomplete(), IsDone());
    FilterAllIff(tasks, Incomplete());
    FilterExtensional(tasks, Incomplete(), Keeper(Pending, now, parse));
  }

  /** The label column of a row. */
  function RowLabel(t: Task, now: int, parse: string -> int): string {
    if t.completed then "Finished"
    else if IsOverdue(t.dueDate, t.completed, now, parse) then "Overdue"
    else "Pending"
  }

  /** Completion takes priority over lateness; exactly one of the three labels
      applies, and `Overdue` appears on exactly the rows the dashboard's overdue
      filter keeps. */
  lemma RowLabelChoice(t: Task, now: int, parse: string -> int)
    ensures RowLabel(t, now, parse) == "Finished" <==> t.completed
    ensures RowLabel(t, now, parse) == "Overdue" <==> !t.completed && parse(t.dueDate) < now
    ensures RowLabel(t, now, parse) == "Pending" <==> !t.completed && parse(t.dueDate) >= now
    ensures RowLabel(t, now, parse) == "Overdue" <==> Keep(Overdue, t, now, parse)
  {
  }

  /** The description cell: the description, or a placeholder when it is empty. */
  function DescriptionCell(description: string, placeholder: string): (shown: string)
    ensures description != "" ==> shown == description
    ensures description == "" ==> shown == placeholder
  {
    if description != "" then description else placeholder
  }

  /** The placeholders of the all-tasks and completed pages, and of the
      due-today page. */
  const NoDescription := "No description provided"
  const NoDetails := "No details added"

  /** A description cell on any of the three pages is never blank: the
      description when there is one, the page's placeholder otherwise. */
  lemma DescriptionCellsNeverBlank(description: string)
    ensures DescriptionCell(description, NoDescription) != ""
    ensures DescriptionCell(description, NoDetails) != ""
    ensures description == "" ==> DescriptionCell(description, NoDescription) == "No description provided"
    ensures description == "" ==> DescriptionCell(description, NoDetails) == "No details added"
  {
  }

  // ---------------------------------------------------------------------------
  // Due today

  /** `dueDate.split("T")[0]`: the text before the first `T`, or all of it. */
  function DatePart(dueDate: string): (d: string)
    ensures 'T' !in d
    ensures |d| <= |dueDate| && d == dueDate[..|d|]
    ensures d == dueDate || dueDate[|d|] == 'T'
  {
    if dueDate == [] then []
    else if dueDate[0] == 'T' then []
    else [dueDate[0]] + DatePart(dueDate[1..])
  }

  /** For a `YYYY-MM-DD` text of today (which has no `T`), a due date matches it
      exactly when it is that text or begins with it followed by `T`. */
  lemma DatePartMatches(dueDate: string, today: string)
    requires 'T' !in today
    ensures DatePart(dueDate) == today <==>
      dueDate == today || (|dueDate| > |today| && dueDate[..|today| + 1] == today + "T")
  {
    if DatePart(dueDate) == today {
      DatePartIsToday(dueDate, today);
    }
    if dueDate == today || (|dueDate| > |today| && dueDate[..|today| + 1] == today + "T") {
      TodayIsDatePart(dueDate, today);
    }
  }

  lemma {:induction false} DatePartIsToday(dueDate: string, today: string)
    requires DatePart(dueDate) == today
    ensures dueDate == today || (|dueDate| > |today| && dueDate[..|today| + 1] == today + "T")
  {
    if dueDate != today {
      assert dueDate[|today|] == 'T';
      assert dueDate[..|today| + 1] == dueDate[..|today|] + [dueDate[|today|]];
    }
  }

  lemma {:induction false} TodayIsDatePart(dueDate: string, today: string)
    requires 'T' !in today
    requires dueDate == today || (|dueDate| > |today| && dueDate[..|today| + 1] == today + "T")
    ensures DatePart(dueDate) == today
  {
    var d := DatePart(dueDate);
    if dueDate != today {
      var n := |today|;
      assert forall i :: 0 <= i < n ==> dueDate[i] == today[i] by {
        forall i | 0 <= i < n ensures dueDate[i] == today[i] {
          assert dueDate[..n + 1][i] == (today + "T")[i];
        }
      }
      assert dueDate[n] == dueDate[..n + 1][n] == (today + "T")[n] == 'T';
      assert |d| == n;
      assert d == dueDate[..n];
    }
  }

  function IsDueOn(today: string): Task -> bool {
    (t: Task) => DatePart(t.dueDate) == today
  }

  /** What the due-today page keeps of a fetched list. */
  function DueToday(data: seq<Task>, today: string): seq<Task> {
    Filter(data, IsDueOn(today))
  }

  /** The kept tasks are exactly those due today, each as often as fetched, in
      fetched order (the filter distributes over any split of the fetched list). */
  lemma DueTodayExact(data: seq<Task>, rest: seq<Task>, today: string)
    ensures forall t :: (multiset(DueToday(data, today))[t] ==
      if DatePart(t.dueDate) == today then multiset(data)[t] else 0)
    ensures DueToday(data + rest, today) == DueToday(data, today) + DueToday(rest, today)
  {
    FilterConcat(data, rest, IsDueOn(today));
  }

  /** The "Tasks Remaining" badge counts the incomplete tasks among today's. */
  function Remaining(todayTasks: seq<Task>): nat {
    ActiveCount(todayTasks)
  }

  lemma RemainingCountsIncomplete(data: seq<Task>, today: string)
    ensures Remaining(DueToday(data, today)) == |Filter(data, (t: Task) => !t.completed && DatePart(t.dueDate) == today)|
  {
    FilterTwice(data, IsDueOn(today), Incomplete(), (t: Task) => !t.completed && DatePart(t.dueDate) == today);
  }

  lemma {:induction false} FilterTwice<T(!new)>(s: seq<T>, p: T -> bool, q: T -> bool, both: T -> bool)
    requires forall x :: both(x) == (p(x) && q(x))
    ensures Filter(Filter(s, p), q) == Filter(s, both)
  {
    if s != [] {
      FilterTwice(s[1..], p, q, both);
    }
  }

  /** The badge of a row on the due-today page. */
  function TodayBadge(t: Task): (badge: string)
    ensures badge == "Done" <==> t.completed
    ensures badge == "Due Today" <==> !t.completed
  {
    if t.completed then "Done" else "Due Today"
  }

  // ---------------------------------------------------------------------------
  // Completed

  /** What the completed page keeps of a fetched list. */
  function CompletedOnly(data: seq<Task>): seq<Task> {
    Filter(data, IsDone())
  }

  /** The kept tasks are exactly the completed ones, in fetched order; keeping
      them again changes nothing. */
  lemma CompletedOnlyExact(data: seq<Task>, rest: seq<Task>)
    ensures forall t :: multiset(CompletedOnly(data))[t] == if t.completed then multiset(data)[t] else 0
    ensures CompletedOnly(data + rest) == CompletedOnly(data) + CompletedOnly(rest)
    ensures CompletedOnly(CompletedOnly(data)) == CompletedOnly(data)
  {
    FilterConcat(data, rest, IsDone());
    FilterIdempotent(data, IsDone());
  }

  /** The noun of the footer "Showing n total completed task(s)". */
  function TaskNoun(count: nat): (noun: string)
    ensures noun == "task" <==> count == 1
    ensures noun == "tasks" <==> count != 1
  {
    if count == 1 then "task" else "tasks"
  }
}
