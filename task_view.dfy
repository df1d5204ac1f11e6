/** The dashboard's derived task list: a status filter followed by one of four
    sorts, computed from the page's `tasks` state without changing it.

    Two library behaviours are parameters rather than definitions:
    - `parse` is `new Date(s).getTime()`, the instant a `due_date` text denotes;
    - `titleLe(a, b)` holds when `a.localeCompare(b) <= 0`, and is assumed to be a
      total preorder wherever an ordering property is claimed. */
module TaskView {
  import opened Sequences

  /** A task as the client receives it from `GET /api/tasks`. */
  datatype Task = Task(id: int, title: string, description: string, dueDate: string, completed: bool)

  datatype FilterKind = All | Completed | Pending | Overdue

  datatype SortKind = DueDateAsc | DueDateDesc | TitleAsc | TitleDesc

  /** `isOverdue(dateString, completed)`: never for a completed task, otherwise
      when the due instant lies strictly before the current instant `now`. */
  predicate IsOverdue(dueDate: string, completed: bool, now: int, parse: string -> int) {
    if completed then false else parse(dueDate) < now
  }

  /** What each filter lets through. */
  predicate Keep(f: FilterKind, t: Task, now: int, parse: string -> int) {
    match f
    case All => true
    case Completed => t.completed
    case Pending => !t.completed
    case Overdue => IsOverdue(t.dueDate, t.completed, now, parse)
  }

  function Keeper(f: FilterKind, now: int, parse: string -> int): Task -> bool {
    t => Keep(f, t, now, parse)
  }

  /** The comparator of each sort, as "`cmp(a, b) <= 0`". */
  predicate Precedes(k: SortKind, a: Task, b: Task, parse: string -> int, titleLe: (string, string) -> bool) {
    match k
    case DueDateAsc => parse(a.dueDate) - parse(b.dueDate) <= 0
    case DueDateDesc => parse(b.dueDate) - parse(a.dueDate) <= 0
    case TitleAsc => titleLe(a.title, b.title)
    case TitleDesc => titleLe(b.title, a.title)
  }

  function Comparator(k: SortKind, parse: string -> int, titleLe: (string, string) -> bool): (Task, Task) -> bool {
    (a, b) => Precedes(k, a, b, parse, titleLe)
  }

  /** `filteredAndSortedTasks`: filter a copy of `tasks`, then sort it. */
  function Derive(tasks: seq<Task>, f: FilterKind, k: SortKind, now: int,
                  parse: string -> int, titleLe: (string, string) -> bool): seq<Task>
  {
    Sort(Filter(tasks, Keeper(f, now, parse)), Comparator(k, parse, titleLe))
  }

  /** `getFilterLabel`. */
  function FilterLabel(f: FilterKind): string {
    match f
    case All => "All Tasks"
    case Completed => "Completed"
    case Pending => "Pending"
    case Overdue => "Overdue"
  }

  // ---------------------------------------------------------------------------
  // Overdue

  /** A completed task is never overdue; an incomplete one is overdue exactly when
      it fell due strictly before `now`, and then stays overdue as time goes on. */
  lemma OverdueMeaning(dueDate: string, completed: bool, now: int, later: int, parse: string -> int)
    requires now <= later
    ensures completed ==> !IsOverdue(dueDate, completed, now, parse)
    ensures !completed ==> (IsOverdue(dueDate, completed, now, parse) <==> parse(dueDate) < now)
    ensures IsOverdue(dueDate, completed, now, parse) ==> IsOverdue(dueDate, completed, later, parse)
    ensures !completed && parse(dueDate) == now ==> !IsOverdue(dueDate, completed, now, parse)
  {
  }

  // ---------------------------------------------------------------------------
  // Contents of the derived list

  /** The derived list holds exactly the tasks the filter accepts, each as often
      as it occurs in `tasks`: nothing dropped, nothing duplicated. */
  lemma DeriveContents(tasks: seq<Task>, f: FilterKind, k: SortKind, now: int,
                       parse: string -> int, titleLe: (string, string) -> bool)
    ensures var r := Derive(tasks, f, k, now, parse, titleLe);
      forall t :: multiset(r)[t] == if Keep(f, t, now, parse) then multiset(tasks)[t] else 0
    ensures var r := Derive(tasks, f, k, now, parse, titleLe);
      forall t :: t in r <==> t in tasks && Keep(f, t, now, parse)
  {
    var r := Derive(tasks, f, k, now, parse, titleLe);
    var kept := Filter(tasks, Keeper(f, now, parse));
    assert multiset(r) == multiset(kept);
    forall t ensures t in r <==> t in tasks && Keep(f, t, now, parse) {
      assert t in r <==> t in multiset(r);
      assert t in tasks <==> t in multiset(tasks);
    }
  }

  /** With filter `all` the derived list is a rearrangement of all of `tasks`. */
  lemma DeriveAllKeepsEverything(tasks: seq<Task>, k: SortKind, now: int,
                                 parse: string -> int, titleLe: (string, string) -> bool)
    ensures multiset(Derive(tasks, All, k, now, parse, titleLe)) == multiset(tasks)
    ensures |Derive(tasks, All, k, now, parse, titleLe)| == |tasks|
  {
    FilterKeepsAll(tasks, Keeper(All, now, parse));
  }

  /** `completed` and `pending` split the tasks in two; `overdue` picks pending ones. */
  lemma FiltersPartition(tasks: seq<Task>, k: SortKind, now: int,
                         parse: string -> int, titleLe: (string, string) -> bool)
    ensures |Derive(tasks, Completed, k, now, parse, titleLe)| + |Derive(tasks, Pending, k, now, parse, titleLe)| == |tasks|
    ensures multiset(Derive(tasks, Completed, k, now, parse, titleLe)) + multiset(Derive(tasks, Pending, k, now, parse, titleLe))
            == multiset(tasks)
    ensures forall t :: t in Derive(tasks, Overdue, k, now, parse, titleLe) ==> t in Derive(tasks, Pending, k, now, parse, titleLe)
  {
    FilterPartition(tasks, Keeper(Completed, now, parse), Keeper(Pending, now, parse));
    DeriveContents(tasks, Overdue, k, now, parse, titleLe);
    DeriveContents(tasks, Pending, k, now, parse, titleLe);
  }

  // ---------------------------------------------------------------------------
  // Order of the derived list

  lemma ComparatorIsPreorder(k: SortKind, parse: string -> int, titleLe: (string, string) -> bool)
    requires TotalPreorder(titleLe)
    ensures TotalPreorder(Comparator(k, parse, titleLe))
  {
  }

  /** Each sort orders the list by its key: due instants nondecreasing or
      nonincreasing, titles following the title order or its reverse. */
  lemma DeriveSorted(tasks: seq<Task>, f: FilterKind, k: SortKind, now: int,
                     parse: string -> int, titleLe: (string, string) -> bool)
    requires TotalPreorder(titleLe)
    ensures var r := Derive(tasks, f, k, now, parse, titleLe);
      k == DueDateAsc ==> forall i, j :: 0 <= i < j < |r| ==> parse(r[i].dueDate) <= parse(r[j].dueDate)
    ensures var r := Derive(tasks, f, k, now, parse, titleLe);
      k == DueDateDesc ==> forall i, j :: 0 <= i < j < |r| ==> parse(r[i].dueDate) >= parse(r[j].dueDate)
    ensures var r := Derive(tasks, f, k, now, parse, titleLe);
      k == TitleAsc ==> forall i, j :: 0 <= i < j < |r| ==> titleLe(r[i].title, r[j].title)
    ensures var r := Derive(tasks, f, k, now, parse, titleLe);
      k == TitleDesc ==> forall i, j :: 0 <= i < j < |r| ==> titleLe(r[j].title, r[i].title)
  {
    ComparatorIsPreorder(k, parse, titleLe);
    SortSorted(Filter(tasks, Keeper(f, now, parse)), Comparator(k, parse, titleLe));
  }

  /** Stability: tasks the comparator cannot tell apart (equal due instants, or
      titles that compare equal) keep the order they had after filtering. */
  lemma DeriveStable(tasks: seq<Task>, f: FilterKind, k: SortKind, now: int,
                     parse: string -> int, titleLe: (string, string) -> bool, x: Task)
    requires TotalPreorder(titleLe)
    ensures TiedWith(Derive(tasks, f, k, now, parse, titleLe), Comparator(k, parse, titleLe), x)
         == TiedWith(Filter(tasks, Keeper(f, now, parse)), Comparator(k, parse, titleLe), x)
  {
    ComparatorIsPreorder(k, parse, titleLe);
    SortStable(Filter(tasks, Keeper(f, now, parse)), Comparator(k, parse, titleLe), x);
  }

  /** Deriving again from a derived list with the same selection changes nothing. */
  lemma DeriveIdempotent(tasks: seq<Task>, f: FilterKind, k: SortKind, now: int,
                         parse: string -> int, titleLe: (string, string) -> bool)
    requires TotalPreorder(titleLe)
    ensures var r := Derive(tasks, f, k, now, parse, titleLe);
      Derive(r, f, k, now, parse, titleLe) == r
  {
    var keep := Keeper(f, now, parse);
    var cmp := Comparator(k, parse, titleLe);
    var r := Derive(tasks, f, k, now, parse, titleLe);
    DeriveContents(tasks, f, k, now, parse, titleLe);
    forall i | 0 <= i < |r| ensures keep(r[i]) {
      assert r[i] in r;
    }
    FilterKeepsAll(r, keep);
    ComparatorIsPreorder(k, parse, titleLe);
    SortIdempotent(Filter(tasks, keep), cmp);
  }

  /** When no two tasks share a due instant, the descending sort is the exact
      reverse of the ascending one. */
  lemma DueDescReversesAsc(tasks: seq<Task>, f: FilterKind, now: int,
                           parse: string -> int, titleLe: (string, string) -> bool)
    requires forall i, j :: 0 <= i < j < |tasks| ==> parse(tasks[i].dueDate) != parse(tasks[j].dueDate)
    ensures Derive(tasks, f, DueDateDesc, now, parse, titleLe) == Reverse(Derive(tasks, f, DueDateAsc, now, parse, titleLe))
  {
    var kept := Filter(tasks, Keeper(f, now, parse));
    var up := Comparator(DueDateAsc, parse, titleLe);
    var down := Comparator(DueDateDesc, parse, titleLe);
    forall x, y | x in kept && y in kept && up(x, y) && up(y, x) ensures x == y {
      assert x in multiset(kept) && y in multiset(kept);
      assert x in tasks && y in tasks;
      var i :| 0 <= i < |tasks| && tasks[i] == x;
      var j :| 0 <= j < |tasks| && tasks[j] == y;
      assert parse(x.dueDate) == parse(y.dueDate);
      assert i == j;
    }
    assert NoTies(kept, up);
    SortReversedComparator(kept, up, down);
  }

  /** The overdue scenario: with `now` in mid 2024, of an incomplete task due
      early 2024, a completed task due 2023 and an incomplete task due 2099, the
      overdue filter yields only the first. */
  lemma OverdueScenario(k: SortKind, titleLe: (string, string) -> bool)
    ensures
      var parse := (s: string) =>
        if s == "2024-01-01" then 20240101 else if s == "2023-01-01" then 20230101 else 20990101;
      var t1 := Task(1, "a", "", "2024-01-01", false);
      var t2 := Task(2, "b", "", "2023-01-01", true);
      var t3 := Task(3, "c", "", "2099-01-01", false);
      Derive([t1, t2, t3], Overdue, k, 20240601, parse, titleLe) == [t1]
  {
    var parse := (s: string) =>
      if s == "2024-01-01" then 20240101 else if s == "2023-01-01" then 20230101 else 20990101;
    var t1 := Task(1, "a", "", "2024-01-01", false);
    var t2 := Task(2, "b", "", "2023-01-01", true);
    var t3 := Task(3, "c", "", "2099-01-01", false);
    var keep := Keeper(Overdue, 20240601, parse);
    assert keep(t1) && !keep(t2) && !keep(t3);
    assert [t1, t2, t3][1..] == [t2, t3];
    assert [t2, t3][1..] == [t3];
    assert Filter([t1, t2, t3], keep) == [t1];
  }

  /** The four filter labels are distinct. */
  lemma FilterLabelsDistinct(f: FilterKind, g: FilterKind)
    ensures FilterLabel(f) == FilterLabel(g) <==> f == g
  {
  }
}
