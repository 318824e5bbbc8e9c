/** Ordering a task list by one of the eight sort keys, and narrowing it to a
    time window (today, this week, overdue). */
module SortHelpers {
  import opened Types
  import opened Seqs
  import opened JsString

  // ------------------------------------------------------------------ sort

  /** The rank `priority-high` sorts by: Tinggi 1, Sedang 2, Rendah 3. */
  function HighFirstRank(p: Priority): int
  {
    match p
    case Tinggi => 1
    case Sedang => 2
    case Rendah => 3
  }

  /** The rank `priority-low` sorts by: Rendah 1, Sedang 2, Tinggi 3. */
  function LowFirstRank(p: Priority): int
  {
    match p
    case Rendah => 1
    case Sedang => 2
    case Tinggi => 3
  }

  /** Earlier deadline first: `time(a.deadline) - time(b.deadline)` is at most zero. */
  function ByDeadline(time: string -> int): (Task, Task) -> bool
  {
    (a: Task, b: Task) => time(a.deadline) - time(b.deadline) <= 0
  }

  /** "`a` may stay ahead of `b`": the comparator of each sort key returns at
      most zero. Deadlines and creation dates are compared as the timestamps
      `time` parses them to; titles by `titleLe`, which stands for
      `localeCompare(a, b) <= 0`. */
  function TaskOrder(key: SortOption, time: string -> int, titleLe: (string, string) -> bool): (Task, Task) -> bool
  {
    match key
    case DeadlineAsc => ByDeadline(time)
    case DeadlineDesc => (a: Task, b: Task) => time(b.deadline) - time(a.deadline) <= 0
    case PriorityHigh => (a: Task, b: Task) => HighFirstRank(a.priority) - HighFirstRank(b.priority) <= 0
    case PriorityLow => (a: Task, b: Task) => LowFirstRank(a.priority) - LowFirstRank(b.priority) <= 0
    case TitleAsc => (a: Task, b: Task) => titleLe(a.title, b.title)
    case TitleDesc => (a: Task, b: Task) => titleLe(b.title, a.title)
    case CreatedNew => (a: Task, b: Task) => time(b.createdAt) - time(a.createdAt) <= 0
    case CreatedOld => (a: Task, b: Task) => time(a.createdAt) - time(b.createdAt) <= 0
  }

  /** Every key orders tasks by a total preorder, given that the title
      collation is one. */
  lemma TaskOrderIsTotalPreorder(key: SortOption, time: string -> int, titleLe: (string, string) -> bool)
    requires TotalPreorder(titleLe)
    ensures TotalPreorder(TaskOrder(key, time, titleLe))
  {
    match key
    case DeadlineAsc =>
    case DeadlineDesc =>
    case PriorityHigh =>
    case PriorityLow =>
    case TitleAsc =>
      var le := TaskOrder(key, time, titleLe);
      forall a: Task, b: Task ensures le(a, b) || le(b, a) {
        assert titleLe(a.title, b.title) || titleLe(b.title, a.title);
      }
      forall a: Task, b: Task, c: Task | le(a, b) && le(b, c) ensures le(a, c) {
        assert titleLe(a.title, b.title) && titleLe(b.title, c.title);
      }
    case TitleDesc =>
      var le := TaskOrder(key, time, titleLe);
      forall a: Task, b: Task ensures le(a, b) || le(b, a) {
        assert titleLe(a.title, b.title) || titleLe(b.title, a.title);
      }
      forall a: Task, b: Task, c: Task | le(a, b) && le(b, c) ensures le(a, c) {
        assert titleLe(c.title, b.title) && titleLe(b.title, a.title);
      }
    case CreatedNew =>
    case CreatedOld =>
  }

  /** `sortTasks(tasks, sortBy)`: copies the list into a fresh array and sorts
      the copy in place, stably; an unknown key leaves the copy as it is. */
  method SortTasks(tasks: seq<Task>, sortBy: string, time: string -> int, titleLe: (string, string) -> bool)
    returns (sorted: seq<Task>)
    ensures SortOptionFromName(sortBy).None? ==> sorted == tasks
    ensures SortOptionFromName(sortBy).Some? ==>
              sorted == StableSort(TaskOrder(SortOptionFromName(sortBy).value, time, titleLe), tasks)
    ensures multiset(sorted) == multiset(tasks)
  {
    var copy := new Task[|tasks|](i requires 0 <= i < |tasks| => tasks[i]);
    assert copy[..] == tasks;
    match SortOptionFromName(sortBy) {
      case None =>
      case Some(key) => InsertionSort(copy, TaskOrder(key, time, titleLe));
    }
    sorted := copy[..];
  }

  /** What each key's order means for the sorted list. */
  lemma {:induction false} SortedByKey(key: SortOption, time: string -> int, titleLe: (string, string) -> bool, tasks: seq<Task>)
    requires TotalPreorder(titleLe)
    ensures var r := StableSort(TaskOrder(key, time, titleLe), tasks);
      && (key == DeadlineAsc ==>
            forall i, j :: 0 <= i < j < |r| ==> time(r[i].deadline) <= time(r[j].deadline))
      && (key == DeadlineDesc ==>
            forall i, j :: 0 <= i < j < |r| ==> time(r[i].deadline) >= time(r[j].deadline))
      && (key == PriorityHigh ==>
            forall i, j :: 0 <= i < j < |r| ==>
              (r[j].priority == Tinggi ==> r[i].priority == Tinggi) &&
              (r[i].priority == Rendah ==> r[j].priority == Rendah))
      && (key == PriorityLow ==>
            forall i, j :: 0 <= i < j < |r| ==>
              (r[j].priority == Rendah ==> r[i].priority == Rendah) &&
              (r[i].priority == Tinggi ==> r[j].priority == Tinggi))
      && (key == TitleAsc ==>
            forall i, j :: 0 <= i < j < |r| ==> titleLe(r[i].title, r[j].title))
      && (key == TitleDesc ==>
            forall i, j :: 0 <= i < j < |r| ==> titleLe(r[j].title, r[i].title))
      && (key == CreatedNew ==>
            forall i, j :: 0 <= i < j < |r| ==> time(r[i].createdAt) >= time(r[j].createdAt))
      && (key == CreatedOld ==>
            forall i, j :: 0 <= i < j < |r| ==> time(r[i].createdAt) <= time(r[j].createdAt))
  {
    var le := TaskOrder(key, time, titleLe);
    TaskOrderIsTotalPreorder(key, time, titleLe);
    StableSortSorted(le, tasks);
  }

  /** Sorting is stable: the tasks a key cannot tell apart from `t` keep their
      relative order from the input. */
  lemma SortTasksStable(key: SortOption, time: string -> int, titleLe: (string, string) -> bool, tasks: seq<Task>, t: Task)
    requires TotalPreorder(titleLe)
    ensures var le := TaskOrder(key, time, titleLe);
      Filter(StableSort(le, tasks), EquivalentTo(le, t)) == Filter(tasks, EquivalentTo(le, t))
  {
    TaskOrderIsTotalPreorder(key, time, titleLe);
    StableSortStable(TaskOrder(key, time, titleLe), tasks, t);
  }

  // ---------------------------------------------------------- quick filter

  /** An open task whose deadline falls on today's date. */
  predicate DueToday(t: Task, today: string)
  {
    DatePart(t.deadline) == today && !t.isCompleted
  }

  /** An open task whose deadline date lies from today to the end of the week,
      comparing "YYYY-MM-DD" strings. */
  predicate DueThisWeek(t: Task, today: string, endOfWeek: string)
  {
    var date := DatePart(t.deadline);
    AtMost(today, date) && AtMost(date, endOfWeek) && !t.isCompleted
  }

  /** An open task whose deadline instant is before now. */
  predicate IsOverdue(t: Task, now: int, time: string -> int)
  {
    time(t.deadline) < now && !t.isCompleted
  }

  /** Whether a quick filter keeps a task. */
  predicate InWindow(q: QuickFilter, clock: Clock, time: string -> int, t: Task)
  {
    match q
    case AllTasks => true
    case Today => DueToday(t, clock.today)
    case Week => DueThisWeek(t, clock.today, clock.endOfWeek)
    case Overdue => IsOverdue(t, clock.now, time)
  }

  /** `applyQuickFilter(tasks, quickFilter)`. */
  function ApplyQuickFilter(tasks: seq<Task>, quickFilter: string, clock: Clock, time: string -> int): (r: seq<Task>)
    ensures IsSubsequence(r, tasks)
    ensures forall t :: t in r <==> t in tasks && InWindow(QuickFilterFromName(quickFilter), clock, time, t)
    ensures forall t :: multiset(r)[t] ==
              if InWindow(QuickFilterFromName(quickFilter), clock, time, t) then multiset(tasks)[t] else 0
    ensures QuickFilterFromName(quickFilter) == AllTasks ==> r == tasks
    ensures QuickFilterFromName(quickFilter) != AllTasks ==> forall t :: t in r ==> !t.isCompleted
  {
    var q := QuickFilterFromName(quickFilter);
    if q == AllTasks then
      SubsequenceReflexive(tasks);
      tasks
    else
      var keep := (t: Task) => InWindow(q, clock, time, t);
      FilterIsSubsequence(tasks, keep);
      FilterMembers(tasks, keep);
      FilterCounts(tasks, keep);
      Filter(tasks, keep)
  }

  /** With the end of the week on or after today, everything due today is
      also due this week, in the same order. */
  lemma TodayWithinWeek(tasks: seq<Task>, clock: Clock, time: string -> int)
    requires AtMost(clock.today, clock.endOfWeek)
    ensures IsSubsequence(ApplyQuickFilter(tasks, "today", clock, time), ApplyQuickFilter(tasks, "week", clock, time))
  {
    QuickFilterRoundTrip(Today);
    QuickFilterRoundTrip(Week);
    LessIrreflexive(clock.today);
    FilterMonotone(tasks, (t: Task) => InWindow(Today, clock, time, t), (t: Task) => InWindow(Week, clock, time, t));
  }
}
