/** The dashboard's figures: task statistics, today's open tasks and today's
    lessons. */
module TaskHelpers {
  import opened Types
  import opened Seqs
  import opened JsString
  import opened SortHelpers

  // ------------------------------------------------------------ statistics

  /** `Math.round(completed / total * 100)`, or 0 for an empty list, in exact
      arithmetic: the percentage rounded to the nearest integer, halves up. */
  function CompletionRate(completed: nat, total: nat): (r: int)
    requires completed <= total
    ensures 0 <= r <= 100
    ensures total == 0 ==> r == 0
    ensures total > 0 ==> (2 * r - 1) * total <= 200 * completed < (2 * r + 1) * total
  {
    if total > 0 then
      var r := (200 * completed + total) / (2 * total);
      RoundedQuotient(completed, total, r);
      r
    else 0
  }

  /** The bounds that define the quotient `r` of `200c + t` by `2t`. */
  lemma RoundedQuotient(c: nat, t: nat, r: int)
    requires c <= t && t > 0 && r == (200 * c + t) / (2 * t)
    ensures 0 <= r <= 100
    ensures (2 * r - 1) * t <= 200 * c < (2 * r + 1) * t
  {
    var n, d := 200 * c + t, 2 * t;
    assert r * d <= n < r * d + d;
    assert r * d == (2 * r) * t;
    assert (2 * r - 1) * t == (2 * r) * t - t && (2 * r + 1) * t == (2 * r) * t + t;
    ScaleMonotone(0, 2 * r + 1, t);
    ScaleMonotone(2 * r - 1, 200, t);
  }

  /** Multiplying by a positive number keeps the order of two numbers. */
  lemma ScaleMonotone(a: int, b: int, t: int)
    requires t > 0
    ensures a * t <= b * t <==> a <= b
  {
    if a <= b {
      assert (b - a) * t >= 0;
    } else {
      assert (a - b) * t > 0;
    }
  }

  /** All tasks completed shows 100. */
  lemma AllCompletedIsHundred(total: nat)
    requires total > 0
    ensures CompletionRate(total, total) == 100
  {
    var r := CompletionRate(total, total);
    ScaleMonotone(2 * r - 1, 200, total);
    ScaleMonotone(2 * r + 1, 200, total);
  }

  /** The rate shows 100 exactly when at least 99.5% of the tasks are completed. */
  lemma HundredIffNearlyAll(completed: nat, total: nat)
    requires completed <= total && total > 0
    ensures CompletionRate(completed, total) == 100 <==> 200 * completed >= 199 * total
  {
    var r := CompletionRate(completed, total);
    ScaleMonotone(2 * r + 1, 199, total);
    ScaleMonotone(199, 2 * r - 1, total);
  }

  /** So 100 does not mean every task is done: 199 of 200 already shows 100. */
  lemma HundredWithOneOpen()
    ensures CompletionRate(199, 200) == 100
  {
  }

  /** Completing more tasks never lowers the rate. */
  lemma RateMonotone(c1: nat, c2: nat, total: nat)
    requires c1 <= c2 <= total
    ensures CompletionRate(c1, total) <= CompletionRate(c2, total)
  {
    if total > 0 {
      var r1, r2 := CompletionRate(c1, total), CompletionRate(c2, total);
      ScaleMonotone(2 * r2 + 1, 2 * r1 - 1, total);
    }
  }

  predicate IsDone(t: Task)
  {
    t.isCompleted
  }

  predicate IsOpen(t: Task)
  {
    !t.isCompleted
  }

  /** A task whose deadline date is today, completed or not. */
  predicate DueOn(t: Task, today: string)
  {
    DatePart(t.deadline) == today
  }

  /** `calculateTaskStats(tasks)`, with today's ISO date part as a parameter. */
  function CalculateTaskStats(tasks: seq<Task>, today: string): (r: TaskStats)
    ensures r.total == |tasks|
    ensures r.completed == |Filter(tasks, IsDone)| <= r.total
    ensures r.pending == |Filter(tasks, IsOpen)|
    ensures r.completed + r.pending == r.total
    ensures r.todayTasks == |Filter(tasks, (t: Task) => DueOn(t, today))| <= r.total
    ensures r.completionRate == CompletionRate(r.completed, r.total)
    ensures tasks == [] ==> r == TaskStats(0, 0, 0, 0, 0)
  {
    var total := |tasks|;
    var completed := |Filter(tasks, IsDone)|;
    FilterPartition(tasks, IsDone);
    FilterExtensional(tasks, Not(IsDone), IsOpen);
    TaskStats(
      total,
      completed,
      total - completed,
      |Filter(tasks, (t: Task) => DueOn(t, today))|,
      CompletionRate(completed, total))
  }

  // ------------------------------------------------------- today's tasks

  /** `getTodayTasks(tasks)`: the open tasks due today, earliest deadline first. */
  function GetTodayTasks(tasks: seq<Task>, today: string, time: string -> int): (r: seq<Task>)
    ensures forall t :: t in r <==> t in tasks && DueToday(t, today)
    ensures multiset(r) == multiset(Filter(tasks, (t: Task) => DueToday(t, today)))
    ensures forall t :: multiset(r)[t] == if DueToday(t, today) then multiset(tasks)[t] else 0
    ensures forall i, j :: 0 <= i < j < |r| ==> time(r[i].deadline) <= time(r[j].deadline)
  {
    var due := Filter(tasks, (t: Task) => DueToday(t, today));
    FilterMembers(tasks, (t: Task) => DueToday(t, today));
    FilterCounts(tasks, (t: Task) => DueToday(t, today));
    StableSortSorted(ByDeadline(time), due);
    var r := StableSort(ByDeadline(time), due);
    MultisetMembers(r, due);
    r
  }

  // ---------------------------------------------------- today's lessons

  /** `['Minggu', 'Senin', ..., 'Sabtu'][getDay()]`: the name of a weekday
      numbered from Sunday. */
  function WeekdayName(weekday: int): (r: string)
    requires 0 <= weekday < 7
    ensures weekday == 0 ==> r == DayName(Minggu)
    ensures 1 <= weekday ==> r == DayName(AllDays[weekday - 1])
  {
    ["Minggu", "Senin", "Selasa", "Rabu", "Kamis", "Jumat", "Sabtu"][weekday]
  }

  /** Earlier start first: `timeLe` stands for `localeCompare(a, b) <= 0` on
      the "HH:MM" start times. */
  function ByStartTime(timeLe: (string, string) -> bool): (Schedule, Schedule) -> bool
  {
    (a: Schedule, b: Schedule) => timeLe(a.startTime, b.startTime)
  }

  lemma ByStartTimeIsTotalPreorder(timeLe: (string, string) -> bool)
    requires TotalPreorder(timeLe)
    ensures TotalPreorder(ByStartTime(timeLe))
  {
    var le := ByStartTime(timeLe);
    forall a: Schedule, b: Schedule ensures le(a, b) || le(b, a) {
      assert timeLe(a.startTime, b.startTime) || timeLe(b.startTime, a.startTime);
    }
    forall a: Schedule, b: Schedule, c: Schedule | le(a, b) && le(b, c) ensures le(a, c) {
      assert timeLe(a.startTime, b.startTime) && timeLe(b.startTime, c.startTime);
    }
  }

  /** Under a total-preorder collation the sorted lessons come earliest
      start first. */
  lemma StartOrder(timeLe: (string, string) -> bool, lessons: seq<Schedule>)
    ensures TotalPreorder(timeLe) ==> Sorted(ByStartTime(timeLe), StableSort(ByStartTime(timeLe), lessons))
  {
    if TotalPreorder(timeLe) {
      ByStartTimeIsTotalPreorder(timeLe);
      StableSortSorted(ByStartTime(timeLe), lessons);
    }
  }

  /** A lesson held on the named day. */
  predicate OnDayNamed(s: Schedule, name: string)
  {
    s.day == Some(name)
  }

  /** The lessons of a weekday numbered from Sunday, as a filter. */
  function HeldOn(weekday: int): Schedule -> bool
    requires 0 <= weekday < 7
  {
    (s: Schedule) => OnDayNamed(s, WeekdayName(weekday))
  }

  /** `getTodaySchedules(schedules)`: the lessons held today, in start order. */
  function GetTodaySchedules(schedules: seq<Schedule>, weekday: int, timeLe: (string, string) -> bool): (r: seq<Schedule>)
    requires 0 <= weekday < 7
    ensures forall s :: s in r <==> s in schedules && OnDayNamed(s, WeekdayName(weekday))
    ensures multiset(r) == multiset(Filter(schedules, HeldOn(weekday)))
    ensures forall s :: multiset(r)[s] == if OnDayNamed(s, WeekdayName(weekday)) then multiset(schedules)[s] else 0
    ensures TotalPreorder(timeLe) ==>
              forall i, j :: 0 <= i < j < |r| ==> timeLe(r[i].startTime, r[j].startTime)
  {
    var today := Filter(schedules, HeldOn(weekday));
    FilterMembers(schedules, HeldOn(weekday));
    FilterCounts(schedules, HeldOn(weekday));
    StartOrder(timeLe, today);
    var r := StableSort(ByStartTime(timeLe), today);
    assert multiset(r) == multiset(today);
    MultisetMembers(r, today);
    r
  }

  /** When the collation is a total preorder, today's lessons come earliest
      start first. */
  lemma GetTodaySchedulesSorted(schedules: seq<Schedule>, weekday: int, timeLe: (string, string) -> bool)
    requires 0 <= weekday < 7 && TotalPreorder(timeLe)
    ensures var r := GetTodaySchedules(schedules, weekday, timeLe);
      forall i, j :: 0 <= i < j < |r| ==> timeLe(r[i].startTime, r[j].startTime)
  {
    ByStartTimeIsTotalPreorder(timeLe);
    StableSortSorted(ByStartTime(timeLe), Filter(schedules, HeldOn(weekday)));
  }
}
