/** The dashboard: it loads tasks and schedules together, normalises their
    records, and shows the statistics, today's open tasks, today's lessons
    and a greeting for the hour. */
module Dashboard {
  import opened Types
  import opened Seqs
  import opened Records
  import opened TaskHelpers
  import opened SortHelpers

  /** A string JavaScript treats as true: any but the empty one. */
  predicate Truthy(s: Option<string>)
  {
    s.Some? && s.value != ""
  }

  /** The dashboard's task normaliser. A present `dueDate` wins over
      `deadline` and is rewritten as an ISO timestamp; a present creation
      date is rewritten too; the completion flag falls back to
      `status === 'completed'`. `toIso` stands for
      `new Date(x).toISOString()`, `None` where that throws. */
  function NormalizeTask(rec: TaskRecord, toIso: string -> Option<string>): (r: Option<Task>)
    ensures r.None? <==>
              (Truthy(rec.dueDate) && toIso(rec.dueDate.value).None?) ||
              (Truthy(rec.createdAt) && toIso(rec.createdAt.value).None?)
    ensures r.Some? ==> r.value.id == ResolveId(rec.id, rec.mongoId)
    ensures r.Some? ==> r.value.title == rec.title && r.value.subject == rec.subject
    ensures r.Some? && Truthy(rec.dueDate) ==> Some(r.value.deadline) == toIso(rec.dueDate.value)
    ensures r.Some? && !Truthy(rec.dueDate) ==> r.value.deadline == rec.deadline.GetOr("")
    ensures r.Some? ==> r.value.priority == rec.priority.GetOr(Sedang)
    ensures r.Some? && rec.isCompleted.Some? ==> r.value.isCompleted == rec.isCompleted.value
    ensures r.Some? && rec.isCompleted.None? ==> (r.value.isCompleted <==> rec.status == Some("completed"))
    ensures r.Some? && Truthy(rec.createdAt) ==> Some(r.value.createdAt) == toIso(rec.createdAt.value)
    ensures r.Some? && !Truthy(rec.createdAt) ==> r.value.createdAt == ""
  {
    var deadline := if Truthy(rec.dueDate) then toIso(rec.dueDate.value) else Some(rec.deadline.GetOr(""));
    var createdAt := if Truthy(rec.createdAt) then toIso(rec.createdAt.value) else Some("");
    if deadline.None? || createdAt.None? then None
    else
      Some(Task(ResolveId(rec.id, rec.mongoId), rec.title, rec.subject, deadline.value,
        rec.priority.GetOr(Sedang), rec.isCompleted.GetOr(rec.status == Some("completed")),
        createdAt.value))
  }

  /** A stored task whose creation date is already an ISO timestamp (or
      empty) normalises back to itself. */
  lemma NormalizeTaskRoundTrip(t: Task, toIso: string -> Option<string>)
    requires t.createdAt == "" || toIso(t.createdAt) == Some(t.createdAt)
    ensures NormalizeTask(TaskRecordOf(t), toIso) == Some(t)
  {
  }

  /** `tasksData.map(normalise)`: every record normalised, in order, or
      `None` as soon as one of them throws. */
  function NormalizeTasks(records: seq<TaskRecord>, toIso: string -> Option<string>): (r: Option<seq<Task>>)
    ensures r.None? <==> exists i :: 0 <= i < |records| && NormalizeTask(records[i], toIso).None?
    ensures r.Some? ==> |r.value| == |records|
    ensures r.Some? ==> forall i :: 0 <= i < |records| ==> Some(r.value[i]) == NormalizeTask(records[i], toIso)
  {
    if records == [] then Some([])
    else
      var last := NormalizeTask(records[|records| - 1], toIso);
      var init := NormalizeTasks(records[..|records| - 1], toIso);
      if init.None? then
        var i :| 0 <= i < |records| - 1 && NormalizeTask(records[..|records| - 1][i], toIso).None?;
        assert records[i] == records[..|records| - 1][i];
        None
      else if last.None? then None
      else
        var r := init.value + [last.value];
        assert forall i :: 0 <= i < |records| - 1 ==> records[i] == records[..|records| - 1][i];
        Some(r)
  }

  /** The three greetings of the header. */
  datatype Greeting = Pagi | Siang | Malam

  /** `getGreeting()` for the local hour: morning before 12, afternoon
      before 17, evening after. */
  function GetGreeting(hour: int): (r: Greeting)
    ensures r == Pagi <==> hour < 12
    ensures r == Siang <==> 12 <= hour < 17
    ensures r == Malam <==> 17 <= hour
  {
    if hour < 12 then Pagi
    else if hour < 17 then Siang
    else Malam
  }

  function GreetingRank(g: Greeting): int
  {
    match g
    case Pagi => 0
    case Siang => 1
    case Malam => 2
  }

  /** Through the day the greeting only moves forward. */
  lemma GreetingMonotone(h1: int, h2: int)
    requires h1 <= h2
    ensures GreetingRank(GetGreeting(h1)) <= GreetingRank(GetGreeting(h2))
  {
  }

  /** The dashboard's state. The unmount guard is left out. */
  class Page {
    var tasks: seq<Task>
    var schedules: seq<Schedule>
    var isLoading: bool

    constructor()
      ensures tasks == [] && schedules == [] && isLoading
    {
      tasks, schedules, isLoading := [], [], true;
    }

    /** `fetchData`: both bodies arrive and every record normalises, and
        both lists are replaced (a missing `data` reads as no records);
        otherwise both lists are emptied. Loading ends either way. */
    method Load(taskResponse: Response<TaskRecord>, scheduleResponse: Response<ScheduleRecord>,
                toIso: string -> Option<string>)
      modifies this
      ensures !isLoading
      ensures taskResponse.Received? && scheduleResponse.Received? &&
              NormalizeTasks(Records.Records(taskResponse.data), toIso).Some? ==>
                tasks == NormalizeTasks(Records.Records(taskResponse.data), toIso).value &&
                schedules == NormalizeSchedules(Records.Records(scheduleResponse.data))
      ensures taskResponse.Failed? || scheduleResponse.Failed? ||
              NormalizeTasks(Records.Records(taskResponse.data), toIso).None? ==>
                tasks == [] && schedules == []
    {
      if taskResponse.Failed? || scheduleResponse.Failed? {
        tasks, schedules := [], [];
      } else {
        var normalized := NormalizeTasks(Records.Records(taskResponse.data), toIso);
        if normalized.None? {
          tasks, schedules := [], [];
        } else {
          tasks := normalized.value;
          schedules := NormalizeSchedules(Records.Records(scheduleResponse.data));
        }
      }
      isLoading := false;
    }

    /** `calculateTaskStats(tasks)`. */
    function Stats(today: string): (r: TaskStats)
      reads this
      ensures r.total == |tasks|
      ensures r.completed == |Filter(tasks, IsDone)| && r.pending == |Filter(tasks, IsOpen)|
      ensures r.completed + r.pending == r.total
      ensures r.todayTasks == |Filter(tasks, (t: Task) => DueOn(t, today))|
      ensures r.completionRate == CompletionRate(r.completed, r.total)
    {
      CalculateTaskStats(tasks, today)
    }

    /** `getTodayTasks(tasks)`. */
    function TodayTasks(today: string, time: string -> int): (r: seq<Task>)
      reads this
      ensures forall t :: t in r <==> t in tasks && DueToday(t, today)
      ensures forall t :: multiset(r)[t] == if DueToday(t, today) then multiset(tasks)[t] else 0
      ensures forall i, j :: 0 <= i < j < |r| ==> time(r[i].deadline) <= time(r[j].deadline)
    {
      GetTodayTasks(tasks, today, time)
    }

    /** `getTodaySchedules(schedules)`. */
    function TodaySchedules(weekday: int, timeLe: (string, string) -> bool): (r: seq<Schedule>)
      reads this
      requires 0 <= weekday < 7
      ensures forall s :: s in r <==> s in schedules && s.day == Some(WeekdayName(weekday))
      ensures forall s :: multiset(r)[s] == if s.day == Some(WeekdayName(weekday)) then multiset(schedules)[s] else 0
      ensures TotalPreorder(timeLe) ==>
                forall i, j :: 0 <= i < j < |r| ==> timeLe(r[i].startTime, r[j].startTime)
    {
      GetTodaySchedules(schedules, weekday, timeLe)
    }
  }
}
