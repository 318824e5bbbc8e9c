/** The weekly schedule page backed by the schedules endpoint: its handlers,
    the lessons sorted by start time, the lessons of the chosen day, and the
    week view's seven buckets. */
module SiswaSchedulePage {
  import opened Types
  import opened Seqs
  import opened Records
  import opened ListUpdates
  import opened TaskHelpers

  /** `days[getDay() === 0 ? 6 : getDay() - 1]`: the day of a weekday numbered
      from Sunday, in the Monday-first list. */
  function DayForWeekday(weekday: int): (d: Day)
    requires 0 <= weekday < 7
    ensures weekday == 0 <==> d == Minggu
  {
    AllDaysComplete();
    AllDays[if weekday == 0 then 6 else weekday - 1]
  }

  /** This page and the dashboard agree on which day today is. */
  lemma DayForWeekdayAgrees(weekday: int)
    requires 0 <= weekday < 7
    ensures DayName(DayForWeekday(weekday)) == WeekdayName(weekday)
  {
  }

  /** A lesson whose day is `d`. */
  function OnDay(d: Day): Schedule -> bool
  {
    (s: Schedule) => s.day == Some(DayName(d))
  }

  /** A lesson is on at most one day. */
  lemma OnOneDay(s: Schedule, d: Day, e: Day)
    requires OnDay(d)(s) && OnDay(e)(s)
    ensures d == e
  {
    DayNameRoundTrip(d);
    DayNameRoundTrip(e);
  }

  /** Pushing a lesson onto its day's bucket keeps every bucket equal to the
      filter of the lessons seen so far. */
  lemma PushStep(prefix: seq<Schedule>, s: Schedule, day: Day, d: Day)
    requires OnDay(day)(s)
    ensures Filter(prefix + [s], OnDay(d)) == Filter(prefix, OnDay(d)) + (if d == day then [s] else [])
  {
    FilterAppend(prefix, [s], OnDay(d));
    if OnDay(d)(s) {
      OnOneDay(s, d, day);
    }
  }

  datatype ViewMode = WeekView | DayView

  /** Under a total-preorder collation any selection of the sorted lessons
      comes earliest start first. */
  lemma DayStartOrder(timeLe: (string, string) -> bool, lessons: seq<Schedule>, p: Schedule -> bool)
    ensures TotalPreorder(timeLe) ==> Sorted(ByStartTime(timeLe), Filter(StableSort(ByStartTime(timeLe), lessons), p))
  {
    if TotalPreorder(timeLe) {
      StartOrder(timeLe, lessons);
      FilterSorted(ByStartTime(timeLe), StableSort(ByStartTime(timeLe), lessons), p);
    }
  }

  /** How many of the lessons each of `days` holds, added up. */
  function BucketTotal(schedules: seq<Schedule>, days: seq<Day>): nat
  {
    if days == [] then 0
    else |Filter(schedules, OnDay(days[0]))| + BucketTotal(schedules, days[1..])
  }

  /** How many of `days` the lesson is on. */
  function DayHits(s: Schedule, days: seq<Day>): nat
  {
    if days == [] then 0
    else (if OnDay(days[0])(s) then 1 else 0) + DayHits(s, days[1..])
  }

  lemma {:induction false} BucketTotalEmpty(days: seq<Day>)
    ensures BucketTotal([], days) == 0
  {
    if days != [] {
      BucketTotalEmpty(days[1..]);
    }
  }

  /** Taking the first lesson off the list lowers the total by the number of
      days it is on. */
  lemma {:induction false} BucketTotalStep(schedules: seq<Schedule>, days: seq<Day>)
    requires schedules != []
    ensures BucketTotal(schedules, days) == DayHits(schedules[0], days) + BucketTotal(schedules[1..], days)
  {
    if days != [] {
      BucketTotalStep(schedules, days[1..]);
    }
  }

  /** A lesson on a day of a list without repeats is on exactly one of its days. */
  lemma {:induction false} DayHitsOnce(s: Schedule, d: Day, days: seq<Day>)
    requires OnDay(d)(s)
    requires forall i, j :: 0 <= i < j < |days| ==> days[i] != days[j]
    ensures DayHits(s, days) == if d in days then 1 else 0
  {
    if days != [] {
      DayHitsOnce(s, d, days[1..]);
      if OnDay(days[0])(s) {
        OnOneDay(s, d, days[0]);
        assert d !in days[1..] by {
          forall k | 0 <= k < |days[1..]| ensures days[1..][k] != d {
            assert days[1..][k] == days[k + 1];
          }
        }
      } else {
        assert d != days[0];
      }
    }
  }

  /** When every lesson names a valid day, the seven buckets together hold
      every lesson exactly once. */
  lemma {:induction false} BucketsCoverAll(schedules: seq<Schedule>)
    requires forall s :: s in schedules ==> HasValidDay(s)
    ensures BucketTotal(schedules, AllDays) == |schedules|
  {
    if schedules == [] {
      BucketTotalEmpty(AllDays);
    } else {
      var s := schedules[0];
      assert HasValidDay(s);
      var d := DayFromName(s.day.value).value;
      AllDaysComplete();
      DayHitsOnce(s, d, AllDays);
      BucketTotalStep(schedules, AllDays);
      BucketsCoverAll(schedules[1..]);
    }
  }

  /** Every day has a bucket, holding that day's lessons of `lessons` in order. */
  predicate Grouped(buckets: map<Day, seq<Schedule>>, lessons: seq<Schedule>)
  {
    forall d: Day :: d in buckets && buckets[d] == Filter(lessons, OnDay(d))
  }

  /** Seven empty buckets, then each lesson pushed, in order, onto its day's
      bucket; a lesson whose day is not one of the seven makes the push throw,
      which is `None`. */
  method PushByDay(lessons: seq<Schedule>) returns (groups: Option<map<Day, seq<Schedule>>>)
    ensures groups.None? <==> exists s :: s in lessons && !HasValidDay(s)
    ensures groups.Some? ==> forall d: Day :: d in groups.value
    ensures groups.Some? ==> forall d: Day :: d in groups.value ==> groups.value[d] == Filter(lessons, OnDay(d))
  {
    var buckets := EmptyBuckets();
    assert lessons[..0] == [];
    var i := 0;
    while i < |lessons|
      invariant 0 <= i <= |lessons|
      invariant Grouped(buckets, lessons[..i])
      invariant forall k :: 0 <= k < i ==> HasValidDay(lessons[k])
    {
      var s := lessons[i];
      if !HasValidDay(s) {
        assert s in lessons;
        return None;
      }
      var day := DayFromName(s.day.value).value;
      assert lessons[..i + 1] == lessons[..i] + [s];
      PushPreserves(buckets, lessons[..i], s, day);
      buckets := buckets[day := buckets[day] + [s]];
      i := i + 1;
    }
    assert lessons[..i] == lessons;
    assert Grouped(buckets, lessons);
    forall s | s in lessons
      ensures HasValidDay(s)
    {
      var k :| 0 <= k < |lessons| && lessons[k] == s;
    }
    groups := Some(buckets);
  }

  /** The seven empty buckets of the initial `schedulesByDay`. */
  function EmptyBuckets(): (buckets: map<Day, seq<Schedule>>)
    ensures Grouped(buckets, [])
  {
    AllDaysComplete();
    var buckets := map d | d in AllDays :: [];
    forall d: Day ensures d in buckets && buckets[d] == Filter([], OnDay(d)) {
      assert d in AllDays;
    }
    buckets
  }

  /** Pushing a lesson onto its own day's bucket keeps the buckets grouped. */
  lemma PushPreserves(buckets: map<Day, seq<Schedule>>, prefix: seq<Schedule>, s: Schedule, day: Day)
    requires Grouped(buckets, prefix) && OnDay(day)(s)
    ensures Grouped(buckets[day := buckets[day] + [s]], prefix + [s])
  {
    var next := buckets[day := buckets[day] + [s]];
    forall d: Day ensures d in next && next[d] == Filter(prefix + [s], OnDay(d)) {
      PushStep(prefix, s, day, d);
    }
  }

  /** The page's state. A request that throws is `requestOk == false`; the
      handler then only logs, so the state stays as it was. */
  class Page {
    var schedules: seq<Schedule>
    var isLoading: bool
    var viewMode: ViewMode
    var selectedDay: Day
    var isModalOpen: bool
    var editingSchedule: Option<Schedule>

    /** A lesson is being edited only while the form dialog is open. */
    predicate Valid()
      reads this
    {
      editingSchedule.Some? ==> isModalOpen
    }

    /** The first render: no lessons yet, loading, the week view on Senin. */
    constructor()
      ensures Valid()
      ensures schedules == [] && isLoading
      ensures viewMode == WeekView && selectedDay == Senin
      ensures !isModalOpen && editingSchedule == None
    {
      schedules, isLoading := [], true;
      viewMode, selectedDay := WeekView, Senin;
      isModalOpen, editingSchedule := false, None;
    }

    /** The mount effect's second half: select today. */
    method SelectToday(weekday: int)
      requires Valid() && 0 <= weekday < 7
      modifies this
      ensures Valid()
      ensures selectedDay == DayForWeekday(weekday)
      ensures DayName(selectedDay) == WeekdayName(weekday)
      ensures schedules == old(schedules) && isLoading == old(isLoading) && viewMode == old(viewMode)
      ensures isModalOpen == old(isModalOpen) && editingSchedule == old(editingSchedule)
    {
      selectedDay := DayForWeekday(weekday);
      DayForWeekdayAgrees(weekday);
    }

    /** `fetchSchedules`: a response replaces the list with its normalised
        records; a failed request keeps the list. Loading ends either way. */
    method Load(response: Response<ScheduleRecord>)
      requires Valid()
      modifies this
      ensures Valid()
      ensures response.Received? ==> schedules == NormalizeSchedules(Records.Records(response.data))
      ensures response.Failed? ==> schedules == old(schedules)
      ensures !isLoading
      ensures viewMode == old(viewMode) && selectedDay == old(selectedDay)
      ensures isModalOpen == old(isModalOpen) && editingSchedule == old(editingSchedule)
    {
      match response {
        case Received(data) => schedules := NormalizeSchedules(Records.Records(data));
        case Failed =>
      }
      isLoading := false;
    }

    /** The view toggle and the day picker. */
    method Show(mode: ViewMode, day: Day)
      requires Valid()
      modifies this
      ensures Valid()
      ensures viewMode == mode && selectedDay == day
      ensures schedules == old(schedules) && isLoading == old(isLoading)
      ensures isModalOpen == old(isModalOpen) && editingSchedule == old(editingSchedule)
    {
      viewMode, selectedDay := mode, day;
    }

    /** `handleAddNew`: opens an empty form. */
    method AddNew()
      requires Valid()
      modifies this
      ensures Valid()
      ensures isModalOpen && editingSchedule == None
      ensures schedules == old(schedules) && isLoading == old(isLoading)
      ensures viewMode == old(viewMode) && selectedDay == old(selectedDay)
    {
      editingSchedule := None;
      isModalOpen := true;
    }

    /** `handleEdit(schedule)`: opens the form on a lesson. */
    method Edit(schedule: Schedule)
      requires Valid()
      modifies this
      ensures Valid()
      ensures isModalOpen && editingSchedule == Some(schedule)
      ensures schedules == old(schedules) && isLoading == old(isLoading)
      ensures viewMode == old(viewMode) && selectedDay == old(selectedDay)
    {
      editingSchedule := Some(schedule);
      isModalOpen := true;
    }

    /** `handleDelete(id)`: once confirmed and the delete request returns,
        the lessons with the id are dropped. */
    method Delete(id: string, confirmed: bool, requestOk: bool)
      requires Valid()
      modifies this
      ensures Valid()
      ensures confirmed && requestOk ==> schedules == RemoveById(old(schedules), ScheduleId, id)
      ensures !(confirmed && requestOk) ==> schedules == old(schedules)
      ensures isLoading == old(isLoading) && viewMode == old(viewMode) && selectedDay == old(selectedDay)
      ensures isModalOpen == old(isModalOpen) && editingSchedule == old(editingSchedule)
    {
      if confirmed && requestOk {
        schedules := RemoveById(schedules, ScheduleId, id);
      }
    }

    /** `handleFormSubmit(scheduleData)`: an edit replaces the lessons with its
        id; a new lesson is appended as the server returned it (`stored`).
        Only a request that returns closes the dialog. */
    method FormSubmit(scheduleData: Schedule, requestOk: bool, stored: Schedule)
      requires Valid()
      modifies this
      ensures Valid()
      ensures requestOk && old(editingSchedule).Some? ==>
                schedules == ReplaceById(old(schedules), ScheduleId, scheduleData)
      ensures requestOk && old(editingSchedule).None? ==> schedules == old(schedules) + [stored]
      ensures requestOk ==> !isModalOpen && editingSchedule == None
      ensures !requestOk ==> schedules == old(schedules)
      ensures !requestOk ==> isModalOpen == old(isModalOpen) && editingSchedule == old(editingSchedule)
      ensures isLoading == old(isLoading) && viewMode == old(viewMode) && selectedDay == old(selectedDay)
    {
      if requestOk {
        if editingSchedule.Some? {
          schedules := ReplaceById(schedules, ScheduleId, scheduleData);
        } else {
          schedules := schedules + [stored];
        }
        isModalOpen := false;
        editingSchedule := None;
      }
    }

    /** `handleFormCancel`. */
    method FormCancel()
      requires Valid()
      modifies this
      ensures Valid()
      ensures !isModalOpen && editingSchedule == None
      ensures schedules == old(schedules) && isLoading == old(isLoading)
      ensures viewMode == old(viewMode) && selectedDay == old(selectedDay)
    {
      isModalOpen := false;
      editingSchedule := None;
    }

    /** `sortedSchedules`: a sorted copy, earliest start first; `timeLe`
        stands for `localeCompare(a, b) <= 0` on the start times. */
    function SortedSchedules(timeLe: (string, string) -> bool): (r: seq<Schedule>)
      reads this
      ensures multiset(r) == multiset(schedules)
      ensures TotalPreorder(timeLe) ==>
                forall i, j :: 0 <= i < j < |r| ==> timeLe(r[i].startTime, r[j].startTime)
    {
      StartOrder(timeLe, schedules);
      StableSort(ByStartTime(timeLe), schedules)
    }

    /** The day view's list: the lessons of the selected day, every copy of
        each, in the sorted order. */
    function DaySchedules(timeLe: (string, string) -> bool): (r: seq<Schedule>)
      reads this
      ensures forall s :: s in r <==> s in schedules && s.day == Some(DayName(selectedDay))
      ensures forall s :: multiset(r)[s] ==
                if s.day == Some(DayName(selectedDay)) then multiset(schedules)[s] else 0
      ensures IsSubsequence(r, SortedSchedules(timeLe))
      ensures TotalPreorder(timeLe) ==>
                forall i, j :: 0 <= i < j < |r| ==> timeLe(r[i].startTime, r[j].startTime)
    {
      var sorted := SortedSchedules(timeLe);
      FilterMembers(sorted, OnDay(selectedDay));
      FilterCounts(sorted, OnDay(selectedDay));
      FilterIsSubsequence(sorted, OnDay(selectedDay));
      MultisetMembers(sorted, schedules);
      DayStartOrder(timeLe, schedules, OnDay(selectedDay));
      Filter(sorted, OnDay(selectedDay))
    }

    /** The week view's `schedulesByDay` over the sorted lessons. A lesson
        whose day is not one of the seven makes the page throw, which is
        `None`. */
    method GroupByDay(timeLe: (string, string) -> bool) returns (groups: Option<map<Day, seq<Schedule>>>)
      ensures groups.None? <==> exists s :: s in schedules && !HasValidDay(s)
      ensures groups.Some? ==> forall d: Day :: d in groups.value
      ensures groups.Some? ==> forall d: Day :: d in groups.value ==>
                groups.value[d] == Filter(SortedSchedules(timeLe), OnDay(d))
      ensures groups.Some? ==> selectedDay in groups.value && groups.value[selectedDay] == DaySchedules(timeLe)
    {
      var sorted := SortedSchedules(timeLe);
      MultisetMembers(sorted, schedules);
      groups := PushByDay(sorted);
      assert DaySchedules(timeLe) == Filter(sorted, OnDay(selectedDay));
    }

    /** The week view shows every lesson exactly once: when grouping
        succeeds, the seven bucket sizes add up to the number of lessons. */
    lemma WeekViewShowsAll(timeLe: (string, string) -> bool)
      requires forall s :: s in schedules ==> HasValidDay(s)
      ensures BucketTotal(SortedSchedules(timeLe), AllDays) == |schedules|
    {
      var sorted := SortedSchedules(timeLe);
      MultisetMembers(sorted, schedules);
      assert |sorted| == |multiset(sorted)| == |multiset(schedules)| == |schedules|;
      BucketsCoverAll(sorted);
    }

    /** Each bucket, like the day view, lists its lessons earliest start first. */
    lemma BucketSorted(timeLe: (string, string) -> bool, d: Day)
      requires TotalPreorder(timeLe)
      ensures var r := Filter(SortedSchedules(timeLe), OnDay(d));
        forall i, j :: 0 <= i < j < |r| ==> timeLe(r[i].startTime, r[j].startTime)
    {
      ByStartTimeIsTotalPreorder(timeLe);
      StableSortSorted(ByStartTime(timeLe), schedules);
      FilterSorted(ByStartTime(timeLe), SortedSchedules(timeLe), OnDay(d));
    }
  }
}
