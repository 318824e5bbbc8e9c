/** The record and enumeration types shared by every page: tasks, schedules,
    days, subjects, statistics and the sort and quick-filter keys. */
module Types {

  datatype Option<+T> = None | Some(value: T)
  {
    /** `x ?? d`: the value when present, otherwise the default. */
    function GetOr(default: T): T
    {
      match this
      case None => default
      case Some(v) => v
    }
  }

  // ---------------------------------------------------------------- priority

  datatype Priority = Rendah | Sedang | Tinggi

  function PriorityName(p: Priority): (r: string)
    ensures r in ["Rendah", "Sedang", "Tinggi"]
  {
    match p
    case Rendah => "Rendah"
    case Sedang => "Sedang"
    case Tinggi => "Tinggi"
  }

  // --------------------------------------------------------------------- days

  datatype Day = Senin | Selasa | Rabu | Kamis | Jumat | Sabtu | Minggu

  function DayName(d: Day): string
  {
    match d
    case Senin => "Senin"
    case Selasa => "Selasa"
    case Rabu => "Rabu"
    case Kamis => "Kamis"
    case Jumat => "Jumat"
    case Sabtu => "Sabtu"
    case Minggu => "Minggu"
  }

  /** The day a name spells, if it spells one. */
  function DayFromName(s: string): (r: Option<Day>)
    ensures r.Some? ==> DayName(r.value) == s
  {
    if s == "Senin" then Some(Senin)
    else if s == "Selasa" then Some(Selasa)
    else if s == "Rabu" then Some(Rabu)
    else if s == "Kamis" then Some(Kamis)
    else if s == "Jumat" then Some(Jumat)
    else if s == "Sabtu" then Some(Sabtu)
    else if s == "Minggu" then Some(Minggu)
    else None
  }

  /** Every day's name reads back as that day, so no two days share a name. */
  lemma DayNameRoundTrip(d: Day)
    ensures DayFromName(DayName(d)) == Some(d)
  {
    match d
    case Senin =>
    case Selasa => assert DayName(d)[2] != "Senin"[2];
    case Rabu => assert DayName(d)[0] != "Senin"[0] && DayName(d)[0] != "Selasa"[0];
    case Kamis =>
    case Jumat =>
    case Sabtu => assert DayName(d)[1] != "Senin"[1] && DayName(d)[1] != "Selasa"[1];
    case Minggu =>
  }

  /** The week in display order, Senin first and Minggu last. */
  const AllDays: seq<Day> := [Senin, Selasa, Rabu, Kamis, Jumat, Sabtu, Minggu]

  /** Exactly seven days: the list holds every day once. */
  lemma AllDaysComplete()
    ensures |AllDays| == 7
    ensures forall d: Day :: d in AllDays
    ensures forall i, j :: 0 <= i < j < |AllDays| ==> AllDays[i] != AllDays[j]
  {
    forall d: Day ensures d in AllDays {
      match d
      case Senin => assert AllDays[0] == d;
      case Selasa => assert AllDays[1] == d;
      case Rabu => assert AllDays[2] == d;
      case Kamis => assert AllDays[3] == d;
      case Jumat => assert AllDays[4] == d;
      case Sabtu => assert AllDays[5] == d;
      case Minggu => assert AllDays[6] == d;
    }
  }

  // ----------------------------------------------------------------- subjects

  datatype Subject =
    | Matematika | BahasaIndonesia | BahasaInggris | Fisika | Kimia | Biologi
    | Sejarah | Geografi | Ekonomi | Pkl | Ppkn | Penjaskes | SeniBudaya
    | ProduktifTkj | ProduktifRpl | Lainnya

  function SubjectName(s: Subject): string
  {
    match s
    case Matematika => "Matematika"
    case BahasaIndonesia => "Bahasa Indonesia"
    case BahasaInggris => "Bahasa Inggris"
    case Fisika => "Fisika"
    case Kimia => "Kimia"
    case Biologi => "Biologi"
    case Sejarah => "Sejarah"
    case Geografi => "Geografi"
    case Ekonomi => "Ekonomi"
    case Pkl => "PKL"
    case Ppkn => "PPKN"
    case Penjaskes => "Penjaskes"
    case SeniBudaya => "Seni Budaya"
    case ProduktifTkj => "Produktif TKJ"
    case ProduktifRpl => "Produktif RPL"
    case Lainnya => "Lainnya"
  }

  /** The subject list in the order the forms offer it. */
  const AllSubjects: seq<Subject> :=
    [Matematika, BahasaIndonesia, BahasaInggris, Fisika, Kimia, Biologi, Sejarah, Geografi,
     Ekonomi, Pkl, Ppkn, Penjaskes, SeniBudaya, ProduktifTkj, ProduktifRpl, Lainnya]

  /** A closed list of sixteen subjects, each listed once, ending with Lainnya. */
  lemma AllSubjectsComplete()
    ensures |AllSubjects| == 16 && AllSubjects[15] == Lainnya
    ensures forall s: Subject :: s in AllSubjects
    ensures forall i, j :: 0 <= i < j < |AllSubjects| ==> AllSubjects[i] != AllSubjects[j]
  {
    forall s: Subject ensures s in AllSubjects {
      assert AllSubjects[SubjectIndex(s)] == s;
    }
  }

  /** Where a subject sits in the form's list. */
  function SubjectIndex(s: Subject): (i: nat)
    ensures i < |AllSubjects| && AllSubjects[i] == s
  {
    match s
    case Matematika => 0
    case BahasaIndonesia => 1
    case BahasaInggris => 2
    case Fisika => 3
    case Kimia => 4
    case Biologi => 5
    case Sejarah => 6
    case Geografi => 7
    case Ekonomi => 8
    case Pkl => 9
    case Ppkn => 10
    case Penjaskes => 11
    case SeniBudaya => 12
    case ProduktifTkj => 13
    case ProduktifRpl => 14
    case Lainnya => 15
  }

  // ------------------------------------------------------------------ records

  /** A task as the pages hold it. */
  datatype Task = Task(
    id: string,
    title: string,
    subject: string,
    deadline: string,
    priority: Priority,
    isCompleted: bool,
    createdAt: string)

  /** A timetable entry. The room is optional. The day is declared as a `Day`,
      but the loaders pass the stored value through unchecked, so it is kept
      here as the possibly missing string that actually arrives. */
  datatype Schedule = Schedule(
    id: string,
    day: Option<string>,
    subject: string,
    startTime: string,
    endTime: string,
    room: Option<string>)

  /** A schedule whose fields are the ones the type declares: a day name is present. */
  predicate HasValidDay(s: Schedule)
  {
    s.day.Some? && DayFromName(s.day.value).Some?
  }

  /** The dashboard counters; `completionRate` is a percentage. */
  datatype TaskStats = TaskStats(
    total: nat,
    completed: nat,
    pending: nat,
    todayTasks: nat,
    completionRate: int)

  /** The status choice of the task filters. */
  datatype StatusFilter = AllStatuses | CompletedOnly | PendingOnly

  function StatusFilterName(f: StatusFilter): string
  {
    match f
    case AllStatuses => "all"
    case CompletedOnly => "completed"
    case PendingOnly => "pending"
  }

  // --------------------------------------------------------------- sort keys

  datatype SortOption =
    | DeadlineAsc | DeadlineDesc | PriorityHigh | PriorityLow
    | TitleAsc | TitleDesc | CreatedNew | CreatedOld

  function SortOptionName(o: SortOption): string
  {
    match o
    case DeadlineAsc => "deadline-asc"
    case DeadlineDesc => "deadline-desc"
    case PriorityHigh => "priority-high"
    case PriorityLow => "priority-low"
    case TitleAsc => "title-asc"
    case TitleDesc => "title-desc"
    case CreatedNew => "created-new"
    case CreatedOld => "created-old"
  }

  /** The sort key a string names; anything else is no key at all. */
  function SortOptionFromName(s: string): (r: Option<SortOption>)
    ensures r.Some? ==> SortOptionName(r.value) == s
  {
    if s == "deadline-asc" then Some(DeadlineAsc)
    else if s == "deadline-desc" then Some(DeadlineDesc)
    else if s == "priority-high" then Some(PriorityHigh)
    else if s == "priority-low" then Some(PriorityLow)
    else if s == "title-asc" then Some(TitleAsc)
    else if s == "title-desc" then Some(TitleDesc)
    else if s == "created-new" then Some(CreatedNew)
    else if s == "created-old" then Some(CreatedOld)
    else None
  }

  /** Every sort key's name reads back as that key: the eight names are distinct. */
  lemma {:induction false} SortOptionRoundTrip(o: SortOption)
    ensures SortOptionFromName(SortOptionName(o)) == Some(o)
  {
    var n := SortOptionName(o);
    match o
    case DeadlineAsc =>
    case DeadlineDesc => assert n[9] != "deadline-asc"[9];
    case PriorityHigh => assert n[0] != 'd';
    case PriorityLow => assert n[0] != 'd' && n[9] != "priority-high"[9];
    case TitleAsc => assert n[0] != 'd' && n[0] != 'p';
    case TitleDesc => assert n[0] != 'd' && n[0] != 'p' && n[6] != "title-asc"[6];
    case CreatedNew => assert n[0] != 'd' && n[0] != 'p' && n[0] != 't';
    case CreatedOld =>
      assert n[0] != 'd' && n[0] != 'p' && n[0] != 't' && n[8] != "created-new"[8];
  }

  // ------------------------------------------------------------ quick filter

  datatype QuickFilter = AllTasks | Today | Week | Overdue

  function QuickFilterName(q: QuickFilter): string
  {
    match q
    case AllTasks => "all"
    case Today => "today"
    case Week => "week"
    case Overdue => "overdue"
  }

  /** The time window a string names; `all` and every unknown string keep everything. */
  function QuickFilterFromName(s: string): (r: QuickFilter)
    ensures r != AllTasks ==> QuickFilterName(r) == s
  {
    if s == "today" then Today
    else if s == "week" then Week
    else if s == "overdue" then Overdue
    else AllTasks
  }

  /** Every quick-filter key's name reads back as that key. */
  lemma {:induction false} QuickFilterRoundTrip(q: QuickFilter)
    ensures QuickFilterFromName(QuickFilterName(q)) == q
  {
    var n := QuickFilterName(q);
    match q
    case AllTasks => assert n[0] == 'a';
    case Today =>
    case Week => assert n[0] != 't';
    case Overdue => assert n[0] != 't' && n[0] != 'w';
  }

  // ------------------------------------------------------------------- clock

  /** What the pages read from `new Date()`: today's and the end of the week's
      ISO date parts ("YYYY-MM-DD"), the current instant as a timestamp, the
      weekday (0 = Sunday) and the hour of the day. */
  datatype Clock = Clock(today: string, endOfWeek: string, now: int, weekday: int, hour: int)

  /** Weekday and hour are in the ranges `getDay` and `getHours` return. */
  predicate ValidClock(c: Clock)
  {
    0 <= c.weekday < 7 && 0 <= c.hour < 24
  }
}
