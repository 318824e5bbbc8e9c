/** The loosely typed records the task and schedule endpoints return. A field
    the server may leave out, or send as `null`, is an `Option`; `mongoId` is
    the database's `_id`, where one page tells a missing field from a `null`
    one. */
module Records {
  import opened Types

  /** A JSON field that may be missing, `null`, or present. */
  datatype Nullable<T> = Missing | Null | Present(value: T)

  datatype TaskRecord = TaskRecord(
    id: Option<string>,
    mongoId: Nullable<string>,
    title: string,
    subject: string,
    deadline: Option<string>,
    dueDate: Option<string>,
    priority: Option<Priority>,
    isCompleted: Option<bool>,
    status: Option<string>,
    createdAt: Option<string>)

  datatype ScheduleRecord = ScheduleRecord(
    id: Option<string>,
    mongoId: Nullable<string>,
    day: Option<string>,
    subject: string,
    startTime: string,
    endTime: string,
    room: Option<string>)

  /** The outcome of fetching an endpoint whose body is `{ data: [...] }`:
      either the request or the JSON parsing threw, or a body arrived, whose
      `data` may be missing. */
  datatype Response<T> = Failed | Received(data: Option<seq<T>>)

  /** `json.data || []`: the records of a body, none when `data` is missing. */
  function Records<T>(data: Option<seq<T>>): (r: seq<T>)
    ensures data.None? ==> r == []
    ensures data.Some? ==> r == data.value
  {
    data.GetOr([])
  }

  /** `r.id ?? r._id ?? String(r._id ?? '')`: the record's own id, else the
      database id, else the empty string. */
  function ResolveId(id: Option<string>, mongoId: Nullable<string>): (r: string)
    ensures id.Some? ==> r == id.value
    ensures id.None? && mongoId.Present? ==> r == mongoId.value
    ensures id.None? && !mongoId.Present? ==> r == ""
  {
    match (id, mongoId)
    case (Some(v), _) => v
    case (None, Present(v)) => v
    case (None, _) => ""
  }

  /** The schedule normaliser the dashboard and the schedule page share: the
      id resolved, every other field passed through unchecked. */
  function NormalizeSchedule(rec: ScheduleRecord): (r: Schedule)
    ensures r.id == ResolveId(rec.id, rec.mongoId)
    ensures r.day == rec.day && r.subject == rec.subject && r.room == rec.room
    ensures r.startTime == rec.startTime && r.endTime == rec.endTime
  {
    Schedule(ResolveId(rec.id, rec.mongoId), rec.day, rec.subject, rec.startTime, rec.endTime, rec.room)
  }

  /** The record a stored schedule is sent back as. */
  function ScheduleRecordOf(s: Schedule): ScheduleRecord
  {
    ScheduleRecord(Some(s.id), Missing, s.day, s.subject, s.startTime, s.endTime, s.room)
  }

  /** Normalising loses nothing: a schedule's own record normalises back to it,
      whatever database id comes with it. */
  lemma NormalizeScheduleRoundTrip(s: Schedule, mongoId: Nullable<string>)
    ensures NormalizeSchedule(ScheduleRecordOf(s).(mongoId := mongoId)) == s
  {
  }

  /** `data.map(normalise)` for schedules: one schedule per record, in order. */
  function NormalizeSchedules(records: seq<ScheduleRecord>): (r: seq<Schedule>)
    ensures |r| == |records|
    ensures forall i :: 0 <= i < |records| ==> r[i] == NormalizeSchedule(records[i])
  {
    seq(|records|, i requires 0 <= i < |records| => NormalizeSchedule(records[i]))
  }

  /** The record a stored task is sent back as: every field present, under
      its current name. */
  function TaskRecordOf(t: Task): TaskRecord
  {
    TaskRecord(Some(t.id), Missing, t.title, t.subject, Some(t.deadline), None,
      Some(t.priority), Some(t.isCompleted), None, Some(t.createdAt))
  }
}
