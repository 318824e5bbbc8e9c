/** The add/edit lesson form: what editing loads into its inputs and the
    checks and conversions of its submit handler. */
module ScheduleForm {
  import opened Types
  import opened JsString

  /** The five inputs. The day is whatever the edited lesson carried, so it
      may be missing. */
  datatype Fields = Fields(day: Option<string>, subject: string, startTime: string, endTime: string, room: string)

  /** An empty form on Senin. */
  const EmptyFields := Fields(Some("Senin"), "", "", "", "")

  /** The edit effect: the lesson's values, a missing room as "". */
  function LoadSchedule(s: Schedule): (r: Fields)
    ensures r.day == s.day && r.subject == s.subject
    ensures r.startTime == s.startTime && r.endTime == s.endTime
    ensures s.room.None? ==> r.room == ""
    ensures s.room.Some? ==> r.room == s.room.value
  {
    Fields(s.day, s.subject, s.startTime, s.endTime, s.room.GetOr(""))
  }

  /** Why the form refused to submit; each shows an alert. */
  datatype Rejection = NoSubject | NoTimes | EndNotAfterStart

  datatype Submission = Rejected(reason: Rejection) | Submitted(schedule: Schedule)

  /** `room.trim() || undefined`. */
  function RoomValue(room: string): (r: Option<string>)
    ensures r.None? <==> Trim(room) == ""
    ensures r.Some? ==> r.value == Trim(room)
  {
    if Trim(room) == "" then None else Some(Trim(room))
  }

  /** `handleSubmit`: `schedule` is the lesson being edited, if any, and
      `freshId` what `generateId('schedule')` returns. The times are compared
      as strings, character by character. */
  function HandleSubmit(fields: Fields, schedule: Option<Schedule>, freshId: string): (r: Submission)
    ensures r == Rejected(NoSubject) <==> fields.subject == ""
    ensures r == Rejected(NoTimes) <==> fields.subject != "" && (fields.startTime == "" || fields.endTime == "")
    ensures r == Rejected(EndNotAfterStart) <==>
              fields.subject != "" && fields.startTime != "" && fields.endTime != "" &&
              AtMost(fields.endTime, fields.startTime)
    ensures r.Submitted? ==> Less(r.schedule.startTime, r.schedule.endTime)
    ensures r.Submitted? ==> r.schedule.day == fields.day && r.schedule.subject == fields.subject != ""
    ensures r.Submitted? ==> r.schedule.startTime == fields.startTime && r.schedule.endTime == fields.endTime
    ensures r.Submitted? ==> r.schedule.room == RoomValue(fields.room)
    ensures r.Submitted? && schedule.Some? && schedule.value.id != "" ==> r.schedule.id == schedule.value.id
    ensures r.Submitted? && !(schedule.Some? && schedule.value.id != "") ==> r.schedule.id == freshId
  {
    if fields.subject == "" then Rejected(NoSubject)
    else if fields.startTime == "" || fields.endTime == "" then Rejected(NoTimes)
    else if !Less(fields.startTime, fields.endTime) then Rejected(EndNotAfterStart)
    else
      var id := if schedule.Some? && schedule.value.id != "" then schedule.value.id else freshId;
      Submitted(Schedule(id, fields.day, fields.subject, fields.startTime, fields.endTime, RoomValue(fields.room)))
  }

  /** A submitted lesson never has an empty or blank-padded room: a room is
      either absent or already trimmed and non-empty. */
  lemma SubmittedRoomTrimmed(fields: Fields, schedule: Option<Schedule>, freshId: string)
    requires HandleSubmit(fields, schedule, freshId).Submitted?
    ensures var room := HandleSubmit(fields, schedule, freshId).schedule.room;
      room.None? || (room.value != "" && Trim(room.value) == room.value)
  {
    TrimIdempotent(fields.room);
  }

  /** Opening a valid lesson in the form and saving it unchanged gives the
      lesson back. */
  lemma EditUnchangedKeepsSchedule(s: Schedule, freshId: string)
    requires s.id != "" && s.subject != ""
    requires s.startTime != "" && Less(s.startTime, s.endTime)
    requires s.room.None? || (s.room.value != "" && Trim(s.room.value) == s.room.value)
    ensures HandleSubmit(LoadSchedule(s), Some(s), freshId) == Submitted(s)
  {
    LessIrreflexive(s.endTime);
    assert s.endTime != "";
    LessAsymmetric(s.startTime, s.endTime);
    if s.room.None? {
      assert Trim("") == "";
    }
  }
}
