/** The add/edit task form: the fields it starts from, what editing loads
    into them, and the checks and conversions of its submit handler. */
module TaskForm {
  import opened Types
  import opened JsString

  /** The four inputs: title, subject, the `datetime-local` deadline and the
      priority. */
  datatype Fields = Fields(title: string, subject: string, deadline: string, priority: Priority)

  /** An empty form: no title, no subject, no deadline, priority Sedang. */
  const EmptyFields := Fields("", "", "", Sedang)

  /** `s.slice(0, 16)`: at most the first sixteen characters. */
  function Slice16(s: string): (r: string)
    ensures r <= s
    ensures |r| == if |s| < 16 then |s| else 16
  {
    if |s| < 16 then s else s[..16]
  }

  /** The edit effect: the task's title, subject and priority, and its
      deadline as "YYYY-MM-DDTHH:MM" (`toIso` stands for
      `new Date(x).toISOString()`, `None` where that throws). */
  function LoadTask(task: Task, toIso: string -> Option<string>): (r: Option<Fields>)
    ensures r.None? <==> toIso(task.deadline).None?
    ensures r.Some? ==> r.value.title == task.title && r.value.subject == task.subject
    ensures r.Some? ==> r.value.priority == task.priority
    ensures r.Some? ==> r.value.deadline <= toIso(task.deadline).value
    ensures r.Some? ==> |r.value.deadline| == if |toIso(task.deadline).value| < 16 then |toIso(task.deadline).value| else 16
  {
    match toIso(task.deadline)
    case None => None
    case Some(iso) => Some(Fields(task.title, task.subject, Slice16(iso), task.priority))
  }

  /** Why the form refused to submit; each shows an alert. */
  datatype Rejection = EmptyTitle | NoSubject | NoDeadline

  /** The result of `handleSubmit`: refused, the deadline conversion threw,
      or `onSubmit` is called with the task. */
  datatype Submission = Rejected(reason: Rejection) | Thrown | Submitted(task: Task)

  /** `handleSubmit`. `task` is the task being edited, if any; `freshId` is
      what `generateId('task')` returns and `now` the current instant as an
      ISO timestamp. */
  function HandleSubmit(fields: Fields, task: Option<Task>, freshId: string, now: string,
                        toIso: string -> Option<string>): (r: Submission)
    ensures r == Rejected(EmptyTitle) <==> Trim(fields.title) == ""
    ensures r == Rejected(NoSubject) <==> Trim(fields.title) != "" && fields.subject == ""
    ensures r == Rejected(NoDeadline) <==>
              Trim(fields.title) != "" && fields.subject != "" && fields.deadline == ""
    ensures r == Thrown <==>
              Trim(fields.title) != "" && fields.subject != "" && fields.deadline != "" &&
              toIso(fields.deadline).None?
    ensures r.Submitted? ==> r.task.title == Trim(fields.title) != ""
    ensures r.Submitted? ==> r.task.subject == fields.subject != ""
    ensures r.Submitted? ==> Some(r.task.deadline) == toIso(fields.deadline)
    ensures r.Submitted? ==> r.task.priority == fields.priority
    ensures r.Submitted? && task.Some? && task.value.id != "" ==> r.task.id == task.value.id
    ensures r.Submitted? && !(task.Some? && task.value.id != "") ==> r.task.id == freshId
    ensures r.Submitted? ==> (r.task.isCompleted <==> task.Some? && task.value.isCompleted)
    ensures r.Submitted? && task.Some? && task.value.createdAt != "" ==> r.task.createdAt == task.value.createdAt
    ensures r.Submitted? && !(task.Some? && task.value.createdAt != "") ==> r.task.createdAt == DatePart(now)
  {
    if Trim(fields.title) == "" then Rejected(EmptyTitle)
    else if fields.subject == "" then Rejected(NoSubject)
    else if fields.deadline == "" then Rejected(NoDeadline)
    else match toIso(fields.deadline)
      case None => Thrown
      case Some(deadline) =>
        var id := if task.Some? && task.value.id != "" then task.value.id else freshId;
        var createdAt := if task.Some? && task.value.createdAt != "" then task.value.createdAt else DatePart(now);
        Submitted(Task(id, Trim(fields.title), fields.subject, deadline, fields.priority,
          task.Some? && task.value.isCompleted, createdAt))
  }

  /** A submitted title is already trimmed: submitting it again keeps it. */
  lemma SubmittedTitleTrimmed(fields: Fields, task: Option<Task>, freshId: string, now: string,
                              toIso: string -> Option<string>)
    requires HandleSubmit(fields, task, freshId, now, toIso).Submitted?
    ensures var t := HandleSubmit(fields, task, freshId, now, toIso).task;
      Trim(t.title) == t.title
  {
    TrimIdempotent(fields.title);
  }

  /** Opening a task in the form and saving it unchanged gives the task back,
      provided its title is already trimmed, its subject, id and creation date
      are set, and its deadline survives the trip through the minute-precision
      input. */
  lemma EditUnchangedKeepsTask(task: Task, freshId: string, now: string, toIso: string -> Option<string>)
    requires task.title == Trim(task.title) != ""
    requires task.subject != "" && task.id != "" && task.createdAt != ""
    requires toIso(task.deadline).Some? && toIso(task.deadline).value != ""
    requires toIso(Slice16(toIso(task.deadline).value)) == Some(task.deadline)
    ensures LoadTask(task, toIso).Some?
    ensures HandleSubmit(LoadTask(task, toIso).value, Some(task), freshId, now, toIso) == Submitted(task)
  {
    var fields := LoadTask(task, toIso).value;
    assert fields.deadline != "";
  }

  /** `new Date(x).toISOString()` in a browser seven hours ahead of UTC, on
      the two inputs the example below needs: a full ISO timestamp stands
      for itself, and the zone-less input text is read as local time. */
  function JakartaIso(s: string): Option<string>
  {
    if s == "2025-01-06T10:00:00.000Z" then Some(s)
    else if s == "2025-01-06T10:00" then Some("2025-01-06T03:00:00.000Z")
    else None
  }

  /** Opening a task and saving it unchanged does not give the task back
      outside UTC: the input shows the deadline's UTC wall time, which is
      then read as local time, so the deadline moves seven hours earlier. */
  lemma UnchangedEditShiftsDeadline()
    ensures var task := Task("t1", "Tugas", "Matematika", "2025-01-06T10:00:00.000Z", Sedang, false, "2025-01-01");
      && LoadTask(task, JakartaIso) == Some(Fields("Tugas", "Matematika", "2025-01-06T10:00", Sedang))
      && HandleSubmit(LoadTask(task, JakartaIso).value, Some(task), "t2", "2025-01-06T12:00:00.000Z", JakartaIso)
         == Submitted(task.(deadline := "2025-01-06T03:00:00.000Z"))
  {
    var task := Task("t1", "Tugas", "Matematika", "2025-01-06T10:00:00.000Z", Sedang, false, "2025-01-01");
    var iso, input, shifted := "2025-01-06T10:00:00.000Z", "2025-01-06T10:00", "2025-01-06T03:00:00.000Z";
    assert JakartaIso(iso) == Some(iso);
    assert Slice16(iso) == input by {
      assert iso[..16] == input;
    }
    var fields := Fields("Tugas", "Matematika", input, Sedang);
    assert LoadTask(task, JakartaIso) == Some(fields);
    assert input != iso;
    assert JakartaIso(input) == Some(shifted);
    assert Trim("Tugas") == "Tugas" by {
      var title := "Tugas";
      assert title[0] == 'T' && !IsSpace('T');
      assert TrimStart(title) == title;
      assert title[|title| - 1] == 's' && !IsSpace('s');
      assert TrimEnd(title) == title;
    }
    assert HandleSubmit(fields, Some(task), "t2", "2025-01-06T12:00:00.000Z", JakartaIso)
      == Submitted(task.(deadline := shifted));
  }

  /** The form's subject list is the subject type's, in order. */
  const SubjectChoices: seq<string> := [
    "Matematika", "Bahasa Indonesia", "Bahasa Inggris", "Fisika", "Kimia", "Biologi",
    "Sejarah", "Geografi", "Ekonomi", "PKL", "PPKN", "Penjaskes", "Seni Budaya",
    "Produktif TKJ", "Produktif RPL", "Lainnya"]

  lemma SubjectChoicesAreSubjects()
    ensures |SubjectChoices| == |AllSubjects|
    ensures forall i :: 0 <= i < |SubjectChoices| ==> SubjectChoices[i] == SubjectName(AllSubjects[i])
  {
  }
}
