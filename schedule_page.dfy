/** The read-only schedule page: it fetches the lessons as a bare array,
    shows an error message when that fails, groups the lessons by day name
    (a missing day under "Lainnya") and renders the seven weekday sections. */
module SchedulePage {
  import opened Types
  import opened Seqs
  import opened Records

  /** `s.id ?? s._id ?? String(s._id)`: with neither id present the last
      step turns a missing `_id` into the string "undefined" and a `null`
      one into "null". Whenever some id is present it agrees with the shared
      resolver. */
  function RootId(id: Option<string>, mongoId: Nullable<string>): (r: string)
    ensures id.Some? || mongoId.Present? ==> r == ResolveId(id, mongoId)
    ensures id.None? && mongoId.Missing? ==> r == "undefined"
    ensures id.None? && mongoId.Null? ==> r == "null"
  {
    if id.Some? || mongoId.Present? then ResolveId(id, mongoId)
    else if mongoId.Missing? then "undefined"
    else "null"
  }

  /** This page's normaliser: like the shared one but for the id fallback. */
  function NormalizeRecord(rec: ScheduleRecord): (r: Schedule)
    ensures r == Records.NormalizeSchedule(rec).(id := RootId(rec.id, rec.mongoId))
    ensures rec.id.Some? || rec.mongoId.Present? ==> r == Records.NormalizeSchedule(rec)
  {
    Schedule(RootId(rec.id, rec.mongoId), rec.day, rec.subject, rec.startTime, rec.endTime, rec.room)
  }

  /** `data.map(normalise)`: one lesson per record, in order. */
  function NormalizeRecords(records: seq<ScheduleRecord>): (r: seq<Schedule>)
    ensures |r| == |records|
    ensures forall i :: 0 <= i < |r| ==> r[i] == NormalizeRecord(records[i])
  {
    seq(|records|, i requires 0 <= i < |records| => NormalizeRecord(records[i]))
  }

  /** The outcome of `fetchSchedules`' request: a status that is not ok, a
      request or body that threw with a message, or the array of records. */
  datatype FetchOutcome = NotOk(status: string) | Threw(message: string) | Fetched(records: seq<ScheduleRecord>)

  /** The message the page shows for a failed fetch: the thrown message, or
      the fixed fallback when it is empty. */
  function ErrorMessage(outcome: FetchOutcome): (r: string)
    requires !outcome.Fetched?
    ensures r != ""
    ensures outcome.NotOk? ==> r == "API error: " + outcome.status
    ensures outcome.Threw? && outcome.message != "" ==> r == outcome.message
    ensures outcome.Threw? && outcome.message == "" ==> r == "Gagal mengambil jadwal"
  {
    match outcome
    case NotOk(status) => "API error: " + status
    case Threw(message) => if message == "" then "Gagal mengambil jadwal" else message
  }

  // ------------------------------------------------------------- grouping

  /** `daysOrder`. */
  const DaysOrder: seq<string> := ["Senin", "Selasa", "Rabu", "Kamis", "Jumat", "Sabtu", "Minggu"]

  /** The section order is the week of the day type. */
  lemma DaysOrderIsWeek()
    ensures |DaysOrder| == |AllDays|
    ensures forall i :: 0 <= i < |DaysOrder| ==> DaysOrder[i] == DayName(AllDays[i])
  {
  }

  /** The bucket a lesson is pushed onto: its day, or "Lainnya" without one. */
  function BucketKey(s: Schedule): (k: string)
    ensures s.day.Some? ==> k == s.day.value
    ensures s.day.None? ==> k == "Lainnya"
  {
    s.day.GetOr("Lainnya")
  }

  function KeyIs(k: string): Schedule -> bool
  {
    (s: Schedule) => BucketKey(s) == k
  }

  /** Every key of `grouped` holds, in order, the lessons of `lessons` filed
      under it. */
  predicate Grouped(grouped: map<string, seq<Schedule>>, lessons: seq<Schedule>)
  {
    forall k :: k in grouped ==> grouped[k] == Filter(lessons, KeyIs(k))
  }

  /** No lesson of the list is filed under the key. */
  lemma {:induction false} FilterNoKey(lessons: seq<Schedule>, k: string)
    requires forall s :: s in lessons ==> BucketKey(s) != k
    ensures Filter(lessons, KeyIs(k)) == []
  {
    if lessons != [] {
      assert lessons[0] in lessons;
      FilterNoKey(lessons[1..], k);
    }
  }

  /** Pushing a lesson onto its bucket, created empty if missing, keeps the
      buckets grouped. */
  lemma PushPreserves(grouped: map<string, seq<Schedule>>, prefix: seq<Schedule>, s: Schedule)
    requires Grouped(grouped, prefix)
    requires forall x :: x in prefix ==> BucketKey(x) in grouped
    ensures var key := BucketKey(s);
      var ready := if key in grouped then grouped else grouped[key := []];
      Grouped(ready[key := ready[key] + [s]], prefix + [s])
  {
    var key := BucketKey(s);
    var ready := if key in grouped then grouped else grouped[key := []];
    var next := ready[key := ready[key] + [s]];
    if key !in grouped {
      FilterNoKey(prefix, key);
    }
    forall k | k in next ensures next[k] == Filter(prefix + [s], KeyIs(k)) {
      FilterAppend(prefix, [s], KeyIs(k));
    }
  }

  /** The sections on screen: the lessons of each weekday, in `daysOrder`. */
  function Sections(lessons: seq<Schedule>, keys: seq<string>): (r: seq<Schedule>)
  {
    if keys == [] then []
    else Filter(lessons, KeyIs(keys[0])) + Sections(lessons, keys[1..])
  }

  /** A lesson appears in the sections exactly when its bucket key is one of
      the section names. */
  lemma {:induction false} SectionsMembers(lessons: seq<Schedule>, keys: seq<string>, s: Schedule)
    ensures s in Sections(lessons, keys) <==> s in lessons && BucketKey(s) in keys
  {
    if keys != [] {
      FilterMembers(lessons, KeyIs(keys[0]));
      SectionsMembers(lessons, keys[1..], s);
      assert BucketKey(s) in keys <==> BucketKey(s) == keys[0] || BucketKey(s) in keys[1..];
    }
  }

  /** So a lesson without a day, or with a day that is not one of the seven
      names, is grouped but never rendered. */
  lemma UnlistedDaysHidden(lessons: seq<Schedule>, s: Schedule)
    ensures s in Sections(lessons, DaysOrder) <==>
              s in lessons && s.day.Some? && s.day.value in DaysOrder
  {
    SectionsMembers(lessons, DaysOrder, s);
  }

  // ----------------------------------------------------------------- page

  /** The page's state. The delete and edit alerts are left out. */
  class Page {
    var schedules: seq<Schedule>
    var isLoading: bool
    var error: Option<string>

    /** The first render: no lessons, loading, no error. */
    constructor()
      ensures schedules == [] && isLoading && error == None
    {
      schedules, isLoading, error := [], true, None;
    }

    /** `fetchSchedules`: fetched records replace the list and clear the
        error; a failure keeps the list and sets the message. */
    method Load(outcome: FetchOutcome)
      modifies this
      ensures !isLoading
      ensures outcome.Fetched? ==> error == None
      ensures outcome.Fetched? ==> schedules == NormalizeRecords(outcome.records)
      ensures !outcome.Fetched? ==> schedules == old(schedules) && error == Some(ErrorMessage(outcome))
    {
      isLoading, error := true, None;
      match outcome {
        case Fetched(records) =>
          schedules := NormalizeRecords(records);
        case _ =>
          error := Some(ErrorMessage(outcome));
      }
      isLoading := false;
    }

    /** `handleDelete(id)`: once confirmed and the server accepts the delete,
        the whole list is fetched again (`reload`); otherwise nothing
        changes. */
    method Delete(confirmed: bool, deleteOk: bool, reload: FetchOutcome)
      modifies this
      ensures confirmed && deleteOk && reload.Fetched? ==>
                schedules == NormalizeRecords(reload.records) && error == None
      ensures confirmed && deleteOk && !reload.Fetched? ==>
                schedules == old(schedules) && error == Some(ErrorMessage(reload))
      ensures confirmed && deleteOk ==> !isLoading
      ensures !(confirmed && deleteOk) ==> schedules == old(schedules) && error == old(error) && isLoading == old(isLoading)
    {
      if confirmed && deleteOk {
        Load(reload);
      }
    }

    /** The `grouped` record: an empty bucket per weekday, then every lesson
        pushed onto the bucket of its key, a new bucket opened for a key not
        seen before. */
    method Group() returns (grouped: map<string, seq<Schedule>>)
      ensures forall k :: k in grouped <==> k in DaysOrder || exists s :: s in schedules && BucketKey(s) == k
      ensures Grouped(grouped, schedules)
    {
      grouped := map[];
      var j := 0;
      while j < |DaysOrder|
        invariant 0 <= j <= |DaysOrder|
        invariant forall k :: k in grouped <==> k in DaysOrder[..j]
        invariant forall k :: k in grouped ==> grouped[k] == []
      {
        grouped := grouped[DaysOrder[j] := []];
        j := j + 1;
      }
      assert DaysOrder[..j] == DaysOrder;
      assert schedules[..0] == [];
      assert Grouped(grouped, schedules[..0]);
      var i := 0;
      while i < |schedules|
        invariant 0 <= i <= |schedules|
        invariant forall k :: k in grouped <==> k in DaysOrder || exists s :: s in schedules[..i] && BucketKey(s) == k
        invariant Grouped(grouped, schedules[..i])
      {
        var s := schedules[i];
        PushPreserves(grouped, schedules[..i], s);
        assert schedules[..i + 1] == schedules[..i] + [s];
        var key := BucketKey(s);
        if key !in grouped {
          grouped := grouped[key := []];
        }
        grouped := grouped[key := grouped[key] + [s]];
        i := i + 1;
      }
      assert schedules[..i] == schedules;
    }

    /** What the sections show once loaded without error. */
    function Rendered(): (r: seq<Schedule>)
      reads this
      ensures forall s :: s in r <==> s in schedules && s.day.Some? && s.day.value in DaysOrder
    {
      forall s ensures s in Sections(schedules, DaysOrder) <==>
                 s in schedules && s.day.Some? && s.day.value in DaysOrder {
        UnlistedDaysHidden(schedules, s);
      }
      Sections(schedules, DaysOrder)
    }
  }
}
